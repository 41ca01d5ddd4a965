/** The unfiltered listing while jobs change state between pages: a query without a filter looks at ids and
    creation times only, so the walk over changing tables is, but for the states it shows, a walk over fixed
    rows. */
module ChangingStates {
  import opened Words
  import opened Store
  import opened Pagination

  /** A row without its state. */
  function Plain(j: Job): Job {
    j.(state := Pending)
  }

  function PlainSeq(v: seq<Job>): (u: seq<Job>)
    ensures |u| == |v|
  {
    seq(|v|, i requires 0 <= i < |v| => Plain(v[i]))
  }

  function PlainSet(t: set<Job>): set<Job> {
    set j | j in t :: Plain(j)
  }

  /** The rows of t that are, but for their state, in s. */
  function Lift(t: set<Job>, s: set<Job>): set<Job> {
    set j | j in t && Plain(j) in s
  }

  /** Later tables: no job is lost, every new one is newer, states may change. */
  ghost predicate StatesVary(ts: nat -> set<Job>) {
    forall k: nat :: DistinctIds(ts(k)) && Grown(PlainSet(ts(0)), PlainSet(ts(k)))
  }

  lemma PlainLists(v: seq<Job>, s: set<Job>)
    requires DistinctIds(s) && Lists(v, s)
    ensures Lists(PlainSeq(v), PlainSet(s))
  {
    var u := PlainSeq(v);
    forall i, j | 0 <= i < j < |u| ensures u[i].createdAt >= u[j].createdAt && u[i] != u[j] {
      assert v[i] in s && v[j] in s && v[i] != v[j];
    }
    forall x | x in PlainSet(s) ensures x in u {
      var y :| y in s && Plain(y) == x;
      var i :| 0 <= i < |v| && v[i] == y;
      assert u[i] == x;
    }
  }

  lemma PlainOfLift(t: set<Job>, s: set<Job>)
    requires s <= PlainSet(t)
    ensures PlainSet(Lift(t, s)) == s
  {
  }

  lemma LiftOfPlain(t: set<Job>, m: set<Job>)
    requires m <= t && DistinctIds(t)
    ensures PlainSet(m) <= PlainSet(t) && Lift(t, PlainSet(m)) == m
  {
    forall j | j in Lift(t, PlainSet(m)) ensures j in m {
      var y :| y in m && Plain(y) == Plain(j);
      assert y.id == j.id;
    }
  }

  lemma PlainMatching(t: set<Job>, after: string)
    ensures PlainSet(Matching(t, None, after)) == Matching(PlainSet(t), None, after)
    ensures Matching(t, None, after) <= t
  {
    if after == "" {
      assert Filtered(t, None) == t && Filtered(PlainSet(t), None) == PlainSet(t);
    } else {
      var m, n := Matching(t, None, after), Matching(PlainSet(t), None, after);
      forall x | x in PlainSet(m) ensures x in n {
        var j :| j in m && Plain(j) == x;
        var c :| c in t && c.id == after && j.createdAt < c.createdAt;
        assert Plain(c) in PlainSet(t);
      }
      forall x | x in n ensures x in PlainSet(m) {
        var j :| j in t && Plain(j) == x;
        var d :| d in PlainSet(t) && d.id == after && x.createdAt < d.createdAt;
        var c :| c in t && Plain(c) == d;
        assert j in m;
      }
    }
  }

  ghost function AnyListing(s: set<Job>): (v: seq<Job>)
    ensures Lists(v, s)
  {
    assert exists v :: Lists(v, s) by { var v := Continue([], s, s); }
    var v :| Lists(v, s);
    v
  }

  /** How query k orders plain rows. */
  ghost function PlainOrder(ord: (nat, set<Job>) -> seq<Job>, ts: nat -> set<Job>, k: nat, s: set<Job>): seq<Job> {
    if s <= PlainSet(ts(k)) then PlainSeq(ord(k, Lift(ts(k), s))) else AnyListing(s)
  }

  lemma PlainOrderLists(ord: (nat, set<Job>) -> seq<Job>, ts: nat -> set<Job>, k: nat, s: set<Job>)
    requires Orders(ord) && StatesVary(ts)
    ensures Lists(PlainOrder(ord, ts, k, s), s)
  {
    hide Lists, Grown;
    if s <= PlainSet(ts(k)) {
      var m := Lift(ts(k), s);
      assert DistinctIds(ts(k));
      assert Lists(ord(k, m), m);
      PlainLists(ord(k, m), m);
      PlainOfLift(ts(k), s);
    }
  }

  function PlainWalk(w: Option<seq<Job>>): Option<seq<Job>> {
    if w.None? then None else Some(PlainSeq(w.value))
  }

  lemma PlainCut(v: seq<Job>, n: nat)
    requires n >= 1
    ensures Cut(PlainSeq(v), n) == (PlainSeq(Cut(v, n).0), Cut(v, n).1)
  {
    if |v| > n { assert PlainSeq(v)[..n] == PlainSeq(v[..n]); }
  }

  /** But for the states shown, the walk is one over plain rows. */
  lemma {:induction false} WalkPlain(ord: (nat, set<Job>) -> seq<Job>, ts: nat -> set<Job>,
    pord: (nat, set<Job>) -> seq<Job>, pts: nat -> set<Job>, after: string, limit: int, k: nat, fuel: nat)
    requires StatesVary(ts)
    requires forall i: nat, s: set<Job> :: pord(i, s) == PlainOrder(ord, ts, i, s)
    requires forall i: nat :: pts(i) == PlainSet(ts(i))
    ensures PlainWalk(Walk(ord, ts, None, after, limit, k, fuel)) == Walk(pord, pts, None, after, limit, k, fuel)
    decreases fuel
  {
    hide Matching, Cut, PlainSet, Lift, Grown, DistinctIds, PageSize, PlainSeq;
    var m, n := Matching(ts(k), None, after), PageSize(limit);
    assert DistinctIds(ts(k));
    PlainMatching(ts(k), after);
    LiftOfPlain(ts(k), m);
    assert pord(k, PlainSet(m)) == PlainSeq(ord(k, m));
    PlainCut(ord(k, m), n);
    var (page, next) := Cut(ord(k, m), n);
    if next != "" && fuel > 0 {
      WalkPlain(ord, ts, pord, pts, next, limit, k + 1, fuel - 1);
      var tail := Walk(ord, ts, None, next, limit, k + 1, fuel - 1);
      if tail.Some? { PlainConcat(page, tail.value); }
    }
  }

  lemma PlainConcat(v: seq<Job>, u: seq<Job>)
    ensures PlainSeq(v + u) == PlainSeq(v) + PlainSeq(u)
  {
  }

  lemma PlainNoSplit(v: seq<Job>, n: nat)
    requires n >= 1
    ensures NoSplit(PlainSeq(v), n) == NoSplit(v, n)
  {
    var u := PlainSeq(v);
    forall p | 0 < p < |v| ensures TieAt(u, p) == TieAt(v, p) {
    }
  }

  /** Without a filter, following the cursors ends and shows jobs of the first table newest first, none twice,
      even when jobs change state and newer ones arrive between pages; it shows all of them if and only if no
      page boundary of the full listing separates two jobs of the same instant. */
  lemma UnfilteredCompleteIff(ord: (nat, set<Job>) -> seq<Job>, ts: nat -> set<Job>, limit: int, fuel: nat, v: seq<Job>)
    requires Orders(ord) && StatesVary(ts) && fuel >= |ts(0)| && Lists(v, ts(0))
    ensures var w := Walk(ord, ts, None, "", limit, 0, fuel);
            && w.Some? && Part(PlainSeq(w.value), PlainSet(ts(0)))
            && (Lists(PlainSeq(w.value), PlainSet(ts(0))) <==> NoSplit(v, PageSize(limit)))
  {
    hide Lists, Part, NoSplit, Grown, PageSize, Walk, PlainSeq, PlainSet, DistinctIds, PlainOrder;
    var pord := (k: nat, s: set<Job>) => PlainOrder(ord, ts, k, s);
    var pts := (k: nat) => PlainSet(ts(k));
    forall k: nat, s: set<Job> ensures Lists(pord(k, s), s) { PlainOrderLists(ord, ts, k, s); }
    assert DistinctIds(ts(0));
    PlainLists(v, ts(0));
    ListsSize(v, ts(0));
    ListsSize(PlainSeq(v), pts(0));
    assert Filtered(pts(0), None) == pts(0);
    PagesCompleteIff(pord, pts, None, limit, fuel, PlainSeq(v));
    WalkPlain(ord, ts, pord, pts, "", limit, 0, fuel);
    PlainNoSplit(v, PageSize(limit));
  }
}
