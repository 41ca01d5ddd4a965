/** Cursor pagination of the job listing, against the full listing it must add up to. Rows with equal
    creation times come in an order the query does not fix, and it may differ from query to query. */
module Pagination {
  import opened Words
  import opened Store

  datatype Job = Job(id: string, createdAt: int, state: JobState)

  /** Ids are unique and non-empty. */
  predicate DistinctIds(t: set<Job>) {
    && (forall x, y :: x in t && y in t && x != y ==> x.id != y.id)
    && (forall x :: x in t ==> x.id != "")
  }

  predicate DistinctTimes(s: set<Job>) {
    forall x, y :: x in s && y in s && x != y ==> x.createdAt != y.createdAt
  }

  predicate Passes(j: Job, filter: Option<JobState>) {
    filter.None? || j.state == filter.value
  }

  function Filtered(t: set<Job>, filter: Option<JobState>): set<Job> {
    set j | j in t && Passes(j, filter)
  }

  /** Rows before the cursor row; a cursor that names no row compares with NULL and matches nothing. */
  function Matching(t: set<Job>, filter: Option<JobState>, after: string): set<Job> {
    if after == "" then Filtered(t, filter)
    else set j | j in t && Passes(j, filter) && exists c :: c in t && c.id == after && j.createdAt < c.createdAt
  }

  // ---------------------------------------------------------------- listings

  /** v holds rows of s, none twice, from newest to oldest. */
  predicate Part(v: seq<Job>, s: set<Job>) {
    && (forall i, j :: 0 <= i < j < |v| ==> v[i].createdAt >= v[j].createdAt && v[i] != v[j])
    && (forall i :: 0 <= i < |v| ==> v[i] in s)
  }

  /** ORDER BY created_at DESC: all of s, in one of the orders the query may choose. */
  predicate Lists(v: seq<Job>, s: set<Job>) {
    Part(v, s) && forall x :: x in s ==> x in v
  }

  function Elements(v: seq<Job>): set<Job> {
    set x | x in v
  }

  lemma {:induction false} ElementsSize(v: seq<Job>)
    ensures |Elements(v)| <= |v|
    ensures (forall i, j :: 0 <= i < j < |v| ==> v[i] != v[j]) ==> |Elements(v)| == |v|
  {
    if v == [] {
    } else {
      var n := |v| - 1;
      ElementsSize(v[..n]);
      assert v == v[..n] + [v[n]];
      assert Elements(v) == Elements(v[..n]) + {v[n]};
    }
  }

  lemma {:induction false} SubsetSize(s: set<Job>, t: set<Job>)
    requires s <= t
    ensures |s| <= |t|
    decreases |s|
  {
    if s == {} {
    } else {
      var x :| x in s;
      SubsetSize(s - {x}, t - {x});
    }
  }

  lemma ListsSize(v: seq<Job>, s: set<Job>)
    requires Lists(v, s)
    ensures |v| == |s|
  {
    ElementsSize(v);
    assert Elements(v) == s;
  }

  /** Ties may be ordered either way, but the creation times of a listing are determined. */
  lemma TimesNotBelow(v: seq<Job>, u: seq<Job>, s: set<Job>, i: nat)
    requires Lists(v, s) && Lists(u, s) && i < |v| && i < |u|
    ensures u[i].createdAt >= v[i].createdAt
  {
    if u[i].createdAt < v[i].createdAt {
      var a, b := v[..i + 1], u[..i];
      forall x | x in Elements(a) ensures x in Elements(b) {
        var k :| 0 <= k <= i && v[k] == x;
        assert x in u;
        var m :| 0 <= m < |u| && u[m] == x;
        assert m < i;
        assert b[m] == x;
      }
      ElementsSize(a);
      ElementsSize(b);
      SubsetSize(Elements(a), Elements(b));
    }
  }

  lemma TimesUnique(v: seq<Job>, u: seq<Job>, s: set<Job>)
    requires Lists(v, s) && Lists(u, s)
    ensures |v| == |u| && forall i :: 0 <= i < |v| ==> v[i].createdAt == u[i].createdAt
  {
    hide Lists;
    ListsSize(v, s);
    ListsSize(u, s);
    forall i | 0 <= i < |v| ensures v[i].createdAt == u[i].createdAt {
      TimesNotBelow(v, u, s, i);
      TimesNotBelow(u, v, s, i);
    }
  }

  // ---------------------------------------------------------------- one page

  function PageSize(limit: int): (n: nat)
    ensures 1 <= n <= 200
  {
    if limit <= 0 || limit > 200 then 50 else limit
  }

  /** A page and the cursor to the next one, cut from a listing of the matching rows. */
  function Cut(v: seq<Job>, n: nat): (seq<Job>, string)
    requires n >= 1
  {
    if |v| > n then (v[..n], v[n - 1].id) else (v, "")
  }

  /** ListJobs: fetch one row more than the page, and use it only to learn whether there is a next page.
      The rows come in some order by descending creation time. */
  method ListJobs(t: set<Job>, filter: Option<JobState>, after: string, limit: int)
    returns (out: seq<Job>, next: string, ghost v: seq<Job>)
    ensures Lists(v, Matching(t, filter, after)) && (out, next) == Cut(v, PageSize(limit))
    ensures forall x :: x in v <==>
              && x in t && (filter.Some? ==> x.state == filter.value)
              && (after != "" ==> exists c :: c in t && c.id == after && x.createdAt < c.createdAt)
    ensures var size := if 1 <= limit <= 200 then limit else 50;
            && out <= v && |out| == (if |v| <= size then |v| else size)
            && next == (if |v| <= size then "" else out[size - 1].id)
  {
    hide Matching;
    var n := PageSize(limit);
    var all := Matching(t, filter, after);
    var rest := all;
    out := [];
    while |out| < n + 1 && rest != {}
      invariant |out| <= n + 1 && Fetched(out, rest, all)
      decreases |rest|
    {
      hide Fetched;
      var m := TakeNewest(rest);
      FetchedMore(out, rest, all, m);
      out := out + [m];
      rest := rest - {m};
    }
    v := Continue(out, rest, all);
    assert |out| <= n ==> v == out;
    next := "";
    if |out| > n {
      assert |v| > n && v[..n] == out[..n] && v[n - 1] == out[n - 1];
      next := out[n - 1].id;
      out := out[..n];
    }
    MatchingMeaning(t, filter, after, v);
  }

  lemma MatchingMeaning(t: set<Job>, filter: Option<JobState>, after: string, v: seq<Job>)
    requires Lists(v, Matching(t, filter, after))
    ensures forall x :: x in v <==>
              && x in t && (filter.Some? ==> x.state == filter.value)
              && (after != "" ==> exists c :: c in t && c.id == after && x.createdAt < c.createdAt)
  {
  }

  /** out is the beginning of a listing of all, and rest what remains. */
  ghost predicate Fetched(out: seq<Job>, rest: set<Job>, all: set<Job>) {
    && Part(out, all) && rest <= all
    && (forall x :: x in all ==> (x in out <==> x !in rest))
    && (forall x, y :: x in out && y in rest ==> x.createdAt >= y.createdAt)
  }

  predicate IsNewest(m: Job, s: set<Job>) {
    m in s && forall x :: x in s ==> x.createdAt <= m.createdAt
  }

  lemma FetchedMore(out: seq<Job>, rest: set<Job>, all: set<Job>, m: Job)
    requires Fetched(out, rest, all) && IsNewest(m, rest)
    ensures Fetched(out + [m], rest - {m}, all)
  {
    assert m !in out;
    forall i | 0 <= i < |out| ensures out[i].createdAt >= m.createdAt && out[i] != m {
      assert out[i] in out;
    }
  }

  method TakeNewest(s: set<Job>) returns (m: Job)
    requires s != {}
    ensures IsNewest(m, s)
  {
    var rest := s;
    m :| m in rest;
    rest := rest - {m};
    while rest != {}
      invariant rest <= s && m in s && forall x :: x in s && x !in rest ==> x.createdAt <= m.createdAt
      decreases |rest|
    {
      var x :| x in rest;
      rest := rest - {x};
      if x.createdAt > m.createdAt { m := x; }
    }
  }

  lemma {:induction false} NewestExists(s: set<Job>) returns (m: Job)
    requires s != {}
    ensures IsNewest(m, s)
    decreases |s|
  {
    var x :| x in s;
    if s == {x} {
      m := x;
    } else {
      var y := NewestExists(s - {x});
      m := if x.createdAt <= y.createdAt then y else x;
    }
  }

  /** Fetched rows extend to a full listing. */
  lemma {:induction false} Continue(out: seq<Job>, rest: set<Job>, all: set<Job>) returns (v: seq<Job>)
    requires Fetched(out, rest, all)
    ensures Lists(v, all) && out <= v && |v| == |out| + |rest|
    decreases |rest|
  {
    if rest == {} {
      v := out;
    } else {
      hide Fetched, Lists;
      var m := NewestExists(rest);
      FetchedMore(out, rest, all, m);
      v := Continue(out + [m], rest - {m}, all);
    }
  }

  // ---------------------------------------------------------------- following the cursors

  /** Later states of the table: nothing lost or changed, and every new job is newer than the old ones. */
  predicate Grown(t: set<Job>, u: set<Job>) {
    t <= u && DistinctIds(u) && forall x, y :: x in u - t && y in t ==> x.createdAt > y.createdAt
  }

  /** A query may order ties as it likes, each time anew. */
  ghost predicate Orders(ord: (nat, set<Job>) -> seq<Job>) {
    forall k: nat, s: set<Job> :: Lists(ord(k, s), s)
  }

  ghost predicate OnlyGrows(ts: nat -> set<Job>) {
    forall k: nat :: Grown(ts(0), ts(k))
  }

  /** The jobs a client collects by following cursors, if the k-th page is read from table ts(k) and its
      query orders the rows by ord(k, _). */
  ghost function Walk(ord: (nat, set<Job>) -> seq<Job>, ts: nat -> set<Job>, filter: Option<JobState>, after: string,
    limit: int, k: nat, fuel: nat): Option<seq<Job>>
    decreases fuel
  {
    var (page, next) := Cut(ord(k, Matching(ts(k), filter, after)), PageSize(limit));
    if next == "" then Some(page)
    else if fuel == 0 then None
    else match Walk(ord, ts, filter, next, limit, k + 1, fuel - 1)
      case None => None
      case Some(tail) => Some(page + tail)
  }

  /** A cursor into the original table selects the same rows in every later table. */
  lemma CursorStable(t: set<Job>, u: set<Job>, filter: Option<JobState>, c: Job)
    requires Grown(t, u) && c in t
    ensures c.id != "" && Matching(u, filter, c.id) == Older(Filtered(t, filter), c)
  {
  }

  function Older(s: set<Job>, c: Job): set<Job> {
    set x | x in s && x.createdAt < c.createdAt
  }

  /** Rows p - 1 and p of the listing were created at the same instant. */
  predicate TieAt(v: seq<Job>, p: nat)
    requires 0 < p < |v|
  {
    v[p - 1].createdAt == v[p].createdAt
  }

  /** No boundary between two pages of n rows separates two jobs of the same instant. */
  predicate NoSplit(v: seq<Job>, n: nat)
    requires n >= 1
  {
    forall p :: 0 < p < |v| && p % n == 0 ==> !TieAt(v, p)
  }

  lemma ModuloShift(p: nat, n: nat)
    requires n >= 1
    ensures (p + n) % n == p % n
  {
    var q, r := p / n, p % n;
    assert p + n == (q + 1) * n + r;
    QuotientUnique(p + n, n, q + 1, r);
  }

  lemma NoSplitTail(v: seq<Job>, n: nat)
    requires 1 <= n < |v|
    ensures NoSplit(v, n) <==> !TieAt(v, n) && NoSplit(v[n..], n)
  {
    var u := v[n..];
    ModuloShift(0, n);
    forall p | 0 < p < |u| ensures TieAt(u, p) == TieAt(v, p + n) && (p + n) % n == p % n {
      ModuloShift(p, n);
    }
    if !TieAt(v, n) && NoSplit(u, n) {
      forall p | 0 < p < |v| && p % n == 0 ensures !TieAt(v, p) {
        if p < n { SmallModulo(p, n); } else if p > n { ModuloShift(p - n, n); assert !TieAt(u, p - n); }
      }
    }
  }

  lemma SmallModulo(p: nat, n: nat)
    requires p < n
    ensures p % n == p
  {
  }

  /** The order of ties does not matter to NoSplit. */
  lemma NoSplitUnique(v: seq<Job>, u: seq<Job>, s: set<Job>, n: nat)
    requires n >= 1 && Lists(v, s) && Lists(u, s)
    ensures NoSplit(v, n) == NoSplit(u, n)
  {
    hide Lists;
    TimesUnique(v, u, s);
    forall p | 0 < p < |v| ensures TieAt(v, p) == TieAt(u, p) {
    }
  }

  /** The rows behind the first page, if it splits no tie. */
  lemma TailLists(v: seq<Job>, s: set<Job>, n: nat)
    requires Lists(v, s) && 1 <= n < |v| && !TieAt(v, n)
    ensures Lists(v[n..], Older(s, v[n - 1]))
  {
    var u, c := v[n..], v[n - 1];
    forall i | 0 <= i < |u| ensures u[i] in Older(s, c) {
      assert u[i] == v[n + i];
      assert v[n].createdAt >= v[n + i].createdAt;
    }
    forall x | x in Older(s, c) ensures x in u {
      var k :| 0 <= k < |v| && v[k] == x;
      assert k >= n;
      assert u[k - n] == x;
    }
  }

  /** A first page followed by what is collected behind it. */
  lemma PagePart(v: seq<Job>, s: set<Job>, n: nat, w: seq<Job>)
    requires Lists(v, s) && 1 <= n < |v| && Part(w, Older(s, v[n - 1]))
    ensures Part(v[..n] + w, s)
    ensures !TieAt(v, n) ==> (Lists(v[..n] + w, s) <==> Lists(w, Older(s, v[n - 1])))
    ensures TieAt(v, n) ==> v[n] !in v[..n] + w && !Lists(v[..n] + w, s)
  {
    var all, c := v[..n] + w, v[n - 1];
    assert forall i :: 0 <= i < n ==> all[i] == v[i] && v[i].createdAt >= c.createdAt;
    assert forall i :: n <= i < |all| ==> all[i] == w[i - n] && w[i - n] in Older(s, c);
    assert Part(all, s);
    if TieAt(v, n) {
      forall i | 0 <= i < |all| ensures all[i] != v[n] {
      }
      assert v[n] in s;
    } else {
      PageComplete(v, s, n, w);
    }
  }

  lemma PageComplete(v: seq<Job>, s: set<Job>, n: nat, w: seq<Job>)
    requires Lists(v, s) && 1 <= n < |v| && Part(w, Older(s, v[n - 1])) && !TieAt(v, n)
    ensures (forall x :: x in s ==> x in v[..n] + w) <==> (forall x :: x in Older(s, v[n - 1]) ==> x in w)
  {
    var c := v[n - 1];
    forall x | x in s ensures x in Older(s, c) <==> x !in v[..n] {
      var k :| 0 <= k < |v| && v[k] == x;
      if k < n { assert v[..n][k] == x; } else { assert v[n].createdAt >= x.createdAt; }
      if x in v[..n] { var i :| 0 <= i < n && v[i] == x; }
    }
  }

  /** Collecting the rows r that are left, a set closed towards older rows. */
  lemma {:induction false} WalkRest(ord: (nat, set<Job>) -> seq<Job>, ts: nat -> set<Job>, filter: Option<JobState>,
    after: string, limit: int, k: nat, fuel: nat, r: set<Job>)
    requires Orders(ord) && OnlyGrows(ts) && fuel >= |r|
    requires r == Matching(ts(k), filter, after) && r <= Filtered(ts(0), filter)
    requires forall x :: x in r ==> Older(Filtered(ts(0), filter), x) <= r
    ensures var w := Walk(ord, ts, filter, after, limit, k, fuel);
            && w.Some? && Part(w.value, r)
            && (Lists(w.value, r) <==> NoSplit(ord(k, r), PageSize(limit)))
    decreases fuel
  {
    hide Matching, Part, NoSplit, Grown, PageSize;
    var n, v := PageSize(limit), ord(k, r);
    assert Lists(v, r);
    ListsSize(v, r);
    if |v| > n {
      var all, c := Filtered(ts(0), filter), v[n - 1];
      assert c in r by { ListedIn(v, r, n - 1); }
      assert Grown(ts(0), ts(k + 1));
      CursorStable(ts(0), ts(k + 1), filter, c);
      var rest := Older(all, c);
      assert rest == Older(r, c);
      SubsetSize(rest, r - {c});
      WalkRest(ord, ts, filter, c.id, limit, k + 1, fuel - 1, rest);
      var w := Walk(ord, ts, filter, c.id, limit, k + 1, fuel - 1).value;
      PagePart(v, r, n, w);
      NoSplitTail(v, n);
      if !TieAt(v, n) {
        TailLists(v, r, n);
        assert Lists(ord(k + 1, rest), rest);
        NoSplitUnique(v[n..], ord(k + 1, rest), rest, n);
      }
    } else {
      OnePage(v, n);
    }
  }

  lemma ListedIn(v: seq<Job>, s: set<Job>, i: nat)
    requires Lists(v, s) && i < |v|
    ensures v[i] in s
  {
  }

  lemma OnePage(v: seq<Job>, n: nat)
    requires 1 <= n && |v| <= n
    ensures NoSplit(v, n)
  {
    forall p | 0 < p < |v| ensures p % n != 0 { SmallModulo(p, n); }
  }

  /** Following cursors from "" until "" ends for every table and every page size, and collects filtered
      jobs of the first table newest first, none twice, even when newer jobs arrive between pages and
      however each query orders ties. It collects all of them if and only if no page boundary of the full
      listing separates two jobs of the same instant. */
  lemma PagesCompleteIff(ord: (nat, set<Job>) -> seq<Job>, ts: nat -> set<Job>, filter: Option<JobState>, limit: int,
    fuel: nat, v: seq<Job>)
    requires Orders(ord) && OnlyGrows(ts) && fuel >= |ts(0)| && Lists(v, Filtered(ts(0), filter))
    ensures var w := Walk(ord, ts, filter, "", limit, 0, fuel);
            && w.Some? && Part(w.value, Filtered(ts(0), filter))
            && (Lists(w.value, Filtered(ts(0), filter)) <==> NoSplit(v, PageSize(limit)))
  {
    hide Lists, Part, NoSplit, Grown, PageSize, Walk;
    var all := Filtered(ts(0), filter);
    SubsetSize(all, ts(0));
    WalkRest(ord, ts, filter, "", limit, 0, fuel, all);
    assert Lists(ord(0, all), all);
    NoSplitUnique(v, ord(0, all), all, PageSize(limit));
  }

  /** Pagination refines the full listing: jobs of different instants are all collected, in the one order
      there is. */
  lemma PagesAddUp(ord: (nat, set<Job>) -> seq<Job>, ts: nat -> set<Job>, filter: Option<JobState>, limit: int,
    fuel: nat, v: seq<Job>)
    requires Orders(ord) && OnlyGrows(ts) && fuel >= |ts(0)|
    requires var all := set j | j in ts(0) && (filter.Some? ==> j.state == filter.value);
             Lists(v, all) && DistinctTimes(all)
    ensures Walk(ord, ts, filter, "", limit, 0, fuel) == Some(v)
  {
    assert Filtered(ts(0), filter) == set j | j in ts(0) && (filter.Some? ==> j.state == filter.value);
    hide Grown, OnlyGrows, Orders, PageSize, Walk, Filtered, NoSplit;
    var all := Filtered(ts(0), filter);
    PagesCompleteIff(ord, ts, filter, limit, fuel, v);
    DistinctNoSplit(v, all, PageSize(limit));
    var w := Walk(ord, ts, filter, "", limit, 0, fuel).value;
    TimesUnique(w, v, all);
    forall i | 0 <= i < |v| ensures w[i] == v[i] {
      assert w[i] in all && v[i] in all;
    }
    assert w == v;
  }

  lemma DistinctNoSplit(v: seq<Job>, s: set<Job>, n: nat)
    requires n >= 1 && Lists(v, s) && DistinctTimes(s)
    ensures NoSplit(v, n)
  {
    forall p | 0 < p < |v| ensures !TieAt(v, p) { assert v[p - 1] in s && v[p] in s; }
  }

  /** At every page size, two jobs of the same instant on the two sides of a page boundary mean that a
      matching job is never shown. */
  lemma TiesAreLost(ord: (nat, set<Job>) -> seq<Job>, ts: nat -> set<Job>, filter: Option<JobState>, limit: int,
    fuel: nat, v: seq<Job>, p: nat)
    requires Orders(ord) && OnlyGrows(ts) && fuel >= |ts(0)| && Lists(v, Filtered(ts(0), filter))
    requires 0 < p < |v| && p % PageSize(limit) == 0 && TieAt(v, p)
    ensures var w := Walk(ord, ts, filter, "", limit, 0, fuel);
            w.Some? && exists x :: x in Filtered(ts(0), filter) && x !in w.value
  {
    hide Grown, PageSize, Walk, Filtered, Part;
    PagesCompleteIff(ord, ts, filter, limit, fuel, v);
  }
}
