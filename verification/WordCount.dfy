/** The word-count worker: a cursor over a procedural corpus, a count per word, and its state file. */
module WordCount {
  import opened Words
  import opened Registers
  import opened Crc32

  const MAGIC: u32 := 0x57434E54
  const VERSION: u32 := 1
  const DICT_SIZE: nat := 64
  const HEADER: nat := 36
  const MIN_LEN: nat := 40

  datatype State = State(seed: u64, wordsTotal: u64, nextWord: u64, counts: map<u32, u64>)

  datatype Entry = Entry(word: u32, count: u64)

  // ---------------------------------------------------------------- the corpus

  const STRIDE: u64 := 0xD1B54A32D192ED03

  function Seeded(seed: u64, idx: u64): u64 {
    hide Bits64, Nat64, Wrap, Xor64;
    Nat64(Xor64(Bits64(seed), Bits64(Wrap(idx * STRIDE))))
  }

  /** The generator's output for position idx. */
  function Draw(seed: u64, idx: u64): u64 {
    hide Seeded, SplitMix;
    SplitMix(Seeded(seed, idx))
  }

  function WordAt(seed: u64, idx: u64): (w: u32)
    ensures w < DICT_SIZE
  {
    hide Draw;
    Draw(seed, idx) % DICT_SIZE
  }

  /** The inverse of STRIDE modulo 2^64 undoes the multiplication. */
  lemma StrideBack(idx: u64)
    ensures Wrap(Wrap(idx * STRIDE) * 0x6106CCFA448E5AB) == idx
  {
    var x, d, q := idx * STRIDE, 0x6106CCFA448E5AB, 357952832567956711;
    var a, r := x / TWO64, Wrap(x);
    assert STRIDE * d == q * TWO64 + 1;
    assert x * d == idx * (STRIDE * d) == (idx * q) * TWO64 + idx;
    assert x * d == (a * d) * TWO64 + r * d;
    var b := r * d / TWO64;
    assert r * d == b * TWO64 + Wrap(r * d);
    assert x * d == (a * d + b) * TWO64 + Wrap(r * d);
    QuotientUnique(x * d, TWO64, a * d + b, Wrap(r * d));
    QuotientUnique(x * d, TWO64, idx * q, idx);
  }

  /** No two positions of a corpus draw the same number. */
  lemma DrawInjective(seed: u64, i: u64, j: u64)
    requires Draw(seed, i) == Draw(seed, j)
    ensures i == j
  {
    hide SplitMix, Bits64, Nat64, Wrap, Xor64;
    var s, x, y := Bits64(seed), Bits64(Wrap(i * STRIDE)), Bits64(Wrap(j * STRIDE));
    SplitMixInjective(Seeded(seed, i), Seeded(seed, j));
    NatInjective(Xor64(s, x), Xor64(s, y));
    XorBack(s, x);
    XorBack(s, y);
    BitsInjective(Wrap(i * STRIDE), Wrap(j * STRIDE));
    StrideBack(i);
    StrideBack(j);
  }

  lemma SeededIs(seed: u64, idx: u64, s: bv64, x: bv64, y: bv64)
    requires Bytewise(s) == seed && Bytewise(x) == Wrap(idx * STRIDE) && Xor64(s, x) == y
    ensures Seeded(seed, idx) == Bytewise(y)
  {
    hide Bits64, Nat64, Wrap, Xor64, Bytewise;
    BitsIs(seed, s);
    BitsIs(Wrap(idx * STRIDE), x);
    NatIs(y);
  }

  /** Known words of the corpus with seed 1. */
  lemma KnownWords()
    ensures WordAt(1, 0) == 1 && WordAt(1, 1) == 47
  {
    hide SplitMix, Seeded;
    SeededIs(1, 0, 1, 0, 1);
    DrawIs(1, 0x9E3779B97F4A7C16, 0x910A2DEC89025CC1);
    SeededIs(1, 1, 1, 0xD1B54A32D192ED03, 0xD1B54A32D192ED02);
    DrawIs(0xD1B54A32D192ED02, 0x6FECC3EC50DD6917, 0x48416938EF0DCF6F);
  }

  // ---------------------------------------------------------------- the loop

  function Fresh(seed: u64, total: u64): State {
    State(seed, total, 0, map[])
  }

  predicate Done(s: State) {
    s.nextWord >= s.wordsTotal
  }

  function Count(m: map<u32, u64>, w: u32): u64 {
    if w in m then m[w] else 0
  }

  function Advance(s: State): State {
    hide WordAt;
    var w := WordAt(s.seed, s.nextWord);
    s.(counts := s.counts[w := Wrap(Count(s.counts, w) + 1)], nextWord := Wrap(s.nextWord + 1))
  }

  // ---------------------------------------------------------------- closed form

  /** How many of the first c positions hold word w. */
  function Occurrences(seed: u64, w: u32, c: u64): (n: nat)
    ensures n <= c
  {
    hide WordAt;
    if c == 0 then 0 else Occurrences(seed, w, c - 1) + if WordAt(seed, c - 1) == w then 1 else 0
  }

  /** Occurrences counts the positions below c that hold w. */
  lemma {:induction false} OccurrencesMeaning(seed: u64, w: u32, c: u64)
    ensures Occurrences(seed, w, c) == |set i: nat | i < c && WordAt(seed, i) == w|
    decreases c
  {
    hide WordAt;
    var s := set i: nat | i < c && WordAt(seed, i) == w;
    if c == 0 {
      assert s == {};
    } else {
      OccurrencesMeaning(seed, w, c - 1);
      var t := set i: nat | i < c - 1 && WordAt(seed, i) == w;
      if WordAt(seed, c - 1) == w { assert s == t + {c - 1}; } else { assert s == t; }
    }
  }

  /** The counts after c words, given by counting occurrences. */
  function CountsAt(seed: u64, c: u64): map<u32, u64> {
    map w: u32 | 0 <= w < DICT_SIZE && Occurrences(seed, w, c) > 0 :: Occurrences(seed, w, c)
  }

  lemma CountMeaning(seed: u64, w: u32, c: u64)
    ensures Count(CountsAt(seed, c), w) == Occurrences(seed, w, c)
  {
    if w >= DICT_SIZE { NoForeignWords(seed, w, c); }
  }

  lemma {:induction false} NoForeignWords(seed: u64, w: u32, c: u64)
    requires w >= DICT_SIZE
    ensures Occurrences(seed, w, c) == 0
    decreases c
  {
    hide WordAt;
    if c == 0 {
    } else {
      NoForeignWords(seed, w, c - 1);
    }
  }

  function At(seed: u64, total: u64, c: u64): State {
    State(seed, total, c, CountsAt(seed, c))
  }

  predicate OnTrack(s: State) {
    s == At(s.seed, s.wordsTotal, s.nextWord) && s.nextWord <= s.wordsTotal
  }

  lemma FreshOnTrack(seed: u64, total: u64)
    ensures OnTrack(Fresh(seed, total))
  {
    assert CountsAt(seed, 0) == map[];
  }

  /** At every loop head counts[w] is the number of positions below the cursor that hold w. */
  lemma AdvanceOnTrack(s: State)
    requires OnTrack(s) && !Done(s)
    ensures OnTrack(Advance(s)) && Advance(s).nextWord == s.nextWord + 1
    ensures Advance(s).seed == s.seed && Advance(s).wordsTotal == s.wordsTotal
  {
    hide WordAt;
    var c, w := s.nextWord, WordAt(s.seed, s.nextWord);
    var m := Advance(s).counts;
    assert w < DICT_SIZE;
    assert Count(s.counts, w) == Occurrences(s.seed, w, c);
    assert Occurrences(s.seed, w, c + 1) == Occurrences(s.seed, w, c) + 1;
    assert m == CountsAt(s.seed, c + 1);
  }

  lemma DoneIsFinal(s: State)
    requires OnTrack(s) && Done(s)
    ensures s == At(s.seed, s.wordsTotal, s.wordsTotal)
  {
  }

  // ---------------------------------------------------------------- the counts as a whole

  lemma {:induction false} BoundedSet(s: set<u32>, n: nat)
    requires forall w :: w in s ==> w < n
    ensures |s| <= n
  {
    if n == 0 {
      assert s == {};
    } else {
      var t := s - {n - 1};
      BoundedSet(t, n - 1);
      if n - 1 in s { assert s == t + {n - 1}; } else { assert s == t; }
    }
  }

  lemma CountsBounded(seed: u64, c: u64)
    ensures |CountsAt(seed, c)| <= DICT_SIZE && forall w :: w in CountsAt(seed, c) ==> w < DICT_SIZE
  {
    BoundedSet(CountsAt(seed, c).Keys, DICT_SIZE);
  }

  function SumWords(seed: u64, c: u64, n: nat): nat
    requires n <= DICT_SIZE
  {
    hide Occurrences;
    if n == 0 then 0 else SumWords(seed, c, n - 1) + Occurrences(seed, n - 1, c)
  }

  lemma {:induction false} SumWordsStep(seed: u64, c: u64, n: nat)
    requires n <= DICT_SIZE && c > 0
    ensures SumWords(seed, c, n) == SumWords(seed, c - 1, n) + if WordAt(seed, c - 1) < n then 1 else 0
  {
    hide WordAt;
    if n == 0 {
    } else {
      SumWordsStep(seed, c, n - 1);
    }
  }

  lemma {:induction false} OccurrencesSum(seed: u64, c: u64)
    ensures SumWords(seed, c, DICT_SIZE) == c
    decreases c
  {
    hide WordAt;
    if c == 0 {
      NothingCounted(seed, DICT_SIZE);
    } else {
      OccurrencesSum(seed, c - 1);
      SumWordsStep(seed, c, DICT_SIZE);
    }
  }

  lemma {:induction false} NothingCounted(seed: u64, n: nat)
    requires n <= DICT_SIZE
    ensures SumWords(seed, 0, n) == 0
  {
    if n == 0 {
    } else {
      NothingCounted(seed, n - 1);
    }
  }

  // ---------------------------------------------------------------- iteration order and sorting

  /** v lists every entry of m exactly once, in some order. */
  ghost predicate Lists(v: seq<Entry>, m: map<u32, u64>) {
    && (forall i :: 0 <= i < |v| ==> v[i].word in m && m[v[i].word] == v[i].count)
    && (forall w :: w in m ==> exists i :: 0 <= i < |v| && v[i].word == w)
    && (forall i, j :: 0 <= i < j < |v| ==> v[i].word != v[j].word)
  }

  function SumEntries(v: seq<Entry>): nat {
    if v == [] then 0 else SumEntries(v[..|v| - 1]) + Last(v).count
  }

  /** The sum over the words below n. */
  function SumBelow(m: map<u32, u64>, n: nat): nat
    requires n <= DICT_SIZE
  {
    if n == 0 then 0 else SumBelow(m, n - 1) + Count(m, n - 1)
  }

  lemma {:induction false} SumWithout(m: map<u32, u64>, w: u32, n: nat)
    requires n <= DICT_SIZE && w in m
    ensures SumBelow(m, n) == SumBelow(m - {w}, n) + if w < n then m[w] else 0
  {
    if n == 0 {
    } else {
      SumWithout(m, w, n - 1);
    }
  }

  lemma {:induction false} SumOfListing(v: seq<Entry>, m: map<u32, u64>)
    requires Lists(v, m) && forall w :: w in m ==> w < DICT_SIZE
    ensures SumEntries(v) == SumBelow(m, DICT_SIZE)
    decreases |v|
  {
    if v == [] {
      assert m == map[];
      SumOfNothing(DICT_SIZE);
    } else {
      hide Lists;
      var w := Last(v).word;
      LastListed(v, m);
      DropLast(v, m);
      SumOfListing(v[..|v| - 1], m - {w});
      SumWithout(m, w, DICT_SIZE);
    }
  }

  lemma LastListed(v: seq<Entry>, m: map<u32, u64>)
    requires v != [] && Lists(v, m)
    ensures Last(v).word in m && m[Last(v).word] == Last(v).count
  {
  }

  lemma {:induction false} SumOfNothing(n: nat)
    requires n <= DICT_SIZE
    ensures SumBelow(map[], n) == 0
  {
    if n == 0 {
    } else {
      SumOfNothing(n - 1);
    }
  }

  lemma {:induction false} SumOfCounts(seed: u64, c: u64, n: nat)
    requires n <= DICT_SIZE
    ensures SumBelow(CountsAt(seed, c), n) == SumWords(seed, c, n)
  {
    hide Occurrences;
    if n == 0 {
    } else {
      SumOfCounts(seed, c, n - 1);
    }
  }

  /** The entries of the counts map, listed in any order, add up to the cursor. */
  lemma CountsSum(seed: u64, c: u64, v: seq<Entry>)
    requires Lists(v, CountsAt(seed, c))
    ensures SumEntries(v) == c
  {
    hide Lists, CountsAt, SumBelow, SumWords, SumEntries;
    CountsBounded(seed, c);
    SumOfListing(v, CountsAt(seed, c));
    SumOfCounts(seed, c, DICT_SIZE);
    OccurrencesSum(seed, c);
  }

  predicate Sorted(v: seq<Entry>) {
    forall i, j :: 0 <= i < j < |v| ==> v[i].word < v[j].word
  }

  lemma LastIsMax(v: seq<Entry>, m: map<u32, u64>)
    requires v != [] && Sorted(v) && Lists(v, m)
    ensures Last(v).word in m && forall w :: w in m ==> w <= Last(v).word
  {
  }

  lemma DropLast(v: seq<Entry>, m: map<u32, u64>)
    requires v != [] && Lists(v, m)
    ensures Lists(v[..|v| - 1], m - {Last(v).word})
  {
    var u, k := v[..|v| - 1], Last(v).word;
    forall w | w in m - {k} ensures exists i :: 0 <= i < |u| && u[i].word == w {
      var i :| 0 <= i < |v| && v[i].word == w;
      assert u[i].word == w;
    }
  }

  /** Whatever order the hash map is walked in, the sorted list of its entries is the same. */
  lemma {:induction false} SortedUnique(v: seq<Entry>, u: seq<Entry>, m: map<u32, u64>)
    requires Sorted(v) && Sorted(u) && Lists(v, m) && Lists(u, m)
    ensures v == u
    decreases |v|
  {
    hide Lists, Sorted;
    SameEmptiness(v, u, m);
    if v == [] {
    } else {
      var p, q := |v| - 1, |u| - 1;
      SameLast(v, u, m);
      DropLast(v, m);
      DropLast(u, m);
      PrefixSorted(v, p);
      PrefixSorted(u, q);
      SortedUnique(v[..p], u[..q], m - {Last(v).word});
      assert v == v[..p] + [Last(v)] && u == u[..q] + [Last(u)];
    }
  }

  lemma SameEmptiness(v: seq<Entry>, u: seq<Entry>, m: map<u32, u64>)
    requires Lists(v, m) && Lists(u, m)
    ensures v == [] <==> u == []
  {
    if v != [] { assert v[0].word in m; }
    if u != [] { assert u[0].word in m; }
  }

  lemma SameLast(v: seq<Entry>, u: seq<Entry>, m: map<u32, u64>)
    requires v != [] && u != [] && Sorted(v) && Sorted(u) && Lists(v, m) && Lists(u, m)
    ensures Last(v) == Last(u)
  {
    LastIsMax(v, m);
    LastIsMax(u, m);
  }

  lemma PrefixSorted(v: seq<Entry>, n: nat)
    requires Sorted(v) && n <= |v|
    ensures Sorted(v[..n])
  {
  }

  function Insert(v: seq<Entry>, e: Entry): seq<Entry> {
    if v == [] || Last(v).word < e.word then v + [e] else Insert(v[..|v| - 1], e) + [Last(v)]
  }

  lemma {:induction false} InsertMembers(v: seq<Entry>, e: Entry)
    ensures multiset(Insert(v, e)) == multiset(v) + multiset{e}
  {
    if v == [] || Last(v).word < e.word {
    } else {
      InsertMembers(v[..|v| - 1], e);
      assert v == v[..|v| - 1] + [Last(v)];
    }
  }

  lemma {:induction false} InsertSorted(v: seq<Entry>, e: Entry)
    requires Sorted(v) && forall i :: 0 <= i < |v| ==> v[i].word != e.word
    ensures Sorted(Insert(v, e))
  {
    if v == [] || Last(v).word < e.word {
    } else {
      var u := v[..|v| - 1];
      InsertSorted(u, e);
      InsertMembers(u, e);
      forall i | 0 <= i < |Insert(u, e)| ensures Insert(u, e)[i].word < Last(v).word {
        assert Insert(u, e)[i] in multiset(Insert(u, e));
        assert Insert(u, e)[i] in multiset(u) + multiset{e};
      }
    }
  }

  /** Walking the map in an arbitrary order and sorting on the way. */
  method SortEntries(m: map<u32, u64>) returns (v: seq<Entry>)
    ensures Sorted(v) && Lists(v, m)
  {
    hide Sorted, Lists, Insert;
    v := [];
    EmptyListing(m);
    var rest := m.Keys;
    while rest != {}
      invariant rest <= m.Keys && Sorted(v) && Lists(v, m - rest)
      decreases |rest|
    {
      var w :| w in rest;
      InsertLists(v, w, m, rest);
      v := Insert(v, Entry(w, m[w]));
      rest := rest - {w};
    }
    assert m - rest == m;
  }

  lemma EmptyListing(m: map<u32, u64>)
    ensures Sorted([]) && Lists([], m - m.Keys)
  {
  }

  lemma InsertLists(v: seq<Entry>, w: u32, m: map<u32, u64>, rest: set<u32>)
    requires rest <= m.Keys && w in rest && Sorted(v) && Lists(v, m - rest)
    ensures Sorted(Insert(v, Entry(w, m[w]))) && Lists(Insert(v, Entry(w, m[w])), m - (rest - {w}))
  {
    var e := Entry(w, m[w]);
    var u, n := Insert(v, e), m - (rest - {w});
    InsertMembers(v, e);
    InsertSorted(v, e);
    forall i | 0 <= i < |u| ensures u[i].word in n && n[u[i].word] == u[i].count {
      assert u[i] in multiset(u);
      assert u[i] == e || u[i] in v;
    }
    forall x | x in n ensures exists i :: 0 <= i < |u| && u[i].word == x {
      if x == w {
        assert e in multiset(u);
        assert e in u;
      } else {
        assert x in m - rest;
        var i :| 0 <= i < |v| && v[i].word == x;
        assert v[i] in multiset(u);
        assert v[i] in u;
      }
    }
  }

  lemma {:induction false} SortedExists(m: map<u32, u64>) returns (v: seq<Entry>)
    ensures Sorted(v) && Lists(v, m)
    decreases |m|
  {
    if m == map[] {
      v := [];
    } else {
      hide Sorted, Lists, Insert;
      var w :| w in m;
      assert m.Keys == (m - {w}).Keys + {w};
      var u := SortedExists(m - {w});
      InsertLists(u, w, m, {w});
      assert m - ({w} - {w}) == m;
      v := Insert(u, Entry(w, m[w]));
    }
  }

  /** The one sorted list of the entries of m. */
  ghost function Canonical(m: map<u32, u64>): (v: seq<Entry>)
    ensures Sorted(v) && Lists(v, m)
  {
    assert exists v :: Sorted(v) && Lists(v, m) by { var v := SortedExists(m); }
    var v :| Sorted(v) && Lists(v, m);
    v
  }

  // ---------------------------------------------------------------- hash of the counts

  const BASIS: bv64 := 0xCBF29CE484222325

  function Spread(z: bv64): bv64 {
    z * 0x100000001B3
  }

  function Unspread(y: bv64): bv64 {
    y * 0xCE965057AFF6957B
  }

  function HashEntry(h: bv64, e: Entry): bv64 {
    hide Bits64, Xor64, Spread;
    Spread(Xor64(Spread(Xor64(h, Bits64(e.word))), Bits64(e.count)))
  }

  lemma SpreadBack(z: bv64)
    ensures Unspread(Spread(z)) == z
  {
    assert Unspread(z * 0x100000001B3) == z;
    hide Unspread;
    assert Spread(z) == z * 0x100000001B3;
  }

  /** Hashing one entry loses nothing: the same count and word come from the same hash before, and the same
      hash and word come with the same count. */
  lemma HashEntryInjective(h: bv64, g: bv64, e: Entry, f: Entry)
    requires HashEntry(h, e) == HashEntry(g, f) && e.word == f.word
    ensures e.count == f.count ==> h == g
    ensures h == g ==> e.count == f.count
  {
    hide Bits64, Xor64, Spread, Unspread;
    var w, a, b := Bits64(e.word), Bits64(e.count), Bits64(f.count);
    var x, y := Spread(Xor64(h, w)), Spread(Xor64(g, w));
    SpreadBack(Xor64(x, a));
    SpreadBack(Xor64(y, b));
    assert Xor64(x, a) == Xor64(y, b);
    if e.count == f.count {
      XorSwap(x, a); XorSwap(y, a); XorBack(a, x); XorBack(a, y);
      SpreadBack(Xor64(h, w)); SpreadBack(Xor64(g, w));
      XorSwap(h, w); XorSwap(g, w); XorBack(w, h); XorBack(w, g);
    }
    if h == g {
      XorBack(x, a); XorBack(x, b);
      BitsInjective(e.count, f.count);
    }
  }

  lemma {:induction false} HashAllInjective(h: bv64, g: bv64, v: seq<Entry>)
    requires HashAll(h, v) == HashAll(g, v)
    ensures h == g
    decreases |v|
  {
    hide HashEntry;
    if v == [] {
    } else {
      HashAllInjective(HashEntry(h, v[0]), HashEntry(g, v[0]), v[1..]);
      HashEntryInjective(h, g, v[0], v[0]);
    }
  }

  lemma {:induction false} OneEntryMatters(h: bv64, v: seq<Entry>, i: nat, e: Entry)
    requires i < |v| && e.word == v[i].word && HashAll(h, v[i := e]) == HashAll(h, v)
    ensures e == v[i]
    decreases |v|
  {
    hide HashEntry;
    if i == 0 {
      assert v[0 := e][1..] == v[1..];
      HashAllInjective(HashEntry(h, e), HashEntry(h, v[0]), v[1..]);
      HashEntryInjective(h, h, e, v[0]);
    } else {
      assert v[i := e][1..] == v[1..][i - 1 := e];
      OneEntryMatters(HashEntry(h, v[0]), v[1..], i - 1, e);
    }
  }

  /** The found value of a word count notices a change of any one count. */
  lemma OneCountMatters(m: map<u32, u64>, w: u32, c: u64)
    requires w in m && CountsHash(m[w := c]) == CountsHash(m)
    ensures c == m[w]
  {
    hide HashAll, Nat64, Sorted;
    var v, u := Canonical(m), Canonical(m[w := c]);
    var i :| 0 <= i < |v| && v[i].word == w;
    var e := Entry(w, c);
    ReplaceCount(v, m, i, c);
    hide Lists;
    SortedUnique(u, v[i := e], m[w := c]);
    NatInjective(HashAll(BASIS, u), HashAll(BASIS, v));
    OneEntryMatters(BASIS, v, i, e);
    CountListed(v, m, i);
  }

  lemma CountListed(v: seq<Entry>, m: map<u32, u64>, i: nat)
    requires Lists(v, m) && i < |v|
    ensures v[i].word in m && m[v[i].word] == v[i].count
  {
  }

  lemma ReplaceCount(v: seq<Entry>, m: map<u32, u64>, i: nat, c: u64)
    requires Sorted(v) && Lists(v, m) && i < |v|
    ensures Sorted(v[i := Entry(v[i].word, c)]) && Lists(v[i := Entry(v[i].word, c)], m[v[i].word := c])
  {
    var u, n := v[i := Entry(v[i].word, c)], m[v[i].word := c];
    forall w | w in n ensures exists k :: 0 <= k < |u| && u[k].word == w {
      var k :| 0 <= k < |v| && v[k].word == w;
      assert u[k].word == w;
    }
  }

  /** A known hash: word 1 counted once. */
  lemma KnownHash()
    ensures CountsHash(map[1 := 1]) == 0x82F2307B4E88E77
  {
    hide HashEntry;
    var m, v := map[1 := 1], [Entry(1, 1)];
    assert v[0].word == 1;
    SortedUnique(v, Canonical(m), m);
    HashEntryIs();
    assert HashAll(BASIS, v) == HashAll(HashEntry(BASIS, v[0]), v[1..]) == HashEntry(BASIS, v[0]);
    hide Nat64, HashAll;
    NatIs(0x82F2307B4E88E77);
  }

  lemma HashEntryIs()
    ensures HashEntry(BASIS, Entry(1, 1)) == 0x82F2307B4E88E77
  {
    hide Bits64;
    BitsIs(1, 1);
  }

  function HashAll(h: bv64, v: seq<Entry>): bv64
    decreases |v|
  {
    hide HashEntry;
    if v == [] then h else HashAll(HashEntry(h, v[0]), v[1..])
  }

  ghost function CountsHash(m: map<u32, u64>): u64 {
    hide HashAll;
    Nat64(HashAll(BASIS, Canonical(m)))
  }

  /** The hash does not depend on the order in which the map is walked. */
  method ComputeHash(m: map<u32, u64>) returns (r: u64)
    ensures r == CountsHash(m)
  {
    hide HashEntry, Lists, Sorted, Nat64;
    var v := SortEntries(m);
    SortedUnique(v, Canonical(m), m);
    var h: bv64 := BASIS;
    for i := 0 to |v|
      invariant HashAll(h, v[i..]) == HashAll(BASIS, v)
    {
      h := HashEntry(h, v[i]);
      assert v[i..][1..] == v[i + 1..];
    }
    r := Nat64(h);
  }

  // ---------------------------------------------------------------- state file

  function EntryBytes(e: Entry): (b: seq<byte>)
    ensures |b| == 12
  {
    BytesOf32(e.word) + BytesOf64(e.count)
  }

  function EntriesBytes(v: seq<Entry>): (b: seq<byte>)
    ensures |b| == 12 * |v|
  {
    if v == [] then [] else EntriesBytes(v[..|v| - 1]) + EntryBytes(Last(v))
  }

  function Head(s: State, n: u32): (b: seq<byte>)
    ensures |b| == HEADER
  {
    BytesOf32(MAGIC) + BytesOf32(VERSION) + BytesOf64(s.seed) + BytesOf64(s.wordsTotal) + BytesOf64(s.nextWord)
      + BytesOf32(n)
  }

  /** The file for state s when its entries are written in the order v. */
  function FileOf(s: State, v: seq<Entry>): (b: seq<byte>)
    ensures |b| == MIN_LEN + 12 * |v|
  {
    var body := Head(s, Wrap32(|v|)) + EntriesBytes(v);
    body + SealBytes(Checksum(body))
  }

  lemma {:induction false} ListsSize(v: seq<Entry>, m: map<u32, u64>)
    requires Lists(v, m)
    ensures |v| == |m|
    decreases |v|
  {
    if v == [] {
      assert m == map[];
    } else {
      DropLast(v, m);
      ListsSize(v[..|v| - 1], m - {Last(v).word});
      assert m.Keys == (m - {Last(v).word}).Keys + {Last(v).word};
    }
  }

  ghost function Render(s: State): (b: seq<byte>)
    ensures |b| == MIN_LEN + 12 * |s.counts|
  {
    ListsSize(Canonical(s.counts), s.counts);
    FileOf(s, Canonical(s.counts))
  }

  /** The written bytes do not depend on the order in which the map is walked. */
  method WriteState(s: State) returns (b: seq<byte>)
    ensures b == Render(s)
  {
    hide Lists, Sorted, EntryBytes, SealBytes, Checksum, Head;
    var v := SortEntries(s.counts);
    SortedUnique(v, Canonical(s.counts), s.counts);
    ListsSize(v, s.counts);
    b := Head(s, Wrap32(|v|));
    for i := 0 to |v|
      invariant b == Head(s, Wrap32(|v|)) + EntriesBytes(v[..i])
    {
      assert v[..i + 1][..i] == v[..i];
      b := b + EntryBytes(v[i]);
    }
    assert v[..|v|] == v;
    var table := BuildTable();
    var c := Compute(table, b);
    b := b + SealBytes(c);
  }

  datatype ReadError = TooShort | BadMagic | BadVersion | BadCrc

  function ReadEntries(b: seq<byte>, n: nat): (v: seq<Entry>)
    requires HEADER + 12 * n <= |b|
    ensures |v| == n
  {
    hide Read32, Read64;
    seq(n, i requires 0 <= i < n => Entry(Read32(b, HEADER + 12 * i), Read64(b, HEADER + 12 * i + 4)))
  }

  /** Entries stored one after the other; a repeated word keeps the last count. */
  function MapOf(v: seq<Entry>): map<u32, u64> {
    if v == [] then map[] else MapOf(v[..|v| - 1])[Last(v).word := Last(v).count]
  }

  function ReadState(all: seq<byte>): Result<State, ReadError> {
    hide Read32, Read64, Sealed;
    if |all| < MIN_LEN then Err(TooShort)
    else if !Sealed(all) then Err(BadCrc)
    else if Read32(all, 0) != MAGIC then Err(BadMagic)
    else if Read32(all, 4) != VERSION then Err(BadVersion)
    else
      var n := Read32(all, 32);
      if n > DICT_SIZE then Err(TooShort)
      else if |all| - 4 - HEADER != 12 * n then Err(TooShort)
      else Ok(State(Read64(all, 8), Read64(all, 16), Read64(all, 24), MapOf(ReadEntries(all, n))))
  }

  lemma {:induction false} MapOfLists(v: seq<Entry>, m: map<u32, u64>)
    requires Lists(v, m)
    ensures MapOf(v) == m
    decreases |v|
  {
    if v == [] {
      assert m == map[];
    } else {
      DropLast(v, m);
      MapOfLists(v[..|v| - 1], m - {Last(v).word});
    }
  }

  lemma {:induction false} ReadEntry(pre: seq<byte>, v: seq<Entry>, post: seq<byte>, i: nat)
    requires i < |v|
    ensures var b := pre + EntriesBytes(v) + post;
            Read32(b, |pre| + 12 * i) == v[i].word && Read64(b, |pre| + 12 * i + 4) == v[i].count
    decreases |v|
  {
    hide Read32, Read64, BytesOf32, BytesOf64;
    var n := |v| - 1;
    var b := pre + EntriesBytes(v) + post;
    var p := pre + EntriesBytes(v[..n]);
    var w, c := BytesOf32(v[n].word), BytesOf64(v[n].count);
    if i == n {
      assert b == p + w + (c + post);
      Read32OfBytes(p, v[n].word, c + post);
      assert b == (p + w) + c + post;
      Read64OfBytes(p + w, v[n].count, post);
    } else {
      assert b == p + (w + c + post);
      ReadEntry(pre, v[..n], w + c + post, i);
    }
  }

  lemma HeadLayout(s: State, n: u32, post: seq<byte>)
    ensures var b := Head(s, n) + post;
            && Read32(b, 0) == MAGIC && Read32(b, 4) == VERSION && Read64(b, 8) == s.seed
            && Read64(b, 16) == s.wordsTotal && Read64(b, 24) == s.nextWord && Read32(b, 32) == n
  {
    hide Read32, Read64, BytesOf32, BytesOf64;
    var b := Head(s, n) + post;
    var m, v, e, t, x, k := BytesOf32(MAGIC), BytesOf32(VERSION), BytesOf64(s.seed), BytesOf64(s.wordsTotal),
      BytesOf64(s.nextWord), BytesOf32(n);
    assert b == [] + m + (v + e + t + x + k + post);
    Read32OfBytes([], MAGIC, v + e + t + x + k + post);
    assert b == m + v + (e + t + x + k + post);
    Read32OfBytes(m, VERSION, e + t + x + k + post);
    assert b == (m + v) + e + (t + x + k + post);
    Read64OfBytes(m + v, s.seed, t + x + k + post);
    assert b == (m + v + e) + t + (x + k + post);
    Read64OfBytes(m + v + e, s.wordsTotal, x + k + post);
    assert b == (m + v + e + t) + x + (k + post);
    Read64OfBytes(m + v + e + t, s.nextWord, k + post);
    assert b == (m + v + e + t + x) + k + post;
    Read32OfBytes(m + v + e + t + x, n, post);
  }

  lemma EntriesRead(s: State, v: seq<Entry>)
    requires |v| <= DICT_SIZE
    ensures ReadEntries(FileOf(s, v), |v|) == v
  {
    hide Read32, Read64, Head, EntriesBytes, SealBytes, Checksum;
    var h, g := Head(s, |v|), EntriesBytes(v);
    var z := SealBytes(Checksum(h + g));
    forall i | 0 <= i < |v| ensures ReadEntries(FileOf(s, v), |v|)[i] == v[i] {
      ReadEntry(h, v, z, i);
      assert FileOf(s, v) == h + g + z;
    }
  }

  /** The first eight bytes of every file: "TNCW", the little-endian form of "WCNT", and version 1. */
  lemma FileStart(s: State)
    ensures Render(s)[..8] == [0x54, 0x4E, 0x43, 0x57, 0x01, 0x00, 0x00, 0x00]
  {
    hide BytesOf32, BytesOf64, EntriesBytes, SealBytes, Checksum, Sorted, Lists;
    BytesAre(MAGIC, 0x54, 0x4E, 0x43, 0x57);
    BytesAre(VERSION, 0x01, 0x00, 0x00, 0x00);
    assert Render(s)[..8] == BytesOf32(MAGIC) + BytesOf32(VERSION);
  }

  /** Magic and version as the readers see them. */
  lemma RenderStart(s: State)
    ensures var b := Render(s); Sealed(b) && Read32(b, 0) == MAGIC && Read32(b, 4) == VERSION
  {
    hide Read32, Read64, Head, EntriesBytes, SealBytes, Checksum, Sealed, Lists, Sorted;
    RenderSealed(s);
    var v := Canonical(s.counts);
    var h, g := Head(s, Wrap32(|v|)), EntriesBytes(v);
    assert Render(s) == h + (g + SealBytes(Checksum(h + g)));
    HeadLayout(s, Wrap32(|v|), g + SealBytes(Checksum(h + g)));
  }

  lemma RenderSealed(s: State)
    ensures Sealed(Render(s))
  {
    hide Sealed, Checksum, SealBytes, Head, EntriesBytes, Lists, Sorted;
    var v := Canonical(s.counts);
    ListsSize(v, s.counts);
    SealAccepted(Head(s, Wrap32(|v|)) + EntriesBytes(v));
  }

  /** Reading back a written file restores the persisted state exactly when it counts at most 64 words. */
  lemma ReadRender(s: State)
    ensures ReadState(Render(s)) == Ok(s) <==> |s.counts| <= DICT_SIZE
  {
    hide ReadState, Render;
    if |s.counts| <= DICT_SIZE { ReadRenderSmall(s); } else { ReadSmall(Render(s)); }
  }

  lemma {:induction false} MapOfSize(v: seq<Entry>)
    ensures |MapOf(v)| <= |v|
  {
    if v == [] {
    } else {
      var u, w := v[..|v| - 1], Last(v).word;
      MapOfSize(u);
      assert MapOf(v).Keys == MapOf(u).Keys + {w};
    }
  }

  lemma ReadSmall(b: seq<byte>)
    ensures ReadState(b).Ok? ==> |ReadState(b).value.counts| <= DICT_SIZE
  {
    hide Read32, Read64, Sealed, MapOf;
    if ReadState(b).Ok? { MapOfSize(ReadEntries(b, Read32(b, 32))); }
  }

  lemma ReadRenderSmall(s: State)
    requires |s.counts| <= DICT_SIZE
    ensures ReadState(Render(s)) == Ok(s)
  {
    hide Read32, Read64, Head, EntriesBytes, SealBytes, Checksum, Sealed, ReadEntries, Lists, Sorted;
    var v := Canonical(s.counts);
    ListsSize(v, s.counts);
    MapOfLists(v, s.counts);
    EntriesRead(s, v);
    var h, g := Head(s, |v|), EntriesBytes(v);
    var z := SealBytes(Checksum(h + g));
    SealAccepted(h + g);
    assert Render(s) == h + (g + z);
    HeadLayout(s, |v|, g + z);
  }

  lemma UnsealedRefused(b: seq<byte>)
    requires |b| >= 4 && !Sealed(b)
    ensures ReadState(b).Err?
  {
    hide Sealed, Read32, Read64;
  }
}
