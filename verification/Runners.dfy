/** The workers' loops as they run: in-place updates of the state object, a checkpoint callback every
    so many units and once at the end. Each is proved against Workers.Emissions. */
module Runners {
  import opened Words
  import opened Workers
  import Primes
  import Sieve
  import Checkpoint
  import MatMul
  import WordCount

  lemma EmitDone(k: nat, s: State, since: nat)
    requires Runnable(s) && Done(s)
    ensures Emissions(k, s, since) == [s]
  {
  }

  lemma EmitStep(k: nat, s: State, since: nat)
    requires Runnable(s) && !Done(s)
    ensures Runnable(Advance(s)) && Remaining(Advance(s)) < Remaining(s)
    ensures var n := since + Tick(s);
            Emissions(k, s, since) ==
            if Tick(s) > 0 && n >= k then [Advance(s)] + Emissions(k, Advance(s), 0) else Emissions(k, Advance(s), n)
  {
    AdvanceRunnable(s);
  }

  class SieveState {
    var limit: u64
    var next: u64
    var found: u64
    var epoch: u64
    var seededTwo: bool
    var recent: seq<u64>

    constructor (limit: u64)
      ensures Persisted() == Sieve.Fresh(limit) && epoch == 0
    {
      this.limit, next, found, epoch, seededTwo, recent := limit, 2, 0, 0, false, [];
    }

    function Persisted(): Checkpoint.State
      reads this
    {
      Checkpoint.State(limit, next, found, seededTwo, recent)
    }

    /** The body of the loop: test, count, remember, move on. */
    method Step() returns (primeFound: bool)
      modifies `next, `found, `recent
      ensures Persisted() == Sieve.Advance(old(Persisted()))
      ensures primeFound <==> Sieve.Tick(old(Persisted())) == 1
    {
      hide Primes.IsPrime;
      var candidate: nat := next;
      primeFound := Primes.IsPrimeTrial(candidate);
      if primeFound {
        found := Wrap(found + 1);
        recent := recent + [candidate];
        if |recent| > Checkpoint.RECENT_CAP { recent := recent[1..]; }
      }
      next := if candidate == 2 then 3 else Wrap(candidate + 2);
    }

    /** run_sieve: the emitted snapshots and the final fields are those of the specification. */
    method Run(every: u64) returns (emitted: seq<State>)
      requires limit < Sieve.MAX
      modifies this
      ensures Runnable(PrimesState(Sieve.Enter(old(Persisted()))))
      ensures emitted == Emissions(if every == 0 then 1 else every, PrimesState(Sieve.Enter(old(Persisted()))), 0)
      ensures PrimesState(Persisted()) == Last(emitted)
      ensures epoch == Wrap(old(epoch) + |emitted|)
    {
      hide Emissions, Sieve.Advance, Sieve.Tick, Remaining, Wrap;
      var k := if every == 0 then 1 else every;
      seededTwo := true;
      ghost var s0 := PrimesState(Persisted());
      var since: nat := 0;
      emitted := [];
      EpochStart(epoch);
      while next <= limit
        invariant Runnable(PrimesState(Persisted())) && since < k
        invariant Emissions(k, s0, 0) == emitted + Emissions(k, PrimesState(Persisted()), since)
        invariant epoch == Wrap(old(epoch) + |emitted|)
        decreases Remaining(PrimesState(Persisted()))
      {
        ghost var s := PrimesState(Persisted());
        EmitStep(k, s, since);
        var primeFound := Step();
        TickRange(s.p);
        if primeFound { since := since + 1; }
        if primeFound && since >= k {
          EpochNext(old(epoch), |emitted|);
          epoch := Wrap(epoch + 1);
          emitted := emitted + [PrimesState(Persisted())];
          since := 0;
        }
      }
      EmitDone(k, PrimesState(Persisted()), since);
      EpochNext(old(epoch), |emitted|);
      epoch := Wrap(epoch + 1);
      emitted := emitted + [PrimesState(Persisted())];
    }
  }

  lemma TickRange(p: Checkpoint.State)
    ensures Sieve.Tick(p) <= 1
  {
  }

  lemma EpochStart(e: u64)
    ensures Wrap(e + 0) == e
  {
  }

  lemma EpochNext(e: u64, n: nat)
    ensures Wrap(Wrap(e + n) + 1) == Wrap(e + (n + 1))
  {
    MatMul.WrapAdd(e + n, 1);
    EpochStart(1);
  }

  /** A fresh sieve object run to the end: the number of primes up to the limit, the last 32 of them,
      for every limit but 2^64 - 1. */
  method SieveFromScratch(limit: u64, every: u64) returns (final: Checkpoint.State, emitted: seq<State>)
    requires limit < Sieve.MAX
    ensures final.limit == limit && final.next == Sieve.FinalCursor(limit) && final.seededTwo
    ensures final.found == |Primes.PrimesBelow(limit + 1)|
    ensures final.recent == Tail(Primes.PrimesBelow(limit + 1), Checkpoint.RECENT_CAP)
    ensures emitted != [] && Last(emitted) == PrimesState(final)
  {
    hide Emissions, Sieve.OnTrack, Primes.PrimesBelow;
    var st := new SieveState(limit);
    emitted := st.Run(every);
    final := st.Persisted();
    var a := Args(Worker.Primes, limit, every, 1);
    FreshOnTrack(a);
    EmissionsOnTrack(a, if every == 0 then 1 else every, Enter(Fresh(a)), 0);
    Sieve.FinalMeaning(limit);
  }

  class MatMulState {
    var n: u64
    var seed: u64
    var nextCell: u64
    var fingerprint: u64
    var epoch: u64

    constructor (n: u64, seed: u64)
      ensures Persisted() == MatMul.Fresh(n, seed) && epoch == 0
    {
      this.n, this.seed, nextCell, fingerprint, epoch := n, seed, 0, 0, 0;
    }

    function Persisted(): MatMul.State
      reads this
    {
      MatMul.State(n, seed, nextCell, fingerprint)
    }

    method Run(every: u64) returns (emitted: seq<State>)
      modifies this
      ensures emitted == Emissions(if every == 0 then 1 else every, Workers.MatMulState(old(Persisted())), 0)
      ensures Workers.MatMulState(Persisted()) == Last(emitted)
      ensures epoch == Wrap(old(epoch) + |emitted|)
    {
      hide Emissions, Remaining, Wrap, MatMul.Cell;
      var k := if every == 0 then 1 else every;
      ghost var s0 := Workers.MatMulState(Persisted());
      var total := MatMul.Total(n);
      var since: nat := 0;
      emitted := [];
      EpochStart(epoch);
      while nextCell < total
        invariant n == old(n) && since < k
        invariant Emissions(k, s0, 0) == emitted + Emissions(k, Workers.MatMulState(Persisted()), since)
        invariant epoch == Wrap(old(epoch) + |emitted|)
        decreases Remaining(Workers.MatMulState(Persisted()))
      {
        MatMul.UnfinishedHasCells(Persisted());
        EmitStep(k, Workers.MatMulState(Persisted()), since);
        var cell := MatMul.ComputeCell(seed, n, nextCell);
        fingerprint := Wrap(fingerprint + cell);
        nextCell := Wrap(nextCell + 1);
        since := since + 1;
        if since >= k {
          EpochNext(old(epoch), |emitted|);
          epoch := Wrap(epoch + 1);
          emitted := emitted + [Workers.MatMulState(Persisted())];
          since := 0;
        }
      }
      EmitDone(k, Workers.MatMulState(Persisted()), since);
      EpochNext(old(epoch), |emitted|);
      epoch := Wrap(epoch + 1);
      emitted := emitted + [Workers.MatMulState(Persisted())];
    }
  }

  class WordCountState {
    var seed: u64
    var wordsTotal: u64
    var nextWord: u64
    var counts: map<u32, u64>
    var epoch: u64

    constructor (seed: u64, wordsTotal: u64)
      ensures Persisted() == WordCount.Fresh(seed, wordsTotal) && epoch == 0
    {
      this.seed, this.wordsTotal, nextWord, counts, epoch := seed, wordsTotal, 0, map[], 0;
    }

    function Persisted(): WordCount.State
      reads this
    {
      WordCount.State(seed, wordsTotal, nextWord, counts)
    }

    method Run(every: u64) returns (emitted: seq<State>)
      modifies this
      ensures emitted == Emissions(if every == 0 then 1 else every, Workers.WordCountState(old(Persisted())), 0)
      ensures Workers.WordCountState(Persisted()) == Last(emitted)
      ensures epoch == Wrap(old(epoch) + |emitted|)
    {
      hide Emissions, Remaining, Wrap, WordCount.WordAt;
      var k := if every == 0 then 1 else every;
      ghost var s0 := Workers.WordCountState(Persisted());
      var since: nat := 0;
      emitted := [];
      EpochStart(epoch);
      while nextWord < wordsTotal
        invariant since < k
        invariant Emissions(k, s0, 0) == emitted + Emissions(k, Workers.WordCountState(Persisted()), since)
        invariant epoch == Wrap(old(epoch) + |emitted|)
        decreases Remaining(Workers.WordCountState(Persisted()))
      {
        EmitStep(k, Workers.WordCountState(Persisted()), since);
        var w := WordCount.WordAt(seed, nextWord);
        counts := counts[w := Wrap(WordCount.Count(counts, w) + 1)];
        nextWord := Wrap(nextWord + 1);
        since := since + 1;
        if since >= k {
          EpochNext(old(epoch), |emitted|);
          epoch := Wrap(epoch + 1);
          emitted := emitted + [Workers.WordCountState(Persisted())];
          since := 0;
        }
      }
      EmitDone(k, Workers.WordCountState(Persisted()), since);
      EpochNext(old(epoch), |emitted|);
      epoch := Wrap(epoch + 1);
      emitted := emitted + [Workers.WordCountState(Persisted())];
    }
  }
}
