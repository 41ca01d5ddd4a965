/** One iteration of the resumable prime sieve, and the closed form of every state it passes through. */
module Sieve {
  import opened Words
  import opened Primes
  import opened Checkpoint

  const MAX: u64 := TWO64 - 1

  function Fresh(limit: u64): State {
    State(limit, 2, 0, false, [])
  }

  /** run_sieve marks the state as entered before its loop. */
  function Enter(s: State): State {
    s.(seededTwo := true)
  }

  predicate Done(s: State) {
    s.next > s.limit
  }

  /** The bounded deque: push at the back, drop the front beyond the cap. */
  function Push(r: seq<u64>, p: u64): seq<u64> {
    var q := r + [p];
    if |q| > RECENT_CAP then q[1..] else q
  }

  function NextCandidate(c: u64): u64 {
    if c == 2 then 3 else Wrap(c + 2)
  }

  /** The loop body on the persisted fields. */
  function Advance(s: State): State {
    var p := IsPrime(s.next);
    s.(found := if p then Wrap(s.found + 1) else s.found,
       recent := if p then Push(s.recent, s.next) else s.recent,
       next := NextCandidate(s.next))
  }

  /** Does the iteration at s count towards the next checkpoint? */
  function Tick(s: State): nat {
    if IsPrime(s.next) then 1 else 0
  }

  // ---------------------------------------------------------------- closed form

  /** The candidates the sieve visits: 2 and the odd numbers from 3. */
  predicate Candidate(c: nat) {
    c == 2 || (c >= 3 && c % 2 == 1)
  }

  /** What must be on record when c is the next candidate: the primes below c, counted, and the last
      32 of them in order. */
  function At(limit: u64, c: u64): State {
    var ps := PrimesBelow(c);
    State(limit, c, |ps|, true, Tail(ps, RECENT_CAP))
  }

  /** s is the closed-form state at its own cursor, and the cursor is at most one step past the limit. */
  predicate OnTrack(s: State) {
    && Candidate(s.next)
    && s == At(s.limit, s.next)
    && (s.next == 2 || (s.next == 3 && s.limit >= 2) || (s.next > 3 && s.next <= s.limit + 2))
  }

  /** The cursor at which a run with this limit ends. */
  function FinalCursor(limit: u64): u64
    requires limit < MAX
  {
    if limit < 2 then 2 else if limit == 2 then 3 else if limit % 2 == 1 then limit + 2 else limit + 1
  }

  lemma FreshOnTrack(limit: u64)
    ensures OnTrack(Enter(Fresh(limit)))
  {
    assert PrimesBelow(2) == PrimesBelow(1) == PrimesBelow(0) == [];
  }

  lemma PrimesBelowStep(c: nat)
    requires Candidate(c)
    ensures PrimesBelow(if c == 2 then 3 else c + 2) ==
            if IsPrime(c) then PrimesBelow(c) + [c] else PrimesBelow(c)
  {
    if c > 2 {
      assert PrimesBelow(c + 2) == PrimesBelow(c + 1) by { EvenNotPrime(c + 1); }
    }
  }

  lemma TailPush(ps: seq<nat>, r: seq<u64>, c: u64)
    requires r == Tail(ps, RECENT_CAP)
    ensures Push(r, c) == Tail(ps + [c], RECENT_CAP)
  {
  }

  lemma NextWithoutWrap(c: u64, limit: u64)
    requires Candidate(c) && c <= limit < MAX
    ensures NextCandidate(c) == if c == 2 then 3 else c + 2
    ensures Candidate(NextCandidate(c)) && NextCandidate(c) <= limit + 2
  {
  }

  /** Every iteration keeps the closed form, without any wrap-around, unless the limit is 2^64 - 1. */
  lemma AdvanceOnTrack(s: State)
    requires OnTrack(s) && !Done(s) && s.limit < MAX
    ensures OnTrack(Advance(s))
    ensures s.next < Advance(s).next <= s.limit + 2
    ensures Advance(s).found == s.found + Tick(s) && Advance(s).limit == s.limit
  {
    hide IsPrime, PrimesBelow, Push, Tail;
    var c, ps := s.next, PrimesBelow(s.next);
    PrimesBelowStep(c);
    TailPush(ps, s.recent, c);
    NextWithoutWrap(c, s.limit);
    assert Wrap(s.found + 1) == s.found + 1;
  }

  /** A finished on-track state is the final one: all primes up to the limit, counted. */
  lemma DoneIsFinal(s: State)
    requires OnTrack(s) && Done(s) && s.limit < MAX
    ensures s == At(s.limit, FinalCursor(s.limit))
  {
    hide At;
    assert s.next == FinalCursor(s.limit);
  }

  /** What the final state says: found is the number of primes up to the limit and recent holds the
      last min(32, found) of them in increasing order. */
  lemma FinalMeaning(limit: u64)
    requires limit < MAX
    ensures var f := At(limit, FinalCursor(limit)); var all := PrimesBelow(limit + 1);
            && f.found == |all| && f.recent == Tail(all, RECENT_CAP)
            && OnTrack(f) && Done(f)
  {
    hide PrimesBelow, Tail;
    FinalPrimes(limit);
  }

  lemma FinalPrimes(limit: u64)
    requires limit < MAX
    ensures PrimesBelow(FinalCursor(limit)) == PrimesBelow(limit + 1)
  {
    hide IsPrime;
    if limit < 2 {
      NoPrimeBelow2();
    } else if limit > 2 && limit % 2 == 1 {
      EvenNotPrime(limit + 1);
    }
  }

  lemma NoPrimeBelow2()
    ensures PrimesBelow(1) == PrimesBelow(2) == []
  {
    assert PrimesBelow(1) == PrimesBelow(0);
  }

  lemma CountMonotone(c: nat, d: nat)
    requires c <= d
    ensures |PrimesBelow(c)| <= |PrimesBelow(d)|
    decreases d
  {
    if c < d { CountMonotone(c, d - 1); }
  }

  // ---------------------------------------------------------------- termination

  /** The state after k iterations, running on past the limit. */
  function Iterate(s: State, k: nat): State
    decreases k
  {
    if k == 0 then s else Iterate(Advance(s), k - 1)
  }

  lemma {:induction false} LimitKept(s: State, k: nat)
    ensures Iterate(s, k).limit == s.limit
    decreases k
  {
    hide IsPrime;
    if k == 0 {
    } else {
      LimitKept(Advance(s), k - 1);
    }
  }

  /** How far a cursor is from leaving the loop. An even cursor above 2 may wrap to 0 first, and goes on
      over 2 and the odd numbers. */
  function Remaining(c: u64, limit: u64): nat {
    if c > limit then 0
    else if c == 2 || c % 2 == 1 then limit - c + 1
    else if c == 0 then limit + 2
    else limit - c + limit + 3
  }

  lemma NextCloser(c: u64, limit: u64)
    requires c <= limit < MAX
    ensures Remaining(NextCandidate(c), limit) < Remaining(c, limit)
  {
  }

  /** The loop guard fails after k iterations. */
  predicate StopsAt(s: State, k: nat) {
    Done(Iterate(s, k))
  }

  /** From any state, on the path or not, the sieve loop stops if and only if the limit is not 2^64 - 1;
      at that limit no u64 cursor ever exceeds it. */
  lemma StopsIff(s: State)
    ensures (exists k: nat :: StopsAt(s, k)) <==> s.limit != MAX
  {
    if s.limit == MAX {
      forall k: nat ensures !StopsAt(s, k) { LimitKept(s, k); }
    } else {
      var k := StoppingPoint(s);
      assert StopsAt(s, k);
    }
  }

  lemma {:induction false} StoppingPoint(s: State) returns (k: nat)
    requires s.limit < MAX
    ensures StopsAt(s, k)
    decreases Remaining(s.next, s.limit)
  {
    hide IsPrime, Remaining;
    if Done(s) {
      k := 0;
    } else {
      NextCloser(s.next, s.limit);
      var m := StoppingPoint(Advance(s));
      k := m + 1;
    }
  }
}
