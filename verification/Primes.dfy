/** Primality and the worker's trial division on u64 registers. */
module Primes {
  import opened Words

  predicate Divides(d: nat, n: nat)
    requires d > 0
  {
    n % d == 0
  }

  predicate IsPrime(n: nat) {
    n >= 2 && forall d :: 2 <= d < n ==> !Divides(d, n)
  }

  /** All primes below c, in increasing order. */
  function PrimesBelow(c: nat): (ps: seq<nat>)
    ensures |ps| <= c && forall i :: 0 <= i < |ps| ==> ps[i] < c
  {
    if c == 0 then []
    else if IsPrime(c - 1) then PrimesBelow(c - 1) + [c - 1]
    else PrimesBelow(c - 1)
  }

  /** PrimesBelow really is the increasing list of exactly the primes below c. */
  lemma {:induction false} PrimesBelowComplete(c: nat)
    ensures forall p: nat :: p in PrimesBelow(c) <==> p < c && IsPrime(p)
    ensures forall i, j :: 0 <= i < j < |PrimesBelow(c)| ==> PrimesBelow(c)[i] < PrimesBelow(c)[j]
  {
    if c == 0 {
    } else {
      hide IsPrime;
      PrimesBelowComplete(c - 1);
      var b := PrimesBelow(c - 1);
      assert forall i :: 0 <= i < |b| ==> b[i] in b;
    }
  }

  // ---------------------------------------------------------------- divisors

  lemma DividesByQuotient(n: nat, d: nat, q: nat)
    requires d > 0 && n == d * q
    ensures Divides(d, n)
  {
    QuotientUnique(n, d, q, 0);
  }

  /** A composite number has a divisor no larger than its square root. */
  lemma SmallDivisor(n: nat, d: nat) returns (e: nat)
    requires 2 <= d < n && Divides(d, n)
    ensures 2 <= e && e * e <= n && Divides(e, n)
  {
    var q := n / d;
    assert n == d * q;
    if d <= q {
      MulMonotone(d, d, q);
      e := d;
    } else {
      MulMonotone(q, q, d);
      if q <= 1 { MulMonotone(d, q, 1); }
      DividesByQuotient(n, q, d);
      e := q;
    }
  }

  lemma MulMonotone(a: nat, b: nat, c: nat)
    requires b <= c
    ensures a * b <= a * c
  {
  }

  /** Trial division may stop at the square root. */
  lemma NoSmallDivisorIsPrime(n: nat, i: nat)
    requires n >= 2 && i * i > n
    requires forall d :: 2 <= d < i ==> !Divides(d, n)
    ensures IsPrime(n)
  {
    forall d | 2 <= d < n ensures !Divides(d, n) {
      if Divides(d, n) {
        var e := SmallDivisor(n, d);
        if e >= i { MulMonotone(e, i, e); MulMonotone(i, i, e); }
        assert false;
      }
    }
  }

  lemma EvenDivisor(n: nat, d: nat)
    requires d >= 2 && d % 2 == 0 && Divides(d, n)
    ensures n % 2 == 0
  {
    var q, h := n / d, d / 2;
    assert n == d * q && d == 2 * h;
    assert n == 2 * (h * q);
  }

  lemma EvenNotPrime(n: nat)
    requires n % 2 == 0 && n != 2
    ensures !IsPrime(n)
  {
    assert n > 2 ==> Divides(2, n);
  }

  // ---------------------------------------------------------------- the wrapped loop guard

  /** An odd square root of -7 modulo 2^64: at this trial divisor the wrapped square exceeds every
      n up to 2^64 - 8, so the loop of is_prime_trial stops there at the latest. */
  const ROOT: nat := 1852311383259529397

  const LAST_EXACT: nat := 0xFFFF_FFFF   // the largest i whose square fits in 64 bits

  lemma RootStops()
    ensures Wrap(ROOT * ROOT) == TWO64 - 7
  {
    assert ROOT * ROOT == 185997997632698875 * TWO64 + (TWO64 - 7);
    QuotientUnique(ROOT * ROOT, TWO64, 185997997632698875, TWO64 - 7);
  }

  /** The four odd values above 2^64 - 8 all have a tiny divisor. */
  lemma TopValuesComposite(n: u64)
    requires n % 2 == 1 && n > TWO64 - 8
    ensures Divides(3, n) || Divides(11, n) || Divides(13, n)
  {
  }

  /** The exact square exceeds n whenever the wrapped one does. */
  lemma WrappedGuardSound(i: nat, n: u64)
    requires Wrap(i * i) > n
    ensures i * i > n
  {
  }

  lemma ExactSquare(i: nat)
    requires i <= LAST_EXACT
    ensures Wrap(i * i) == i * i
  {
    MulMonotone(i, i, LAST_EXACT);
    MulMonotone(LAST_EXACT, i, LAST_EXACT);
  }

  /** is_prime_trial decides primality for EVERY u64, although i * i wraps once i passes 2^32: composites
      are caught before that, and for primes the wrapped guard still stops the loop, at ROOT at the latest. */
  method IsPrimeTrial(n: u64) returns (r: bool)
    ensures r <==> IsPrime(n)
  {
    hide IsPrime, Wrap, Divides, Evaluates;
    SmallCases(n);
    if n < 2 { return false; }
    if n < 4 { return true; }
    if n % 2 == 0 { EvenNotPrime(n); return false; }
    var i: u64 := 3;
    EvaluatesFirst(n);
    while Wrap(i * i) <= n
      invariant 3 <= i <= ROOT && i % 2 == 1 && Evaluates(n, i)
      invariant i > LAST_EXACT ==> n >= LAST_EXACT * LAST_EXACT
      invariant forall d :: 2 <= d < i ==> !Divides(d, n)
      decreases ROOT - i
    {
      DivisorBelow(i, n);
      if n % i == 0 {
        ProperDivisor(i, n);
        return false;
      }
      NextDivisor(i, n);
      EvaluatesNext(n, i);
      i := Wrap(i + 2);
    }
    WrappedGuardSound(i, n);
    NoSmallDivisorIsPrime(n, i);
    return true;
  }

  /** The trial at e neither ends the loop by its guard nor finds a divisor. */
  predicate GoesOn(n: u64, e: nat)
    requires e > 0
  {
    Wrap(e * e) <= n && n % e != 0
  }

  /** The loop for n evaluates its guard at i. */
  predicate Evaluates(n: u64, i: nat) {
    i >= 3 && i % 2 == 1 && forall e :: 3 <= e < i && e % 2 == 1 ==> GoesOn(n, e)
  }

  lemma EvaluatesFirst(n: u64)
    ensures Evaluates(n, 3)
  {
  }

  lemma EvaluatesNext(n: u64, i: nat)
    requires Evaluates(n, i) && GoesOn(n, i)
    ensures Evaluates(n, i + 2)
  {
    hide Wrap;
  }

  /** The loop for n evaluates the square of i, and it does not fit in 64 bits. */
  predicate WrapsAt(n: u64, i: nat) {
    Evaluates(n, i) && Wrap(i * i) != i * i
  }

  predicate NoExactDivisor(n: u64) {
    forall d :: 3 <= d <= LAST_EXACT && d % 2 == 1 ==> !Divides(d, n)
  }

  /** The loop evaluates a square that wraps if and only if n is at least (2^32 - 1)^2 and has no odd
      divisor from 3 to 2^32 - 1; for every smaller n all its squares are exact. */
  lemma SquareWrapsIff(n: u64)
    ensures (exists i: nat :: WrapsAt(n, i)) <==> n >= LAST_EXACT * LAST_EXACT && NoExactDivisor(n)
  {
    hide WrapsAt, NoExactDivisor;
    if exists i: nat :: WrapsAt(n, i) {
      var i: nat :| WrapsAt(n, i);
      WrapNeeds(n, i);
    }
    if n >= LAST_EXACT * LAST_EXACT && NoExactDivisor(n) { WrapFollows(n); }
  }

  lemma WrapNeeds(n: u64, i: nat)
    requires WrapsAt(n, i)
    ensures n >= LAST_EXACT * LAST_EXACT && NoExactDivisor(n)
  {
    hide Wrap;
    assert i > LAST_EXACT by { if i <= LAST_EXACT { ExactSquare(i); } }
    assert GoesOn(n, LAST_EXACT);
    ExactSquare(LAST_EXACT);
    forall d | 3 <= d <= LAST_EXACT && d % 2 == 1 ensures !Divides(d, n) { assert GoesOn(n, d); }
  }

  lemma WrapFollows(n: u64)
    requires n >= LAST_EXACT * LAST_EXACT && NoExactDivisor(n)
    ensures WrapsAt(n, LAST_EXACT + 2)
  {
    var i := LAST_EXACT + 2;
    assert Wrap(i * i) != i * i;
    hide Wrap;
    forall e | 3 <= e < i && e % 2 == 1 ensures GoesOn(n, e) {
      ExactSquare(e);
      MulMonotone(e, e, LAST_EXACT);
      MulMonotone(LAST_EXACT, e, LAST_EXACT);
      assert !Divides(e, n);
    }
  }

  lemma SmallCases(n: nat)
    ensures n < 2 ==> !IsPrime(n)
    ensures IsPrime(2) && IsPrime(3)
    ensures n % 2 == 1 ==> !Divides(2, n)
  {
  }

  lemma ProperDivisor(d: nat, n: nat)
    requires 2 <= d < n && n % d == 0
    ensures !IsPrime(n)
  {
    assert Divides(d, n);
  }

  /** A trial divisor that the loop reaches is a proper candidate. */
  lemma DivisorBelow(i: u64, n: u64)
    requires 3 <= i <= ROOT && Wrap(i * i) <= n
    requires i > LAST_EXACT ==> n >= LAST_EXACT * LAST_EXACT
    ensures i < n
  {
    if i <= LAST_EXACT {
      ExactSquare(i);
      MulMonotone(i, 2, i);
    }
  }

  /** What one more unsuccessful trial leaves true. */
  lemma NextDivisor(i: u64, n: u64)
    requires n >= 5 && n % 2 == 1
    requires 3 <= i <= ROOT && i % 2 == 1 && Wrap(i * i) <= n && n % i != 0
    requires i > LAST_EXACT ==> n >= LAST_EXACT * LAST_EXACT
    requires forall d :: 2 <= d < i ==> !Divides(d, n)
    ensures i + 2 <= ROOT && Wrap(i + 2) == i + 2
    ensures i + 2 > LAST_EXACT ==> n >= LAST_EXACT * LAST_EXACT
    ensures forall d :: 2 <= d < i + 2 ==> !Divides(d, n)
  {
    assert i != ROOT by {
      RootStops();
      if i == ROOT {
        TopValuesComposite(n);
        assert false;
      }
    }
    if i == LAST_EXACT { ExactSquare(i); }
    forall d | 2 <= d < i + 2 ensures !Divides(d, n) {
      if d == i + 1 && Divides(d, n) { EvenDivisor(n, d); assert false; }
    }
  }
}
