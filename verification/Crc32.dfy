/** The CRC-32 of the state files (reflected polynomial 0xEDB88320), first bit by bit, then with the
    256-entry table the workers use, and what it detects. The register operations are named so that
    the longer proofs can rest on their laws alone. */
module Crc32 {
  import opened Words

  const POLY: bv32 := 0xEDB88320
  const ONES: bv32 := 0xFFFF_FFFF

  function Xor(a: bv32, b: bv32): bv32 {
    a ^ b
  }

  /** The word moved eight places towards the high end. */
  function Up(a: bv32): bv32 {
    a << 8
  }

  /** A byte as it enters the low end of the register. */
  function Low(b: byte): bv32 {
    b as bv32
  }

  // ---------------------------------------------------------------- the checksum word on disk

  function SealBytes(v: bv32): (b: seq<byte>)
    ensures |b| == 4
  {
    [(v & 0xFF) as byte, ((v >> 8) & 0xFF) as byte, ((v >> 16) & 0xFF) as byte, ((v >> 24) & 0xFF) as byte]
  }

  function Pack32(b0: byte, b1: byte, b2: byte, b3: byte): bv32 {
    (b0 as bv32) | ((b1 as bv32) << 8) | ((b2 as bv32) << 16) | ((b3 as bv32) << 24)
  }

  function SealWord(b: seq<byte>, off: nat): bv32
    requires off + 4 <= |b|
  {
    Pack32(b[off], b[off + 1], b[off + 2], b[off + 3])
  }

  lemma PackSealBytes(v: bv32)
    ensures var w := SealBytes(v); Pack32(w[0], w[1], w[2], w[3]) == v
  {
  }

  lemma SealWordOfBytes(pre: seq<byte>, v: bv32)
    ensures SealWord(pre + SealBytes(v), |pre|) == v
  {
    hide SealBytes, Pack32;
    PackSealBytes(v);
  }

  lemma SealBytesOfPack(b0: byte, b1: byte, b2: byte, b3: byte)
    ensures SealBytes(Pack32(b0, b1, b2, b3)) == [b0, b1, b2, b3]
  {
  }

  lemma SealBytesOfWord(b: seq<byte>, off: nat)
    requires off + 4 <= |b|
    ensures SealBytes(SealWord(b, off)) == b[off..off + 4]
  {
    hide SealBytes, Pack32;
    SealBytesOfPack(b[off], b[off + 1], b[off + 2], b[off + 3]);
  }

  // ---------------------------------------------------------------- table indices

  /** A table index as a register word, and back. */
  function IndexWord(n: nat): bv32 {
    ByteOf(n) as bv32
  }

  function IndexOf(c: bv32): (n: nat)
    requires c <= 0xFF
    ensures n < 256
  {
    NatOf(c as byte)
  }

  lemma IndexRoundTrip(c: bv32)
    requires c <= 0xFF
    ensures IndexWord(IndexOf(c)) == c
  {
    hide ByteOf, NatOf;
    ByteOfNat(c as byte);
  }

  // ---------------------------------------------------------------- bit-by-bit definition

  /** One step of the reflected shift register. */
  function Shift(c: bv32): bv32 {
    if c & 1 == 1 then POLY ^ (c >> 1) else c >> 1
  }

  function Shifts(c: bv32, n: nat): bv32
    decreases n
  {
    if n == 0 then c else Shifts(Shift(c), n - 1)
  }

  /** The register after a byte: the byte enters the low end, then eight shifts. */
  function Feed(c: bv32, b: byte): bv32 {
    Shifts(Xor(c, Low(b)), 8)
  }

  function FeedAll(c: bv32, data: seq<byte>): bv32
    decreases |data|
  {
    if data == [] then c else FeedAll(Feed(c, data[0]), data[1..])
  }

  function Checksum(data: seq<byte>): bv32 {
    Xor(FeedAll(ONES, data), ONES)
  }

  lemma EightShifts(c: bv32)
    ensures Shifts(c, 8) == Shift(Shift(Shift(Shift(Shift(Shift(Shift(Shift(c))))))))
  {
    hide Shift;
    assert Shifts(c, 8) == Shifts(Shift(Shift(Shift(Shift(c)))), 4);
  }

  lemma FeedIs(c: bv32, b: byte, r: bv32)
    requires var x := Xor(c, Low(b)); Shift(Shift(Shift(Shift(Shift(Shift(Shift(Shift(x)))))))) == r
    ensures Feed(c, b) == r
  {
    hide Shift, Xor, Low;
    EightShifts(Xor(c, Low(b)));
  }

  /** A known value of this CRC: the checksum of the one-byte message "a". */
  lemma KnownChecksum()
    ensures Checksum([0x61]) == 0xE8B7_BE43
  {
    FeedIs(ONES, 0x61, 0x174841BC);
    assert FeedAll(ONES, [0x61]) == FeedAll(Feed(ONES, 0x61), []);
  }

  // ---------------------------------------------------------------- algebra of the register

  lemma XorAssoc(a: bv32, b: bv32, c: bv32)
    ensures Xor(Xor(a, b), c) == Xor(a, Xor(b, c))
  {
  }

  lemma XorComm(a: bv32, b: bv32)
    ensures Xor(a, b) == Xor(b, a)
  {
  }

  lemma XorCancel(a: bv32, b: bv32, c: bv32)
    requires Xor(a, c) == Xor(b, c)
    ensures a == b
  {
  }

  lemma ShiftInjective(a: bv32, b: bv32)
    requires Shift(a) == Shift(b)
    ensures a == b
  {
  }

  lemma {:induction false} ShiftsInjective(a: bv32, b: bv32, n: nat)
    requires Shifts(a, n) == Shifts(b, n)
    ensures a == b
    decreases n
  {
    hide Shift;
    if n == 0 {
    } else {
      ShiftsInjective(Shift(a), Shift(b), n - 1);
      ShiftInjective(a, b);
    }
  }

  lemma {:induction false} ShiftsAdd(c: bv32, m: nat, n: nat)
    ensures Shifts(c, m + n) == Shifts(Shifts(c, m), n)
    decreases m
  {
    hide Shift;
    if m == 0 {
    } else {
      ShiftsAdd(Shift(c), m - 1, n);
    }
  }

  lemma XorBits(a: bv32, b: bv32)
    ensures (a ^ b) >> 1 == (a >> 1) ^ (b >> 1)
    ensures (a ^ b) & 1 == (a & 1) ^ (b & 1)
    ensures (a & 1 == 0 || a & 1 == 1) && (b & 1 == 0 || b & 1 == 1)
  {
  }

  lemma XorTwice(p: bv32, x: bv32, y: bv32)
    ensures (p ^ x) ^ (p ^ y) == x ^ y
    ensures (p ^ x) ^ y == p ^ (x ^ y)
    ensures x ^ (p ^ y) == p ^ (x ^ y)
  {
  }

  lemma ShiftLinear(a: bv32, b: bv32)
    ensures Shift(a ^ b) == Shift(a) ^ Shift(b)
  {
    XorBits(a, b);
    XorTwice(POLY, a >> 1, b >> 1);
  }

  lemma ShiftXor(a: bv32, b: bv32)
    ensures Shift(Xor(a, b)) == Xor(Shift(a), Shift(b))
  {
    hide Shift;
    ShiftLinear(a, b);
  }

  lemma {:induction false} ShiftsXor(a: bv32, b: bv32, n: nat)
    ensures Shifts(Xor(a, b), n) == Xor(Shifts(a, n), Shifts(b, n))
    decreases n
  {
    hide Shift, Xor;
    if n == 0 {
    } else {
      ShiftXor(a, b);
      ShiftsXor(Shift(a), Shift(b), n - 1);
    }
  }

  /** A word of at most 24 bits, which Up moves without loss. */
  predicate Short(y: bv32) {
    y & 0xFF00_0000 == 0
  }

  function Double(a: bv32): bv32 {
    a << 1
  }

  predicate TopClear(a: bv32) {
    a & 0x8000_0000 == 0
  }

  lemma DoubledBits(a: bv32)
    requires TopClear(a)
    ensures Double(a) & 1 == 0 && Double(a) >> 1 == a
  {
  }

  lemma ShiftDoubled(a: bv32)
    requires TopClear(a)
    ensures Shift(Double(a)) == a
  {
    hide Double, TopClear;
    DoubledBits(a);
  }

  lemma Doublings(y: bv32)
    requires Short(y)
    ensures TopClear(y) && TopClear(Double(y)) && TopClear(Double(Double(y))) && TopClear(Double(Double(Double(y))))
    ensures var z := Double(Double(Double(Double(y))));
            && TopClear(z) && TopClear(Double(z)) && TopClear(Double(Double(z))) && TopClear(Double(Double(Double(z))))
            && Double(Double(Double(Double(z)))) == Up(y)
  {
  }

  /** Up is eight doublings, and each is undone by one shift. */
  lemma ShiftsDown(y: bv32)
    requires Short(y)
    ensures Shifts(Up(y), 8) == y
  {
    hide Shift, Double, TopClear, Up, Short;
    Doublings(y);
    var y1 := Double(y); var y2 := Double(y1); var y3 := Double(y2); var y4 := Double(y3);
    var y5 := Double(y4); var y6 := Double(y5); var y7 := Double(y6); var y8 := Double(y7);
    ShiftDoubled(y); ShiftDoubled(y1); ShiftDoubled(y2); ShiftDoubled(y3);
    ShiftDoubled(y4); ShiftDoubled(y5); ShiftDoubled(y6); ShiftDoubled(y7);
    assert Shifts(y8, 8) == Shifts(y7, 7) == Shifts(y6, 6) == Shifts(y5, 5)
        == Shifts(y4, 4) == Shifts(y3, 3) == Shifts(y2, 2) == Shifts(y1, 1) == Shifts(y, 0);
  }

  lemma SplitLowByte(x: bv32)
    ensures x == Xor(x & 0xFF, Up(x >> 8))
    ensures Short(x >> 8)
  {
  }

  /** Table lookup on the low byte plus a byte-wide shift equals eight single shifts. */
  lemma TableStep(x: bv32)
    ensures Shifts(x, 8) == Xor(Shifts(x & 0xFF, 8), x >> 8)
  {
    hide Shifts, Xor, Up, Short;
    SplitLowByte(x);
    ShiftsXor(x & 0xFF, Up(x >> 8), 8);
    ShiftsDown(x >> 8);
  }

  lemma ByteAboveLow(c: bv32, b: byte)
    ensures Xor(c, Low(b)) >> 8 == c >> 8
  {
  }

  // ---------------------------------------------------------------- table-driven implementation

  ghost predicate IsTable(t: seq<bv32>) {
    |t| == 256 && forall k: nat :: k < 256 ==> t[k] == Shifts(IndexWord(k), 8)
  }

  method BuildTable() returns (t: array<bv32>)
    ensures fresh(t)
    ensures IsTable(t[..])
  {
    hide Shifts, IndexWord;
    t := new bv32[256];
    for i := 0 to 256
      invariant forall k: nat :: k < i ==> t[k] == Shifts(IndexWord(k), 8)
    {
      var c := TableEntry(i);
      t[i] := c;
    }
  }

  lemma ShiftIs(c: bv32)
    ensures Shift(c) == if c & 1 == 1 then POLY ^ (c >> 1) else c >> 1
  {
  }

  method TableEntry(i: nat) returns (c: bv32)
    requires i < 256
    ensures c == Shifts(IndexWord(i), 8)
  {
    hide Shift, IndexWord;
    c := IndexWord(i);
    for j := 0 to 8
      invariant Shifts(c, 8 - j) == Shifts(IndexWord(i), 8)
    {
      ShiftIs(c);
      c := if c & 1 == 1 then POLY ^ (c >> 1) else c >> 1;
    }
  }

  lemma LowByte(x: bv32)
    ensures x & 0xFF <= 0xFF
  {
  }

  /** One iteration of the table loop is the bit-by-bit Feed. */
  lemma TableFeed(t: seq<bv32>, c: bv32, b: byte)
    requires IsTable(t)
    ensures Xor(c, Low(b)) & 0xFF <= 0xFF
    ensures Xor(t[IndexOf(Xor(c, Low(b)) & 0xFF)], c >> 8) == Feed(c, b)
  {
    hide Shifts, Xor, Low, IndexWord, IndexOf;
    var x := Xor(c, Low(b));
    TableStep(x);
    ByteAboveLow(c, b);
    LowByte(x);
    IndexRoundTrip(x & 0xFF);
  }

  /** The table-driven loop computes the bit-by-bit checksum of every input. */
  method Compute(t: array<bv32>, data: seq<byte>) returns (r: bv32)
    requires IsTable(t[..])
    ensures r == Checksum(data)
  {
    hide Shifts, Xor, Low, Feed, IndexOf;
    var c := ONES;
    for i := 0 to |data|
      invariant FeedAll(c, data[i..]) == FeedAll(ONES, data)
    {
      TableFeed(t[..], c, data[i]);
      c := Xor(t[IndexOf(Xor(c, Low(data[i])) & 0xFF)], c >> 8);
      assert data[i..][1..] == data[i + 1..];
    }
    r := Xor(c, ONES);
  }

  // ---------------------------------------------------------------- detection

  lemma {:induction false} FeedAllConcat(c: bv32, x: seq<byte>, y: seq<byte>)
    ensures FeedAll(c, x + y) == FeedAll(FeedAll(c, x), y)
    decreases |x|
  {
    hide Feed;
    if x == [] {
      assert x + y == y;
    } else {
      assert (x + y)[1..] == x[1..] + y;
      FeedAllConcat(Feed(c, x[0]), x[1..], y);
    }
  }

  /** Different registers stay different under the same input. */
  lemma {:induction false} FeedAllInjective(a: bv32, b: bv32, data: seq<byte>)
    requires FeedAll(a, data) == FeedAll(b, data)
    ensures a == b
    decreases |data|
  {
    hide Shifts, Xor, Low;
    if data == [] {
    } else {
      FeedAllInjective(Feed(a, data[0]), Feed(b, data[0]), data[1..]);
      ShiftsInjective(Xor(a, Low(data[0])), Xor(b, Low(data[0])), 8);
      XorCancel(a, b, Low(data[0]));
    }
  }

  /** A short word absorbed after a byte acts as that word moved up and absorbed with the byte. */
  lemma AbsorbEarlier(x: bv32, w: bv32, y: bv32)
    requires Short(y)
    ensures Xor(Shifts(Xor(x, w), 8), y) == Shifts(Xor(x, Xor(w, Up(y))), 8)
  {
    hide Shifts, Xor, Up, Short;
    ShiftsXor(Xor(x, w), Up(y), 8);
    ShiftsDown(y);
    XorAssoc(x, w, Up(y));
  }

  lemma PackHorner(b0: byte, b1: byte, b2: byte, b3: byte)
    ensures var w3 := Low(b3); var w2 := Xor(Low(b2), Up(w3)); var w1 := Xor(Low(b1), Up(w2));
            Short(w3) && Short(w2) && Short(w1) && Xor(Low(b0), Up(w1)) == Pack32(b0, b1, b2, b3)
  {
  }

  /** Four bytes enter the register like one little-endian word. */
  lemma FourBytes(c: bv32, d: seq<byte>)
    requires |d| == 4
    ensures FeedAll(c, d) == Shifts(Xor(c, SealWord(d, 0)), 32)
  {
    hide Shifts, Xor, Low, Up, Short, Pack32;
    var w3 := Low(d[3]); var w2 := Xor(Low(d[2]), Up(w3)); var w1 := Xor(Low(d[1]), Up(w2));
    var w0 := Xor(Low(d[0]), Up(w1));
    PackHorner(d[0], d[1], d[2], d[3]);
    var r1 := Feed(c, d[0]); var r2 := Feed(r1, d[1]); var r3 := Feed(r2, d[2]);
    AbsorbEarlier(c, Low(d[0]), w1);
    AbsorbEarlier(r1, Low(d[1]), w2);
    AbsorbEarlier(r2, Low(d[2]), w3);
    FeedFour(c, d);
    var z := Xor(c, w0);
    ShiftsAdd(z, 8, 8);
    ShiftsAdd(z, 16, 8);
    ShiftsAdd(z, 24, 8);
  }

  lemma FeedFour(c: bv32, d: seq<byte>)
    requires |d| == 4
    ensures FeedAll(c, d) == Feed(Feed(Feed(Feed(c, d[0]), d[1]), d[2]), d[3])
  {
    hide Feed;
    var e := FeedAll(Feed(c, d[0]), d[1..]);
    assert d[1..][1..] == d[2..] && d[2..][1..] == d[3..] && d[3..][1..] == [];
    assert e == FeedAll(Feed(Feed(c, d[0]), d[1]), d[2..]);
    assert e == FeedAll(Feed(Feed(Feed(c, d[0]), d[1]), d[2]), d[3..]);
    assert e == FeedAll(Feed(Feed(Feed(Feed(c, d[0]), d[1]), d[2]), d[3]), []);
  }

  lemma XorUndo(a: bv32, b: bv32)
    ensures Xor(a, Xor(a, b)) == b
  {
  }

  lemma XorOnes(s: bv32, t: bv32)
    ensures t == Xor(s, ONES) <==> Xor(s, t) == ONES
  {
    hide Xor;
    XorUndo(s, ONES);
    XorUndo(s, t);
  }

  /** The check every reader makes: the last four bytes are the checksum of all before them. */
  predicate Sealed(buf: seq<byte>)
    requires |buf| >= 4
  {
    SealWord(buf, |buf| - 4) == Checksum(buf[..|buf| - 4])
  }

  /** A file is accepted exactly when the register run over body AND trailer ends in one fixed word. */
  lemma SealedIffResidue(buf: seq<byte>)
    requires |buf| >= 4
    ensures Sealed(buf) <==> FeedAll(ONES, buf) == Shifts(ONES, 32)
  {
    hide Shifts, Xor, Pack32, FeedAll;
    var n := |buf| - 4;
    var s, t := FeedAll(ONES, buf[..n]), SealWord(buf, n);
    assert buf == buf[..n] + buf[n..];
    FeedAllConcat(ONES, buf[..n], buf[n..]);
    FourBytes(s, buf[n..]);
    assert SealWord(buf[n..], 0) == t;
    XorOnes(s, t);
    if Shifts(Xor(s, t), 32) == Shifts(ONES, 32) { ShiftsInjective(Xor(s, t), ONES, 32); }
  }

  /** Two byte strings of one length that differ only inside a window of four bytes leave the
      register in different states. */
  lemma BurstChangesRegister(a: seq<byte>, b: seq<byte>, k: nat)
    requires |a| == |b| && k + 4 <= |a| && a != b
    requires a[..k] == b[..k] && a[k + 4..] == b[k + 4..]
    ensures FeedAll(ONES, a) != FeedAll(ONES, b)
  {
    hide *;
    var c := FeedAll(ONES, a[..k]);
    var wa, wb, z := a[k..k + 4], b[k..k + 4], a[k + 4..];
    assert a == a[..k] + wa + z && b == b[..k] + wb + z;
    assert wa == wa[0..4] && wb == wb[0..4];
    FeedAllConcat(ONES, a[..k] + wa, z);
    FeedAllConcat(ONES, b[..k] + wb, z);
    FeedAllConcat(ONES, a[..k], wa);
    FeedAllConcat(ONES, b[..k], wb);
    if FeedAll(ONES, a) == FeedAll(ONES, b) {
      FeedAllInjective(FeedAll(c, wa), FeedAll(c, wb), z);
      FourBytes(c, wa);
      FourBytes(c, wb);
      ShiftsInjective(Xor(c, SealWord(wa, 0)), Xor(c, SealWord(wb, 0)), 32);
      XorComm(c, SealWord(wa, 0));
      XorComm(c, SealWord(wb, 0));
      XorCancel(SealWord(wa, 0), SealWord(wb, 0), c);
      SealBytesOfWord(wa, 0);
      SealBytesOfWord(wb, 0);
    }
  }

  /** Any change confined to four consecutive bytes of an accepted file, whether in the body, in the
      trailer or across the boundary, breaks the checksum comparison. */
  lemma BurstRejected(a: seq<byte>, b: seq<byte>, k: nat)
    requires |a| == |b| && k + 4 <= |a| && a != b
    requires a[..k] == b[..k] && a[k + 4..] == b[k + 4..]
    requires Sealed(a)
    ensures !Sealed(b)
  {
    hide *;
    SealedIffResidue(a);
    SealedIffResidue(b);
    BurstChangesRegister(a, b, k);
  }

  /** Appending the checksum of the body makes a file readers accept. */
  lemma SealAccepted(body: seq<byte>)
    ensures Sealed(body + SealBytes(Checksum(body)))
  {
    hide Checksum, SealWord, SealBytes;
    var buf := body + SealBytes(Checksum(body));
    assert buf[..|body|] == body;
    SealWordOfBytes(body, Checksum(body));
  }
}
