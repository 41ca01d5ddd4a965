/** Machine words: unsigned 64-bit values as naturals with explicit wrap-around, and the little-endian byte
    order of the state files. */
module Words {

  const TWO64: nat := 0x1_0000_0000_0000_0000
  const TWO32: nat := 0x1_0000_0000

  /** One more than the largest signed 64-bit value. */
  const INT64: nat := 0x8000_0000_0000_0000

  type byte = bv8

  type u64 = x: nat | x < TWO64 witness 0

  type u32 = x: nat | x < TWO32 witness 0

  datatype Option<+T> = None | Some(value: T)

  datatype Result<+T, +E> = Ok(value: T) | Err(error: E)

  /** What a u64 register keeps of an exact natural result. */
  function Wrap(x: nat): u64 {
    x % TWO64
  }

  /** The cast to a 32-bit count. */
  function Wrap32(x: nat): u32 {
    x % TWO32
  }

  // ---------------------------------------------------------------- bytes and numbers

  /** The k low-order binary digits of n, least significant first. */
  function BitsOf(n: nat, k: nat): (b: seq<bool>)
    ensures |b| == k
  {
    if k == 0 then [] else [n % 2 == 1] + BitsOf(n / 2, k - 1)
  }

  function Number(b: seq<bool>): nat {
    if b == [] then 0 else (if b[0] then 1 else 0) + 2 * Number(b[1..])
  }

  function Pow2(k: nat): nat {
    if k == 0 then 1 else 2 * Pow2(k - 1)
  }

  lemma {:induction false} NumberBound(b: seq<bool>)
    ensures Number(b) < Pow2(|b|)
  {
    if b == [] {
    } else {
      NumberBound(b[1..]);
    }
  }

  lemma {:induction false} NumberOfBits(n: nat, k: nat)
    requires n < Pow2(k)
    ensures Number(BitsOf(n, k)) == n
  {
    if k == 0 {
    } else {
      assert BitsOf(n, k)[1..] == BitsOf(n / 2, k - 1);
      NumberOfBits(n / 2, k - 1);
    }
  }

  lemma {:induction false} BitsOfNumber(b: seq<bool>)
    ensures BitsOf(Number(b), |b|) == b
  {
    if b == [] {
    } else {
      BitsOfNumber(b[1..]);
      assert b == [b[0]] + b[1..];
    }
  }

  function At(b: bool, w: byte): byte {
    if b then w else 0
  }

  function Pack8(b0: bool, b1: bool, b2: bool, b3: bool, b4: bool, b5: bool, b6: bool, b7: bool): byte {
    At(b0, 1) | At(b1, 2) | At(b2, 4) | At(b3, 8) | At(b4, 16) | At(b5, 32) | At(b6, 64) | At(b7, 128)
  }

  function Packed(b: seq<bool>): byte
    requires |b| == 8
  {
    Pack8(b[0], b[1], b[2], b[3], b[4], b[5], b[6], b[7])
  }

  function Unpacked(w: byte): (b: seq<bool>)
    ensures |b| == 8
  {
    [w & 1 != 0, w & 2 != 0, w & 4 != 0, w & 8 != 0, w & 16 != 0, w & 32 != 0, w & 64 != 0, w & 128 != 0]
  }

  lemma PackedUnpacked(w: byte)
    ensures Packed(Unpacked(w)) == w
  {
  }

  lemma Pack8Bits(b0: bool, b1: bool, b2: bool, b3: bool, b4: bool, b5: bool, b6: bool, b7: bool)
    ensures var w := Pack8(b0, b1, b2, b3, b4, b5, b6, b7);
            && (w & 1 != 0) == b0 && (w & 2 != 0) == b1 && (w & 4 != 0) == b2 && (w & 8 != 0) == b3
            && (w & 16 != 0) == b4 && (w & 32 != 0) == b5 && (w & 64 != 0) == b6 && (w & 128 != 0) == b7
  {
  }

  lemma UnpackedPacked(b: seq<bool>)
    requires |b| == 8
    ensures Unpacked(Packed(b)) == b
  {
    hide Pack8;
    Pack8Bits(b[0], b[1], b[2], b[3], b[4], b[5], b[6], b[7]);
  }

  lemma Pow2Of8()
    ensures Pow2(8) == 256
  {
    assert Pow2(4) == 16;
  }

  function ByteOf(n: nat): byte {
    Packed(BitsOf(n, 8))
  }

  function NatOf(w: byte): (n: nat)
    ensures n < 256
  {
    NumberBound(Unpacked(w));
    Pow2Of8();
    Number(Unpacked(w))
  }

  lemma NatOfByte(n: nat)
    requires n < 256
    ensures NatOf(ByteOf(n)) == n
  {
    hide Packed, Unpacked;
    UnpackedPacked(BitsOf(n, 8));
    Pow2Of8();
    NumberOfBits(n, 8);
  }

  lemma ByteOfNat(w: byte)
    ensures ByteOf(NatOf(w)) == w
  {
    hide Packed, Unpacked;
    BitsOfNumber(Unpacked(w));
    PackedUnpacked(w);
  }

  // ---------------------------------------------------------------- 64-bit little endian

  function Pow256(n: nat): (r: nat)
    ensures r > 0
  {
    if n == 0 then 1 else 256 * Pow256(n - 1)
  }

  /** The n low-order base-256 digits of v, least significant first. */
  function Digits(v: nat, n: nat): (b: seq<byte>)
    ensures |b| == n
  {
    if n == 0 then [] else [ByteOf(v % 256)] + Digits(v / 256, n - 1)
  }

  /** The value of a little-endian digit string. */
  function Value(b: seq<byte>): nat {
    if b == [] then 0 else NatOf(b[0]) + 256 * Value(b[1..])
  }

  lemma {:induction false} ValueBound(b: seq<byte>)
    ensures Value(b) < Pow256(|b|)
  {
    if b == [] {
    } else {
      ValueBound(b[1..]);
    }
  }

  lemma {:induction false} ValueOfDigits(v: nat, n: nat)
    requires v < Pow256(n)
    ensures Value(Digits(v, n)) == v
  {
    if n == 0 {
    } else {
      var d := Digits(v, n);
      assert d[1..] == Digits(v / 256, n - 1);
      ValueOfDigits(v / 256, n - 1);
      NatOfByte(v % 256);
    }
  }

  lemma {:induction false} DigitsOfValue(b: seq<byte>)
    ensures Digits(Value(b), |b|) == b
  {
    hide NatOf, ByteOf;
    if b == [] {
    } else {
      DigitsOfValue(b[1..]);
      assert Value(b) / 256 == Value(b[1..]) && Value(b) % 256 == NatOf(b[0]);
      ByteOfNat(b[0]);
      assert b == [b[0]] + b[1..];
    }
  }

  lemma {:induction false} DivDiv(v: nat, p: nat)
    requires p > 0
    ensures (v / 256) / p == v / (256 * p)
  {
    var w := v / 256;
    var q, r := w / p, w % p;
    assert v == 256 * (q * p + r) + v % 256;
    assert v == q * (256 * p) + (256 * r + v % 256);
    assert 256 * r + v % 256 < 256 * p;
    QuotientUnique(v, 256 * p, q, 256 * r + v % 256);
  }

  lemma MultipleOutOfRange(e: int, d: nat)
    requires d > 0
    ensures e >= 1 ==> e * d >= d
    ensures e <= -1 ==> e * d <= 0 - d
  {
  }

  lemma QuotientUnique(v: nat, d: nat, q: nat, r: nat)
    requires d > 0 && r < d && v == q * d + r
    ensures v / d == q && v % d == r
  {
    var e := v / d - q;
    assert v == (q + e) * d + v % d;
    assert e * d == r - v % d;
    MultipleOutOfRange(e, d);
  }

  /** Digit k is what the shift-and-truncate of the writers extracts. */
  lemma {:induction false} DigitAt(v: nat, n: nat, k: nat)
    requires k < n
    ensures Digits(v, n)[k] == ByteOf(v / Pow256(k) % 256)
  {
    hide ByteOf;
    if k == 0 {
    } else {
      DigitAt(v / 256, n - 1, k - 1);
      DivDiv(v, Pow256(k - 1));
      var q := v / Pow256(k);
      assert Digits(v, n)[k] == Digits(v / 256, n - 1)[k - 1] == ByteOf(q % 256);
    }
  }

  lemma Pow256Values()
    ensures Pow256(4) == 0x1_0000_0000 && Pow256(8) == TWO64
  {
    assert Pow256(2) == 65536;
    assert Pow256(4) == 256 * 256 * Pow256(2);
    assert Pow256(6) == 256 * 256 * Pow256(4);
    assert Pow256(8) == 256 * 256 * Pow256(6);
  }

  function BytesOf64(v: u64): (b: seq<byte>)
    ensures |b| == 8
  {
    Digits(v, 8)
  }

  function Read64(b: seq<byte>, off: nat): u64
    requires off + 8 <= |b|
  {
    Pow256Values();
    ValueBound(b[off..off + 8]);
    Value(b[off..off + 8])
  }

  function BytesOf32(v: u32): (b: seq<byte>)
    ensures |b| == 4
  {
    Digits(v, 4)
  }

  function Read32(b: seq<byte>, off: nat): u32
    requires off + 4 <= |b|
  {
    Pow256Values();
    ValueBound(b[off..off + 4]);
    Value(b[off..off + 4])
  }

  lemma Read64OfBytes(pre: seq<byte>, v: u64, post: seq<byte>)
    ensures Read64(pre + BytesOf64(v) + post, |pre|) == v
  {
    assert (pre + BytesOf64(v) + post)[|pre|..|pre| + 8] == BytesOf64(v);
    Pow256Values();
    ValueOfDigits(v, 8);
  }

  lemma BytesOfRead64(b: seq<byte>, off: nat)
    requires off + 8 <= |b|
    ensures BytesOf64(Read64(b, off)) == b[off..off + 8]
  {
    DigitsOfValue(b[off..off + 8]);
  }

  lemma Read32OfBytes(pre: seq<byte>, v: u32, post: seq<byte>)
    ensures Read32(pre + BytesOf32(v) + post, |pre|) == v
  {
    assert (pre + BytesOf32(v) + post)[|pre|..|pre| + 4] == BytesOf32(v);
    Pow256Values();
    ValueOfDigits(v, 4);
  }

  lemma BytesOfRead32(b: seq<byte>, off: nat)
    requires off + 4 <= |b|
    ensures BytesOf32(Read32(b, off)) == b[off..off + 4]
  {
    DigitsOfValue(b[off..off + 4]);
  }

  /** The writers' loop: n shifts, each truncated to a byte. */
  method Put(buf: seq<byte>, v: nat, n: nat) returns (out: seq<byte>)
    ensures out == buf + Digits(v, n)
  {
    hide ByteOf, Digits;
    out := buf;
    var p := 1;
    for i := 0 to n
      invariant p == Pow256(i)
      invariant out == buf + Digits(v, n)[..i]
    {
      DigitAt(v, n, i);
      out := out + [ByteOf(v / p % 256)];
      assert out == buf + Digits(v, n)[..i + 1];
      p := 256 * p;
    }
    assert Digits(v, n)[..n] == Digits(v, n);
  }

  lemma MulAssoc(a: nat, b: nat, c: nat)
    ensures a * (b * c) == (a * b) * c
  {
  }

  lemma {:induction false} ValueSnoc(b: seq<byte>, d: byte)
    ensures Value(b + [d]) == Value(b) + Pow256(|b|) * NatOf(d)
  {
    if b == [] {
      assert b + [d] == [d];
    } else {
      assert (b + [d])[1..] == b[1..] + [d];
      ValueSnoc(b[1..], d);
      MulAssoc(256, Pow256(|b| - 1), NatOf(d));
    }
  }

  /** The readers' loop: byte i is shifted into place and added in. */
  method Get(b: seq<byte>, off: nat, n: nat) returns (v: nat)
    requires off + n <= |b|
    ensures v == Value(b[off..off + n])
  {
    v := 0;
    var p := 1;
    for i := 0 to n
      invariant p == Pow256(i)
      invariant v == Value(b[off..off + i])
    {
      assert b[off..off + i + 1] == b[off..off + i] + [b[off + i]];
      ValueSnoc(b[off..off + i], b[off + i]);
      v := v + p * NatOf(b[off + i]);
      p := 256 * p;
    }
  }

  // ---------------------------------------------------------------- sequences

  function Last<T>(s: seq<T>): T
    requires s != []
  {
    s[|s| - 1]
  }

  /** The last (at most) n elements. */
  function Tail<T>(s: seq<T>, n: nat): (t: seq<T>)
    ensures |t| == if |s| <= n then |s| else n
  {
    if |s| <= n then s else s[|s| - n..]
  }
}
