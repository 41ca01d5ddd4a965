/** 64-bit registers as bit-vectors, their numbers, and the splitmix64 generator both procedural workers draw
    from. */
module Registers {
  import opened Words

  function Join(b0: byte, b1: byte, b2: byte, b3: byte, b4: byte, b5: byte, b6: byte, b7: byte): bv64 {
    (b0 as bv64) | ((b1 as bv64) << 8) | ((b2 as bv64) << 16) | ((b3 as bv64) << 24)
    | ((b4 as bv64) << 32) | ((b5 as bv64) << 40) | ((b6 as bv64) << 48) | ((b7 as bv64) << 56)
  }

  function Split(z: bv64): (b: seq<byte>)
    ensures |b| == 8
  {
    [(z & 0xFF) as byte, ((z >> 8) & 0xFF) as byte, ((z >> 16) & 0xFF) as byte, ((z >> 24) & 0xFF) as byte,
     ((z >> 32) & 0xFF) as byte, ((z >> 40) & 0xFF) as byte, ((z >> 48) & 0xFF) as byte, ((z >> 56) & 0xFF) as byte]
  }

  /** The register that holds x, and the number a register holds. */
  function Bits64(x: u64): bv64 {
    var b := BytesOf64(x);
    Join(b[0], b[1], b[2], b[3], b[4], b[5], b[6], b[7])
  }

  function Nat64(z: bv64): u64 {
    Pow256Values();
    ValueBound(Split(z));
    Value(Split(z))
  }

  lemma JoinSplit(z: bv64)
    ensures var b := Split(z); Join(b[0], b[1], b[2], b[3], b[4], b[5], b[6], b[7]) == z
  {
  }

  lemma SplitJoin(b0: byte, b1: byte, b2: byte, b3: byte, b4: byte, b5: byte, b6: byte, b7: byte)
    ensures Split(Join(b0, b1, b2, b3, b4, b5, b6, b7)) == [b0, b1, b2, b3, b4, b5, b6, b7]
  {
  }

  lemma BitsOfNat(z: bv64)
    ensures Bits64(Nat64(z)) == z
  {
    hide Split, Join, Value, Digits;
    DigitsOfValue(Split(z));
    JoinSplit(z);
  }

  lemma NatOfBits(x: u64)
    ensures Nat64(Bits64(x)) == x
  {
    hide Split, Join, Value, Digits;
    var b := BytesOf64(x);
    SplitJoin(b[0], b[1], b[2], b[3], b[4], b[5], b[6], b[7]);
    assert [b[0], b[1], b[2], b[3], b[4], b[5], b[6], b[7]] == b;
    Pow256Values();
    ValueOfDigits(x, 8);
  }

  lemma BitsInjective(x: u64, y: u64)
    requires Bits64(x) == Bits64(y)
    ensures x == y
  {
    hide Bits64, Nat64;
    NatOfBits(x);
    NatOfBits(y);
  }

  lemma NatInjective(y: bv64, z: bv64)
    requires Nat64(y) == Nat64(z)
    ensures y == z
  {
    hide Bits64, Nat64;
    BitsOfNat(y);
    BitsOfNat(z);
  }

  function Xor64(a: bv64, b: bv64): bv64 {
    a ^ b
  }

  lemma XorBack(a: bv64, b: bv64)
    ensures Xor64(a, Xor64(a, b)) == b
  {
    assert Xor64(a, a ^ b) == b && Xor64(a, b) == a ^ b;
    hide Xor64;
  }

  lemma XorSwap(a: bv64, b: bv64)
    ensures Xor64(a, b) == Xor64(b, a)
  {
  }

  // ---------------------------------------------------------------- splitmix64

  const GOLDEN: u64 := 0x9E3779B97F4A7C15

  /** The steps of the output function and their inverses, named so that longer proofs rest on the laws alone. */
  function Fold30(z: bv64): bv64 {
    z ^ (z >> 30)
  }

  function Unfold30(y: bv64): bv64 {
    y ^ (y >> 30) ^ (y >> 60)
  }

  function Fold27(z: bv64): bv64 {
    z ^ (z >> 27)
  }

  function Unfold27(y: bv64): bv64 {
    y ^ (y >> 27) ^ (y >> 54)
  }

  function Fold31(z: bv64): bv64 {
    z ^ (z >> 31)
  }

  function Unfold31(y: bv64): bv64 {
    y ^ (y >> 31) ^ (y >> 62)
  }

  function Scale1(z: bv64): bv64 {
    z * 0xBF58476D1CE4E5B9
  }

  function Unscale1(y: bv64): bv64 {
    y * 0x96DE1B173F119089
  }

  function Scale2(z: bv64): bv64 {
    z * 0x94D049BB133111EB
  }

  function Unscale2(y: bv64): bv64 {
    y * 0x319642B2D24D8EC3
  }

  function Mix(z: bv64): bv64 {
    Fold31(Scale2(Fold27(Scale1(Fold30(z)))))
  }

  function SplitMix(s: u64): u64 {
    hide Bits64, Nat64, Wrap, Mix;
    Nat64(Mix(Bits64(Wrap(s + GOLDEN))))
  }

  lemma Undo30(z: bv64)
    ensures Unfold30(Fold30(z)) == z
  {
    assert Unfold30(z ^ (z >> 30)) == z;
    hide Unfold30;
    assert Fold30(z) == z ^ (z >> 30);
  }

  lemma Undo27(z: bv64)
    ensures Unfold27(Fold27(z)) == z
  {
    assert Unfold27(z ^ (z >> 27)) == z;
    hide Unfold27;
    assert Fold27(z) == z ^ (z >> 27);
  }

  lemma Undo31(z: bv64)
    ensures Unfold31(Fold31(z)) == z
  {
    assert Unfold31(z ^ (z >> 31)) == z;
    hide Unfold31;
    assert Fold31(z) == z ^ (z >> 31);
  }

  lemma UndoScale1(z: bv64)
    ensures Unscale1(Scale1(z)) == z
  {
    assert Unscale1(z * 0xBF58476D1CE4E5B9) == z;
    hide Unscale1;
    assert Scale1(z) == z * 0xBF58476D1CE4E5B9;
  }

  lemma UndoScale2(z: bv64)
    ensures Unscale2(Scale2(z)) == z
  {
    assert Unscale2(z * 0x94D049BB133111EB) == z;
    hide Unscale2;
    assert Scale2(z) == z * 0x94D049BB133111EB;
  }

  /** Mixing can be undone. */
  lemma Unmix(z: bv64)
    ensures Unfold30(Unscale1(Unfold27(Unscale2(Unfold31(Mix(z)))))) == z
  {
    hide Fold30, Fold27, Fold31, Scale1, Scale2, Unfold30, Unfold27, Unfold31, Unscale1, Unscale2;
    Undo30(z);
    UndoScale1(Fold30(z));
    Undo27(Scale1(Fold30(z)));
    UndoScale2(Fold27(Scale1(Fold30(z))));
    Undo31(Scale2(Fold27(Scale1(Fold30(z)))));
  }

  lemma WrapShift(s: u64, t: u64)
    requires Wrap(s + GOLDEN) == Wrap(t + GOLDEN)
    ensures s == t
  {
  }

  /** Different states give different draws. */
  lemma SplitMixInjective(s: u64, t: u64)
    requires SplitMix(s) == SplitMix(t)
    ensures s == t
  {
    hide Mix, Bits64, Nat64, Wrap, Unfold30, Unfold27, Unfold31, Unscale1, Unscale2;
    var x, y := Bits64(Wrap(s + GOLDEN)), Bits64(Wrap(t + GOLDEN));
    NatInjective(Mix(x), Mix(y));
    Unmix(x);
    Unmix(y);
    BitsInjective(Wrap(s + GOLDEN), Wrap(t + GOLDEN));
    WrapShift(s, t);
  }

  // ---------------------------------------------------------------- known values

  lemma NumberOfTwo(b: seq<bool>)
    requires |b| >= 2
    ensures Number(b) == One(b[0]) + 2 * One(b[1]) + 4 * Number(b[2..])
  {
    assert b[1..][1..] == b[2..];
  }

  function One(b: bool): nat {
    if b then 1 else 0
  }

  function Weigh(b0: bool, b1: bool, b2: bool, b3: bool, b4: bool, b5: bool, b6: bool, b7: bool): nat {
    One(b0) + 2 * One(b1) + 4 * One(b2) + 8 * One(b3) + 16 * One(b4) + 32 * One(b5) + 64 * One(b6) + 128 * One(b7)
  }

  lemma NumberOfEight(b: seq<bool>)
    requires |b| == 8
    ensures Number(b) == Weigh(b[0], b[1], b[2], b[3], b[4], b[5], b[6], b[7])
  {
    hide Number, One;
    NumberOfTwo(b);
    NumberOfTwo(b[2..]);
    assert b[2..][2..] == b[4..];
    NumberOfTwo(b[4..]);
    assert b[4..][2..] == b[6..];
    NumberOfTwo(b[6..]);
    assert b[6..][2..] == [];
    NumberOfNothing();
  }

  lemma NumberOfNothing()
    ensures Number([]) == 0
  {
  }

  lemma CastIs(w: byte)
    ensures w as nat == Weigh(w & 1 != 0, w & 2 != 0, w & 4 != 0, w & 8 != 0,
                              w & 16 != 0, w & 32 != 0, w & 64 != 0, w & 128 != 0)
  {
  }

  lemma UnpackedAt(w: byte)
    ensures var b := Unpacked(w);
            && b[0] == (w & 1 != 0) && b[1] == (w & 2 != 0) && b[2] == (w & 4 != 0) && b[3] == (w & 8 != 0)
            && b[4] == (w & 16 != 0) && b[5] == (w & 32 != 0) && b[6] == (w & 64 != 0) && b[7] == (w & 128 != 0)
  {
  }

  lemma NatOfIs(w: byte)
    ensures NatOf(w) == w as nat
  {
    hide Weigh, Number, Unpacked;
    CastIs(w);
    UnpackedAt(w);
    NumberOfEight(Unpacked(w));
  }

  lemma ValueOfTwo(b: seq<byte>)
    requires |b| >= 2
    ensures Value(b) == NatOf(b[0]) + 0x100 * NatOf(b[1]) + 0x1_0000 * Value(b[2..])
  {
    hide NatOf;
    assert b[1..][1..] == b[2..];
  }

  lemma ValueOfEight(b: seq<byte>)
    requires |b| == 8
    ensures Value(b) == NatOf(b[0]) + 0x100 * NatOf(b[1]) + 0x1_0000 * NatOf(b[2]) + 0x100_0000 * NatOf(b[3])
      + 0x1_0000_0000 * NatOf(b[4]) + 0x100_0000_0000 * NatOf(b[5]) + 0x1_0000_0000_0000 * NatOf(b[6])
      + 0x100_0000_0000_0000 * NatOf(b[7])
  {
    hide NatOf, Value;
    ValueOfTwo(b);
    ValueOfTwo(b[2..]);
    assert b[2..][2..] == b[4..];
    ValueOfTwo(b[4..]);
    assert b[4..][2..] == b[6..];
    ValueOfTwo(b[6..]);
    assert b[6..][2..] == [];
    ValueOfNothing();
  }

  lemma ValueOfNothing()
    ensures Value([]) == 0
  {
  }

  /** The number a register holds, byte by byte. */
  function Bytewise(z: bv64): nat {
    ((z & 0xFF) as byte) as nat + 0x100 * (((z >> 8) & 0xFF) as byte as nat)
    + 0x1_0000 * (((z >> 16) & 0xFF) as byte as nat) + 0x100_0000 * (((z >> 24) & 0xFF) as byte as nat)
    + 0x1_0000_0000 * (((z >> 32) & 0xFF) as byte as nat) + 0x100_0000_0000 * (((z >> 40) & 0xFF) as byte as nat)
    + 0x1_0000_0000_0000 * (((z >> 48) & 0xFF) as byte as nat)
    + 0x100_0000_0000_0000 * (((z >> 56) & 0xFF) as byte as nat)
  }

  lemma NatIs(z: bv64)
    ensures Nat64(z) == Bytewise(z)
  {
    hide NatOf, Value;
    var b := Split(z);
    ValueOfEight(b);
    NatOfIs(b[0]); NatOfIs(b[1]); NatOfIs(b[2]); NatOfIs(b[3]);
    NatOfIs(b[4]); NatOfIs(b[5]); NatOfIs(b[6]); NatOfIs(b[7]);
  }

  lemma BitsIs(x: u64, z: bv64)
    requires Bytewise(z) == x
    ensures Bits64(x) == z
  {
    hide Bytewise, Nat64, Bits64;
    NatIs(z);
    BitsOfNat(z);
  }

  /** One draw, from the registers before and after mixing. */
  lemma DrawIs(s: u64, x: bv64, y: bv64)
    requires Bytewise(x) == Wrap(s + GOLDEN) && Mix(x) == y
    ensures SplitMix(s) == Bytewise(y)
  {
    hide Mix, Bits64, Nat64, Wrap, Bytewise;
    BitsIs(Wrap(s + GOLDEN), x);
    NatIs(y);
  }

  /** The published first output of splitmix64 from state 0. */
  lemma KnownDraw()
    ensures SplitMix(0) == 0xE220A8397B1DCDAF
  {
    hide SplitMix;
    DrawIs(0, 0x9E3779B97F4A7C15, 0xE220A8397B1DCDAF);
  }

  /** Four literal bytes as they stand in a file. */
  lemma BytesAre(v: u32, w0: byte, w1: byte, w2: byte, w3: byte)
    requires v == w0 as nat + 0x100 * (w1 as nat) + 0x1_0000 * (w2 as nat) + 0x100_0000 * (w3 as nat)
    ensures BytesOf32(v) == [w0, w1, w2, w3]
  {
    hide NatOf, Value, Digits;
    var b := [w0, w1, w2, w3];
    ValueOfTwo(b);
    ValueOfTwo(b[2..]);
    assert b[2..][2..] == [];
    ValueOfNothing();
    NatOfIs(w0); NatOfIs(w1); NatOfIs(w2); NatOfIs(w3);
    DigitsOfValue(b);
  }
}
