/** The matrix-multiply worker: a row-major cursor over the cells of A x B, whose values are summed
    modulo 2^64, with its state file. */
module MatMul {
  import opened Words
  import opened Registers
  import opened Crc32

  const MAGIC: u32 := 0x4D4D554C
  const VERSION: u32 := 1
  const LENGTH: nat := 44

  datatype State = State(n: u64, seed: u64, nextCell: u64, fingerprint: u64)

  // ---------------------------------------------------------------- cell values

  function ACell(seed: u64, n: u64, i: nat, j: nat): u64 {
    SplitMix(Wrap(seed * 31 + (i * n + j) * 7 + 1))
  }

  function BCell(seed: u64, n: u64, i: nat, j: nat): u64 {
    SplitMix(Wrap(seed * 17 + (i * n + j) * 11 + 2))
  }

  /** Term k of the dot product of row i of A and column j of B. */
  function Term(seed: u64, n: u64, i: nat, j: nat, k: nat): nat {
    hide SplitMix;
    ACell(seed, n, i, k) * BCell(seed, n, k, j)
  }

  /** The first k terms of the dot product of row i of A and column j of B, exactly. */
  function Dot(seed: u64, n: u64, i: nat, j: nat, k: nat): nat {
    hide Term;
    if k == 0 then 0 else Dot(seed, n, i, j, k - 1) + Term(seed, n, i, j, k - 1)
  }

  function Total(n: u64): u64 {
    Wrap(n * n)
  }

  // ---------------------------------------------------------------- the loop

  function Fresh(n: u64, seed: u64): State {
    State(n, seed, 0, 0)
  }

  predicate Done(s: State) {
    s.nextCell >= Total(s.n)
  }

  /** The cell the worker computes at cursor c. */
  function Cell(seed: u64, n: u64, c: nat): nat
    requires n > 0
  {
    Dot(seed, n, c / n, c % n, n)
  }

  function Advance(s: State): State
    requires s.n > 0
  {
    s.(fingerprint := Wrap(s.fingerprint + Wrap(Cell(s.seed, s.n, s.nextCell))), nextCell := Wrap(s.nextCell + 1))
  }

  lemma UnfinishedHasCells(s: State)
    requires !Done(s)
    ensures s.n > 0
  {
  }

  /** The inner loop with its wrapping accumulator. */
  method ComputeCell(seed: u64, n: u64, c: u64) returns (cell: u64)
    requires n > 0
    ensures cell == Wrap(Cell(seed, n, c))
  {
    hide Term, Wrap;
    var i, j := c / n, c % n;
    cell := 0;
    WrapZero();
    for k := 0 to n
      invariant cell == Wrap(Dot(seed, n, i, j, k))
    {
      var p := Product(seed, n, i, j, k);
      WrapAdd(Dot(seed, n, i, j, k), p);
      cell := Wrap(cell + Wrap(p));
    }
  }

  method Product(seed: u64, n: u64, i: nat, j: nat, k: nat) returns (p: nat)
    ensures p == Term(seed, n, i, j, k)
  {
    hide SplitMix;
    p := ACell(seed, n, i, k) * BCell(seed, n, k, j);
  }

  lemma WrapZero()
    ensures Wrap(0) == 0
  {
  }

  lemma WrapAdd(x: nat, y: nat)
    ensures Wrap(Wrap(x) + Wrap(y)) == Wrap(x + y)
  {
    var a, b := x / TWO64, y / TWO64;
    var r := Wrap(x) + Wrap(y);
    assert x + y == (a + b + r / TWO64) * TWO64 + r % TWO64;
    QuotientUnique(x + y, TWO64, a + b + r / TWO64, r % TWO64);
  }

  // ---------------------------------------------------------------- closed form

  /** The exact sum of the first c cells in row-major order. */
  function SumCells(seed: u64, n: u64, c: nat): nat
    requires n > 0
  {
    if c == 0 then 0 else SumCells(seed, n, c - 1) + Cell(seed, n, c - 1)
  }

  function At(n: u64, seed: u64, c: u64): State {
    State(n, seed, c, if n == 0 then 0 else Wrap(SumCells(seed, n, c)))
  }

  predicate OnTrack(s: State) {
    s == At(s.n, s.seed, s.nextCell) && s.nextCell <= Total(s.n)
  }

  lemma FreshOnTrack(n: u64, seed: u64)
    ensures OnTrack(Fresh(n, seed))
  {
  }

  lemma AdvanceOnTrack(s: State)
    requires OnTrack(s) && !Done(s)
    ensures s.n > 0 && OnTrack(Advance(s)) && Advance(s).nextCell == s.nextCell + 1
    ensures Advance(s).n == s.n && Advance(s).seed == s.seed
  {
    hide Cell, Total, Wrap;
    UnfinishedHasCells(s);
    WrapAdd(SumCells(s.seed, s.n, s.nextCell), Cell(s.seed, s.n, s.nextCell));
    TotalBelow(s.nextCell, Total(s.n));
  }

  lemma TotalBelow(c: u64, t: u64)
    requires c < t
    ensures Wrap(c + 1) == c + 1
  {
  }

  lemma DoneIsFinal(s: State)
    requires OnTrack(s) && Done(s)
    ensures s == At(s.n, s.seed, Total(s.n))
  {
  }

  // ---------------------------------------------------------------- meaning of the fingerprint

  function RowSum(seed: u64, n: u64, i: nat, j: nat): nat {
    if j == 0 then 0 else RowSum(seed, n, i, j - 1) + Dot(seed, n, i, j - 1, n)
  }

  /** The nested double sum over the first i rows. */
  function NestedSum(seed: u64, n: u64, i: nat): nat {
    if i == 0 then 0 else NestedSum(seed, n, i - 1) + RowSum(seed, n, i - 1, n)
  }

  /** The div/mod cursor walks the matrix row by row. */
  lemma {:induction false} RowMajor(seed: u64, n: u64, i: nat, j: nat)
    requires 0 < n && j <= n
    ensures SumCells(seed, n, i * n + j) == NestedSum(seed, n, i) + RowSum(seed, n, i, j)
    decreases i, j
  {
    hide Dot;
    if j > 0 {
      RowMajor(seed, n, i, j - 1);
      QuotientUnique(i * n + j - 1, n, i, j - 1);
      assert Cell(seed, n, i * n + j - 1) == Dot(seed, n, i, j - 1, n);
    } else if i > 0 {
      RowMajor(seed, n, i - 1, n);
      assert i * n == (i - 1) * n + n;
    }
  }

  /** Every cell of the product is visited exactly when n < 2^32; from there on n * n wraps. */
  lemma CoversMatrixIff(n: u64)
    ensures Total(n) == n * n <==> n < 0x1_0000_0000
  {
    if n < 0x1_0000_0000 {
      Square(n, 0xFFFF_FFFF);
    } else {
      Square(0x1_0000_0000, n);
    }
  }

  lemma Square(a: nat, b: nat)
    requires a <= b
    ensures a * a <= b * b
  {
    assert b * b == a * a + (b - a) * (a + b);
  }

  // ---------------------------------------------------------------- the matrices

  /** A cell of either matrix depends on its position in row-major order only. */
  lemma RowMajorCells(seed: u64, n: u64, i: nat, j: nat)
    ensures ACell(seed, n, i, j) == ACell(seed, n, 0, i * n + j) && BCell(seed, n, i, j) == BCell(seed, n, 0, i * n + j)
  {
    hide SplitMix;
  }

  function RowOfA(seed: u64, n: u64, i: nat): (a: seq<nat>)
    ensures |a| == n
  {
    hide SplitMix;
    seq(n, k requires 0 <= k < n => ACell(seed, n, i, k))
  }

  function ColumnOfB(seed: u64, n: u64, j: nat): (b: seq<nat>)
    ensures |b| == n
  {
    hide SplitMix;
    seq(n, k requires 0 <= k < n => BCell(seed, n, k, j))
  }

  function DotProduct(a: seq<nat>, b: seq<nat>): nat
    requires |a| == |b|
  {
    if a == [] then 0 else DotProduct(a[..|a| - 1], b[..|b| - 1]) + Last(a) * Last(b)
  }

  lemma {:induction false} DotPrefix(seed: u64, n: u64, i: nat, j: nat, k: nat)
    requires k <= n
    ensures Dot(seed, n, i, j, k) == DotProduct(RowOfA(seed, n, i)[..k], ColumnOfB(seed, n, j)[..k])
  {
    hide ACell, BCell;
    var a, b := RowOfA(seed, n, i), ColumnOfB(seed, n, j);
    if k == 0 {
    } else {
      DotPrefix(seed, n, i, j, k - 1);
      assert a[..k][..k - 1] == a[..k - 1] && b[..k][..k - 1] == b[..k - 1];
    }
  }

  /** Row i of A times column j of B. */
  lemma DotMeaning(seed: u64, n: u64, i: nat, j: nat)
    ensures Dot(seed, n, i, j, n) == DotProduct(RowOfA(seed, n, i), ColumnOfB(seed, n, j))
  {
    hide Dot, ACell, BCell, DotProduct;
    var a, b := RowOfA(seed, n, i), ColumnOfB(seed, n, j);
    DotPrefix(seed, n, i, j, n);
    assert a[..n] == a && b[..n] == b;
  }

  /** The cell the worker computes at row i and column j is that entry of A x B. */
  lemma CellMeaning(seed: u64, n: u64, i: nat, j: nat)
    requires j < n
    ensures Cell(seed, n, i * n + j) == DotProduct(RowOfA(seed, n, i), ColumnOfB(seed, n, j))
  {
    hide Dot, DotProduct, RowOfA, ColumnOfB;
    QuotientUnique(i * n + j, n, i, j);
    DotMeaning(seed, n, i, j);
  }

  // ---------------------------------------------------------------- the sum of all cells

  /** Column k of A, summed over the first i rows. */
  function ColumnSum(seed: u64, n: u64, k: nat, i: nat): nat {
    hide ACell;
    if i == 0 then 0 else ColumnSum(seed, n, k, i - 1) + ACell(seed, n, i - 1, k)
  }

  /** Row k of B, summed over the first j columns. */
  function RowSumOfB(seed: u64, n: u64, k: nat, j: nat): nat {
    hide BCell;
    if j == 0 then 0 else RowSumOfB(seed, n, k, j - 1) + BCell(seed, n, k, j - 1)
  }

  /** Sum over k of (column k of A, i rows) times (row k of B, j columns). */
  function SumOfProducts(seed: u64, n: u64, i: nat, j: nat, k: nat): nat {
    hide ColumnSum, RowSumOfB;
    if k == 0 then 0
    else SumOfProducts(seed, n, i, j, k - 1) + ColumnSum(seed, n, k - 1, i) * RowSumOfB(seed, n, k - 1, j)
  }

  /** Sum over k of A at (i, k) times (row k of B, j columns). */
  function RowProducts(seed: u64, n: u64, i: nat, j: nat, k: nat): nat {
    hide ACell, RowSumOfB;
    if k == 0 then 0
    else RowProducts(seed, n, i, j, k - 1) + ACell(seed, n, i, k - 1) * RowSumOfB(seed, n, k - 1, j)
  }

  lemma Distribute(a: nat, b: nat, c: nat)
    ensures a * (b + c) == a * b + a * c && (b + c) * a == b * a + c * a
  {
  }

  lemma {:induction false} NextColumn(seed: u64, n: u64, i: nat, j: nat, k: nat)
    ensures RowProducts(seed, n, i, j + 1, k) == RowProducts(seed, n, i, j, k) + Dot(seed, n, i, j, k)
    decreases k
  {
    hide ACell, BCell;
    if k == 0 {
    } else {
      NextColumn(seed, n, i, j, k - 1);
      Distribute(ACell(seed, n, i, k - 1), RowSumOfB(seed, n, k - 1, j), BCell(seed, n, k - 1, j));
    }
  }

  lemma {:induction false} NoColumns(seed: u64, n: u64, i: nat, k: nat)
    ensures RowProducts(seed, n, i, 0, k) == 0
    decreases k
  {
    hide ACell;
    if k == 0 {
    } else {
      NoColumns(seed, n, i, k - 1);
    }
  }

  lemma {:induction false} RowSumMeaning(seed: u64, n: u64, i: nat, j: nat)
    ensures RowSum(seed, n, i, j) == RowProducts(seed, n, i, j, n)
    decreases j
  {
    hide Dot, RowProducts;
    if j == 0 {
      NoColumns(seed, n, i, n);
    } else {
      RowSumMeaning(seed, n, i, j - 1);
      NextColumn(seed, n, i, j - 1, n);
    }
  }

  lemma {:induction false} NextRow(seed: u64, n: u64, i: nat, j: nat, k: nat)
    ensures SumOfProducts(seed, n, i + 1, j, k) == SumOfProducts(seed, n, i, j, k) + RowProducts(seed, n, i, j, k)
    decreases k
  {
    hide ACell, RowSumOfB;
    if k == 0 {
    } else {
      NextRow(seed, n, i, j, k - 1);
      Distribute(RowSumOfB(seed, n, k - 1, j), ColumnSum(seed, n, k - 1, i), ACell(seed, n, i, k - 1));
    }
  }

  lemma {:induction false} NoRows(seed: u64, n: u64, j: nat, k: nat)
    ensures SumOfProducts(seed, n, 0, j, k) == 0
    decreases k
  {
    hide RowSumOfB;
    if k == 0 {
    } else {
      NoRows(seed, n, j, k - 1);
    }
  }

  /** The sum over all cells of A x B, regrouped by the inner index. */
  lemma {:induction false} NestedSumMeaning(seed: u64, n: u64, i: nat)
    ensures NestedSum(seed, n, i) == SumOfProducts(seed, n, i, n, n)
    decreases i
  {
    hide RowSum, SumOfProducts, RowProducts;
    if i == 0 {
      NoRows(seed, n, n, n);
    } else {
      NestedSumMeaning(seed, n, i - 1);
      RowSumMeaning(seed, n, i - 1, n);
      NextRow(seed, n, i - 1, n, n);
    }
  }

  /** The fingerprint of a finished run is the sum of all cells of A x B modulo 2^64, that is, the sum over k
      of column k of A times row k of B, each summed. */
  lemma FingerprintMeaning(n: u64, seed: u64)
    requires n < 0x1_0000_0000
    ensures At(n, seed, Total(n)).fingerprint == Wrap(SumOfProducts(seed, n, n, n, n))
  {
    hide Total, SumOfProducts, NestedSum, SumCells, Wrap;
    CoversMatrixIff(n);
    NestedSumMeaning(seed, n, n);
    if n == 0 {
      NothingSummed(seed);
    } else {
      CellsAreNested(seed, n);
    }
  }

  lemma NothingSummed(seed: u64)
    ensures Wrap(SumOfProducts(seed, 0, 0, 0, 0)) == 0
  {
  }

  lemma CellsAreNested(seed: u64, n: u64)
    requires n > 0
    ensures SumCells(seed, n, n * n) == NestedSum(seed, n, n)
  {
    hide Cell, Dot;
    RowMajor(seed, n, n, 0);
  }

  /** A known result: the fingerprint of the 2 x 2 product with seed 1. */
  lemma KnownFingerprint()
    ensures At(2, 1, Total(2)).fingerprint == 11612187054780488918
  {
    hide At, ACell, BCell, Total;
    FingerprintMeaning(2, 1);
    KnownCells();
    assert ColumnSum(1, 2, 0, 2) == ACell(1, 2, 0, 0) + ACell(1, 2, 1, 0);
    assert ColumnSum(1, 2, 1, 2) == ACell(1, 2, 0, 1) + ACell(1, 2, 1, 1);
    assert RowSumOfB(1, 2, 0, 2) == BCell(1, 2, 0, 0) + BCell(1, 2, 0, 1);
    assert RowSumOfB(1, 2, 1, 2) == BCell(1, 2, 1, 0) + BCell(1, 2, 1, 1);
    hide ColumnSum, RowSumOfB;
    assert SumOfProducts(1, 2, 2, 2, 2) == SumOfProducts(1, 2, 2, 2, 1) + ColumnSum(1, 2, 1, 2) * RowSumOfB(1, 2, 1, 2);
    assert SumOfProducts(1, 2, 2, 2, 1) == ColumnSum(1, 2, 0, 2) * RowSumOfB(1, 2, 0, 2);
  }

  lemma KnownCells()
    ensures ACell(1, 2, 0, 0) == 0xEAEB7F27B54E2401
    ensures ACell(1, 2, 0, 1) == 0xCE6A57A6E3CCDEEC
    ensures ACell(1, 2, 1, 0) == 0xBAEE56F32E223007
    ensures ACell(1, 2, 1, 1) == 0xC85E84F460206F76
    ensures BCell(1, 2, 0, 0) == 0xBC4075F2EF431A44
    ensures BCell(1, 2, 0, 1) == 0xA8EE577AF2720DCE
    ensures BCell(1, 2, 1, 0) == 0x118E846EA93BC949
    ensures BCell(1, 2, 1, 1) == 0xF9B44ECD07B4404A
  {
    hide SplitMix;
    DrawIs(32, 0x9E3779B97F4A7C35, 0xEAEB7F27B54E2401);
    DrawIs(39, 0x9E3779B97F4A7C3C, 0xCE6A57A6E3CCDEEC);
    DrawIs(46, 0x9E3779B97F4A7C43, 0xBAEE56F32E223007);
    DrawIs(53, 0x9E3779B97F4A7C4A, 0xC85E84F460206F76);
    DrawIs(19, 0x9E3779B97F4A7C28, 0xBC4075F2EF431A44);
    DrawIs(30, 0x9E3779B97F4A7C33, 0xA8EE577AF2720DCE);
    DrawIs(41, 0x9E3779B97F4A7C3E, 0x118E846EA93BC949);
    DrawIs(52, 0x9E3779B97F4A7C49, 0xF9B44ECD07B4404A);
  }
  // ---------------------------------------------------------------- state file

  function Body(s: State): (b: seq<byte>)
    ensures |b| == LENGTH - 4
  {
    BytesOf32(MAGIC) + BytesOf32(VERSION) + BytesOf64(s.n) + BytesOf64(s.seed)
    + BytesOf64(s.nextCell) + BytesOf64(s.fingerprint)
  }

  function Render(s: State): (b: seq<byte>)
    ensures |b| == LENGTH
  {
    Body(s) + SealBytes(Checksum(Body(s)))
  }

  datatype ReadError = TooShort | BadMagic | BadVersion | BadCrc

  function ReadState(all: seq<byte>): Result<State, ReadError> {
    if |all| < LENGTH then Err(TooShort)
    else if !Sealed(all) then Err(BadCrc)
    else if Read32(all, 0) != MAGIC then Err(BadMagic)
    else if Read32(all, 4) != VERSION then Err(BadVersion)
    else Ok(State(Read64(all, 8), Read64(all, 16), Read64(all, 24), Read64(all, 32)))
  }

  lemma RenderSealed(s: State)
    ensures Sealed(Render(s))
  {
    SealAccepted(Body(s));
  }

  /** The first eight bytes of every file: "LUMM", the little-endian form of "MMUL", and version 1. */
  lemma FileStart(s: State)
    ensures Render(s)[..8] == [0x4C, 0x55, 0x4D, 0x4D, 0x01, 0x00, 0x00, 0x00]
  {
    hide BytesOf32, BytesOf64, SealBytes, Checksum;
    BytesAre(MAGIC, 0x4C, 0x55, 0x4D, 0x4D);
    BytesAre(VERSION, 0x01, 0x00, 0x00, 0x00);
    assert Render(s)[..8] == BytesOf32(MAGIC) + BytesOf32(VERSION);
  }

  /** Each field sits at its offset. */
  lemma Layout(s: State)
    ensures var b := Render(s);
            && Sealed(b) && Read32(b, 0) == MAGIC && Read32(b, 4) == VERSION
            && Read64(b, 8) == s.n && Read64(b, 16) == s.seed
            && Read64(b, 24) == s.nextCell && Read64(b, 32) == s.fingerprint
  {
    hide Read64, BytesOf64, Read32, BytesOf32, SealBytes, Checksum, Sealed;
    var b, z := Render(s), SealBytes(Checksum(Body(s)));
    SealAccepted(Body(s));
    var m, v, n, e, c, f := BytesOf32(MAGIC), BytesOf32(VERSION), BytesOf64(s.n), BytesOf64(s.seed),
      BytesOf64(s.nextCell), BytesOf64(s.fingerprint);
    assert b == [] + m + (v + n + e + c + f + z);
    Read32OfBytes([], MAGIC, v + n + e + c + f + z);
    assert b == m + v + (n + e + c + f + z);
    Read32OfBytes(m, VERSION, n + e + c + f + z);
    assert b == (m + v) + n + (e + c + f + z);
    Read64OfBytes(m + v, s.n, e + c + f + z);
    assert b == (m + v + n) + e + (c + f + z);
    Read64OfBytes(m + v + n, s.seed, c + f + z);
    assert b == (m + v + n + e) + c + (f + z);
    Read64OfBytes(m + v + n + e, s.nextCell, f + z);
    assert b == (m + v + n + e + c) + f + z;
    Read64OfBytes(m + v + n + e + c, s.fingerprint, z);
  }

  lemma ReadRender(s: State)
    ensures ReadState(Render(s)) == Ok(s)
  {
    hide Read64, Read32, Render, Sealed;
    Layout(s);
  }

  lemma UnsealedRefused(b: seq<byte>)
    requires |b| >= 4 && !Sealed(b)
    ensures ReadState(b).Err?
  {
    hide Sealed, Read32, Read64;
  }
}
