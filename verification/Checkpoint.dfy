/** The primes state file: the Go reader/writer, the C++ reader/writer, and how they relate. */
module Checkpoint {
  import opened Words
  import opened Registers
  import opened Crc32

  const MAGIC: u32 := 0x4A4F4243
  const VERSION: u32 := 2
  const RECENT_CAP: nat := 32
  const HEADER: nat := 37   // magic, version, limit, next, found, seeded_two, recent_count
  const MIN_LEN: nat := 41

  /** The persisted part of a sieve: everything but the in-process epoch counter. */
  datatype State = State(limit: u64, next: u64, found: u64, seededTwo: bool, recent: seq<u64>)

  datatype ParseError = ErrShort | ErrMagic | ErrVersion | ErrCRC | ErrRecentCap | ErrTrailing | ErrRecentSize

  // ---------------------------------------------------------------- writers

  function Ring(r: seq<u64>): (b: seq<byte>)
    ensures |b| == 8 * |r|
  {
    if r == [] then [] else Ring(r[..|r| - 1]) + BytesOf64(Last(r))
  }

  function Flag(b: bool): byte {
    if b then 1 else 0
  }

  /** The header with flag byte f; the writers put 0 or 1 there. */
  function Header(s: State, f: byte): (b: seq<byte>)
    ensures |b| == HEADER
  {
    BytesOf32(MAGIC) + BytesOf32(VERSION) + BytesOf64(s.limit) + BytesOf64(s.next) + BytesOf64(s.found)
    + [f] + BytesOf32(Wrap32(|s.recent|))
  }

  function RenderWith(s: State, f: byte): (b: seq<byte>)
    ensures |b| == MIN_LEN + 8 * |s.recent|
  {
    var body := Header(s, f) + Ring(s.recent);
    body + SealBytes(Checksum(body))
  }

  /** The bytes the writers produce. */
  function Render(s: State): (b: seq<byte>)
    ensures |b| == MIN_LEN + 8 * |s.recent|
  {
    RenderWith(s, Flag(s.seededTwo))
  }

  method PutHeader(s: State) returns (out: seq<byte>)
    ensures out == Header(s, Flag(s.seededTwo))
  {
    hide Digits;
    out := Put([], MAGIC, 4);
    out := Put(out, VERSION, 4);
    out := Put(out, s.limit, 8);
    out := Put(out, s.next, 8);
    out := Put(out, s.found, 8);
    out := out + [if s.seededTwo then 1 else 0];
    out := Put(out, Wrap32(|s.recent|), 4);
  }

  method PutRing(buf: seq<byte>, r: seq<u64>) returns (out: seq<byte>)
    ensures out == buf + Ring(r)
  {
    hide Digits;
    out := buf;
    for i := 0 to |r|
      invariant out == buf + Ring(r[..i])
    {
      assert r[..i + 1][..i] == r[..i];
      out := Put(out, r[i], 8);
    }
    assert r[..|r|] == r;
  }

  /** The Go encoder: it refuses an oversized ring, otherwise it appends field after field. */
  method Encode(s: State) returns (r: Result<seq<byte>, ()>)
    ensures r.Ok? <==> |s.recent| <= RECENT_CAP
    ensures r.Ok? ==> r.value == Render(s)
  {
    if |s.recent| > RECENT_CAP {
      return Err(());
    }
    hide SealBytes, Checksum, Header, Ring;
    var out := PutHeader(s);
    out := PutRing(out, s.recent);
    var table := BuildTable();
    var c := Compute(table, out);
    return Ok(out + SealBytes(c));
  }

  // ---------------------------------------------------------------- readers

  function ReadRing(b: seq<byte>, n: nat): (r: seq<u64>)
    requires HEADER + 8 * n <= |b|
    ensures |r| == n
  {
    seq(n, i requires 0 <= i < n => Read64(b, HEADER + 8 * i))
  }

  function Fields(b: seq<byte>, n: nat): (s: State)
    requires HEADER + 8 * n <= |b|
    ensures |s.recent| == n
  {
    State(Read64(b, 8), Read64(b, 16), Read64(b, 24), b[32] != 0, ReadRing(b, n))
  }

  /** The order in which the Go reader checks a buffer. */
  function Parse(buf: seq<byte>): Result<State, ParseError> {
    if |buf| < MIN_LEN then Err(ErrShort)
    else if !Sealed(buf) then Err(ErrCRC)
    else if Read32(buf, 0) != MAGIC then Err(ErrMagic)
    else if Read32(buf, 4) != VERSION then Err(ErrVersion)
    else
      var count := Read32(buf, 33);
      if count > RECENT_CAP then Err(ErrRecentCap)
      else if HEADER + 8 * count > |buf| - 4 then Err(ErrRecentSize)
      else if HEADER + 8 * count < |buf| - 4 then Err(ErrTrailing)
      else Ok(Fields(buf, count))
  }

  method ParseBuffer(buf: seq<byte>) returns (r: Result<State, ParseError>)
    ensures r == Parse(buf)
  {
    hide Sealed, Value;
    if |buf| < MIN_LEN {
      return Err(ErrShort);
    }
    var table := BuildTable();
    var got := Compute(table, buf[..|buf| - 4]);
    if SealWord(buf, |buf| - 4) != got {
      assert !Sealed(buf) by { SealedIs(buf); }
      return Err(ErrCRC);
    }
    assert Sealed(buf) by { SealedIs(buf); }
    var magic := Get(buf, 0, 4);
    if magic != MAGIC { return Err(ErrMagic); }
    var version := Get(buf, 4, 4);
    if version != VERSION { return Err(ErrVersion); }
    var limit := Get(buf, 8, 8);
    var next := Get(buf, 16, 8);
    var found := Get(buf, 24, 8);
    var n := Get(buf, 33, 4);
    if n > RECENT_CAP { return Err(ErrRecentCap); }
    if HEADER + 8 * n != |buf| - 4 {
      if HEADER + 8 * n > |buf| - 4 { return Err(ErrRecentSize); }
      return Err(ErrTrailing);
    }
    var recent: seq<u64> := [];
    for i := 0 to n
      invariant |recent| == i && forall k :: 0 <= k < i ==> recent[k] == Read64(buf, HEADER + 8 * k)
    {
      var v := Get(buf, HEADER + 8 * i, 8);
      assert v == Read64(buf, HEADER + 8 * i);
      recent := recent + [v];
    }
    assert recent == ReadRing(buf, n);
    assert limit == Read64(buf, 8) && next == Read64(buf, 16) && found == Read64(buf, 24);
    return Ok(State(limit, next, found, buf[32] != 0, recent));
  }

  lemma SealedIs(buf: seq<byte>)
    requires |buf| >= 4
    ensures Sealed(buf) <==> SealWord(buf, |buf| - 4) == Checksum(buf[..|buf| - 4])
  {
  }

  // ---------------------------------------------------------------- round trips

  lemma {:induction false} ReadRingOfRing(pre: seq<byte>, r: seq<u64>, post: seq<byte>, i: nat)
    requires i < |r|
    ensures Read64(pre + Ring(r) + post, |pre| + 8 * i) == r[i]
  {
    hide Read64, BytesOf64;
    var n := |r| - 1;
    var b := pre + Ring(r) + post;
    if i == n {
      assert b == (pre + Ring(r[..n])) + BytesOf64(r[n]) + post;
      Read64OfBytes(pre + Ring(r[..n]), r[n], post);
    } else {
      assert b == pre + Ring(r[..n]) + (BytesOf64(r[n]) + post);
      ReadRingOfRing(pre, r[..n], BytesOf64(r[n]) + post, i);
    }
  }

  lemma {:induction false} RingOfReadRing(b: seq<byte>, n: nat)
    requires HEADER + 8 * n <= |b|
    ensures Ring(ReadRing(b, n)) == b[HEADER..HEADER + 8 * n]
  {
    hide Read64, BytesOf64;
    if n == 0 {
    } else {
      var r := ReadRing(b, n);
      assert r[..n - 1] == ReadRing(b, n - 1);
      RingOfReadRing(b, n - 1);
      BytesOfRead64(b, HEADER + 8 * (n - 1));
    }
  }

  /** Each field sits at the offset the readers use. */
  lemma Layout(s: State, flag: byte, post: seq<byte>)
    ensures var b := Header(s, flag) + post;
            && Read32(b, 0) == MAGIC && Read32(b, 4) == VERSION
            && Read64(b, 8) == s.limit && Read64(b, 16) == s.next && Read64(b, 24) == s.found
            && b[32] == flag && Read32(b, 33) == Wrap32(|s.recent|)
  {
    hide Read64, BytesOf64, Read32, BytesOf32;
    var b := Header(s, flag) + post;
    var m, v, l, x, f := BytesOf32(MAGIC), BytesOf32(VERSION), BytesOf64(s.limit), BytesOf64(s.next),
      BytesOf64(s.found);
    var t, c := [flag], BytesOf32(Wrap32(|s.recent|));
    assert b == [] + m + (v + l + x + f + t + c + post);
    Read32OfBytes([], MAGIC, v + l + x + f + t + c + post);
    assert b == m + v + (l + x + f + t + c + post);
    Read32OfBytes(m, VERSION, l + x + f + t + c + post);
    assert b == (m + v) + l + (x + f + t + c + post);
    Read64OfBytes(m + v, s.limit, x + f + t + c + post);
    assert b == (m + v + l) + x + (f + t + c + post);
    Read64OfBytes(m + v + l, s.next, f + t + c + post);
    assert b == (m + v + l + x) + f + (t + c + post);
    Read64OfBytes(m + v + l + x, s.found, t + c + post);
    assert b == (m + v + l + x + f + t) + c + post;
    Read32OfBytes(m + v + l + x + f + t, Wrap32(|s.recent|), post);
  }

  lemma FieldsOfRender(s: State, flag: byte)
    requires |s.recent| <= RECENT_CAP
    ensures Fields(RenderWith(s, flag), |s.recent|) == s.(seededTwo := flag != 0)
  {
    hide Read64, BytesOf64, Read32, BytesOf32, SealBytes, Checksum, Ring;
    var h, g := Header(s, flag), Ring(s.recent);
    var tail := SealBytes(Checksum(h + g));
    var b := RenderWith(s, flag);
    assert b == h + (g + tail);
    Layout(s, flag, g + tail);
    forall i | 0 <= i < |s.recent| ensures ReadRing(b, |s.recent|)[i] == s.recent[i] {
      assert b == h + g + tail;
      ReadRingOfRing(h, s.recent, tail, i);
    }
    assert ReadRing(b, |s.recent|) == s.recent;
  }

  lemma RenderAccepted(s: State, flag: byte)
    ensures var b := RenderWith(s, flag);
            && Sealed(b) && b[32] == flag
            && Read32(b, 0) == MAGIC && Read32(b, 4) == VERSION && Read32(b, 33) == Wrap32(|s.recent|)
  {
    hide Read64, BytesOf64, Read32, BytesOf32, SealBytes, Checksum, Ring, Sealed;
    var h, g := Header(s, flag), Ring(s.recent);
    SealAccepted(h + g);
    assert RenderWith(s, flag) == h + (g + SealBytes(Checksum(h + g)));
    Layout(s, flag, g + SealBytes(Checksum(h + g)));
  }

  /** The first eight bytes of every file: "CBOJ", the little-endian form of "JOBC", and version 2. */
  lemma FileStart(s: State)
    ensures Render(s)[..8] == [0x43, 0x42, 0x4F, 0x4A, 0x02, 0x00, 0x00, 0x00]
  {
    hide BytesOf32, BytesOf64, Ring, SealBytes, Checksum;
    BytesAre(MAGIC, 0x43, 0x42, 0x4F, 0x4A);
    BytesAre(VERSION, 0x02, 0x00, 0x00, 0x00);
    assert Render(s)[..8] == BytesOf32(MAGIC) + BytesOf32(VERSION);
  }

  lemma RenderMagic(s: State)
    ensures Read32(Render(s), 0) == MAGIC
  {
    hide RenderWith, Sealed, Read32;
    RenderAccepted(s, Flag(s.seededTwo));
  }

  lemma RenderSealed(s: State)
    ensures Sealed(Render(s))
  {
    hide RenderWith, Sealed;
    RenderAccepted(s, Flag(s.seededTwo));
  }

  /** Whatever flag byte a file carries, it is read as "not zero". */
  lemma ParseRenderWith(s: State, flag: byte)
    requires |s.recent| <= RECENT_CAP
    ensures RenderWith(s, flag)[32] == flag
    ensures Parse(RenderWith(s, flag)) == Ok(s.(seededTwo := flag != 0))
  {
    hide Read32, Sealed, Fields, RenderWith;
    RenderAccepted(s, flag);
    FieldsOfRender(s, flag);
  }

  /** Reading back what was written restores every persisted field, exactly when the ring is within the cap. */
  lemma ParseRender(s: State)
    ensures Parse(Render(s)) == Ok(s) <==> |s.recent| <= RECENT_CAP
  {
    hide Read32, Sealed, RenderWith;
    if |s.recent| <= RECENT_CAP { ParseRenderWith(s, Flag(s.seededTwo)); }
  }

  /** Every flag byte above 1 gives an accepted file that is not what the writers make of its contents. */
  lemma ForeignFlag(s: State, flag: byte)
    requires |s.recent| <= RECENT_CAP && flag > 1
    ensures var b := RenderWith(s, flag);
            b[32] == flag && Parse(b) == Ok(s.(seededTwo := true)) && Render(s.(seededTwo := true)) != b
  {
    hide Parse, RenderWith;
    ParseRenderWith(s, flag);
    ParseRenderWith(s.(seededTwo := true), 1);
  }

  lemma HeaderOfFields(buf: seq<byte>, n: nat)
    requires n <= RECENT_CAP && HEADER + 8 * n + 4 == |buf|
    requires Read32(buf, 0) == MAGIC && Read32(buf, 4) == VERSION && Read32(buf, 33) == n
    ensures Header(Fields(buf, n), Flag(buf[32] != 0)) == buf[..32] + [Flag(buf[32] != 0)] + buf[33..37]
  {
    hide Read64, BytesOf64, Read32, BytesOf32, Flag;
    BytesOfRead32(buf, 0); BytesOfRead32(buf, 4); BytesOfRead32(buf, 33);
    BytesOfRead64(buf, 8); BytesOfRead64(buf, 16); BytesOfRead64(buf, 24);
    assert buf[..32] == buf[0..4] + buf[4..8] + buf[8..16] + buf[16..24] + buf[24..32];
  }

  /** Writing the fields of an accepted buffer reproduces its body, but for the flag byte. */
  lemma RenderOfFields(buf: seq<byte>)
    requires Parse(buf).Ok?
    ensures var s := Parse(buf).value;
            && |s.recent| <= RECENT_CAP
            && Header(s, Flag(buf[32] != 0)) + Ring(s.recent) == buf[..32] + [Flag(buf[32] != 0)] + buf[33..|buf| - 4]
  {
    hide Read64, BytesOf64, Read32, BytesOf32, Sealed, Ring, Flag, Header, Fields;
    var n := |Parse(buf).value.recent|;
    assert Parse(buf).value == Fields(buf, n);
    HeaderOfFields(buf, n);
    RingOfReadRing(buf, n);
    RingField(buf, n);
    assert buf[33..|buf| - 4] == buf[33..37] + buf[37..|buf| - 4];
  }

  lemma RingField(buf: seq<byte>, n: nat)
    requires HEADER + 8 * n <= |buf|
    ensures Fields(buf, n).recent == ReadRing(buf, n)
  {
  }

  /** Re-encoding an accepted buffer gives the same bytes exactly when its flag byte is 0 or 1; every
      other non-zero flag is collapsed to true on the way in. */
  lemma RenderParse(buf: seq<byte>)
    requires Parse(buf).Ok?
    ensures |Parse(buf).value.recent| <= RECENT_CAP
    ensures Render(Parse(buf).value) == buf <==> buf[32] == 0 || buf[32] == 1
  {
    hide Read64, BytesOf64, Read32, BytesOf32, SealBytes, Checksum, Ring;
    var s := Parse(buf).value;
    var e := |buf| - 4;
    RenderOfFields(buf);
    var body := Header(s, Flag(buf[32] != 0)) + Ring(s.recent);
    assert Render(s)[32] == body[32] == Flag(buf[32] != 0);
    if buf[32] == 0 || buf[32] == 1 {
      assert Flag(buf[32] != 0) == buf[32];
      assert body == buf[..32] + [buf[32]] + buf[33..e] == buf[..e];
      SealBytesOfWord(buf, e);
      assert buf == buf[..e] + buf[e..e + 4];
    }
  }

  /** A burst of at most four changed bytes anywhere in an accepted file is reported as a CRC error. */
  lemma CorruptionReported(a: seq<byte>, b: seq<byte>, k: nat)
    requires Parse(a).Ok?
    requires |a| == |b| && k + 4 <= |a| && a != b
    requires a[..k] == b[..k] && a[k + 4..] == b[k + 4..]
    ensures Parse(b) == Err(ErrCRC)
  {
    hide Sealed, Read32, Fields;
    BurstRejected(a, b, k);
  }

  // ---------------------------------------------------------------- the C++ reader

  datatype ReadError = TooShort | BadMagic | BadVersion | BadCrc | PastEnd

  /** The worker's reader. It trusts the count: ring entries are taken from wherever the count leads,
      even from the trailer; PastEnd marks the inputs on which it would leave the buffer. */
  function ReadState(all: seq<byte>): Result<State, ReadError> {
    if |all| < 4 + 4 + 8 * 3 + 1 + 4 + 4 then Err(TooShort)
    else if !Sealed(all) then Err(BadCrc)
    else if Read32(all, 0) != MAGIC then Err(BadMagic)
    else if Read32(all, 4) != VERSION then Err(BadVersion)
    else
      var rc := Read32(all, 33);
      if rc > RECENT_CAP then Err(TooShort)
      else if HEADER + 8 * rc > |all| then Err(PastEnd)
      else Ok(Fields(all, rc))
  }

  /** The Go reader accepts exactly the files that the worker accepts with a ring that fills the body,
      and both then see the same fields. */
  lemma ReadersAgree(buf: seq<byte>)
    ensures Parse(buf).Ok? <==>
            ReadState(buf).Ok? && |buf| == MIN_LEN + 8 * |ReadState(buf).value.recent|
    ensures Parse(buf).Ok? ==> ReadState(buf) == Ok(Parse(buf).value)
  {
    hide Sealed, Read32, Read64;
  }

  /** The C++ reader returns what the C++ writer (whose bytes are Render) was given, exactly within the cap. */
  lemma ReadRender(s: State)
    ensures ReadState(Render(s)) == Ok(s) <==> |s.recent| <= RECENT_CAP
  {
    hide Parse, Read32, Read64, Sealed, Render;
    if |s.recent| <= RECENT_CAP {
      ParseRender(s);
      ReadersAgree(Render(s));
    }
  }

  lemma UnsealedRefused(b: seq<byte>)
    requires |b| >= 4 && !Sealed(b)
    ensures ReadState(b).Err?
  {
    hide Sealed, Read32, Read64;
  }
}
