/** The Redis wire framing (RESP2): the command encoder and the recursive reader. A byte is a char. */
module Resp {
  import opened Words

  /** What the reader returns; simple and bulk strings are both strings. */
  datatype Value = Str(s: string) | Num(i: int) | Nil | Arr(vs: seq<Value>)

  datatype Error = EndOfInput | BadNumber | ServerError(message: string) | UnknownPrefix(prefix: char)

  /** A result and the bytes still unread. */
  datatype Read<T> = Read(value: Result<T, Error>, rest: string)

  // ---------------------------------------------------------------- decimal numbers

  function DigitChar(d: nat): char
    requires d < 10
  {
    ['0', '1', '2', '3', '4', '5', '6', '7', '8', '9'][d]
  }

  predicate IsDigit(c: char) {
    '0' <= c <= '9'
  }

  function DigitValue(c: char): nat
    requires IsDigit(c)
  {
    c as nat - '0' as nat
  }

  /** %d of a non-negative number. */
  function Decimal(n: nat): (s: string)
    ensures s != "" && forall i :: 0 <= i < |s| ==> IsDigit(s[i])
  {
    if n < 10 then [DigitChar(n)] else Decimal(n / 10) + [DigitChar(n % 10)]
  }

  predicate AllDigits(s: string) {
    s != "" && forall i :: 0 <= i < |s| ==> IsDigit(s[i])
  }

  function DigitsValue(s: string): nat
    requires forall i :: 0 <= i < |s| ==> IsDigit(s[i])
  {
    if s == "" then 0 else 10 * DigitsValue(s[..|s| - 1]) + DigitValue(Last(s))
  }

  /** strconv.Atoi: an optional sign, then digits, within the int64 range. */
  function Atoi(s: string): Option<int> {
    var signed := s != "" && (s[0] == '-' || s[0] == '+');
    var digits := if signed then s[1..] else s;
    if !AllDigits(digits) then None
    else
      var v := DigitsValue(digits);
      if signed && s[0] == '-' then (if v <= INT64 then Some(0 - v) else None)
      else if v < INT64 then Some(v) else None
  }

  lemma {:induction false} DecimalValue(n: nat)
    ensures DigitsValue(Decimal(n)) == n
  {
    if n < 10 {
      assert DigitsValue([DigitChar(n)]) == 10 * DigitsValue("") + n by { assert [DigitChar(n)][..0] == ""; }
    } else {
      DecimalValue(n / 10);
      var s := Decimal(n);
      assert s[..|s| - 1] == Decimal(n / 10);
    }
  }

  lemma AtoiDecimal(n: nat)
    requires n < INT64
    ensures Atoi(Decimal(n)) == Some(n)
  {
    DecimalValue(n);
    assert IsDigit(Decimal(n)[0]);
  }

  // ---------------------------------------------------------------- the encoder

  const CRLF: string := "\r\n"

  function EncodePart(p: string): string {
    "$" + Decimal(|p|) + CRLF + p + CRLF
  }

  function EncodeParts(parts: seq<string>): string {
    if parts == [] then "" else EncodePart(parts[0]) + EncodeParts(parts[1..])
  }

  function Encode(parts: seq<string>): string {
    "*" + Decimal(|parts|) + CRLF + EncodeParts(parts)
  }

  /** The builder loop of encodeRESP. */
  method EncodeCommand(parts: seq<string>) returns (b: string)
    ensures b == Encode(parts)
  {
    hide Decimal;
    b := "*" + Decimal(|parts|) + CRLF;
    ghost var head := b;
    for i := 0 to |parts|
      invariant head + EncodeParts(parts) == b + EncodeParts(parts[i..])
    {
      assert parts[i..][1..] == parts[i + 1..];
      b := b + "$" + Decimal(|parts[i]|) + CRLF + parts[i] + CRLF;
    }
  }

  // ---------------------------------------------------------------- the reader

  /** Bytes up to and including the first newline, and the rest. */
  function SplitLine(r: string): (x: Option<(string, string)>)
    ensures x.Some? ==> r == x.value.0 + x.value.1 && |x.value.0| >= 1
  {
    if r == "" then None
    else if r[0] == '\n' then Some(("\n", r[1..]))
    else
      var x := SplitLine(r[1..]);
      if x.None? then None else Some(([r[0]] + x.value.0, x.value.1))
  }

  function TrimRight(s: string): string {
    if s != "" && (Last(s) == '\r' || Last(s) == '\n') then TrimRight(s[..|s| - 1]) else s
  }

  function ReadLine(r: string): (x: Read<string>)
    ensures |x.rest| <= |r|
  {
    match SplitLine(r)
    case None => Read(Err(EndOfInput), "")
    case Some((line, rest)) => Read(Ok(TrimRight(line)), rest)
  }

  function ReadValue(r: string): (x: Read<Value>)
    ensures |x.rest| <= |r| && (x.value.Ok? ==> |x.rest| < |r|)
    decreases |r|, 0
  {
    if r == "" then Read(Err(EndOfInput), "")
    else
      var l := ReadLine(r[1..]);
      if l.value.Err? then Read(Err(l.value.error), l.rest)
      else
        var line := l.value.value;
        match r[0]
        case '+' => Read(Ok(Str(line)), l.rest)
        case '-' => Read(Err(ServerError(line)), l.rest)
        case ':' => Read(if Atoi(line).Some? then Ok(Num(Atoi(line).value)) else Err(BadNumber), l.rest)
        case '$' =>
          (match Atoi(line)
           case None => Read(Err(BadNumber), l.rest)
           case Some(n) =>
             if n < 0 then Read(Ok(Nil), l.rest)
             else if |l.rest| < n + 2 then Read(Err(EndOfInput), "")
             else Read(Ok(Str(l.rest[..n])), l.rest[n + 2..]))
        case '*' =>
          (match Atoi(line)
           case None => Read(Err(BadNumber), l.rest)
           case Some(n) =>
             if n < 0 then Read(Ok(Nil), l.rest)
             else
               var m := ReadMany(n, l.rest);
               Read(if m.value.Ok? then Ok(Arr(m.value.value)) else Err(m.value.error), m.rest))
        case _ => Read(Err(UnknownPrefix(r[0])), l.rest)
  }

  function ReadMany(n: nat, r: string): (x: Read<seq<Value>>)
    ensures |x.rest| <= |r|
    decreases |r|, n + 1
  {
    if n == 0 then Read(Ok([]), r)
    else
      var v := ReadValue(r);
      if v.value.Err? then Read(Err(v.value.error), v.rest)
      else
        var m := ReadMany(n - 1, v.rest);
        Read(if m.value.Ok? then Ok([v.value.value] + m.value.value) else Err(m.value.error), m.rest)
  }

  // ---------------------------------------------------------------- framing

  /** Free of line ends. */
  predicate Clean(h: string) {
    '\r' !in h && '\n' !in h
  }

  lemma {:induction false} LineOf(h: string, rest: string)
    requires Clean(h)
    ensures SplitLine(h + CRLF + rest) == Some((h + CRLF, rest))
  {
    var r := h + CRLF + rest;
    if h == "" {
      assert r[1..] == "\n" + rest && (r[1..])[1..] == rest;
      assert SplitLine(r[1..]) == Some(("\n", rest));
      assert [r[0]] + "\n" == h + CRLF;
    } else {
      assert r[1..] == h[1..] + CRLF + rest;
      LineOf(h[1..], rest);
      assert h[0] in h;
      assert [h[0]] + (h[1..] + CRLF) == h + CRLF;
    }
  }

  lemma TrimLine(h: string)
    requires Clean(h)
    ensures TrimRight(h + CRLF) == h
  {
    var s := h + CRLF;
    assert s[..|s| - 1] == h + "\r" && (h + "\r")[..|h|] == h;
    assert h != "" ==> Last(h) in h;
    assert TrimRight(s) == TrimRight(h + "\r") == TrimRight(h);
  }

  lemma ReadClean(h: string, rest: string)
    requires Clean(h)
    ensures ReadLine(h + CRLF + rest) == Read(Ok(h), rest)
  {
    LineOf(h, rest);
    TrimLine(h);
  }

  lemma ReadHeader(n: nat, rest: string)
    requires n < INT64
    ensures ReadLine(Decimal(n) + CRLF + rest) == Read(Ok(Decimal(n)), rest) && Atoi(Decimal(n)) == Some(n)
  {
    assert Clean(Decimal(n));
    ReadClean(Decimal(n), rest);
    AtoiDecimal(n);
  }

  lemma ReadPart(p: string, rest: string)
    requires |p| < INT64
    ensures ReadValue(EncodePart(p) + rest) == Read(Ok(Str(p)), rest)
  {
    hide Decimal, Atoi, ReadLine;
    var r, t := EncodePart(p) + rest, p + CRLF + rest;
    assert r[1..] == Decimal(|p|) + CRLF + t;
    ReadHeader(|p|, t);
    assert t[..|p|] == p && t[|p| + 2..] == rest;
  }

  function Strings(parts: seq<string>): seq<Value> {
    seq(|parts|, i requires 0 <= i < |parts| => Str(parts[i]))
  }

  lemma {:induction false} ReadParts(parts: seq<string>, rest: string)
    requires forall i :: 0 <= i < |parts| ==> |parts[i]| < INT64
    ensures ReadMany(|parts|, EncodeParts(parts) + rest) == Read(Ok(Strings(parts)), rest)
    decreases |parts|
  {
    hide EncodePart, ReadValue;
    if parts == [] {
      assert EncodeParts(parts) + rest == rest;
    } else {
      var r := EncodeParts(parts) + rest;
      assert r == EncodePart(parts[0]) + (EncodeParts(parts[1..]) + rest);
      ReadPart(parts[0], EncodeParts(parts[1..]) + rest);
      ReadParts(parts[1..], rest);
      assert [Str(parts[0])] + Strings(parts[1..]) == Strings(parts);
    }
  }

  /** Lengths are what a Go int can hold. */
  predicate Fits(parts: seq<string>) {
    |parts| < INT64 && forall i :: 0 <= i < |parts| ==> |parts[i]| < INT64
  }

  /** Framing: whatever bytes the parts contain, CR and LF included, and whatever follows, decoding an
      encoded command returns exactly its parts and leaves exactly what follows. */
  lemma ReadEncode(parts: seq<string>, rest: string)
    requires Fits(parts)
    ensures ReadValue(Encode(parts) + rest) == Read(Ok(Arr(Strings(parts))), rest)
  {
    hide Decimal, Atoi, ReadLine, EncodeParts, ReadMany;
    var r, t := Encode(parts) + rest, EncodeParts(parts) + rest;
    assert r[1..] == Decimal(|parts|) + CRLF + t;
    ReadHeader(|parts|, t);
    ReadParts(parts, rest);
  }

  function EncodeAll(cmds: seq<seq<string>>): string {
    if cmds == [] then "" else Encode(cmds[0]) + EncodeAll(cmds[1..])
  }

  /** A pipeline of commands decodes to the same sequence of commands. */
  lemma {:induction false} ReadPipeline(cmds: seq<seq<string>>, rest: string)
    requires forall i :: 0 <= i < |cmds| ==> Fits(cmds[i])
    ensures ReadMany(|cmds|, EncodeAll(cmds) + rest)
         == Read(Ok(seq(|cmds|, i requires 0 <= i < |cmds| => Arr(Strings(cmds[i])))), rest)
    decreases |cmds|
  {
    hide Encode, ReadValue, Strings, Fits;
    if cmds == [] {
      assert EncodeAll(cmds) + rest == rest;
    } else {
      assert EncodeAll(cmds) + rest == Encode(cmds[0]) + (EncodeAll(cmds[1..]) + rest);
      ReadEncode(cmds[0], EncodeAll(cmds[1..]) + rest);
      ReadPipeline(cmds[1..], rest);
      var t := cmds[1..];
      assert [Arr(Strings(cmds[0]))] + seq(|t|, i requires 0 <= i < |t| => Arr(Strings(t[i])))
          == seq(|cmds|, i requires 0 <= i < |cmds| => Arr(Strings(cmds[i])));
    }
  }

  /** What goes over the wire for one command. */
  lemma KnownCommand()
    ensures Encode(["SET", "key"]) == "*2\r\n$3\r\nSET\r\n$3\r\nkey\r\n" && Decimal(105) == "105"
  {
    var parts := ["SET", "key"];
    assert parts[1..] == ["key"] && parts[1..][1..] == [];
    assert EncodeParts(parts) == EncodePart("SET") + (EncodePart("key") + "");
    assert Decimal(105) == Decimal(10) + [DigitChar(5)] && Decimal(10) == Decimal(1) + [DigitChar(0)];
  }

  // ---------------------------------------------------------------- replies

  /** %d of any number. */
  function Signed(i: int): string {
    if i < 0 then "-" + Decimal(0 - i) else Decimal(i)
  }

  predicate IsInt64(i: int) {
    0 - INT64 <= i < INT64
  }

  lemma AtoiNegative(d: string)
    requires AllDigits(d) && DigitsValue(d) <= INT64
    ensures Atoi("-" + d) == Some(0 - DigitsValue(d))
  {
    hide DigitsValue;
    assert ("-" + d)[1..] == d;
  }

  lemma AtoiSigned(i: int)
    requires IsInt64(i)
    ensures Atoi(Signed(i)) == Some(i) && Clean(Signed(i))
  {
    hide Decimal, Atoi;
    if i < 0 {
      DecimalValue(0 - i);
      AtoiNegative(Decimal(0 - i));
    } else {
      AtoiDecimal(i);
    }
  }

  /** A line reply is its text, an error reply its message, an integer reply its number, and a negative length
      stands for nothing; each leaves what follows it. */
  lemma ReadSimple(line: string, i: int, rest: string)
    requires Clean(line) && IsInt64(i)
    ensures ReadValue("+" + line + CRLF + rest) == Read(Ok(Str(line)), rest)
    ensures ReadValue("-" + line + CRLF + rest) == Read(Err(ServerError(line)), rest)
    ensures ReadValue(":" + Signed(i) + CRLF + rest) == Read(Ok(Num(i)), rest)
    ensures i < 0 ==> ReadValue("$" + Signed(i) + CRLF + rest) == Read(Ok(Nil), rest)
    ensures i < 0 ==> ReadValue("*" + Signed(i) + CRLF + rest) == Read(Ok(Nil), rest)
  {
    hide Atoi, ReadLine, Signed, ReadMany;
    ReadClean(line, rest);
    AtoiSigned(i);
    ReadClean(Signed(i), rest);
    Behind('+', line, rest);
    Behind('-', line, rest);
    Behind(':', Signed(i), rest);
    Behind('$', Signed(i), rest);
    Behind('*', Signed(i), rest);
  }

  lemma Behind(c: char, h: string, rest: string)
    ensures var r := [c] + h + CRLF + rest; r != "" && r[0] == c && r[1..] == h + CRLF + rest
  {
  }

  /** How a server writes a reply: bulk strings, integers, nothing, and arrays of replies. */
  function EncodeReply(v: Value): string
    decreases v
  {
    match v
    case Str(s) => EncodePart(s)
    case Num(i) => ":" + Signed(i) + CRLF
    case Nil => "$-1" + CRLF
    case Arr(vs) => "*" + Decimal(|vs|) + CRLF + EncodeReplies(vs)
  }

  function EncodeReplies(vs: seq<Value>): string
    decreases vs
  {
    if vs == [] then "" else EncodeReply(vs[0]) + EncodeReplies(vs[1..])
  }

  /** Numbers and lengths are what a Go int64 can hold. */
  predicate FitsReply(v: Value)
    decreases v
  {
    match v
    case Str(s) => |s| < INT64
    case Num(i) => IsInt64(i)
    case Nil => true
    case Arr(vs) => |vs| < INT64 && forall i :: 0 <= i < |vs| ==> FitsReply(vs[i])
  }

  /** Every reply, nested arrays and arbitrary bytes included, is read back as it was written, and what follows
      it is left. */
  lemma {:induction false} ReadReply(v: Value, rest: string)
    requires FitsReply(v)
    ensures ReadValue(EncodeReply(v) + rest) == Read(Ok(v), rest)
    decreases v
  {
    hide Atoi, ReadLine, ReadMany, Decimal, Signed;
    match v
    case Str(s) => ReadPart(s, rest);
    case Num(i) =>
      ReadSimple("", i, rest);
      assert EncodeReply(v) + rest == ":" + Signed(i) + CRLF + rest;
    case Nil =>
      assert Signed(-1) == "-1" by { SignedMinusOne(); }
      ReadSimple("", -1, rest);
      assert EncodeReply(v) + rest == "$" + Signed(-1) + CRLF + rest;
    case Arr(vs) =>
      var t := EncodeReplies(vs) + rest;
      var r := EncodeReply(v) + rest;
      assert r == "*" + Decimal(|vs|) + CRLF + t;
      Behind('*', Decimal(|vs|), t);
      ReadHeader(|vs|, t);
      ReadReplies(vs, rest);
  }

  lemma SignedMinusOne()
    ensures Signed(-1) == "-1"
  {
  }

  lemma {:induction false} ReadReplies(vs: seq<Value>, rest: string)
    requires forall i :: 0 <= i < |vs| ==> FitsReply(vs[i])
    ensures ReadMany(|vs|, EncodeReplies(vs) + rest) == Read(Ok(vs), rest)
    decreases vs
  {
    hide EncodeReply, ReadValue, FitsReply;
    if vs == [] {
      assert EncodeReplies(vs) + rest == rest;
    } else {
      assert EncodeReplies(vs) + rest == EncodeReply(vs[0]) + (EncodeReplies(vs[1..]) + rest);
      ReadReply(vs[0], EncodeReplies(vs[1..]) + rest);
      ReadReplies(vs[1..], rest);
      assert [vs[0]] + vs[1..] == vs;
    }
  }
}
