/** Writing a JSON string in bounded chunks. */
module JsonExport {
  import opened Utf16Text
  import opened CsvExport

  const BACKSLASH: Unit := 0x5C

  function HexDigit(d: int): Unit
    requires 0 <= d < 16
  {
    if d < 10 then 0x30 + d else 0x61 + d - 10
  }

  /** `\uXXXX` with lower-case digits. */
  function UnicodeEscape(u: Unit): Text {
    var a := u / 16;
    var b := a / 16;
    var c := b / 16;
    [BACKSLASH, 0x75, HexDigit(c), HexDigit(b % 16), HexDigit(a % 16), HexDigit(u % 16)]
  }

  /** The form of a code unit that is not half of a surrogate pair. */
  function QuoteUnit(u: Unit): Text {
    if u == 0x08 then [BACKSLASH, 0x62]
    else if u == TAB then [BACKSLASH, 0x74]
    else if u == LF then [BACKSLASH, 0x6E]
    else if u == 0x0C then [BACKSLASH, 0x66]
    else if u == CR then [BACKSLASH, 0x72]
    else if u == QUOTE then [BACKSLASH, QUOTE]
    else if u == BACKSLASH then [BACKSLASH, BACKSLASH]
    else if u < 0x20 || High(u) || Low(u) then UnicodeEscape(u)
    else [u]
  }

  /** QuoteJSONString of section 25.5.2 of ECMA-262 without the enclosing quotes: code point by code point,
      a lone surrogate as an escape. */
  function QuoteBody(t: Text): Text {
    if t == [] then []
    else if CutsPair(t, 1) then [t[0], t[1]] + QuoteBody(t[2..])
    else QuoteUnit(t[0]) + QuoteBody(t[1..])
  }

  function QuoteJson(t: Text): Text { [QUOTE] + QuoteBody(t) + [QUOTE] }

  /** Quoting in two parts is quoting the whole, unless the cut divides a pair. */
  lemma {:induction false} BodyConcat(a: Text, b: Text)
    requires !CutsPair(a + b, |a|)
    ensures QuoteBody(a + b) == QuoteBody(a) + QuoteBody(b)
    decreases |a|
  {
    var t := a + b;
    if a == [] {
      assert t == b && [] + QuoteBody(b) == QuoteBody(b);
    } else if CutsPair(t, 1) {
      assert |a| > 1;
      assert t[2..] == a[2..] + b;
      BodyConcat(a[2..], b);
    } else {
      assert t[1..] == a[1..] + b;
      BodyConcat(a[1..], b);
    }
  }

  /** The condition is needed: a divided pair comes out as two escapes. */
  lemma {:induction false} DividedPairEscaped(hi: Unit, lo: Unit)
    requires High(hi) && Low(lo)
    ensures QuoteBody([hi]) + QuoteBody([lo]) != QuoteBody([hi, lo])
  {
    assert [hi][1..] == [] && [lo][1..] == [] && [hi, lo][2..] == [];
    assert |QuoteBody([hi]) + QuoteBody([lo])| == 12;
    assert |QuoteBody([hi, lo])| == 2;
  }

  lemma {:induction false} WireStep(head: Text, rest: Text)
    requires WellFormed(head) && WellFormed(rest)
    ensures WellFormed(head + rest)
  {
    var t := head + rest;
    forall i | 0 <= i < |t| ensures !Lone(t, i) {
      if i < |head| { assert !Lone(head, i); } else { assert !Lone(rest, i - |head|); }
    }
  }

  /** Quoted text has no lone surrogate left, so it is sent as it is. */
  lemma {:induction false} BodyWellFormed(t: Text)
    ensures WellFormed(QuoteBody(t))
    decreases |t|
  {
    if t == [] {
    } else if CutsPair(t, 1) {
      BodyWellFormed(t[2..]);
      WireStep([t[0], t[1]], QuoteBody(t[2..]));
    } else {
      BodyWellFormed(t[1..]);
      var q := QuoteUnit(t[0]);
      forall i | 0 <= i < |q| ensures !Lone(q, i) {}
      WireStep(q, QuoteBody(t[1..]));
    }
  }

  /** Where the chunk that begins at `offset` ends, for chunks of about `size` units. */
  function ChunkEnd(value: Text, offset: nat, size: nat): (end: nat)
    requires offset < |value| && size > 0
    ensures offset < end <= |value|
    ensures !CutsPair(value, end)
    ensures end <= offset + size + 1
  {
    var end := Min(|value|, offset + size);
    var end1 := if end < |value| && High(value[end - 1]) && Low(value[end]) then end - 1 else end;
    if end1 == offset then end1 + 2 else end1
  }

  /** The chunk loop. */
  method WriteJsonBody(response: ExportResponse, value: Text)
    modifies response
    ensures response.received == old(response.received) + QuoteBody(value)
  {
    ghost var start := response.received;
    var offset := 0;
    assert value[..0] == [] && start + [] == start;
    while offset < |value|
      invariant 0 <= offset <= |value| && !CutsPair(value, offset)
      invariant response.received == start + QuoteBody(value[..offset])
    {
      var end := ChunkEnd(value, offset, WRITE_CHARS);
      var chunk := QuoteBody(value[offset..end]);
      AppendChunk(value, offset, end);
      BodyWellFormed(value[offset..end]);
      assert Wire(chunk) == chunk;
      response.Write(chunk);
      offset := end;
    }
    assert value[..|value|] == value;
  }

  /** `writeJsonString`: the client receives the quoting of the whole string, whatever its surrogates. */
  method WriteJsonString(response: ExportResponse, value: Text)
    modifies response
    ensures response.received == old(response.received) + QuoteJson(value)
  {
    WireAscii([QUOTE]);
    response.Write([QUOTE]);
    WriteJsonBody(response, value);
    response.Write([QUOTE]);
  }

  lemma {:induction false} AppendChunk(value: Text, offset: nat, end: nat)
    requires offset <= end <= |value| && !CutsPair(value, offset)
    ensures QuoteBody(value[..end]) == QuoteBody(value[..offset]) + QuoteBody(value[offset..end])
  {
    assert value[..end] == value[..offset] + value[offset..end];
    assert !CutsPair(value[..end], offset);
    BodyConcat(value[..offset], value[offset..end]);
  }

  // ---------- reading it back ----------

  function HexValue(u: Unit): int {
    if 0x30 <= u <= 0x39 then u - 0x30 else if 0x61 <= u <= 0x66 then u - 0x61 + 10 else 0
  }

  /** The string value of a JSON string body. */
  function Unquote(t: Text): Text
    decreases |t|
  {
    if t == [] then []
    else if t[0] != BACKSLASH || |t| == 1 then [t[0]] + Unquote(t[1..])
    else if t[1] == 0x75 && |t| >= 6 then
      [(HexValue(t[2]) * 4096 + HexValue(t[3]) * 256 + HexValue(t[4]) * 16 + HexValue(t[5])) % 0x10000] + Unquote(t[6..])
    else
      [if t[1] == 0x62 then 0x08 else if t[1] == 0x74 then TAB else if t[1] == 0x6E then LF
       else if t[1] == 0x66 then 0x0C else if t[1] == 0x72 then CR else t[1]] + Unquote(t[2..])
  }

  lemma {:induction false} HexDigits(d: int)
    requires 0 <= d < 16
    ensures HexValue(HexDigit(d)) == d
  {}

  lemma {:induction false} HexSum(u: Unit)
    ensures var q := UnicodeEscape(u); HexValue(q[2]) * 4096 + HexValue(q[3]) * 256 + HexValue(q[4]) * 16 + HexValue(q[5]) == u
  {
    var a := u / 16;
    var b := a / 16;
    var c := b / 16;
    HexDigits(c);
    HexDigits(b % 16);
    HexDigits(a % 16);
    HexDigits(u % 16);
  }

  lemma {:induction false} UnquoteEscape(u: Unit, rest: Text)
    ensures Unquote(UnicodeEscape(u) + rest) == [u] + Unquote(rest)
  {
    HexSum(u);
    var q := UnicodeEscape(u);
    var t := q + rest;
    assert t[0] == BACKSLASH && t[1] == 0x75 && t[6..] == rest;
    assert t[2] == q[2] && t[3] == q[3] && t[4] == q[4] && t[5] == q[5];
  }

  lemma {:induction false} UnquoteUnit(u: Unit, rest: Text)
    ensures Unquote(QuoteUnit(u) + rest) == [u] + Unquote(rest)
  {
    var q := QuoteUnit(u);
    if |q| == 6 {
      UnquoteEscape(u, rest);
    } else if |q| == 2 {
      UnquoteTwo(u, rest);
    } else {
      assert (q + rest)[1..] == rest;
    }
  }

  lemma {:induction false} UnquoteTwo(u: Unit, rest: Text)
    requires |QuoteUnit(u)| == 2
    ensures Unquote(QuoteUnit(u) + rest) == [u] + Unquote(rest)
  {
    var q := QuoteUnit(u);
    var t := q + rest;
    assert t[0] == q[0] && t[1] == q[1] && t[2..] == rest;
  }

  /** No two strings are quoted alike: reading the quoted form gives the string back, lone surrogates included. */
  lemma {:induction false} UnquoteBody(t: Text)
    ensures Unquote(QuoteBody(t)) == t
    decreases |t|
  {
    if t == [] {
    } else if CutsPair(t, 1) {
      UnquoteBody(t[2..]);
      var q := QuoteBody(t);
      assert q[0] == t[0] && q[1] == t[1] && q[1..][1..] == QuoteBody(t[2..]);
      assert t == [t[0]] + ([t[1]] + t[2..]);
    } else {
      UnquoteBody(t[1..]);
      UnquoteUnit(t[0], QuoteBody(t[1..]));
      assert t == [t[0]] + t[1..];
    }
  }

  // ---------- it is JSON ----------

  predicate HexUnit(u: Unit) { 0x30 <= u <= 0x39 || 0x41 <= u <= 0x46 || 0x61 <= u <= 0x66 }

  /** The characters of a string by section 7 of RFC 8259: no quote, backslash or control character but in an escape. */
  predicate JsonChars(b: Text)
    decreases |b|
  {
    if b == [] then true
    else if b[0] != BACKSLASH then b[0] != QUOTE && b[0] >= 0x20 && JsonChars(b[1..])
    else if |b| >= 6 && b[1] == 0x75 then HexUnit(b[2]) && HexUnit(b[3]) && HexUnit(b[4]) && HexUnit(b[5]) && JsonChars(b[6..])
    else |b| >= 2 && b[1] in [QUOTE, BACKSLASH, 0x2F, 0x62, 0x66, 0x6E, 0x72, 0x74] && JsonChars(b[2..])
  }

  lemma {:induction false} UnitIsJson(u: Unit, rest: Text)
    requires JsonChars(rest)
    ensures JsonChars(QuoteUnit(u) + rest)
  {
    var q := QuoteUnit(u);
    var b := q + rest;
    assert b[|q|..] == rest && b[..|q|] == q;
    if |q| == 6 {
      assert b[0] == q[0] && b[1] == q[1] && b[2] == q[2] && b[3] == q[3] && b[4] == q[4] && b[5] == q[5];
    } else {
      assert b[0] == q[0] && (|q| == 2 ==> b[1] == q[1]);
    }
  }

  /** What is written between the quotes is a JSON string, whatever the value holds. */
  lemma {:induction false} BodyIsJson(t: Text)
    ensures JsonChars(QuoteBody(t))
    decreases |t|
  {
    if t == [] {
    } else if CutsPair(t, 1) {
      BodyIsJson(t[2..]);
      var b := QuoteBody(t);
      assert b[0] == t[0] && b[1..][0] == t[1] && b[1..][1..] == QuoteBody(t[2..]);
      assert JsonChars(b[1..]);
    } else {
      BodyIsJson(t[1..]);
      UnitIsJson(t[0], QuoteBody(t[1..]));
    }
  }

  predicate MustEscape(t: Text, i: nat)
    requires i < |t|
  {
    t[i] == QUOTE || t[i] == BACKSLASH || t[i] < 0x20 || Lone(t, i)
  }

  lemma {:induction false} RestPlain(t: Text, k: nat)
    requires k <= |t| && !CutsPair(t, k) && forall i :: 0 <= i < |t| ==> !MustEscape(t, i)
    ensures forall i :: 0 <= i < |t[k..]| ==> !MustEscape(t[k..], i)
  {
    forall i | 0 <= i < |t[k..]| ensures !MustEscape(t[k..], i) {
      assert !MustEscape(t, i + k) && t[k..][i] == t[i + k];
    }
  }

  /** A value without quotes, backslashes, control characters and lone surrogates is written as it is. */
  lemma {:induction false} PlainAsIs(t: Text)
    requires forall i :: 0 <= i < |t| ==> !MustEscape(t, i)
    ensures QuoteBody(t) == t
    decreases |t|
  {
    if t == [] {
    } else {
      var k := if CutsPair(t, 1) then 2 else 1;
      RestPlain(t, k);
      PlainAsIs(t[k..]);
      assert !MustEscape(t, 0) && t == t[..k] + t[k..];
    }
  }
}
