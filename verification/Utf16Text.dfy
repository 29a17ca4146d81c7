/** Strings as JavaScript has them: sequences of UTF-16 code units, with lone surrogates allowed. */
module Utf16Text {

  type Unit = u: int | 0 <= u < 0x10000
  type Text = seq<Unit>

  const QUOTE: Unit := 0x22
  const COMMA: Unit := 0x2C
  const CR: Unit := 0x0D
  const LF: Unit := 0x0A
  const SPACE: Unit := 0x20
  const TAB: Unit := 0x09
  const REPLACEMENT: Unit := 0xFFFD

  predicate High(u: Unit) { 0xD800 <= u <= 0xDBFF }
  predicate Low(u: Unit) { 0xDC00 <= u <= 0xDFFF }

  /** Position `i` is one half of a surrogate pair. */
  predicate InPair(t: Text, i: nat)
    requires i < |t|
  {
    (High(t[i]) && i + 1 < |t| && Low(t[i + 1])) || (Low(t[i]) && i > 0 && High(t[i - 1]))
  }

  predicate Lone(t: Text, i: nat)
    requires i < |t|
  {
    (High(t[i]) || Low(t[i])) && !InPair(t, i)
  }

  predicate WellFormed(t: Text) { forall i :: 0 <= i < |t| ==> !Lone(t, i) }

  /** What arrives when a string is written to the response by itself: UTF-8 has no lone surrogate, so the
      encoder puts the replacement character in its place. */
  function Wire(t: Text): (r: Text)
    ensures |r| == |t|
    ensures forall i :: 0 <= i < |t| ==> r[i] == if Lone(t, i) then REPLACEMENT else t[i]
  {
    seq(|t|, i requires 0 <= i < |t| => if Lone(t, i) then REPLACEMENT else t[i])
  }

  /** A cut at `n` goes through the middle of a surrogate pair. */
  predicate CutsPair(t: Text, n: nat) {
    0 < n < |t| && High(t[n - 1]) && Low(t[n])
  }

  /** JavaScript white space and line terminators, the set `trim` removes. */
  predicate IsSpace(u: Unit) {
    (0x09 <= u <= 0x0D) || u == 0x20 || u == 0xA0 || u == 0x1680 || (0x2000 <= u <= 0x200A) ||
    u == 0x2028 || u == 0x2029 || u == 0x202F || u == 0x205F || u == 0x3000 || u == 0xFEFF
  }

  predicate Blank(t: Text) { forall i :: 0 <= i < |t| ==> IsSpace(t[i]) }

  function TrimStart(t: Text): Text {
    if t != [] && IsSpace(t[0]) then TrimStart(t[1..]) else t
  }

  function TrimEnd(t: Text): Text {
    if t != [] && IsSpace(t[|t| - 1]) then TrimEnd(t[..|t| - 1]) else t
  }

  function Trim(t: Text): Text { TrimEnd(TrimStart(t)) }

  function Ascii(s: string): (t: Text)
    ensures |t| == |s|
    ensures forall i :: 0 <= i < |s| ==> t[i] == s[i] as int % 0x10000
  {
    seq(|s|, i requires 0 <= i < |s| => s[i] as int % 0x10000)
  }

  /** Bytes of the UTF-8 form of a well-formed text. */
  function Utf8Length(t: Text): nat {
    if t == [] then 0 else
    (if t[0] < 0x80 then 1 else if t[0] < 0x800 || High(t[0]) || Low(t[0]) then 2 else 3) + Utf8Length(t[1..])
  }
}
