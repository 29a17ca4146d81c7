/** Spellings of addresses, normal forms, and what CIDR matching and limiter keys mean. */
module AddressSpellings {
  import opened BitArithmetic
  import opened AddressText
  import opened ClientAddress
  import opened Options

  // ---------- every spelling denotes its words ----------

  /** A spelling: words before and after an optional gap, each of one to four hexadecimal digits in any letter
      case, and optionally the last two words as a dotted quad. */
  datatype Spelling = Spelling(left: seq<string>, gap: bool, right: seq<string>, dotted: Option<seq<nat>>)

  predicate SpelledWord(w: string) { HexWord(Lower(w)) }

  predicate SpellingOk(sp: Spelling) {
    var n := |sp.left| + |sp.right| + if sp.dotted.Some? then 2 else 0;
    && (forall k :: 0 <= k < |sp.left| ==> SpelledWord(sp.left[k]))
    && (forall k :: 0 <= k < |sp.right| ==> SpelledWord(sp.right[k]))
    && (sp.dotted.Some? ==> Octets(sp.dotted.value))
    && (if sp.gap then n <= 7 else n == 8 && sp.right == [])
  }

  function Tail(sp: Spelling): seq<string> { if sp.dotted.Some? then [Dotted(sp.dotted.value)] else [] }

  function Layout(left: seq<string>, gap: bool, right: seq<string>): string {
    if gap then Join(left, ':') + "::" + Join(right, ':') else Join(left + right, ':')
  }

  function Text(sp: Spelling): string { Layout(sp.left, sp.gap, sp.right + Tail(sp)) }

  /** The words of a dotted quad. */
  function TailWords(sp: Spelling): seq<nat> {
    if sp.dotted.Some? && |sp.dotted.value| == 4
    then var os := sp.dotted.value; [os[0] * 256 + os[1], os[2] * 256 + os[3]]
    else []
  }

  function ZeroWords(n: nat): (r: seq<nat>)
    ensures |r| == n && forall k :: 0 <= k < n ==> r[k] == 0
  {
    seq(n, _ => 0)
  }

  function WordsOf(sp: Spelling): (ws: seq<nat>)
    requires SpellingOk(sp)
  {
    var before := Values(LowerAll(sp.left), 16);
    var after := Values(LowerAll(sp.right), 16) + TailWords(sp);
    before + ZeroWords(8 - |before| - |after|) + after
  }

  lemma {:induction false} HexWordsPlain(ws: seq<string>)
    requires forall k :: 0 <= k < |ws| ==> HexWord(ws[k])
    ensures Parts(ws) && (forall k :: 0 <= k < |ws| ==> '.' !in ws[k])
  {}

  lemma {:induction false} FieldsOfJoin(ws: seq<string>)
    requires Parts(ws)
    ensures Fields(Join(ws, ':')) == ws
  {
    JoinedPlain(ws);
    if ws != [] { SplitJoin(ws, ':'); }
  }

  ghost predicate HexWords(ws: seq<string>) { forall k :: 0 <= k < |ws| ==> HexWord(ws[k]) }

  lemma {:induction false} FilledHex(left: seq<string>, right: seq<string>)
    requires HexWords(left) && HexWords(right) && |left| + |right| <= 8
    ensures HexWords(Filled(left, right)) && |Filled(left, right)| == 8
  {}

  lemma {:induction false} GapWords(left: seq<string>, right: seq<string>)
    requires HexWords(left) && HexWords(right) && |left| + |right| <= 7
    ensures Words(Join(left, ':') + "::" + Join(right, ':')) == Some(Filled(left, right))
  {
    HexWordsPlain(left);
    HexWordsPlain(right);
    JoinedPlain(left);
    JoinedPlain(right);
    var a, b := Join(left, ':'), Join(right, ':');
    SplitTwo(a, b);
    FieldsOfJoin(left);
    FieldsOfJoin(right);
    FilledHex(left, right);
    assert Assembled(left, true, right) == Some(Filled(left, right));
  }

  lemma {:induction false} FullWords(ws: seq<string>)
    requires HexWords(ws) && |ws| == 8
    ensures Words(Join(ws, ':')) == Some(ws)
  {
    HexWordsPlain(ws);
    JoinedPlain(ws);
    SplitSingle(Join(ws, ':'));
    FieldsOfJoin(ws);
    assert Filled(ws, []) == ws;
  }

  /** Without a dotted tail: the words are read back, and the gap is filled with zeros. */
  lemma {:induction false} LayoutWords(left: seq<string>, gap: bool, right: seq<string>)
    requires HexWords(left) && HexWords(right) && if gap then |left| + |right| <= 7 else |left| + |right| == 8
    ensures Words(Layout(left, gap, right)) == Some(Filled(left, right))
  {
    if gap {
      GapWords(left, right);
    } else {
      FullWords(left + right);
      assert Filled(left, right) == left + right;
    }
  }

  // ---------- dotted tails and letter case ----------

  lemma {:induction false} NotInJoin(ws: seq<string>, c: char, d: char)
    requires d != c && forall k :: 0 <= k < |ws| ==> d !in ws[k]
    ensures d !in Join(ws, c)
  {
    if d in Join(ws, c) { JoinedChars(ws, c, d); }
  }

  lemma {:induction false} DottedChars(os: seq<nat>)
    requires Octets(os)
    ensures ':' !in Dotted(os) && '%' !in Dotted(os) && '.' in Dotted(os) && Lower(Dotted(os)) == Dotted(os)
  {
    var ws := Texts(os, 10);
    forall k | 0 <= k < 4 ensures forall j :: 0 <= j < |ws[k]| ==> Digit(ws[k][j]) { ValueDigits(os[k], 10); }
    NotInJoin(ws, '.', ':');
    NotInJoin(ws, '.', '%');
    assert Dotted(os) == ws[0] + "." + Join(ws[1..], '.');
    assert Dotted(os)[|ws[0]|] == '.';
    forall i | 0 <= i < |Dotted(os)| ensures LowerChar(Dotted(os)[i]) == Dotted(os)[i] {
      JoinedChars(ws, '.', Dotted(os)[i]);
    }
  }

  lemma {:induction false} Halves(m: nat, h: nat, l: nat, k: nat, d: nat)
    requires 1 <= d == Pow2(k) && h < d && l < d && m == h * d + l
    ensures And(Shr(m, k), d - 1) == h && And(m, d - 1) == l
  {
    QuotientUnique(m, d, h, l);
    ShrBy(m, k, d);
    AndLow(m, k);
    AndLow(h, k);
    LowWhole(h, k);
  }

  function QuadWords(os: seq<nat>): seq<string>
    requires Octets(os)
  {
    [Digits(os[0] * 256 + os[1], 16), Digits(os[2] * 256 + os[3], 16)]
  }

  lemma {:induction false} HexHalvesOf(os: seq<nat>)
    requires Octets(os)
    ensures HexHalves(Positional(os, 256)) == QuadWords(os)
  {
    PositionalFour(os, 256);
    SmallPowers();
    Halves(Positional(os, 256), os[0] * 256 + os[1], os[2] * 256 + os[3], 16, 65536);
  }

  /** The text `d` is a dotted quad for which the words `ws` are written. */
  ghost predicate Quad(d: string, ws: seq<string>) {
    && ':' !in d && '.' in d && ws != []
    && ParseIpv4(d).Some? && HexHalves(ParseIpv4(d).value.bits) == ws
  }

  lemma {:induction false} DottedQuad(os: seq<nat>)
    requires Octets(os)
    ensures Quad(Dotted(os), QuadWords(os))
  {
    DottedChars(os);
    ParseDotted(os);
    HexHalvesOf(os);
  }

  lemma {:induction false} RewrittenAt(q: string, d: string)
    requires ':' !in d && '.' in d
    ensures Rewritten(q + ":" + d) == RewrittenTail(q, d)
  {
    var s := q + ":" + d;
    LastCut(q, d, ':');
    assert s[|q| + 1..] == d && s[..|q|] == q;
  }

  lemma {:induction false} RewrittenQuad(q: string, d: string, ws: seq<string>)
    requires Quad(d, ws)
    ensures Rewritten(q + ":" + d) == Some(q + ":" + Join(ws, ':'))
  {
    RewrittenAt(q, d);
  }

  lemma {:induction false} JoinConcat(ws: seq<string>, vs: seq<string>, c: char)
    requires ws != [] && vs != []
    ensures Join(ws + vs, c) == Join(ws, c) + [c] + Join(vs, c)
  {
    if |ws| > 1 {
      JoinConcat(ws[1..], vs, c);
      assert (ws + vs)[1..] == ws[1..] + vs;
    } else {
      assert (ws + vs)[1..] == vs;
    }
  }

  /** The text before the last colon in front of a tail. */
  function Before(left: seq<string>, gap: bool, right: seq<string>): string {
    if gap then (if right == [] then Join(left, ':') + ":" else Join(left, ':') + "::" + Join(right, ':'))
    else Join(left + right, ':')
  }

  lemma {:induction false} LayoutTail(left: seq<string>, gap: bool, right: seq<string>, tail: seq<string>)
    requires tail != [] && (!gap ==> left + right != [])
    ensures Layout(left, gap, right + tail) == Before(left, gap, right) + ":" + Join(tail, ':')
  {
    if gap && right == [] {
      assert right + tail == tail;
      assert Join(left, ':') + "::" == Join(left, ':') + ":" + ":";
    } else if gap {
      JoinConcat(right, tail, ':');
      var a, b, c := Join(left, ':'), Join(right, ':'), Join(tail, ':');
      assert a + "::" + (b + ":" + c) == a + "::" + b + ":" + c;
    } else {
      assert left + (right + tail) == left + right + tail;
      JoinConcat(left + right, tail, ':');
    }
  }

  lemma {:induction false} RewrittenLayout(left: seq<string>, gap: bool, right: seq<string>, d: string, ws: seq<string>)
    requires Quad(d, ws) && (!gap ==> left + right != [])
    ensures Rewritten(Layout(left, gap, right + [d])) == Some(Layout(left, gap, right + ws))
  {
    LayoutTail(left, gap, right, [d]);
    LayoutTail(left, gap, right, ws);
    RewrittenQuad(Before(left, gap, right), d, ws);
  }

  lemma {:induction false} RewrittenPlain(left: seq<string>, gap: bool, right: seq<string>)
    requires HexWords(left) && HexWords(right)
    ensures Rewritten(Layout(left, gap, right)) == Some(Layout(left, gap, right))
  {
    HexWordsPlain(left);
    HexWordsPlain(right);
    NotInJoin(left, ':', '.');
    NotInJoin(right, ':', '.');
    NotInJoin(left + right, ':', '.');
    var s := Layout(left, gap, right);
    assert '.' !in s;
  }

  lemma {:induction false} LowerLayout(left: seq<string>, gap: bool, right: seq<string>)
    ensures Lower(Layout(left, gap, right)) == Layout(LowerAll(left), gap, LowerAll(right))
  {
    if gap {
      LowerJoin(left);
      LowerJoin(right);
      LowerConcat(Join(left, ':') + "::", Join(right, ':'));
      LowerConcat(Join(left, ':'), "::");
      assert Lower("::") == "::";
    } else {
      LowerJoin(left + right);
      assert LowerAll(left + right) == LowerAll(left) + LowerAll(right);
    }
  }

  /** The hexadecimal words of a spelling, after its gap, with a dotted tail written out. */
  function RightWords(sp: Spelling): seq<string>
    requires SpellingOk(sp)
  {
    LowerAll(sp.right) + if sp.dotted.Some? then QuadWords(sp.dotted.value) else []
  }

  lemma {:induction false} HexOfWord(n: nat)
    requires n < 65536
    ensures HexWord(Digits(n, 16)) && Value(Digits(n, 16), 16) == n
  {
    ValueDigits(n, 16);
    assert Power16(4) == 65536;
    HexShort(n, 4);
  }

  lemma {:induction false} ValuesFilled(left: seq<string>, right: seq<string>)
    requires |left| + |right| <= 8
    ensures Values(Filled(left, right), 16) == Values(left, 16) + ZeroWords(8 - |left| - |right|) + Values(right, 16)
  {
    assert Value("0", 16) == 0 by { assert "0"[..0] == ""; }
  }

  lemma {:induction false} QuadWordsOk(os: seq<nat>)
    requires Octets(os)
    ensures HexWords(QuadWords(os)) && Values(QuadWords(os), 16) == [os[0] * 256 + os[1], os[2] * 256 + os[3]]
  {
    HexOfWord(os[0] * 256 + os[1]);
    HexOfWord(os[2] * 256 + os[3]);
  }

  lemma {:induction false} RightWordsOk(sp: Spelling)
    requires SpellingOk(sp)
    ensures HexWords(LowerAll(sp.left)) && HexWords(RightWords(sp))
    ensures Values(Filled(LowerAll(sp.left), RightWords(sp)), 16) == WordsOf(sp)
  {
    var left, right := LowerAll(sp.left), LowerAll(sp.right);
    if sp.dotted.Some? {
      QuadWordsOk(sp.dotted.value);
      assert Values(RightWords(sp), 16) == Values(right, 16) + TailWords(sp);
    } else {
      assert RightWords(sp) == right && Values(right, 16) + TailWords(sp) == Values(right, 16);
    }
    ValuesFilled(left, RightWords(sp));
  }

  lemma {:induction false} SourceOf(sp: Spelling)
    requires SpellingOk(sp)
    ensures Rewritten(Lower(Text(sp))) == Some(Layout(LowerAll(sp.left), sp.gap, RightWords(sp)))
  {
    var left, right := LowerAll(sp.left), LowerAll(sp.right);
    LowerLayout(sp.left, sp.gap, sp.right + Tail(sp));
    RightWordsOk(sp);
    if sp.dotted.Some? {
      var d := Dotted(sp.dotted.value);
      DottedChars(sp.dotted.value);
      DottedQuad(sp.dotted.value);
      assert LowerAll(sp.right + [d]) == right + [d];
      RewrittenLayout(left, sp.gap, right, d, QuadWords(sp.dotted.value));
    } else {
      assert sp.right + [] == sp.right && right + [] == right;
      RewrittenPlain(left, sp.gap, right);
    }
  }

  lemma {:induction false} TextChars(sp: Spelling)
    requires SpellingOk(sp)
    ensures '%' !in Text(sp) && ':' in Text(sp)
  {
    var right := sp.right + Tail(sp);
    forall k | 0 <= k < |sp.left| ensures '%' !in sp.left[k] { NoPercent(sp.left[k]); }
    forall k | 0 <= k < |right| ensures '%' !in right[k] {
      if k < |sp.right| { NoPercent(sp.right[k]); } else { DottedChars(sp.dotted.value); }
    }
    NotInJoin(sp.left, ':', '%');
    NotInJoin(right, ':', '%');
    NotInJoin(sp.left + right, ':', '%');
    if sp.gap {
      assert Text(sp)[|Join(sp.left, ':')|] == ':';
    } else {
      var ws := sp.left + right;
      assert Join(ws, ':')[|ws[0]|] == ':';
    }
  }

  lemma {:induction false} NoPercent(w: string)
    requires SpelledWord(w)
    ensures '%' !in w
  {
    forall i | 0 <= i < |w| ensures w[i] != '%' { assert LowerHex(Lower(w)[i]); }
  }

  lemma {:induction false} Ipv4NoColon(s: string)
    requires IsIpv4(s)
    ensures ':' !in s
  {
    Ipv4IsDotted(s);
    DottedChars(Values(Split(s, '.'), 10));
  }

  /** Full, compressed and dotted spellings, in any letter case and with any leading zeros, parse to what their
      eight words denote. */
  lemma {:induction false} SpellingDenotes(sp: Spelling, isIpv6: string -> bool)
    requires SpellingOk(sp) && isIpv6(Text(sp))
    ensures ParseAddress(Text(sp), isIpv6) == Some(Denoted(WordsOf(sp)))
  {
    TextChars(sp);
    if IsIpv4(Text(sp)) { Ipv4NoColon(Text(sp)); }
    SourceOf(sp);
    RightWordsOk(sp);
    LayoutWords(LowerAll(sp.left), sp.gap, RightWords(sp));
  }

  lemma {:induction false} SpellingsAgree(sp: Spelling, sp': Spelling, isIpv6: string -> bool)
    requires SpellingOk(sp) && SpellingOk(sp') && isIpv6(Text(sp)) && isIpv6(Text(sp')) && WordsOf(sp) == WordsOf(sp')
    ensures ParseAddress(Text(sp), isIpv6).Some? && ParseAddress(Text(sp), isIpv6) == ParseAddress(Text(sp'), isIpv6)
  {
    SpellingDenotes(sp, isIpv6);
    SpellingDenotes(sp', isIpv6);
  }

  // ---------- normal forms ----------

  ghost predicate Eight(ws: seq<nat>) { |ws| == 8 && forall k :: 0 <= k < 8 ==> ws[k] < 65536 }

  lemma {:induction false} Ipv4From(s: string)
    requires IsIpv4(s)
    ensures var os := Values(Split(s, '.'), 10); Octets(os) && ParseIpv4(s) == Some(Parsed(4, Positional(os, 256), s))
  {
    Ipv4IsDotted(s);
    ParseDotted(Values(Split(s, '.'), 10));
  }

  lemma {:induction false} WordBounded(w: string)
    requires HexWord(w)
    ensures Value(w, 16) < 65536
  {
    HexBounded(w);
    assert Power16(1) == 16 && Power16(2) == 256 && Power16(3) == 4096 && Power16(4) == 65536;
  }

  lemma {:induction false} WordsRead(source: string)
    requires Words(source).Some?
    ensures Eight(Values(Words(source).value, 16))
  {
    var words := Words(source).value;
    forall k | 0 <= k < 8 ensures Value(words[k], 16) < 65536 { WordBounded(words[k]); }
  }

  /** What a successful parse comes from: a dotted quad or eight words. */
  lemma {:induction false} ParsedFrom(s: string, isIpv6: string -> bool) returns (v4: bool, parts: seq<nat>)
    requires ParseAddress(s, isIpv6).Some?
    ensures v4 ==> Octets(parts) && ParseIpv4(s) == Some(Parsed(4, Positional(parts, 256), s)) == ParseAddress(s, isIpv6)
    ensures !v4 ==> Eight(parts) && ParseAddress(s, isIpv6) == Some(Denoted(parts))
  {
    v4 := ParseIpv4(s).Some?;
    if v4 {
      parts := Values(Split(s, '.'), 10);
      Ipv4From(s);
    } else {
      var source := Rewritten(Lower(s)).value;
      WordsRead(source);
      parts := Values(Words(source).value, 16);
    }
  }

  /** The parts of an address kept in its bits. */
  lemma {:induction false} DenotedCases(ws: seq<nat>)
    requires Eight(ws)
    ensures var p := Denoted(ws);
      || (p.family == 4 && p.bits < 4294967296 && p.normalized == Dotted(OctetsOf(p.bits)))
      || (p.family == 6 && p.bits == Positional(ws, 65536) && p.normalized == Join(Texts(ws, 16), ':'))
  {
    SmallPowers();
    FoldIsPositional(ws, 16);
    var bits := FoldBits(ws, 16);
    AndLow(bits, 32);
    LowBounded(bits, 32);
  }

  lemma {:induction false} FullSpelling(ws: seq<nat>)
    requires Eight(ws)
    ensures var sp := Spelling(Texts(ws, 16), false, [], None);
      SpellingOk(sp) && WordsOf(sp) == ws && Text(sp) == Join(Texts(ws, 16), ':')
  {
    var left := Texts(ws, 16);
    forall k | 0 <= k < 8 ensures Lower(left[k]) == left[k] && HexWord(left[k]) && Value(left[k], 16) == ws[k] {
      HexOfWord(ws[k]);
    }
    assert LowerAll(left) == left;
    assert left + ([] + []) == left;
  }

  /** Parsing the normal form gives the address back; an IPv4-mapped address has become the IPv4 address. */
  lemma {:induction false} NormalizedParsesBack(s: string, isIpv6: string -> bool)
    requires ParseAddress(s, isIpv6).Some?
    requires var p := ParseAddress(s, isIpv6).value; p.family == 6 ==> isIpv6(p.normalized)
    ensures ParseAddress(ParseAddress(s, isIpv6).value.normalized, isIpv6) == ParseAddress(s, isIpv6)
  {
    var v4, parts := ParsedFrom(s, isIpv6);
    if !v4 {
      DenotedCases(parts);
      var p := Denoted(parts);
      if p.family == 4 {
        OctetsOfBack(p.bits);
        ParseDotted(OctetsOf(p.bits));
      } else {
        FullSpelling(parts);
        SpellingDenotes(Spelling(Texts(parts, 16), false, [], None), isIpv6);
      }
    }
  }

  /** Mapped words fold into the IPv4 address of their last two words; others stay IPv6. */
  lemma {:induction false} MappedIff(ws: seq<nat>)
    requires Eight(ws)
    ensures Denoted(ws).family == 4 <==> ws[..6] == [0, 0, 0, 0, 0, 65535]
    ensures Denoted(ws).family == 4 ==> Denoted(ws).bits == ws[6] * 65536 + ws[7]
  {
    SmallPowers();
    FoldIsPositional(ws, 16);
    var bits := FoldBits(ws, 16);
    ShrBy(bits, 32, 4294967296);
    AndLow(bits, 32);
    var high := Positional(ws[..6], 65536);
    assert ws[..7][..6] == ws[..6] && ws[..8] == ws;
    assert Positional(ws[..7], 65536) == high * 65536 + ws[6];
    assert bits == (high * 65536 + ws[6]) * 65536 + ws[7];
    HighWords(ws[..6]);
  }

  lemma {:induction false} HighWords(ws: seq<nat>)
    requires |ws| == 6 && forall k :: 0 <= k < 6 ==> ws[k] < 65536
    ensures Positional(ws, 65536) == 65535 <==> ws == [0, 0, 0, 0, 0, 65535]
  {
    var init := ws[..5];
    assert Positional(ws, 65536) == Positional(init, 65536) * 65536 + ws[5];
    AllZero(init);
    assert ws == init + [ws[5]];
    if forall k :: 0 <= k < 5 ==> init[k] == 0 { assert init == [0, 0, 0, 0, 0]; }
  }

  lemma {:induction false} AllZero(ws: seq<nat>)
    ensures Positional(ws, 65536) == 0 <==> forall k :: 0 <= k < |ws| ==> ws[k] == 0
  {
    if ws != [] {
      AllZero(ws[..|ws| - 1]);
      assert forall k :: 0 <= k < |ws| - 1 ==> ws[..|ws| - 1][k] == ws[k];
    }
  }

  // ---------- CIDR blocks ----------

  lemma {:induction false} Pow2Add(a: nat, b: nat)
    ensures Pow2(a + b) == Pow2(a) * Pow2(b)
  {
    if a > 0 {
      Pow2Add(a - 1, b);
      assert 2 * (Pow2(a - 1) * Pow2(b)) == 2 * Pow2(a - 1) * Pow2(b);
    }
  }

  lemma {:induction false} PositionalBound(parts: seq<nat>, width: nat, total: nat)
    requires total == width * |parts| && forall k :: 0 <= k < |parts| ==> parts[k] < Pow2(width)
    ensures Positional(parts, Pow2(width)) < Pow2(total)
  {
    if parts != [] {
      var init, b := parts[..|parts| - 1], Pow2(width);
      assert total == width * |init| + width;
      PositionalBound(init, width, total - width);
      Pow2Add(total - width, width);
      var v, p := Positional(init, b), Pow2(total - width);
      MulStep(v, p, b);
    }
  }

  lemma {:induction false} MulStep(v: nat, p: nat, b: nat)
    requires v < p
    ensures v * b + b <= p * b
  {
    assert (p - v - 1) * b >= 0;
    assert (p - v - 1) * b == p * b - v * b - b;
  }

  /** Parsed bits fit the family. */
  lemma {:induction false} BitsFit(s: string, isIpv6: string -> bool)
    requires ParseAddress(s, isIpv6).Some?
    ensures var p := ParseAddress(s, isIpv6).value; (p.family == 4 || p.family == 6) && p.bits < Pow2(MaxBits(p.family))
  {
    SmallPowers();
    var v4, parts := ParsedFrom(s, isIpv6);
    if v4 {
      OctetsUnique(parts);
    } else {
      DenotedCases(parts);
      PositionalBound(parts, 16, 128);
    }
  }

  lemma {:induction false} Masked(x: nat, max: nat, host: nat)
    requires host <= max && x < Pow2(max)
    ensures And(x, Mask(max, host)) == x - Low(x, host)
  {
    XorMask(max, host);
    AndMask(x, max, host);
  }

  lemma {:induction false} SameBlockIff(a: nat, b: nat, max: nat, host: nat)
    requires host <= max && a < Pow2(max) && b < Pow2(max)
    ensures And(a, Mask(max, host)) == And(b, Mask(max, host)) <==> a / Pow2(host) == b / Pow2(host)
  {
    Masked(a, max, host);
    Masked(b, max, host);
    SameHighPart(a, b, host);
    ShrBy(a, host, Pow2(host));
    ShrBy(b, host, Pow2(host));
  }

  lemma {:induction false} MatchesBlockIff(a: Parsed, b: Parsed, prefix: nat)
    requires prefix <= MaxBits(b.family) && a.bits < Pow2(MaxBits(a.family)) && b.bits < Pow2(MaxBits(b.family))
    ensures MatchesBlock(a, Block(b, prefix)) <==>
      a.family == b.family && a.bits / Pow2(MaxBits(b.family) - prefix) == b.bits / Pow2(MaxBits(b.family) - prefix)
  {
    if a.family == b.family { SameBlockIff(a.bits, b.bits, MaxBits(b.family), MaxBits(b.family) - prefix); }
  }

  lemma {:induction false} BlockOf(text: string, prefixText: Option<string>, isIpv6: string -> bool)
    requires ParseCidr(text, prefixText, false, isIpv6).Some?
    ensures var cidr := ParseCidr(text, prefixText, false, isIpv6).value;
      && ParseAddress(text, isIpv6).Some? && cidr.prefix <= MaxBits(ParseAddress(text, isIpv6).value.family)
      && cidr == Block(ParseAddress(text, isIpv6).value, cidr.prefix)
  {}

  /** An address matches a block exactly when the families agree and the leading `prefix` bits agree: what is
      left after division by the power of two of the host bits. */
  lemma {:induction false} CidrMatchIff(text: string, blockText: string, prefixText: Option<string>, isIpv6: string -> bool)
    requires ParseCidr(blockText, prefixText, false, isIpv6).Some?
    ensures var cidr := ParseCidr(blockText, prefixText, false, isIpv6).value;
      ParseAddress(blockText, isIpv6).Some? && cidr.prefix <= MaxBits(ParseAddress(blockText, isIpv6).value.family)
    ensures var block := ParseAddress(blockText, isIpv6).value;
      var cidr := ParseCidr(blockText, prefixText, false, isIpv6).value;
      AddressMatchesCidr(text, cidr, isIpv6) <==>
        ParseAddress(text, isIpv6).Some? &&
        (var a := ParseAddress(text, isIpv6).value; var d := Pow2(MaxBits(block.family) - cidr.prefix);
          a.family == block.family && a.bits / d == block.bits / d)
  {
    BitsFit(blockText, isIpv6);
    BlockOf(blockText, prefixText, isIpv6);
    if ParseAddress(text, isIpv6).Some? {
      BitsFit(text, isIpv6);
      MatchesBlockIff(ParseAddress(text, isIpv6).value, ParseAddress(blockText, isIpv6).value,
        ParseCidr(blockText, prefixText, false, isIpv6).value.prefix);
    }
  }

  // ---------- limiter keys ----------

  lemma {:induction false} DigitsInjective(a: nat, b: nat, base: nat)
    requires (base == 10 || base == 16) && Digits(a, base) == Digits(b, base)
    ensures a == b
  {
    ValueDigits(a, base);
    ValueDigits(b, base);
  }

  lemma {:induction false} V4TextIff(s: string, s': string, isIpv6: string -> bool)
    requires ParseAddress(s, isIpv6).Some? && ParseAddress(s', isIpv6).Some?
    requires ParseAddress(s, isIpv6).value.family == 4 && ParseAddress(s', isIpv6).value.family == 4
    ensures ParseAddress(s, isIpv6).value.normalized == ParseAddress(s', isIpv6).value.normalized
      <==> ParseAddress(s, isIpv6).value.bits == ParseAddress(s', isIpv6).value.bits
  {
    V4Text(s, isIpv6);
    V4Text(s', isIpv6);
    var m, m' := ParseAddress(s, isIpv6).value.bits, ParseAddress(s', isIpv6).value.bits;
    OctetsOfBack(m);
    OctetsOfBack(m');
    ParseDotted(OctetsOf(m));
    ParseDotted(OctetsOf(m'));
  }

  lemma {:induction false} V4Text(s: string, isIpv6: string -> bool)
    requires ParseAddress(s, isIpv6).Some? && ParseAddress(s, isIpv6).value.family == 4
    ensures var p := ParseAddress(s, isIpv6).value; p.bits < 4294967296 && p.normalized == Dotted(OctetsOf(p.bits))
  {
    var v4, parts := ParsedFrom(s, isIpv6);
    if v4 {
      Ipv4IsDotted(s);
      OctetsUnique(Values(Split(s, '.'), 10));
      Ipv4From(s);
    } else {
      DenotedCases(parts);
    }
  }

  lemma {:induction false} SameHighText(a: nat, b: nat, k: nat)
    ensures Digits(Shr(a, k), 16) == Digits(Shr(b, k), 16) <==> a / Pow2(k) == b / Pow2(k)
  {
    ShrBy(a, k, Pow2(k));
    ShrBy(b, k, Pow2(k));
    if Digits(Shr(a, k), 16) == Digits(Shr(b, k), 16) { DigitsInjective(Shr(a, k), Shr(b, k), 16); }
  }

  lemma {:induction false} SamePrefixedText(prefix: string, a: string, b: string)
    ensures prefix + a == prefix + b <==> a == b
  {
    assert (prefix + a)[|prefix|..] == a && (prefix + b)[|prefix|..] == b;
  }

  /** Two addresses share a limiter key exactly when they are the same IPv4 address or lie in the same IPv6 /64. */
  lemma {:induction false} SameLimiterKeyIff(s: string, s': string, isIpv6: string -> bool)
    requires ParseAddress(s, isIpv6).Some? && ParseAddress(s', isIpv6).Some?
    ensures var a, b := ParseAddress(s, isIpv6).value, ParseAddress(s', isIpv6).value; var d := Pow2(64);
      NormalizeLimiterAddress(s, isIpv6) == NormalizeLimiterAddress(s', isIpv6) <==>
        a.family == b.family && if a.family == 4 then a.bits == b.bits else a.bits / d == b.bits / d
  {
    BitsFit(s, isIpv6);
    BitsFit(s', isIpv6);
    var a, b := ParseAddress(s, isIpv6).value, ParseAddress(s', isIpv6).value;
    if a.family == 4 && b.family == 4 { V4TextIff(s, s', isIpv6); }
    SameKeyIff(a, b);
  }

  lemma {:induction false} SameKeyIff(a: Parsed, b: Parsed)
    requires (a.family == 4 || a.family == 6) && (b.family == 4 || b.family == 6)
    requires a.family == 4 && b.family == 4 ==> (a.normalized == b.normalized <==> a.bits == b.bits)
    ensures var d := Pow2(64);
      LimiterKey(a) == LimiterKey(b) <==>
        a.family == b.family && if a.family == 4 then a.bits == b.bits else a.bits / d == b.bits / d
  {
    if a.family == 4 && b.family == 4 {
      SamePrefixedText("v4:", a.normalized, b.normalized);
    } else if a.family == b.family {
      SameHighText(a.bits, b.bits, INTERFACE_BITS);
      SamePrefixedText("v6-64:", Digits(Shr(a.bits, INTERFACE_BITS), 16), Digits(Shr(b.bits, INTERFACE_BITS), 16));
    } else {
      assert LimiterKey(a)[1] != LimiterKey(b)[1];
    }
  }
}
