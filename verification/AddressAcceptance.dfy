/** Which texts are addresses at all: exactly the dotted quads and the spellings of eight words. */
module AddressAcceptance {
  import opened BitArithmetic
  import opened AddressText
  import opened ClientAddress
  import opened AddressSpellings
  import opened Options

  // ---------- splitting, undone ----------

  lemma {:induction false} SplitOnce(a: string, c: char) returns (w: string, rest: string)
    requires c in a
    ensures c !in w && a == w + [c] + rest && Split(a, c) == [w] + Split(rest, c)
  {
    var i := IndexOf(a, c);
    w, rest := a[..i], a[i + 1..];
  }

  lemma {:induction false} Longer(w: string, rest: string, b: string, c: char)
    ensures (w + [c] + rest) + [c] + b == w + [c] + (rest + [c] + b)
  {}

  lemma {:induction false} SplitAppend(a: string, b: string, c: char)
    ensures Split(a + [c] + b, c) == Split(a, c) + Split(b, c)
    decreases |a|
  {
    if c in a {
      var w, rest := SplitOnce(a, c);
      Longer(w, rest, b, c);
      FirstCut(w, rest + [c] + b, c);
      SplitAppend(rest, b, c);
      Regrouped([w], Split(rest, c), Split(b, c));
    } else {
      FirstCut(a, b, c);
    }
  }

  lemma {:induction false} Regrouped(a: seq<string>, b: seq<string>, c: seq<string>)
    ensures (a + b) + c == a + (b + c)
  {}

  lemma {:induction false} FieldsBack(half: string)
    ensures Join(Fields(half), ':') == half
  {
    if half != "" { JoinSplit(half, ':'); }
  }

  lemma {:induction false} FilledParts(left: seq<string>, right: seq<string>)
    requires |left| + |right| <= 8 && HexWords(Filled(left, right))
    ensures HexWords(left) && HexWords(right)
  {
    var all := Filled(left, right);
    forall k | 0 <= k < |left| ensures HexWord(left[k]) { assert all[k] == left[k]; }
    forall k | 0 <= k < |right| ensures HexWord(right[k]) { assert all[8 - |right| + k] == right[k]; }
  }

  /** Words before and after a possible gap that make eight with it. */
  ghost predicate Shape(left: seq<string>, gap: bool, right: seq<string>) {
    HexWords(left) && HexWords(right) && if gap then |left| + |right| <= 7 else |left| == 8 && right == []
  }

  lemma {:induction false} TwoHalves(source: string)
    requires |SplitDouble(source)| == 2
    ensures source == SplitDouble(source)[0] + "::" + SplitDouble(source)[1]
  {
    var i := DoubleColon(source);
    var rest := source[i + 2..];
    assert SplitDouble(rest) == [rest];
    assert source == source[..i] + "::" + rest;
  }

  /** A text whose words are found is laid out in the halves around its gap. */
  lemma {:induction false} WordsShape(source: string) returns (left: seq<string>, gap: bool, right: seq<string>)
    requires Words(source).Some?
    ensures Shape(left, gap, right) && source == Layout(left, gap, right)
    ensures gap ==> |SplitDouble(source)| == 2 && left == Fields(SplitDouble(source)[0]) && right == Fields(SplitDouble(source)[1])
    ensures !gap ==> left == Split(source, ':')
  {
    var halves := SplitDouble(source);
    gap := |halves| == 2;
    left, right := Fields(halves[0]), if gap then Fields(halves[1]) else [];
    FilledParts(left, right);
    FieldsBack(halves[0]);
    if gap {
      FieldsBack(halves[1]);
      TwoHalves(source);
    } else {
      assert halves[0] == source;
      assert left + [] == left;
    }
  }

  // ---------- letter case, undone ----------

  lemma {:induction false} SameSeparator(c: char, d: char)
    requires LowerChar(c) == d && (d == ':' || d == '.' || Digit(d))
    ensures c == d
  {}

  lemma {:induction false} UnlowerSplit(s: string, a: string, b: string)
    requires Lower(s) == a + ":" + b
    ensures |s| == |a| + 1 + |b|
    ensures s == s[..|a|] + ":" + s[|a| + 1..] && Lower(s[..|a|]) == a && Lower(s[|a| + 1..]) == b
  {
    SameSeparator(s[|a|], ':');
    assert Lower(s)[|a|] == ':';
    assert Lower(s)[..|a|] == a && Lower(s)[|a| + 1..] == b;
  }

  lemma {:induction false} UnlowerJoin(s: string, ws: seq<string>) returns (vs: seq<string>)
    requires Lower(s) == Join(ws, ':')
    ensures LowerAll(vs) == ws && s == Join(vs, ':')
    decreases |ws|
  {
    if |ws| == 0 {
      vs := [];
    } else if |ws| == 1 {
      vs := [s];
    } else {
      var a, b := ws[0], Join(ws[1..], ':');
      UnlowerSplit(s, a, b);
      var more := UnlowerJoin(s[|a| + 1..], ws[1..]);
      vs := [s[..|a|]] + more;
      assert vs[1..] == more;
      assert LowerAll(vs)[1..] == LowerAll(more);
      assert ws == [ws[0]] + ws[1..];
    }
  }

  lemma {:induction false} UnlowerGap(s: string, a: string, b: string)
    requires Lower(s) == a + "::" + b
    ensures |s| == |a| + 2 + |b| && s == s[..|a|] + "::" + s[|a| + 2..] && Lower(s[..|a|]) == a && Lower(s[|a| + 2..]) == b
  {
    assert a + "::" + b == a + ":" + (":" + b);
    UnlowerSplit(s, a, ":" + b);
    var rest := s[|a| + 1..];
    assert ":" + b == "" + ":" + b;
    UnlowerSplit(rest, "", b);
    assert rest[..|""|] == "" && rest == ":" + rest[1..] && rest[1..] == s[|a| + 2..];
  }

  lemma {:induction false} UnlowerLayout(s: string, left: seq<string>, gap: bool, right: seq<string>)
    returns (left': seq<string>, right': seq<string>)
    requires Lower(s) == Layout(left, gap, right) && (gap || right == [])
    ensures LowerAll(left') == left && LowerAll(right') == right && s == Layout(left', gap, right')
  {
    if gap {
      var a, b := Join(left, ':'), Join(right, ':');
      UnlowerGap(s, a, b);
      left' := UnlowerJoin(s[..|a|], left);
      right' := UnlowerJoin(s[|a| + 2..], right);
    } else {
      assert left + right == left;
      left' := UnlowerJoin(s, left);
      right' := [];
      assert left' + [] == left';
    }
  }

  // ---------- without a dotted tail ----------

  lemma {:induction false} PlainSpelling(s: string, left: seq<string>, gap: bool, right: seq<string>) returns (sp: Spelling)
    requires Shape(left, gap, right) && Lower(s) == Layout(left, gap, right)
    ensures SpellingOk(sp) && Text(sp) == s
  {
    var left', right' := UnlowerLayout(s, left, gap, right);
    sp := Spelling(left', gap, right', None);
    forall k | 0 <= k < |left'| ensures SpelledWord(left'[k]) { assert LowerAll(left')[k] == left[k]; }
    forall k | 0 <= k < |right'| ensures SpelledWord(right'[k]) { assert LowerAll(right')[k] == right[k]; }
    assert right' + [] == right';
  }

  // ---------- with a dotted tail ----------

  lemma {:induction false} UnlowerDotted(d: string, os: seq<nat>)
    requires Octets(os) && Lower(d) == Dotted(os)
    ensures d == Dotted(os)
  {
    DottedPlain(os);
    forall i | 0 <= i < |d| ensures d[i] == Dotted(os)[i] {
      assert Lower(d)[i] in Dotted(os);
      SameSeparator(d[i], Dotted(os)[i]);
    }
  }

  lemma {:induction false} DottedPlain(os: seq<nat>)
    requires Octets(os)
    ensures forall c :: c in Dotted(os) ==> c == '.' || Digit(c)
  {
    var ws := Texts(os, 10);
    forall c | c in Dotted(os) ensures c == '.' || Digit(c) {
      JoinedChars(ws, '.', c);
      if c != '.' {
        var k :| 0 <= k < |ws| && c in ws[k];
        ValueDigits(os[k], 10);
      }
    }
  }

  lemma {:induction false} DottedSpelling(s: string, left: seq<string>, gap: bool, right: seq<string>, os: seq<nat>) returns (sp: Spelling)
    requires Octets(os) && HexWords(left) && HexWords(right)
    requires if gap then |left| + |right| <= 5 else |left| == 6 && right == []
    requires Lower(s) == Layout(left, gap, right + [Dotted(os)])
    ensures SpellingOk(sp) && Text(sp) == s
  {
    var d := Dotted(os);
    var ls, rs := [], [];
    if gap {
      ls, rs := UnlowerLayout(s, left, gap, right + [d]);
    } else {
      assert right + [d] == [d] && (left + [d]) + [] == left + [d];
      assert Lower(s) == Layout(left + [d], false, []);
      var all, none := UnlowerLayout(s, left + [d], gap, []);
      assert LowerAll(all)[..6] == left && LowerAll(all)[6] == d;
      ls, rs := all[..6], [all[6]];
      assert all == ls + rs && all + none == all;
    }
    var n := |rs| - 1;
    assert Lower(rs[n]) == d;
    UnlowerDotted(rs[n], os);
    sp := Spelling(ls, gap, rs[..n], Some(os));
    forall k | 0 <= k < |ls| ensures SpelledWord(ls[k]) { assert Lower(ls[k]) == left[k]; }
    forall k | 0 <= k < n ensures SpelledWord(rs[k]) { assert LowerAll(rs)[k] == (right + [d])[k]; }
    assert rs[..n] + [d] == rs;
  }

  lemma {:induction false} TwoWords(h: string, w1: string, w2: string)
    requires HexWord(w1) && HexWord(w2)
    ensures Split(h + ":" + (w1 + ":" + w2), ':') == Split(h, ':') + [w1, w2]
  {
    HexWordsPlain([w1, w2]);
    assert [w1, w2][0] == w1 && [w1, w2][1] == w2;
    SplitAppend(h, w1 + ":" + w2, ':');
    SplitAppend(w1, w2, ':');
    assert Split(w1, ':') + Split(w2, ':') == [w1, w2];
  }

  lemma {:induction false} OneColon(w1: string, w2: string)
    requires HexWord(w1) && HexWord(w2)
    ensures var tail := w1 + ":" + w2; forall j :: 0 <= j < |tail| && tail[j] == ':' ==> j == |w1|
    ensures 0 < |w1| < |w1 + ":" + w2| - 1
  {
    HexWordsPlain([w1, w2]);
    assert [w1, w2][0] == w1 && [w1, w2][1] == w2;
    var tail := w1 + ":" + w2;
    forall j | 0 <= j < |tail| && j != |w1| ensures tail[j] != ':' {
      if j < |w1| { assert tail[j] == w1[j] && w1[j] in w1; } else { assert tail[j] == w2[j - |w1| - 1] && w2[j - |w1| - 1] in w2; }
    }
  }

  /** Behind `h` no two colons stand together. */
  lemma {:induction false} ColonsBefore(h: string, w1: string, w2: string)
    requires HexWord(w1) && HexWord(w2)
    ensures var s := h + ":" + (w1 + ":" + w2); forall k :: |h| <= k < |s| - 1 ==> !(s[k] == ':' && s[k + 1] == ':')
  {
    OneColon(w1, w2);
    var tail := w1 + ":" + w2;
    var s := h + ":" + tail;
    forall k | |h| <= k < |s| - 1 ensures !(s[k] == ':' && s[k + 1] == ':') {
      assert s[k + 1] == tail[k - |h|];
      if k > |h| { assert s[k] == tail[k - |h| - 1]; }
    }
  }

  /** The gap of a text that ends with two words lies before them. */
  lemma {:induction false} GapBefore(h: string, w1: string, w2: string, a: string, b: string)
    requires HexWord(w1) && HexWord(w2) && h + ":" + (w1 + ":" + w2) == a + "::" + b
    ensures (h == a + ":" && b == w1 + ":" + w2)
         || (|a| + 2 <= |h| && h == a + "::" + h[|a| + 2..] && b == h[|a| + 2..] + ":" + (w1 + ":" + w2))
  {
    var tail := w1 + ":" + w2;
    var s := h + ":" + tail;
    ColonsBefore(h, w1, w2);
    assert s[|a|] == ':' && s[|a| + 1] == ':';
    assert s[..|a|] == a && s[..|a|] == h[..|a|] && h[|a|] == ':';
    assert s[|a| + 2..] == b;
    if |a| + 1 == |h| {
      assert h == h[..|a|] + [h[|a|]];
      assert s[|h| + 1..] == tail;
    } else {
      assert h[|a| + 1] == s[|a| + 1];
      assert h == h[..|a|] + [h[|a|]] + [h[|a| + 1]] + h[|a| + 2..];
      assert s[|a| + 2..] == h[|a| + 2..] + ":" + tail;
    }
  }

  lemma {:induction false} InitHex(all: seq<string>, init: seq<string>, w1: string, w2: string)
    requires HexWords(all) && all == init + [w1, w2]
    ensures HexWords(init) && |init| == |all| - 2
  {
    forall k | 0 <= k < |init| ensures HexWord(init[k]) { assert all[k] == init[k]; }
  }

  /** When two words were written for a dotted tail, the text with the tail is laid out around the same gap. */
  lemma {:induction false} TailShape(h: string, w1: string, w2: string, d: string)
    returns (left: seq<string>, gap: bool, right: seq<string>)
    requires HexWord(w1) && HexWord(w2) && Words(h + ":" + (w1 + ":" + w2)).Some?
    ensures HexWords(left) && HexWords(right) && if gap then |left| + |right| <= 5 else |left| == 6 && right == []
    ensures h + ":" + d == Layout(left, gap, right + [d])
  {
    var source := h + ":" + (w1 + ":" + w2);
    left, gap, right := WordsShape(source);
    if !gap {
      TwoWords(h, w1, w2);
      InitHex(left, Split(h, ':'), w1, w2);
      left := Split(h, ':');
      JoinSplit(h, ':');
      JoinConcat(left, [d], ':');
      assert left + ([] + [d]) == left + [d];
    } else {
      right := GapTail(h, w1, w2, d, left, right);
    }
  }

  lemma {:induction false} TailAfterGap(a: string, left: seq<string>, d: string)
    requires Join(left, ':') == a
    ensures (a + ":") + ":" + d == Layout(left, true, [] + [d])
  {
    assert [] + [d] == [d];
  }

  lemma {:induction false} TailAfterWords(a: string, left: seq<string>, h2: string, d: string)
    requires Join(left, ':') == a
    ensures (a + "::" + h2) + ":" + d == Layout(left, true, Split(h2, ':') + [d])
  {
    JoinSplit(h2, ':');
    JoinConcat(Split(h2, ':'), [d], ':');
    assert (a + "::" + h2) + ":" + d == a + "::" + (h2 + ":" + d);
  }

  lemma {:induction false} GapTail(h: string, w1: string, w2: string, d: string, left: seq<string>, right: seq<string>)
    returns (before: seq<string>)
    requires HexWord(w1) && HexWord(w2)
    requires var halves := SplitDouble(h + ":" + (w1 + ":" + w2)); |halves| == 2 && left == Fields(halves[0]) && right == Fields(halves[1])
    requires HexWords(right)
    ensures HexWords(before) && |before| == |right| - 2
    ensures h + ":" + d == Layout(left, true, before + [d])
  {
    var source := h + ":" + (w1 + ":" + w2);
    var a, b := SplitDouble(source)[0], SplitDouble(source)[1];
    TwoHalves(source);
    GapBefore(h, w1, w2, a, b);
    FieldsBack(a);
    if h == a + ":" && b == w1 + ":" + w2 {
      TwoFields(w1, w2);
      before := [];
      TailAfterGap(a, left, d);
    } else {
      var h2 := h[|a| + 2..];
      TwoWords(h2, w1, w2);
      before := Split(h2, ':');
      InitHex(right, before, w1, w2);
      TailAfterWords(a, left, h2, d);
    }
  }

  lemma {:induction false} TwoFields(w1: string, w2: string)
    requires HexWord(w1) && HexWord(w2)
    ensures Fields(w1 + ":" + w2) == [w1, w2]
  {
    HexWordsPlain([w1, w2]);
    assert [w1, w2][0] == w1 && [w1, w2][1] == w2;
    SplitAppend(w1, w2, ':');
  }

  // ---------- which texts are addresses ----------

  lemma {:induction false} Ipv4Iff(s: string)
    ensures ParseIpv4(s).Some? <==> exists os :: Octets(os) && Dotted(os) == s
  {
    if ParseIpv4(s).Some? {
      Ipv4IsDotted(s);
      assert Octets(Values(Split(s, '.'), 10));
    }
    forall os | Octets(os) && Dotted(os) == s ensures ParseIpv4(s).Some? { ParseDotted(os); }
  }

  lemma {:induction false} LastPart(s: string, c: char)
    requires c in s
    ensures var i := LastIndexOf(s, c); i >= 0 && s[i] == c && s == s[..i] + [c] + s[i + 1..]
  {
    if c in s[1..] { LastPart(s[1..], c); }
  }

  /** What the rewriting of a dotted tail was made of. */
  lemma {:induction false} RewrittenFrom(lower: string) returns (h: string, os: seq<nat>)
    requires Rewritten(lower).Some? && '.' in lower[LastIndexOf(lower, ':') + 1..]
    ensures Octets(os)
    ensures ':' !in lower ==> lower == Dotted(os)
    ensures ':' in lower ==> lower == h + ":" + Dotted(os) && Rewritten(lower) == Some(h + ":" + Join(QuadWords(os), ':'))
  {
    var i := LastIndexOf(lower, ':');
    var tail := lower[i + 1..];
    os := Values(Split(tail, '.'), 10);
    Ipv4IsDotted(tail);
    h := SliceTo(lower, i);
    if ':' in lower {
      LastPart(lower, ':');
      HexHalvesOf(os);
      ParseDotted(os);
    } else {
      assert tail == lower;
    }
  }

  lemma {:induction false} NotDotted(s: string, os: seq<nat>)
    requires ParseIpv4(s).None? && Octets(os)
    ensures Lower(s) != Dotted(os)
  {
    if Lower(s) == Dotted(os) {
      UnlowerDotted(s, os);
      ParseDotted(os);
    }
  }

  /** An accepted text that is no dotted quad is a spelling of eight words. */
  lemma {:induction false} Ipv6IsSpelling(s: string, isIpv6: string -> bool) returns (sp: Spelling)
    requires ParseIpv6(s, isIpv6).Some? && ParseIpv4(s).None?
    ensures SpellingOk(sp) && Text(sp) == s
  {
    var lower := Lower(s);
    if '.' !in lower[LastIndexOf(lower, ':') + 1..] {
      var left, gap, right := WordsShape(lower);
      sp := PlainSpelling(s, left, gap, right);
    } else {
      var h, os := RewrittenFrom(lower);
      NotDotted(s, os);
      sp := TailSpelling(s, h, os);
    }
  }

  lemma {:induction false} TailSpelling(s: string, h: string, os: seq<nat>) returns (sp: Spelling)
    requires Octets(os) && Lower(s) == h + ":" + Dotted(os)
    requires Words(h + ":" + Join(QuadWords(os), ':')).Some?
    ensures SpellingOk(sp) && Text(sp) == s
  {
    var ws := QuadWords(os);
    QuadWordsOk(os);
    assert Join(ws, ':') == ws[0] + ":" + ws[1] by { assert ws[1..] == [ws[1]]; }
    var left, gap, right := TailShape(h, ws[0], ws[1], Dotted(os));
    sp := DottedSpelling(s, left, gap, right, os);
  }

  /** A dotted quad of octets without leading zeros, or, where the library's syntax test agrees, a spelling of eight words. */
  ghost predicate IsAddress(s: string, isIpv6: string -> bool) {
    (exists os :: Octets(os) && Dotted(os) == s) || (isIpv6(s) && exists sp :: SpellingOk(sp) && Text(sp) == s)
  }

  /** These and no other texts are taken for addresses. */
  lemma {:induction false} AddressIff(s: string, isIpv6: string -> bool)
    ensures ParseAddress(s, isIpv6).Some? <==> IsAddress(s, isIpv6)
  {
    Ipv4Iff(s);
    forall sp | SpellingOk(sp) && Text(sp) == s && isIpv6(s) ensures ParseAddress(s, isIpv6).Some? { SpellingDenotes(sp, isIpv6); }
    if ParseAddress(s, isIpv6).Some? && ParseIpv4(s).None? {
      var sp := Ipv6IsSpelling(s, isIpv6);
      assert SpellingOk(sp) && Text(sp) == s;
    }
  }

  /** No prefix, or one in decimal digits that a family of so many bits has room for. */
  predicate PrefixOk(prefixText: Option<string>, bits: nat) {
    prefixText.Some? ==> AllDigits(prefixText.value) && Value(prefixText.value, 10) <= bits
  }

  /** A block is accepted exactly for an address with such a prefix; it keeps the family of the address and that prefix, or all
      its bits when none is written. */
  lemma {:induction false} CidrIff(text: string, prefixText: Option<string>, extra: bool, isIpv6: string -> bool)
    ensures var cidr := ParseCidr(text, prefixText, extra, isIpv6); var address := ParseAddress(text, isIpv6);
      var bits := if address.Some? && address.value.family == 4 then 32 else 128;
      && (cidr.Some? <==> text != "" && !extra && IsAddress(text, isIpv6) && PrefixOk(prefixText, bits))
      && (cidr.Some? ==> address.Some? && cidr.value.family == address.value.family)
      && (cidr.Some? ==> cidr.value.prefix == if prefixText.Some? then Value(prefixText.value, 10) else bits)
  {
    AddressIff(text, isIpv6);
  }
}
