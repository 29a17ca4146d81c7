/** Parsing, normalising and matching of client addresses. The library's IPv6 syntax test is a parameter; its IPv4
    syntax test is spelled out. */
module ClientAddress {
  import opened BitArithmetic
  import opened AddressText
  import opened Options

  datatype Parsed = Parsed(family: int, bits: nat, normalized: string)

  // ---------- numbers from parts ----------

  /** The reduction `(result << width) | part`. */
  function FoldBits(parts: seq<nat>, width: nat): nat {
    if parts == [] then 0 else Or(Shl(FoldBits(parts[..|parts| - 1], width), width), parts[|parts| - 1])
  }

  /** Positional value of a row of parts. */
  function Positional(parts: seq<nat>, base: nat): nat {
    if parts == [] then 0 else Positional(parts[..|parts| - 1], base) * base + parts[|parts| - 1]
  }

  lemma {:induction false} FoldIsPositional(parts: seq<nat>, width: nat)
    requires forall k :: 0 <= k < |parts| ==> parts[k] < Pow2(width)
    ensures FoldBits(parts, width) == Positional(parts, Pow2(width))
  {
    if parts != [] {
      var n := |parts| - 1;
      FoldIsPositional(parts[..n], width);
      OrShifted(FoldBits(parts[..n], width), width, parts[n]);
    }
  }

  lemma {:induction false} SmallPowers()
    ensures Pow2(8) == 256 && Pow2(16) == 65536 && Pow2(24) == 16777216 && Pow2(32) == 4294967296
  {
    assert Pow2(4) == 16;
    assert Pow2(8) == 256;
    assert Pow2(12) == 4096;
    assert Pow2(16) == 65536;
    assert Pow2(20) == 1048576;
    assert Pow2(24) == 16777216;
    assert Pow2(28) == 268435456;
  }

  function Values(ws: seq<string>, base: nat): (r: seq<nat>)
    ensures |r| == |ws| && forall k :: 0 <= k < |ws| ==> r[k] == Value(ws[k], base)
  {
    seq(|ws|, k requires 0 <= k < |ws| => Value(ws[k], base))
  }

  function Texts(ns: seq<nat>, base: nat): (r: seq<string>)
    requires base == 10 || base == 16
    ensures |r| == |ns| && forall k :: 0 <= k < |ns| ==> r[k] == Digits(ns[k], base)
  {
    seq(|ns|, k requires 0 <= k < |ns| => Digits(ns[k], base))
  }

  // ---------- IPv4 ----------

  /** A decimal octet without leading zeros. */
  predicate OctetText(s: string) { Value(s, 10) <= 255 && s == Digits(Value(s, 10), 10) }

  predicate IsIpv4(s: string) {
    |Split(s, '.')| == 4 && forall k :: 0 <= k < 4 ==> OctetText(Split(s, '.')[k])
  }

  function Dotted(octets: seq<nat>): string { Join(Texts(octets, 10), '.') }

  function ParseIpv4(s: string): Option<Parsed> {
    if !IsIpv4(s) then None else
    var octets := Values(Split(s, '.'), 10);
    Some(Parsed(4, FoldBits(octets, 8), Dotted(octets)))
  }

  predicate Octets(os: seq<nat>) { |os| == 4 && forall k :: 0 <= k < 4 ==> os[k] <= 255 }

  lemma {:induction false} DigitsPlain(n: nat, base: nat, c: char)
    requires (base == 10 || base == 16) && (c == '.' || c == ':')
    ensures c !in Digits(n, base)
  {
    ValueDigits(n, base);
  }

  lemma {:induction false} ParseDotted(os: seq<nat>)
    requires Octets(os)
    ensures ParseIpv4(Dotted(os)) == Some(Parsed(4, Positional(os, 256), Dotted(os)))
  {
    var ws := Texts(os, 10);
    forall k | 0 <= k < 4 ensures '.' !in ws[k] && OctetText(ws[k]) && Value(ws[k], 10) == os[k] {
      DigitsPlain(os[k], 10, '.');
      ValueDigits(os[k], 10);
    }
    SplitJoin(ws, '.');
    assert Values(ws, 10) == os;
    SmallPowers();
    FoldIsPositional(os, 8);
  }

  /** An accepted IPv4 text is its own normal form. */
  lemma {:induction false} Ipv4IsDotted(s: string)
    requires IsIpv4(s)
    ensures var os := Values(Split(s, '.'), 10); Octets(os) && s == Dotted(os)
  {
    var ws := Split(s, '.');
    assert Texts(Values(ws, 10), 10) == ws;
    JoinSplit(s, '.');
  }

  lemma {:induction false} PositionalFour(os: seq<nat>, base: nat)
    requires |os| == 4
    ensures Positional(os, base) == ((os[0] * base + os[1]) * base + os[2]) * base + os[3]
  {
    assert os[..3][..2] == os[..2] && os[..2][..1] == os[..1] && os[..1][..0] == [];
    assert Positional(os[..1], base) == os[0];
    assert Positional(os[..2], base) == os[0] * base + os[1];
    assert Positional(os[..3], base) == (os[0] * base + os[1]) * base + os[2];
  }

  /** The four octets of a number, high octet first. */
  function OctetsOf(m: nat): seq<nat> { [And(Shr(m, 24), 255), And(Shr(m, 16), 255), And(Shr(m, 8), 255), And(Shr(m, 0), 255)] }

  lemma {:induction false} ShrBy(m: nat, k: nat, d: nat)
    requires 1 <= d == Pow2(k)
    ensures Shr(m, k) == m / d && Low(m, k) == m % d
  {
    ShrAndLow(m, k);
  }

  lemma {:induction false} ByteAt(m: nat, k: nat, d: nat)
    requires 1 <= d == Pow2(k)
    ensures And(Shr(m, k), 255) == (m / d) % 256
  {
    SmallPowers();
    ShrBy(m, k, d);
    AndLow(Shr(m, k), 8);
    ShrBy(Shr(m, k), 8, 256);
  }

  lemma {:induction false} OctetsByDivision(m: nat)
    ensures OctetsOf(m) == [(m / 16777216) % 256, (m / 65536) % 256, (m / 256) % 256, m % 256]
  {
    SmallPowers();
    ByteAt(m, 24, 16777216);
    ByteAt(m, 16, 65536);
    ByteAt(m, 8, 256);
    ByteAt(m, 0, 1);
  }

  lemma {:induction false} BytesBack(m: nat)
    requires m < 4294967296
    ensures (((m / 16777216) % 256 * 256 + (m / 65536) % 256) * 256 + (m / 256) % 256) * 256 + m % 256 == m
  {
    assert m / 256 / 256 == m / 65536 && m / 65536 / 256 == m / 16777216;
  }

  lemma {:induction false} BytesOut(a: nat, b: nat, c: nat, d: nat)
    requires a <= 255 && b <= 255 && c <= 255 && d <= 255
    ensures var m := ((a * 256 + b) * 256 + c) * 256 + d;
      m < 4294967296 && m / 16777216 % 256 == a && m / 65536 % 256 == b && m / 256 % 256 == c && m % 256 == d
  {
    var m := ((a * 256 + b) * 256 + c) * 256 + d;
    assert m / 256 == (a * 256 + b) * 256 + c;
    assert m / 65536 == a * 256 + b;
    assert m / 16777216 == a;
  }

  lemma {:induction false} OctetsOfBack(m: nat)
    requires m < 4294967296
    ensures Octets(OctetsOf(m)) && Positional(OctetsOf(m), 256) == m
  {
    OctetsByDivision(m);
    PositionalFour(OctetsOf(m), 256);
    BytesBack(m);
  }

  lemma {:induction false} OctetsUnique(os: seq<nat>)
    requires Octets(os)
    ensures Positional(os, 256) < 4294967296 && OctetsOf(Positional(os, 256)) == os
  {
    PositionalFour(os, 256);
    OctetsByDivision(Positional(os, 256));
    BytesOut(os[0], os[1], os[2], os[3]);
  }

  // ---------- IPv6 ----------

  predicate HexWord(w: string) { 1 <= |w| <= 4 && forall k :: 0 <= k < |w| ==> LowerHex(w[k]) }

  function SliceTo(s: string, i: int): string
    requires -1 <= i < |s| && s != ""
  {
    if i == -1 then s[..|s| - 1] else s[..i]
  }

  /** The two hexadecimal words for the bits of a dotted quad. */
  function HexHalves(bits: nat): seq<string> {
    [Digits(And(Shr(bits, 16), 65535), 16), Digits(And(bits, 65535), 16)]
  }

  function RewrittenTail(head: string, tail: string): Option<string> {
    match ParseIpv4(tail)
    case None => None
    case Some(v4) => Some(head + ":" + Join(HexHalves(v4.bits), ':'))
  }

  /** A dotted tail is rewritten as two hexadecimal words. */
  function Rewritten(source: string): Option<string> {
    var i := LastIndexOf(source, ':');
    var tail := source[i + 1..];
    if '.' !in tail then Some(source) else RewrittenTail(SliceTo(source, i), tail)
  }

  function Zeros(n: nat): (r: seq<string>)
    ensures |r| == n && forall k :: 0 <= k < n ==> r[k] == "0"
  {
    seq(n, _ => "0")
  }

  function Fields(half: string): seq<string> { if half != "" then Split(half, ':') else [] }

  function Filled(left: seq<string>, right: seq<string>): seq<string>
    requires |left| + |right| <= 8
  {
    left + Zeros(8 - |left| - |right|) + right
  }

  /** The eight words, with the gap filled; `gap` is whether there was one. */
  function Assembled(left: seq<string>, gap: bool, right: seq<string>): Option<seq<string>> {
    var missing := 8 - |left| - |right|;
    if (!gap && missing != 0) || (gap && missing < 1) then None
    else if forall k :: 0 <= k < 8 ==> HexWord(Filled(left, right)[k]) then Some(Filled(left, right)) else None
  }

  function Words(source: string): Option<seq<string>> {
    var halves := SplitDouble(source);
    if |halves| > 2 then None
    else Assembled(Fields(halves[0]), |halves| == 2, if |halves| == 2 then Fields(halves[1]) else [])
  }

  /** What eight words denote, with IPv4-mapped addresses folded into IPv4. */
  function Denoted(ws: seq<nat>): Parsed {
    var bits := FoldBits(ws, 16);
    if Shr(bits, 32) == 65535 then
      var mapped := And(bits, 4294967295);
      Parsed(4, mapped, Dotted(OctetsOf(mapped)))
    else Parsed(6, bits, Join(Texts(ws, 16), ':'))
  }

  function ParseIpv6(value: string, isIpv6: string -> bool): Option<Parsed> {
    if !isIpv6(value) || '%' in value then None else
    match Rewritten(Lower(value))
    case None => None
    case Some(source) =>
      match Words(source)
      case None => None
      case Some(words) => Some(Denoted(Values(words, 16)))
  }

  function ParseAddress(value: string, isIpv6: string -> bool): Option<Parsed> {
    if ParseIpv4(value).Some? then ParseIpv4(value) else ParseIpv6(value, isIpv6)
  }

  // ---------- CIDR blocks and limiter keys ----------

  datatype Cidr = Cidr(family: int, bits: nat, prefix: nat)

  function MaxBits(family: int): nat { if family == 4 then 32 else 128 }

  function Mask(max: nat, host: nat): nat {
    if host == 0 then Shl(1, max) - 1 else Xor(Shl(1, max) - 1, Shl(1, host) - 1)
  }

  function Block(a: Parsed, prefix: nat): Cidr
    requires prefix <= MaxBits(a.family)
  {
    Cidr(a.family, And(a.bits, Mask(MaxBits(a.family), MaxBits(a.family) - prefix)), prefix)
  }

  predicate AllDigits(s: string) { s != "" && forall k :: 0 <= k < |s| ==> Digit(s[k]) }

  /** A block from its parts around the slash; `extra` is a second slash. */
  function ParseCidr(addressText: string, prefixText: Option<string>, extra: bool, isIpv6: string -> bool): Option<Cidr> {
    if addressText == "" || extra then None else
    match ParseAddress(addressText, isIpv6)
    case None => None
    case Some(a) =>
      var max := MaxBits(a.family);
      var prefix := if prefixText.None? then max else if AllDigits(prefixText.value) then Value(prefixText.value, 10) else -1;
      if prefix < 0 || prefix > max then None
      else Some(Block(a, prefix))
  }

  predicate MatchesBlock(a: Parsed, cidr: Cidr) {
    a.family == cidr.family && cidr.prefix <= MaxBits(a.family)
      && And(a.bits, Mask(MaxBits(a.family), MaxBits(a.family) - cidr.prefix)) == cidr.bits
  }

  predicate AddressMatchesCidr(text: string, cidr: Cidr, isIpv6: string -> bool) {
    match ParseAddress(text, isIpv6)
    case None => false
    case Some(a) => MatchesBlock(a, cidr)
  }

  /** The interface part of an IPv6 address is not part of its key. */
  const INTERFACE_BITS: nat := 64

  function LimiterKey(a: Parsed): string {
    if a.family == 4 then "v4:" + a.normalized else "v6-64:" + Digits(Shr(a.bits, INTERFACE_BITS), 16)
  }

  function NormalizeLimiterAddress(text: string, isIpv6: string -> bool): Option<string> {
    match ParseAddress(text, isIpv6)
    case None => None
    case Some(a) => Some(LimiterKey(a))
  }
}
