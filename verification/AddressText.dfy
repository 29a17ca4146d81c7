/** The text side of addresses: splitting and joining, decimal and hexadecimal numbers. */
module AddressText {
  import opened Options

  // ---------- splitting and joining ----------

  function IndexOf(s: string, c: char): (i: nat)
    requires c in s
    ensures i < |s| && s[i] == c && c !in s[..i]
  {
    if s[0] == c then 0 else
    var i := IndexOf(s[1..], c) + 1;
    assert s[..i] == [s[0]] + s[1..][..i - 1];
    i
  }

  function Split(s: string, c: char): (r: seq<string>)
    ensures |r| >= 1
    decreases |s|
  {
    if c !in s then [s] else [s[..IndexOf(s, c)]] + Split(s[IndexOf(s, c) + 1..], c)
  }

  function Join(ws: seq<string>, c: char): string {
    if ws == [] then "" else if |ws| == 1 then ws[0] else ws[0] + [c] + Join(ws[1..], c)
  }

  lemma {:induction false} IndexAfter(w: string, rest: string, c: char)
    requires c !in w
    ensures IndexOf(w + [c] + rest, c) == |w|
  {
    var s := w + [c] + rest;
    if w != "" {
      assert w[0] in w && s[0] == w[0];
      assert s[1..] == w[1..] + [c] + rest;
      IndexAfter(w[1..], rest, c);
    }
  }

  lemma {:induction false} FirstCut(w: string, rest: string, c: char)
    requires c !in w
    ensures Split(w + [c] + rest, c) == [w] + Split(rest, c)
  {
    var s := w + [c] + rest;
    IndexAfter(w, rest, c);
    assert s[|w|] == c && s[..|w|] == w && s[|w| + 1..] == rest;
  }

  lemma {:induction false} SplitJoin(ws: seq<string>, c: char)
    requires |ws| >= 1 && forall k :: 0 <= k < |ws| ==> c !in ws[k]
    ensures Split(Join(ws, c), c) == ws
  {
    if |ws| > 1 {
      FirstCut(ws[0], Join(ws[1..], c), c);
      SplitJoin(ws[1..], c);
    }
  }

  lemma {:induction false} JoinCons(w: string, ws: seq<string>, c: char)
    requires ws != []
    ensures Join([w] + ws, c) == w + [c] + Join(ws, c)
  {
    assert ([w] + ws)[1..] == ws;
  }

  lemma {:induction false} JoinSplit(s: string, c: char)
    ensures Join(Split(s, c), c) == s
    decreases |s|
  {
    if c in s {
      var i := IndexOf(s, c);
      JoinSplit(s[i + 1..], c);
      JoinCons(s[..i], Split(s[i + 1..], c), c);
      assert s == s[..i] + [c] + s[i + 1..];
    }
  }

  /** Every character of a joined text is the separator or of one of the parts. */
  lemma {:induction false} JoinedChars(ws: seq<string>, c: char, d: char)
    requires d in Join(ws, c)
    ensures d == c || exists k :: 0 <= k < |ws| && d in ws[k]
  {
    if |ws| > 1 && d !in ws[0] && d != c {
      JoinedChars(ws[1..], c, d);
      var k :| 0 <= k < |ws[1..]| && d in ws[1..][k];
      assert ws[1..][k] == ws[k + 1];
    }
  }

  // ---------- the double colon ----------

  /** The first position of two colons in a row, or the length. */
  function DoubleColon(s: string): (i: nat)
    ensures i <= |s| && (i < |s| ==> i + 1 < |s| && s[i] == ':' && s[i + 1] == ':')
    ensures forall j :: 0 <= j < i && j + 1 < |s| ==> !(s[j] == ':' && s[j + 1] == ':')
  {
    if |s| < 2 then |s| else if s[0] == ':' && s[1] == ':' then 0 else 1 + DoubleColon(s[1..])
  }

  function SplitDouble(s: string): (r: seq<string>)
    ensures |r| >= 1
    decreases |s|
  {
    var i := DoubleColon(s);
    if i == |s| then [s] else [s[..i]] + SplitDouble(s[i + 2..])
  }

  ghost predicate NoDouble(s: string) { forall j :: 0 <= j < |s| - 1 ==> !(s[j] == ':' && s[j + 1] == ':') }

  lemma {:induction false} SplitSingle(s: string)
    requires NoDouble(s)
    ensures DoubleColon(s) == |s| && SplitDouble(s) == [s]
  {
    if |s| >= 2 {
      assert !(s[0] == ':' && s[1] == ':');
      SplitSingle(s[1..]);
    }
  }

  lemma {:induction false} DoubleAfter(a: string, b: string)
    requires NoDouble(a) && (a != "" ==> a[|a| - 1] != ':')
    ensures DoubleColon(a + "::" + b) == |a|
  {
    var s := a + "::" + b;
    if a != "" {
      assert s[0] == a[0] && s[1] == if |a| > 1 then a[1] else ':';
      assert !(s[0] == ':' && s[1] == ':');
      assert s[1..] == a[1..] + "::" + b;
      DoubleAfter(a[1..], b);
    }
  }

  lemma {:induction false} SplitTwo(a: string, b: string)
    requires NoDouble(a) && NoDouble(b) && (a != "" ==> a[|a| - 1] != ':')
    ensures SplitDouble(a + "::" + b) == [a, b]
  {
    var s := a + "::" + b;
    DoubleAfter(a, b);
    assert s[..|a|] == a && s[|a| + 2..] == b;
    SplitSingle(b);
  }

  /** Parts without colons and not empty, joined by colons. */
  ghost predicate Parts(ws: seq<string>) { forall k :: 0 <= k < |ws| ==> ws[k] != "" && ':' !in ws[k] }

  lemma {:induction false} JoinedPlain(ws: seq<string>)
    requires Parts(ws)
    ensures NoDouble(Join(ws, ':'))
    ensures ws != [] ==> Join(ws, ':') != "" && Join(ws, ':')[0] != ':' && Join(ws, ':')[|Join(ws, ':')| - 1] != ':'
  {
    if |ws| > 1 {
      JoinedPlain(ws[1..]);
      var w, rest := ws[0], Join(ws[1..], ':');
      var s := Join(ws, ':');
      assert s == w + ":" + rest;
      forall j | 0 <= j < |s| - 1 ensures !(s[j] == ':' && s[j + 1] == ':') {
        assert j < |w| ==> s[j] == w[j] && w[j] in w;
        assert j >= |w| ==> s[j + 1] == rest[j - |w|];
        assert j > |w| ==> s[j] == rest[j - |w| - 1];
      }
      assert s[|s| - 1] == rest[|rest| - 1];
    }
  }

  // ---------- the last colon ----------

  /** The last position of `c`, or minus one. */
  function LastIndexOf(s: string, c: char): (i: int)
    ensures -1 <= i < |s| && (i == -1 <==> c !in s)
  {
    if c !in s then -1 else if c in s[1..] then 1 + LastIndexOf(s[1..], c) else 0
  }

  lemma {:induction false} LastCut(a: string, b: string, c: char)
    requires c !in b
    ensures LastIndexOf(a + [c] + b, c) == |a|
  {
    var s := a + [c] + b;
    assert s[|a|] == c;
    if a == "" {
      assert s[1..] == b;
    } else {
      assert s[1..] == a[1..] + [c] + b && s[1..][|a| - 1] == c;
      LastCut(a[1..], b, c);
    }
  }

  // ---------- numbers ----------

  predicate Digit(c: char) { '0' <= c <= '9' }

  predicate LowerHex(c: char) { Digit(c) || 'a' <= c <= 'f' }

  function DigitValue(c: char): nat {
    if Digit(c) then c as int - '0' as int
    else if 'a' <= c <= 'f' then c as int - 'a' as int + 10
    else 0
  }

  function DigitChar(d: nat): (c: char)
    requires d < 16
    ensures LowerHex(c) && DigitValue(c) == d && (d < 10 ==> Digit(c))
  {
    if d < 10 then ('0' as int + d) as char else ('a' as int + d - 10) as char
  }

  /** The number a row of digits denotes. */
  function Value(s: string, base: nat): nat
  {
    if s == "" then 0 else Value(s[..|s| - 1], base) * base + DigitValue(s[|s| - 1])
  }

  /** The digits of a number without leading zeros. */
  function Digits(n: nat, base: nat): (s: string)
    requires base == 10 || base == 16
    ensures |s| >= 1
    decreases n
  {
    if n < base then [DigitChar(n)] else Digits(n / base, base) + [DigitChar(n % base)]
  }

  lemma {:induction false} ValueDigits(n: nat, base: nat)
    requires base == 10 || base == 16
    ensures Value(Digits(n, base), base) == n
    ensures forall k :: 0 <= k < |Digits(n, base)| ==> LowerHex(Digits(n, base)[k]) && (base <= 10 ==> Digit(Digits(n, base)[k]))
    decreases n
  {
    var s := Digits(n, base);
    if n < base {
      assert s[..0] == "";
    } else {
      ValueDigits(n / base, base);
      assert s[..|s| - 1] == Digits(n / base, base);
      assert if base == 10 then n == (n / 10) * 10 + n % 10 else n == (n / 16) * 16 + n % 16;
    }
  }

  function Power16(n: nat): nat { if n == 0 then 1 else 16 * Power16(n - 1) }

  lemma {:induction false} HexBounded(s: string)
    ensures Value(s, 16) < Power16(|s|)
  {
    if s != "" { HexBounded(s[..|s| - 1]); }
  }

  lemma {:induction false} HexShort(n: nat, k: nat)
    requires k >= 1 && n < Power16(k)
    ensures |Digits(n, 16)| <= k
  {
    if n >= 16 { HexShort(n / 16, k - 1); }
  }

  // ---------- letter case ----------

  function LowerChar(c: char): char { if 'A' <= c <= 'Z' then (c as int + 32) as char else c }

  function Lower(s: string): (r: string)
    ensures |r| == |s| && forall i :: 0 <= i < |s| ==> r[i] == LowerChar(s[i])
  {
    seq(|s|, i requires 0 <= i < |s| => LowerChar(s[i]))
  }

  function LowerAll(ws: seq<string>): (r: seq<string>)
    ensures |r| == |ws| && forall k :: 0 <= k < |ws| ==> r[k] == Lower(ws[k])
  {
    seq(|ws|, k requires 0 <= k < |ws| => Lower(ws[k]))
  }

  lemma {:induction false} LowerConcat(a: string, b: string)
    ensures Lower(a + b) == Lower(a) + Lower(b)
  {}

  lemma {:induction false} LowerJoin(ws: seq<string>)
    ensures Lower(Join(ws, ':')) == Join(LowerAll(ws), ':')
  {
    if |ws| > 1 {
      LowerJoin(ws[1..]);
      assert LowerAll(ws)[1..] == LowerAll(ws[1..]);
      LowerConcat(ws[0] + ":", Join(ws[1..], ':'));
      LowerConcat(ws[0], ":");
      assert Lower(":") == ":";
    }
  }
}
