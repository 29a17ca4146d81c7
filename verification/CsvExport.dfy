/** Writing CSV in bounded chunks: what the response carries, and when it is the CSV of the value. */
module CsvExport {
  import opened Utf16Text

  const WRITE_CHARS: nat := 8192

  /** Every quote written twice. */
  function Doubled(t: Text): (r: Text) {
    if t == [] then [] else (if t[0] == QUOTE then [QUOTE, QUOTE] else [t[0]]) + Doubled(t[1..])
  }

  predicate Special(u: Unit) { u == COMMA || u == QUOTE || u == CR || u == LF }

  predicate NeedsQuotes(t: Text) { exists i :: 0 <= i < |t| && Special(t[i]) }

  /** A field in the form of section 2 of RFC 4180. */
  function FieldText(t: Text): Text {
    if NeedsQuotes(t) then [QUOTE] + Doubled(t) + [QUOTE] else t
  }

  function Min(a: nat, b: nat): nat { if a < b then a else b }

  /** The received body of a field whose value is written in pieces of at most `n` units. */
  function Pieces(t: Text, n: nat): Text
    requires n > 0
  {
    if t == [] then [] else
    var m := Min(n, |t|);
    Wire(Doubled(t[..m])) + Pieces(t[m..], n)
  }

  function ReceivedField(t: Text, n: nat): Text
    requires n > 0
  {
    if NeedsQuotes(t) then [QUOTE] + Pieces(t, n) + [QUOTE] else Pieces(t, n)
  }

  /** Some piece boundary falls inside a surrogate pair. */
  predicate BoundaryCutsPair(t: Text, n: nat)
    requires n > 0
  {
    exists k :: 0 < k < |t| && k % n == 0 && CutsPair(t, k)
  }

  // ---------- the response ----------

  class ExportResponse {
    var received: Text    // the text the client decodes

    constructor ()
      ensures received == []
    {
      received := [];
    }

    method Write(value: Text)
      modifies this
      ensures received == old(received) + Wire(value)
    {
      received := received + Wire(value);
    }

    method WriteCsvField(value: Text)
      modifies this
      ensures received == old(received) + ReceivedField(value, WRITE_CHARS)
    {
      var quote := NeedsQuotes(value);
      WireAscii([QUOTE]);
      if quote { Write([QUOTE]); }
      ghost var before := received;
      var offset := 0;
      while offset < |value|
        invariant 0 <= offset <= |value|
        invariant before + Pieces(value, WRITE_CHARS) == received + Pieces(value[offset..], WRITE_CHARS)
      {
        var end := Min(|value|, offset + WRITE_CHARS);
        var chunk := Doubled(value[offset..end]);
        assert value[offset..][..end - offset] == value[offset..end] && value[offset..][end - offset..] == value[end..];
        ghost var rest := Pieces(value[end..], WRITE_CHARS);
        assert received + (Wire(chunk) + rest) == (received + Wire(chunk)) + rest;
        Write(chunk);
        offset := end;
      }
      assert received + [] == received;
      ghost var body := received;
      if quote { Write([QUOTE]); }
      ghost var pieces := Pieces(value, WRITE_CHARS);
      assert quote ==> old(received) + ([QUOTE] + pieces + [QUOTE]) == old(received) + [QUOTE] + pieces + [QUOTE];
    }

    /** One record; a null field writes nothing, like an empty one. */
    method WriteCsvRow(cells: seq<Text>)
      modifies this
      ensures received == old(received) + ReceivedRow(cells)
    {
      WireAscii([COMMA]);
      WireAscii([CR, LF]);
      for index := 0 to |cells|
        invariant received == old(received) + ReceivedFields(cells[..index])
      {
        if index > 0 { Write([COMMA]); }
        WriteCsvField(cells[index]);
        assert cells[..index + 1][..index] == cells[..index];
        ghost var field := ReceivedField(cells[index], WRITE_CHARS);
        ghost var fields := ReceivedFields(cells[..index]);
        assert index > 0 ==> old(received) + (fields + [COMMA] + field) == old(received) + fields + [COMMA] + field;
        assert index == 0 ==> ReceivedFields(cells[..1]) == field && old(received) + [] + field == old(received) + field;
      }
      assert cells[..|cells|] == cells;
      Write([CR, LF]);
      assert old(received) + (ReceivedFields(cells) + [CR, LF]) == old(received) + ReceivedFields(cells) + [CR, LF];
    }
  }

  function ReceivedFields(cells: seq<Text>): Text {
    if cells == [] then [] else
    var last := ReceivedField(cells[|cells| - 1], WRITE_CHARS);
    if |cells| == 1 then last else ReceivedFields(cells[..|cells| - 1]) + [COMMA] + last
  }

  function ReceivedRow(cells: seq<Text>): Text { ReceivedFields(cells) + [CR, LF] }

  lemma {:induction false} WireAscii(t: Text)
    requires forall i :: 0 <= i < |t| ==> t[i] < 0xD800
    ensures Wire(t) == t
  {}

  // ---------- when the pieces are the field ----------

  lemma {:induction false} DoubledConcat(a: Text, b: Text)
    ensures Doubled(a + b) == Doubled(a) + Doubled(b)
  {
    if a == [] {
      assert [] + b == b && [] + Doubled(b) == Doubled(b);
    } else {
      assert (a + b)[0] == a[0] && (a + b)[1..] == a[1..] + b;
      DoubledConcat(a[1..], b);
    }
  }

  lemma {:induction false} DoubledInjective(a: Text, b: Text)
    ensures Doubled(a) == Doubled(b) ==> a == b
  {
    if a != [] && b != [] {
      DoubledInjective(a[1..], b[1..]);
      if Doubled(a) == Doubled(b) {
        assert Doubled(a)[0] == a[0] && Doubled(b)[0] == b[0];
        var k := if a[0] == QUOTE then 2 else 1;
        assert Doubled(a)[k..] == Doubled(a[1..]) && Doubled(b)[k..] == Doubled(b[1..]);
        assert a == [a[0]] + a[1..] && b == [b[0]] + b[1..];
      }
    }
  }

  lemma {:induction false} WireConcat(a: Text, b: Text)
    requires !CutsPair(a + b, |a|)
    ensures Wire(a + b) == Wire(a) + Wire(b)
  {
    forall i | 0 <= i < |a + b| ensures Wire(a + b)[i] == (Wire(a) + Wire(b))[i] {}
  }

  /** One unit at the front that begins no pair. */
  lemma {:induction false} WireDoubledUnit(t: Text)
    requires t != [] && !CutsPair(t, 1)
    ensures var front := Wire(if t[0] == QUOTE then [QUOTE, QUOTE] else [t[0]]);
      Wire(Doubled(t)) == front + Wire(Doubled(t[1..])) && Doubled(Wire(t)) == front + Doubled(Wire(t[1..]))
  {
    var head, rest := t[..1], t[1..];
    assert t == head + rest;
    var d := if t[0] == QUOTE then [QUOTE, QUOTE] else [t[0]];
    assert Doubled(t) == d + Doubled(rest);
    assert rest != [] ==> Doubled(rest)[0] == rest[0];
    WireConcat(d, Doubled(rest));
    WireConcat(head, rest);
    DoubledConcat(Wire(head), Wire(rest));
    assert Wire(head)[1..] == [];
  }

  lemma {:induction false} WireDoubledPair(t: Text)
    requires CutsPair(t, 1)
    ensures Wire(Doubled(t)) == t[..2] + Wire(Doubled(t[2..])) && Doubled(Wire(t)) == t[..2] + Doubled(Wire(t[2..]))
  {
    var pair, rest := t[..2], t[2..];
    assert t == pair + rest && pair == [t[0], t[1]];
    DoubledConcat(pair, rest);
    assert pair[1..] == [t[1]] && [t[1]][1..] == [];
    assert Doubled(pair) == pair;
    WireConcat(pair, Doubled(rest));
    WireConcat(pair, rest);
    assert Wire(pair) == pair;
    DoubledConcat(pair, Wire(rest));
  }

  /** Doubling quotes does not touch surrogates. */
  lemma {:induction false} WireDoubled(t: Text)
    ensures Wire(Doubled(t)) == Doubled(Wire(t))
  {
    if t == [] {
    } else if CutsPair(t, 1) {
      WireDoubledPair(t);
      WireDoubled(t[2..]);
    } else {
      WireDoubledUnit(t);
      WireDoubled(t[1..]);
    }
  }

  /** The value as its pieces arrive, before doubling. */
  function Patched(t: Text, n: nat): Text
    requires n > 0
  {
    if t == [] then [] else Wire(t[..Min(n, |t|)]) + Patched(t[Min(n, |t|)..], n)
  }

  lemma {:induction false} PiecesDouble(t: Text, n: nat)
    requires n > 0
    ensures Pieces(t, n) == Doubled(Patched(t, n))
  {
    if t != [] {
      var m := Min(n, |t|);
      PiecesDouble(t[m..], n);
      WireDoubled(t[..m]);
      DoubledConcat(Wire(t[..m]), Patched(t[m..], n));
    }
  }

  lemma {:induction false} ModShift(k: nat, n: nat)
    requires n > 0
    ensures (k + n) % n == k % n
  {
    var q, r := k / n, k % n;
    assert k + n == (q + 1) * n + r;
    ModUnique(k + n, n, q + 1, r);
  }

  lemma {:induction false} ModUnique(x: nat, n: nat, q: nat, r: nat)
    requires n > 0 && r < n && x == q * n + r
    ensures x % n == r
  {
    var d := x / n - q;
    assert x == (x / n) * n + x % n;
    assert d * n == r - x % n;
    assert (d > 0 ==> d * n >= n) && (d < 0 ==> d * n + n <= 0);
  }

  lemma {:induction false} BoundaryShift(t: Text, n: nat)
    requires 0 < n < |t|
    ensures BoundaryCutsPair(t, n) <==> CutsPair(t, n) || BoundaryCutsPair(t[n..], n)
  {
    var rest := t[n..];
    if BoundaryCutsPair(t, n) {
      var k :| 0 < k < |t| && k % n == 0 && CutsPair(t, k);
      if k != n { BoundaryBeyond(t, n, k); }
    }
    if BoundaryCutsPair(rest, n) {
      var k :| 0 < k < |rest| && k % n == 0 && CutsPair(rest, k);
      ModShift(k, n);
      assert CutsPair(t, k + n);
    }
    if CutsPair(t, n) { ModUnique(n, n, 1, 0); }
  }

  lemma {:induction false} BoundaryBeyond(t: Text, n: nat, k: nat)
    requires 0 < n < |t| && 0 < k < |t| && k != n && k % n == 0 && CutsPair(t, k)
    ensures BoundaryCutsPair(t[n..], n)
  {
    if k < n { ModUnique(k, n, 0, k); }
    ModShift(k - n, n);
    assert CutsPair(t[n..], k - n);
  }

  lemma {:induction false} WellFormedParts(t: Text, n: nat)
    requires WellFormed(t) && 0 < n < |t| && !CutsPair(t, n)
    ensures WellFormed(t[..n]) && WellFormed(t[n..])
  {
    forall i | 0 <= i < n ensures !Lone(t[..n], i) { assert !Lone(t, i); }
    forall i | 0 <= i < |t| - n ensures !Lone(t[n..], i) { assert !Lone(t, n + i); }
  }

  /** A well-formed value survives being written in pieces exactly when no piece boundary cuts a pair. */
  lemma {:induction false} PatchedExact(t: Text, n: nat)
    requires n > 0 && WellFormed(t)
    ensures Patched(t, n) == t <==> !BoundaryCutsPair(t, n)
    decreases |t|
  {
    if t == [] {
    } else if |t| <= n {
      assert t[..|t|] == t && t[|t|..] == [];
      assert Wire(t) == t;
      assert Patched(t, n) == t + [];
      forall k | 0 < k < |t| ensures k % n != 0 {}
    } else {
      BoundaryShift(t, n);
      var a, rest := t[..n], t[n..];
      assert t == a + rest;
      if CutsPair(t, n) {
        assert a[n - 1] == t[n - 1] && Lone(a, n - 1);
        assert Patched(t, n)[n - 1] == Wire(a)[n - 1] == REPLACEMENT;
      } else {
        WellFormedParts(t, n);
        assert Wire(a) == a;
        PatchedExact(rest, n);
        assert Patched(t, n) == a + Patched(rest, n);
        assert Patched(t, n)[n..] == Patched(rest, n);
      }
    }
  }

  /** The client receives the CSV form of a well-formed field if and only if no surrogate pair lies
      across a multiple of the piece length. */
  lemma {:induction false} FieldArrivesIff(t: Text, n: nat)
    requires n > 0 && WellFormed(t)
    ensures ReceivedField(t, n) == FieldText(t) <==> !BoundaryCutsPair(t, n)
  {
    PiecesDouble(t, n);
    PatchedExact(t, n);
    DoubledInjective(Patched(t, n), t);
    var p, d := Pieces(t, n), Doubled(t);
    if NeedsQuotes(t) {
      assert ([QUOTE] + p + [QUOTE])[1..|p| + 1] == p && ([QUOTE] + d + [QUOTE])[1..|d| + 1] == d;
    } else {
      DoubledPlain(t);
    }
  }

  lemma {:induction false} DoubledPlain(t: Text)
    requires forall i :: 0 <= i < |t| ==> t[i] != QUOTE
    ensures Doubled(t) == t
  {
    if t != [] {
      DoubledPlain(t[1..]);
      assert t == [t[0]] + t[1..];
    }
  }

  /** A stored address that does not survive its own export: 8191 letters, then a character outside the
      basic plane. */
  lemma {:induction false} LongFieldBroken()
    ensures var t: Text := seq(8191, i => 0x61) + [0xD83D, 0xDE00];
      WellFormed(t) && ReceivedField(t, WRITE_CHARS) != FieldText(t)
  {
    var t: Text := seq(8191, i => 0x61) + [0xD83D, 0xDE00];
    assert t[8191] == 0xD83D && t[8192] == 0xDE00;
    assert 8192 % WRITE_CHARS == 0 && CutsPair(t, 8192);
    FieldArrivesIff(t, WRITE_CHARS);
  }

  /** So does every row of letters that ends one unit before a multiple of 8192, and no other. */
  lemma {:induction false} PairAfterLetters(n: nat)
    ensures var t: Text := seq(n, i => 0x61) + [0xD83D, 0xDE00];
      ReceivedField(t, WRITE_CHARS) == FieldText(t) <==> (n + 1) % 8192 != 0
  {
    var t: Text := seq(n, i => 0x61) + [0xD83D, 0xDE00];
    assert t[n] == 0xD83D && t[n + 1] == 0xDE00 && forall i :: 0 <= i < n ==> t[i] == 0x61;
    assert WellFormed(t);
    assert CutsPair(t, n + 1) && forall k :: 0 < k < |t| && CutsPair(t, k) ==> k == n + 1;
    assert BoundaryCutsPair(t, WRITE_CHARS) <==> (n + 1) % WRITE_CHARS == 0;
    FieldArrivesIff(t, WRITE_CHARS);
  }
}
