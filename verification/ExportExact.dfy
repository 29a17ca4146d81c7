/** Exactly which exports are read back as what was exported. */
module ExportExact {
  import opened Utf16Text
  import opened CsvExport
  import opened CsvParse
  import opened CsvImport
  import opened ExportStream
  import opened Options

  // ---------- what arrives is the CSV text of the patched cells ----------

  predicate Surrogate(u: Unit) { High(u) || Low(u) }

  /** Patching replaces some halves of pairs and nothing else. */
  lemma {:induction false} PatchedUnits(t: Text, n: nat)
    requires n > 0
    ensures |Patched(t, n)| == |t|
    ensures forall i :: 0 <= i < |t| ==> Patched(t, n)[i] == t[i] || (Patched(t, n)[i] == REPLACEMENT && Surrogate(t[i]))
    decreases |t|
  {
    if t != [] {
      var m := Min(n, |t|);
      PatchedUnits(t[m..], n);
      var p, head, rest := Patched(t, n), Wire(t[..m]), Patched(t[m..], n);
      assert p == head + rest;
      forall i | 0 <= i < |t| ensures p[i] == t[i] || (p[i] == REPLACEMENT && Surrogate(t[i])) {
        if i < m { assert p[i] == head[i] && t[..m][i] == t[i]; } else { assert p[i] == rest[i - m] && t[m..][i - m] == t[i]; }
      }
    }
  }

  lemma {:induction false} PatchedSpecial(t: Text, n: nat)
    requires n > 0
    ensures NeedsQuotes(Patched(t, n)) <==> NeedsQuotes(t)
  {
    PatchedUnits(t, n);
    var p := Patched(t, n);
    forall i | 0 <= i < |t| ensures Special(p[i]) <==> Special(t[i]) {}
    if NeedsQuotes(t) {
      var i :| 0 <= i < |t| && Special(t[i]);
      assert Special(p[i]);
    }
  }

  lemma {:induction false} ReceivedIsPatched(t: Text, n: nat)
    requires n > 0
    ensures ReceivedField(t, n) == FieldText(Patched(t, n))
  {
    PiecesDouble(t, n);
    PatchedSpecial(t, n);
    if !NeedsQuotes(t) { DoubledPlain(Patched(t, n)); }
  }

  function PatchedCells(cells: seq<Text>): (r: seq<Text>)
    ensures |r| == |cells|
    ensures forall i :: 0 <= i < |cells| ==> r[i] == Patched(cells[i], WRITE_CHARS)
  {
    seq(|cells|, i requires 0 <= i < |cells| => Patched(cells[i], WRITE_CHARS))
  }

  lemma {:induction false} PatchedSnoc(cells: seq<Text>)
    requires cells != []
    ensures var n := |cells| - 1; PatchedCells(cells) == PatchedCells(cells[..n]) + [Patched(cells[n], WRITE_CHARS)]
  {}

  lemma {:induction false} FieldsArePatched(cells: seq<Text>)
    ensures ReceivedFields(cells) == FieldsText(PatchedCells(cells))
  {
    if cells != [] {
      var n := |cells| - 1;
      var p := PatchedCells(cells);
      ReceivedIsPatched(cells[n], WRITE_CHARS);
      if n > 0 {
        FieldsArePatched(cells[..n]);
        PatchedSnoc(cells);
        FieldsSnoc(PatchedCells(cells[..n]), p[n]);
      } else {
        assert p[1..] == [] && FieldText(p[0]) + [] == FieldText(p[0]);
      }
    }
  }

  function PatchedRows(listing: seq<TableRow>): (r: seq<seq<Text>>)
    ensures |r| == |listing|
    ensures forall i :: 0 <= i < |listing| ==> r[i] == PatchedCells(Cells(listing[i].row))
  {
    seq(|listing|, i requires 0 <= i < |listing| => PatchedCells(Cells(listing[i].row)))
  }

  lemma {:induction false} PatchedRowsSnoc(listing: seq<TableRow>)
    requires listing != []
    ensures var n := |listing| - 1; PatchedRows(listing) == PatchedRows(listing[..n]) + [PatchedCells(Cells(listing[n].row))]
  {}

  lemma {:induction false} RowsArePatched(listing: seq<TableRow>)
    ensures ReceivedRows(listing) == RowsText(PatchedRows(listing))
  {
    if listing != [] {
      var n := |listing| - 1;
      RowsArePatched(listing[..n]);
      FieldsArePatched(Cells(listing[n].row));
      PatchedRowsSnoc(listing);
      OneMoreRow(PatchedRows(listing[..n]), PatchedCells(Cells(listing[n].row)));
    }
  }

  /** Whatever an export contains, the import reads the patched cells. */
  lemma {:induction false} ReceivedFileImports(f: Foreign, listing: seq<TableRow>, received: Text)
    requires received == ReceivedRow(Header()) + ReceivedRows(listing)
    ensures ImportCsv(f, received) ==
      if Utf8Length(received) > MAX_FILE_BYTES then Err(FileTooLarge)
      else if listing == [] then Err(NoData)
      else if |listing| > MAX_ROWS then Err(TooManyRows)
      else Ok(ParseRows(f, Header(), PatchedRows(listing)))
  {
    HeaderSendable();
    ReceivedFieldsExact(Header());
    RowsArePatched(listing);
    var rows := PatchedRows(listing);
    assert ([Header()] + rows)[1..] == rows;
    assert received == RowsText([Header()] + rows);
    WrittenFileImports(f, rows);
  }

  // ---------- when a row is read as itself ----------

  /** How many replacement characters a text has. */
  function Replacements(t: Text): nat {
    if t == [] then 0 else Replacements(t[..|t| - 1]) + if t[|t| - 1] == REPLACEMENT then 1 else 0
  }

  /** Normalisation neither makes nor unmakes a replacement character: it has no decomposition and composes with
      nothing. */
  ghost predicate KeepsReplacements(f: Foreign) { forall t :: Replacements(f.nfc(t)) == Replacements(t) }

  lemma {:induction false} MoreReplacements(t: Text, p: Text)
    requires |p| == |t| && forall i :: 0 <= i < |t| ==> p[i] == t[i] || p[i] == REPLACEMENT
    ensures Replacements(t) <= Replacements(p) && (t != p ==> Replacements(t) < Replacements(p))
  {
    if t != [] {
      var n := |t| - 1;
      MoreReplacements(t[..n], p[..n]);
      assert t == t[..n] + [t[n]] && p == p[..n] + [p[n]];
    }
  }

  lemma {:induction false} ReplacementsCons(u: Unit, t: Text)
    ensures Replacements([u] + t) == Replacements(t) + if u == REPLACEMENT then 1 else 0
  {
    if t == [] {
      assert [u] + t == [u] && [u][..0] == [];
    } else {
      var n := |t| - 1;
      ReplacementsCons(u, t[..n]);
      assert ([u] + t)[..n + 1] == [u] + t[..n];
    }
  }

  lemma {:induction false} TrimStartKeeps(t: Text)
    ensures Replacements(TrimStart(t)) == Replacements(t)
  {
    if t != [] && IsSpace(t[0]) {
      TrimStartKeeps(t[1..]);
      ReplacementsCons(t[0], t[1..]);
      assert t == [t[0]] + t[1..];
    }
  }

  lemma {:induction false} TrimEndKeeps(t: Text)
    ensures Replacements(TrimEnd(t)) == Replacements(t)
  {
    if t != [] && IsSpace(t[|t| - 1]) { TrimEndKeeps(t[..|t| - 1]); }
  }

  lemma {:induction false} NumberChanges(f: Foreign, number: Text)
    requires KeepsReplacements(f) && f.nfc(Trim(number)) == number && Patched(number, WRITE_CHARS) != number
    ensures f.nfc(Trim(Patched(number, WRITE_CHARS))) != number
  {
    var p := Patched(number, WRITE_CHARS);
    PatchedUnits(number, WRITE_CHARS);
    MoreReplacements(number, p);
    TrimStartKeeps(p);
    TrimEndKeeps(TrimStart(p));
  }

  /** What a good row says about its cells. */
  lemma {:induction false} GoodRowFields(f: Foreign, values: seq<Text>, rowIndex: nat)
    requires |values| == 11 && ParseRow(f, Header(), values, rowIndex).Good?
    ensures var p := ParseRow(f, Header(), values, rowIndex).payload;
      && p.number == f.nfc(Trim(values[1])) && p.externalId == Some(OptionalText(values[2]))
      && p.address == Some(OptionalText(values[5])) && p.district == Some(OptionalText(values[6]))
      && p.lampType == Some(OptionalText(values[7]))
  {
    var obj := ToObject(Header(), values);
    ColumnsFound(values);
    assert NAMES[1] == "inventory_number" && NAMES[2] == "external_id";
    assert NAMES[5] == "address" && NAMES[6] == "district" && NAMES[7] == "lamp_type";
    FirstFound(obj, [Ascii("inventory_number"), Ascii("inventoryNumber")]);
    FirstFound(obj, [Ascii("external_id"), Ascii("externalId")]);
    FirstFound(obj, [Ascii("address")]);
    FirstFound(obj, [Ascii("district")]);
    FirstFound(obj, [Ascii("lamp_type"), Ascii("lampType")]);
  }

  predicate AsciiOnly(t: Text) { forall i :: 0 <= i < |t| ==> t[i] < 0x80 }

  predicate FreeText(k: nat) { k == 1 || k == 2 || k == 5 || k == 6 || k == 7 }

  /** A row of the table: its texts are well-formed, the printed ids, numbers, states and times are ASCII. */
  predicate Listed(f: Foreign, r: ExportRow) {
    Stored(f, r) && forall k :: 0 <= k < 11 ==> if FreeText(k) then WellFormed(Cells(r)[k]) else AsciiOnly(Cells(r)[k])
  }

  lemma {:induction false} CellExact(f: Foreign, r: ExportRow, k: nat)
    requires Listed(f, r) && k < 11
    ensures var t := Cells(r)[k];
      && WellFormed(t) && (Patched(t, WRITE_CHARS) == t <==> !BoundaryCutsPair(t, WRITE_CHARS))
      && (BoundaryCutsPair(t, WRITE_CHARS) ==> FreeText(k))
  {
    var t := Cells(r)[k];
    assert AsciiOnly(t) ==> WellFormed(t);
    PatchedExact(t, WRITE_CHARS);
  }

  /** The import reads a row back exactly when none of its fields has a pair across a piece boundary. */
  lemma {:induction false} RowReadIff(f: Foreign, r: ExportRow, rowIndex: nat)
    requires Listed(f, r) && KeepsReplacements(f)
    ensures ParseRow(f, Header(), PatchedCells(Cells(r)), rowIndex) == Good(rowIndex, PayloadOf(f, r)) <==> Sendable(r)
  {
    var cells := Cells(r);
    var patched := PatchedCells(cells);
    forall k | 0 <= k < 11
      ensures WellFormed(cells[k]) && (patched[k] == cells[k] <==> !BoundaryCutsPair(cells[k], WRITE_CHARS))
      ensures patched[k] != cells[k] ==> FreeText(k)
      ensures |patched[k]| == |cells[k]|
    {
      CellExact(f, r, k);
      PatchedUnits(cells[k], WRITE_CHARS);
    }
    if Sendable(r) {
      assert patched == cells;
      StoredRowImports(f, r, rowIndex);
    } else if ParseRow(f, Header(), patched, rowIndex).Good? {
      GoodRowFields(f, patched, rowIndex);
      if patched[1] != cells[1] { NumberChanges(f, r.number); }
    }
  }

  predicate AllSendable(listing: seq<TableRow>) { forall i :: 0 <= i < |listing| ==> Sendable(listing[i].row) }

  ghost predicate AllListed(f: Foreign, listing: seq<TableRow>) {
    forall i :: 0 <= i < |listing| ==> Listed(f, listing[i].row)
  }

  lemma {:induction false} ListedAreStored(f: Foreign, listing: seq<TableRow>)
    requires AllListed(f, listing)
    ensures forall i :: 0 <= i < |listing| ==> Stored(f, Rows(listing)[i])
  {
    forall i | 0 <= i < |listing| ensures Stored(f, Rows(listing)[i]) { assert Listed(f, listing[i].row); }
  }

  lemma {:induction false} RowsReadIff(f: Foreign, listing: seq<TableRow>)
    requires KeepsReplacements(f) && AllListed(f, listing)
    requires forall i :: 0 <= i < |listing| ==> Stored(f, Rows(listing)[i])
    ensures ParseRows(f, Header(), PatchedRows(listing)) == Payloads(f, Rows(listing)) <==> AllSendable(listing)
  {
    var read, expected := ParseRows(f, Header(), PatchedRows(listing)), Payloads(f, Rows(listing));
    forall i | 0 <= i < |listing| ensures read[i] == expected[i] <==> Sendable(listing[i].row) {
      assert Listed(f, listing[i].row);
      RowReadIff(f, listing[i].row, i + 1);
    }
    if AllSendable(listing) { assert read == expected; }
  }

  /** For a whole export within the import's limits: the import yields the listing if and only if no exported field
      has a surrogate pair across a piece boundary. */
  lemma {:induction false} FileArrivesIff(f: Foreign, listing: seq<TableRow>, received: Text)
    requires KeepsReplacements(f) && AllListed(f, listing) && received == ReceivedRow(Header()) + ReceivedRows(listing)
    requires 0 < |listing| <= MAX_ROWS && Utf8Length(received) <= MAX_FILE_BYTES
    ensures forall i :: 0 <= i < |listing| ==> Stored(f, Rows(listing)[i])
    ensures ImportCsv(f, received) == Ok(Payloads(f, Rows(listing))) <==> AllSendable(listing)
  {
    ListedAreStored(f, listing);
    ReceivedFileImports(f, listing, received);
    RowsReadIff(f, listing);
  }
}
