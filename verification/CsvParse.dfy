/** The hand-written CSV record parser of the import. */
module CsvParse {
  import opened Utf16Text
  import opened CsvExport
  import opened Options

  /** The loop variables of the parser. */
  datatype Scan = Scan(records: seq<seq<Text>>, record: seq<Text>, cell: Text, quoted: bool, closedQuote: bool)

  datatype ParseResult = Records(records: seq<seq<Text>>) | Malformed | Unclosed

  function FinishCell(s: Scan): Scan {
    s.(record := s.record + [s.cell], cell := [], closedQuote := false)
  }

  function FinishRecord(s: Scan): Scan {
    var f := FinishCell(s);
    if |f.record| == 1 && Blank(f.record[0]) then f.(record := [])
    else f.(records := f.records + [f.record], record := [])
  }

  /** One turn of the character loop: the new variables, and how many units were read; None is the throw. */
  datatype Turn = Advance(scan: Scan, read: nat) | Throw

  function Consume(t: Text, s: Scan): (r: Turn)
    requires t != []
    ensures r.Advance? ==> 0 < r.read <= |t|
  {
    var ch := t[0];
    if s.quoted then
      if ch == QUOTE && |t| > 1 && t[1] == QUOTE then Advance(s.(cell := s.cell + [QUOTE]), 2)
      else if ch == QUOTE then Advance(s.(quoted := false, closedQuote := true), 1)
      else Advance(s.(cell := s.cell + [ch]), 1)
    else if s.closedQuote && ch != COMMA && ch != CR && ch != LF && ch != SPACE && ch != TAB then Throw
    else if ch == QUOTE && s.cell == [] then Advance(s.(quoted := true), 1)
    else if ch == COMMA then Advance(FinishCell(s), 1)
    else if ch == CR || ch == LF then Advance(FinishRecord(s), if ch == CR && |t| > 1 && t[1] == LF then 2 else 1)
    else Advance(if s.closedQuote then s else s.(cell := s.cell + [ch]), 1)
  }

  function Parse(t: Text, s: Scan): ParseResult
    decreases |t|
  {
    if t == [] then
      if s.quoted then Unclosed
      else if s.cell != [] || s.record != [] || s.closedQuote then Records(FinishRecord(s).records)
      else Records(s.records)
    else
      var turn := Consume(t, s);
      if turn.Throw? then Malformed else Parse(t[turn.read..], turn.scan)
  }

  const START: Scan := Scan([], [], [], false, false)

  /** `parseCsvRecords`. */
  method ParseCsvRecords(text: Text) returns (r: ParseResult)
    ensures r == Parse(text, START)
  {
    var records: seq<seq<Text>>, record: seq<Text>, cell: Text := [], [], [];
    var quoted, closedQuote := false, false;
    var i := 0;
    while i < |text|
      invariant 0 <= i <= |text|
      invariant Parse(text[i..], Scan(records, record, cell, quoted, closedQuote)) == Parse(text, START)
      decreases |text| - i
    {
      ghost var rest := text[i..];
      ghost var turn := Consume(rest, Scan(records, record, cell, quoted, closedQuote));
      assert |rest| > 1 ==> rest[1] == text[i + 1];
      var ch := text[i];
      var read := 1;
      if quoted {
        if ch == QUOTE && i + 1 < |text| && text[i + 1] == QUOTE { cell := cell + [QUOTE]; read := 2; }
        else if ch == QUOTE { quoted, closedQuote := false, true; }
        else { cell := cell + [ch]; }
      } else {
        if closedQuote && ch != COMMA && ch != CR && ch != LF && ch != SPACE && ch != TAB { return Malformed; }
        if ch == QUOTE && cell == [] { quoted := true; }
        else if ch == COMMA { record, cell, closedQuote := record + [cell], [], false; }
        else if ch == CR || ch == LF {
          if ch == CR && i + 1 < |text| && text[i + 1] == LF { read := 2; }
          record, cell, closedQuote := record + [cell], [], false;
          if !(|record| == 1 && Blank(record[0])) { records := records + [record]; }
          record := [];
        }
        else if !closedQuote { cell := cell + [ch]; }
      }
      assert turn == Advance(Scan(records, record, cell, quoted, closedQuote), read);
      assert rest[read..] == text[i + read..];
      i := i + read;
    }
    if quoted { return Unclosed; }
    if |cell| > 0 || |record| > 0 || closedQuote {
      record := record + [cell];
      if !(|record| == 1 && Blank(record[0])) { records := records + [record]; }
    }
    return Records(records);
  }

  // ---------- reading back what was written ----------

  predicate Separator(u: Unit) { u == COMMA || u == CR }

  /** Plain characters go into the cell one by one. */
  lemma {:induction false} PlainRead(t: Text, rest: Text, s: Scan)
    requires !NeedsQuotes(t) && !s.quoted && !s.closedQuote
    ensures Parse(t + rest, s) == Parse(rest, s.(cell := s.cell + t))
    decreases t
  {
    if t == [] {
      assert t + rest == rest && s.cell + t == s.cell;
    } else {
      assert !Special(t[0]);
      assert (t + rest)[0] == t[0] && (t + rest)[1..] == t[1..] + rest;
      forall i | 0 <= i < |t[1..]| ensures !Special(t[1..][i]) { assert t[1..][i] == t[i + 1]; }
      PlainRead(t[1..], rest, s.(cell := s.cell + [t[0]]));
      assert s.cell + [t[0]] + t[1..] == s.cell + t;
    }
  }

  /** Inside quotes, doubled quotes are read as one and everything else as itself. */
  lemma {:induction false} QuotedRead(t: Text, rest: Text, s: Scan)
    requires s.quoted && rest != [] && Separator(rest[0])
    ensures Parse(Doubled(t) + [QUOTE] + rest, s) == Parse(rest, s.(cell := s.cell + t, quoted := false, closedQuote := true))
    decreases t
  {
    var all := Doubled(t) + [QUOTE] + rest;
    if t == [] {
      assert all[0] == QUOTE && all[1] == rest[0] && all[1..] == rest && s.cell + t == s.cell;
    } else {
      var tail := Doubled(t[1..]) + [QUOTE] + rest;
      if t[0] == QUOTE {
        assert all[0] == QUOTE && all[1] == QUOTE && all[2..] == tail;
      } else {
        assert all[0] == t[0] && all[1..] == tail;
      }
      QuotedRead(t[1..], rest, s.(cell := s.cell + [t[0]]));
      assert s.cell + [t[0]] + t[1..] == s.cell + t;
    }
  }

  lemma {:induction false} OpenQuote(body: Text, s: Scan)
    requires !s.quoted && !s.closedQuote && s.cell == []
    ensures Parse([QUOTE] + body, s) == Parse(body, s.(quoted := true))
  {
    assert ([QUOTE] + body)[1..] == body;
  }

  lemma {:induction false} EndCell(rest: Text, s: Scan)
    requires !s.quoted
    ensures Parse([COMMA] + rest, s) == Parse(rest, FinishCell(s))
  {
    assert ([COMMA] + rest)[1..] == rest;
  }

  lemma {:induction false} EndRecord(rest: Text, s: Scan)
    requires !s.quoted
    ensures Parse([CR, LF] + rest, s) == Parse(rest, FinishRecord(s))
  {
    var all := [CR, LF] + rest;
    assert all[0] == CR && all[1] == LF && all[2..] == rest;
  }

  /** A written field, read from the start of a cell, is the field again. */
  lemma {:induction false} FieldRead(t: Text, rest: Text, s: Scan)
    requires !s.quoted && !s.closedQuote && s.cell == [] && rest != [] && Separator(rest[0])
    ensures Parse(FieldText(t) + rest, s) == Parse(rest, s.(cell := t, closedQuote := NeedsQuotes(t)))
  {
    assert [] + t == t;
    if NeedsQuotes(t) {
      var body := Doubled(t) + [QUOTE] + rest;
      assert FieldText(t) + rest == [QUOTE] + body;
      OpenQuote(body, s);
      QuotedRead(t, rest, s.(quoted := true));
    } else {
      PlainRead(t, rest, s);
    }
  }

  function FieldsText(cells: seq<Text>): Text {
    if cells == [] then [] else
    FieldText(cells[0]) + (if |cells| == 1 then [] else [COMMA] + FieldsText(cells[1..]))
  }

  function RowText(cells: seq<Text>): Text { FieldsText(cells) + [CR, LF] }

  lemma {:induction false} LastFieldRead(t: Text, rest: Text, s: Scan)
    requires !s.quoted && !s.closedQuote && s.cell == []
    ensures Parse(FieldText(t) + ([CR, LF] + rest), s) == Parse(rest, FinishRecord(s.(cell := t)))
  {
    FieldRead(t, [CR, LF] + rest, s);
    EndRecord(rest, s.(cell := t, closedQuote := NeedsQuotes(t)));
  }

  lemma {:induction false} InnerFieldRead(t: Text, more: Text, s: Scan)
    requires !s.quoted && !s.closedQuote && s.cell == []
    ensures Parse(FieldText(t) + ([COMMA] + more), s) == Parse(more, s.(record := s.record + [t]))
  {
    FieldRead(t, [COMMA] + more, s);
    EndCell(more, s.(cell := t, closedQuote := NeedsQuotes(t)));
  }

  lemma {:induction false} FieldsRead(cells: seq<Text>, rest: Text, s: Scan)
    requires cells != [] && !s.quoted && !s.closedQuote && s.cell == []
    requires !(|s.record + cells| == 1 && Blank(cells[0]))
    ensures Parse(FieldsText(cells) + [CR, LF] + rest, s)
         == Parse(rest, Scan(s.records + [s.record + cells], [], [], false, false))
    decreases cells
  {
    if |cells| == 1 {
      assert FieldsText(cells) + [CR, LF] + rest == FieldText(cells[0]) + ([CR, LF] + rest);
      LastFieldRead(cells[0], rest, s);
      assert cells == [cells[0]];
    } else {
      var more := FieldsText(cells[1..]) + [CR, LF] + rest;
      assert FieldsText(cells) + [CR, LF] + rest == FieldText(cells[0]) + ([COMMA] + more);
      InnerFieldRead(cells[0], more, s);
      assert s.record + [cells[0]] + cells[1..] == s.record + cells;
      FieldsRead(cells[1..], rest, s.(record := s.record + [cells[0]]));
    }
  }

  function RowsText(rows: seq<seq<Text>>): Text {
    if rows == [] then [] else RowText(rows[0]) + RowsText(rows[1..])
  }

  predicate Readable(cells: seq<Text>) { cells != [] && !(|cells| == 1 && Blank(cells[0])) }

  /** Parsing written rows gives back every cell of every row. */
  lemma {:induction false} RowsRead(rows: seq<seq<Text>>, records: seq<seq<Text>>)
    requires forall i :: 0 <= i < |rows| ==> Readable(rows[i])
    ensures Parse(RowsText(rows), Scan(records, [], [], false, false)) == Records(records + rows)
    decreases rows
  {
    if rows == [] {
      assert records + rows == records;
    } else {
      var s := Scan(records, [], [], false, false);
      assert Readable(rows[0]);
      assert RowsText(rows) == FieldsText(rows[0]) + [CR, LF] + RowsText(rows[1..]);
      assert s.record + rows[0] == rows[0];
      FieldsRead(rows[0], RowsText(rows[1..]), s);
      RowsRead(rows[1..], records + [rows[0]]);
      assert records + [rows[0]] + rows[1..] == records + rows;
    }
  }

  // ---------- what the export sends, read back ----------

  /** The received row is the row's CSV text when no field has a pair across a piece boundary. */
  lemma {:induction false} ReceivedFieldsExact(cells: seq<Text>)
    requires forall i :: 0 <= i < |cells| ==> WellFormed(cells[i]) && !BoundaryCutsPair(cells[i], WRITE_CHARS)
    ensures ReceivedFields(cells) == FieldsText(cells)
  {
    if cells != [] {
      var n := |cells| - 1;
      FieldArrivesIff(cells[n], WRITE_CHARS);
      if n > 0 {
        ReceivedFieldsExact(cells[..n]);
        FieldsSnoc(cells[..n], cells[n]);
        assert cells[..n] + [cells[n]] == cells;
      }
    }
  }

  lemma {:induction false} FieldsSnoc(cells: seq<Text>, last: Text)
    requires cells != []
    ensures FieldsText(cells + [last]) == FieldsText(cells) + [COMMA] + FieldText(last)
  {
    assert (cells + [last])[1..] == cells[1..] + [last];
    if |cells| == 1 {
      assert cells[1..] + [last] == [last];
      assert FieldText(last) + [] == FieldText(last) && FieldText(cells[0]) + [] == FieldText(cells[0]);
    } else {
      FieldsSnoc(cells[1..], last);
    }
  }
}
