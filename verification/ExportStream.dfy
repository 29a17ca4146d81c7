/** The streamed export: keyset pages of one snapshot, written as one CSV file. */
module ExportStream {
  import opened Utf16Text
  import opened CsvExport
  import opened CsvParse
  import opened CsvImport
  import opened Options

  const CHUNK_ROWS: nat := 250

  /** A row of the filtered listing with its sort key: the bytes of the inventory number, then the id. */
  datatype TableRow = TableRow(bytes: seq<int>, id: int, row: ExportRow)

  predicate LessBytes(a: seq<int>, b: seq<int>) {
    if b == [] then false
    else if a == [] then true
    else if a[0] != b[0] then a[0] < b[0]
    else LessBytes(a[1..], b[1..])
  }

  /** The first difference decides, and a beginning comes before the whole. */
  lemma {:induction false} LessBytesIff(a: seq<int>, b: seq<int>)
    ensures LessBytes(a, b) <==>
      exists k: nat :: k <= |a| && k < |b| && a[..k] == b[..k] && (k == |a| || a[k] < b[k])
  {
    if a != [] && b != [] && a[0] == b[0] {
      LessBytesIff(a[1..], b[1..]);
      if LessBytes(a, b) {
        var k: nat :| k <= |a| - 1 && k < |b| - 1 && a[1..][..k] == b[1..][..k] && (k == |a| - 1 || a[1..][k] < b[1..][k]);
        assert a[..k + 1] == [a[0]] + a[1..][..k] && b[..k + 1] == [b[0]] + b[1..][..k];
      }
      if k: nat :| k <= |a| && k < |b| && a[..k] == b[..k] && (k == |a| || a[k] < b[k]) {
        assert k > 0;
        assert a[1..][..k - 1] == a[..k][1..] && b[1..][..k - 1] == b[..k][1..];
      }
    } else if b != [] {
      if LessBytes(a, b) { assert a[..0] == b[..0]; }
      if k: nat :| k <= |a| && k < |b| && a[..k] == b[..k] && (k == |a| || a[k] < b[k]) {
        assert k > 0 ==> a[..k][0] == b[..k][0];
      }
    }
  }

  predicate Less(a: TableRow, b: TableRow) { LessBytes(a.bytes, b.bytes) || (a.bytes == b.bytes && a.id < b.id) }

  lemma {:induction false} BytesOrder(a: seq<int>, b: seq<int>, c: seq<int>)
    ensures !LessBytes(a, a)
    ensures LessBytes(a, b) && LessBytes(b, c) ==> LessBytes(a, c)
    ensures LessBytes(a, b) || LessBytes(b, a) || a == b
  {
    if a != [] { BytesOrder(a[1..], a[1..], a[1..]); }
    if a != [] && b != [] && a[0] == b[0] {
      BytesOrder(a[1..], b[1..], if c == [] then [] else c[1..]);
      assert a == [a[0]] + a[1..] && b == [b[0]] + b[1..];
    }
  }

  lemma {:induction false} LessOrder(a: TableRow, b: TableRow, c: TableRow)
    ensures !Less(a, a)
    ensures Less(a, b) && Less(b, c) ==> Less(a, c)
    ensures Less(a, b) || Less(b, a) || (a.bytes == b.bytes && a.id == b.id)
  {
    BytesOrder(a.bytes, b.bytes, c.bytes);
  }

  predicate Ascending(rows: seq<TableRow>) { forall i, j :: 0 <= i < j < |rows| ==> Less(rows[i], rows[j]) }

  /** Rows in order: by the first byte that differs, then by length, then by id. */
  lemma {:induction false} AscendingMeans(rows: seq<TableRow>, i: nat, j: nat)
    requires Ascending(rows) && i < j < |rows|
    ensures var a, b := rows[i], rows[j];
      if a.bytes == b.bytes then a.id < b.id
      else exists k: nat :: k <= |a.bytes| && k < |b.bytes| && a.bytes[..k] == b.bytes[..k] && (k == |a.bytes| || a.bytes[k] < b.bytes[k])
  {
    LessBytesIff(rows[i].bytes, rows[j].bytes);
    BytesOrder(rows[i].bytes, rows[i].bytes, rows[i].bytes);
  }

  /** The id is the primary key: different rows differ in it. */
  predicate Keyed(rows: set<TableRow>) { forall a, b :: a in rows && b in rows && a != b ==> a.id != b.id }

  predicate After(last: Option<TableRow>, r: TableRow) { last.None? || Less(last.value, r) }

  /** The answer of one page query: ascending, after the cursor, and nothing skipped. */
  ghost predicate IsPage(matching: set<TableRow>, last: Option<TableRow>, limit: nat, page: seq<TableRow>) {
    && |page| <= limit && Ascending(page)
    && (forall i :: 0 <= i < |page| ==> page[i] in matching && After(last, page[i]))
    && (forall r :: r in matching && After(last, r) && r !in page ==>
          |page| == limit && forall i :: 0 <= i < |page| ==> Less(page[i], r))
  }

  predicate IsLeast(rows: set<TableRow>, m: TableRow) { m in rows && forall x :: x in rows && x != m ==> Less(m, x) }

  lemma {:induction false} LeastExists(rows: set<TableRow>)
    requires rows != {} && Keyed(rows)
    ensures exists m :: IsLeast(rows, m)
    decreases rows
  {
    var x :| x in rows;
    var rest := rows - {x};
    if rest == {} {
      assert rows == {x};
      assert IsLeast(rows, x);
    } else {
      LeastExists(rest);
      var m :| IsLeast(rest, m);
      LessOrder(x, m, x);
      if Less(x, m) {
        forall y | y in rows && y != x ensures Less(x, y) { LessOrder(x, m, y); }
        assert IsLeast(rows, x);
      } else {
        assert IsLeast(rows, m);
      }
    }
  }

  /** The page query on the snapshot. */
  method ReadChunk(matching: set<TableRow>, last: Option<TableRow>) returns (page: seq<TableRow>)
    requires Keyed(matching)
    ensures IsPage(matching, last, CHUNK_ROWS, page)
  {
    var rest := set r | r in matching && After(last, r);
    page := [];
    while |page| < CHUNK_ROWS && rest != {}
      invariant |page| <= CHUNK_ROWS && Ascending(page) && rest <= matching
      invariant forall r :: r in matching && After(last, r) <==> r in rest || r in page
      invariant forall i, r :: 0 <= i < |page| && r in rest ==> Less(page[i], r)
      decreases rest
    {
      LeastExists(rest);
      var m :| IsLeast(rest, m);
      forall i | 0 <= i < |page| ensures Less(page[i], m) {}
      page, rest := page + [m], rest - {m};
    }
    forall i | 0 <= i < |page| ensures page[i] in matching && After(last, page[i]) { assert page[i] in page; }
  }

  function ReceivedRows(rows: seq<TableRow>): Text {
    if rows == [] then [] else ReceivedRows(rows[..|rows| - 1]) + ReceivedRow(Cells(rows[|rows| - 1].row))
  }

  ghost predicate Listing(matching: set<TableRow>, listing: seq<TableRow>) {
    Ascending(listing) && forall r :: r in listing <==> r in matching
  }

  /** What is written so far, and that the rest of the table comes after it. */
  ghost predicate Prefix(matching: set<TableRow>, written: seq<TableRow>) {
    && Ascending(written) && (forall i :: 0 <= i < |written| ==> written[i] in matching)
    && forall r, i :: r in matching && r !in written && 0 <= i < |written| ==> Less(written[i], r)
  }

  ghost function Cursor(written: seq<TableRow>): Option<TableRow> {
    if written == [] then None else Some(written[|written| - 1])
  }

  /** Appending the page after the last written row keeps the order and skips nothing. */
  lemma {:induction false} PageExtends(matching: set<TableRow>, written: seq<TableRow>, page: seq<TableRow>)
    requires Prefix(matching, written) && IsPage(matching, Cursor(written), CHUNK_ROWS, page)
    ensures Prefix(matching, written + page)
    ensures |page| < CHUNK_ROWS ==> Listing(matching, written + page)
    ensures forall i :: 0 <= i < |page| ==> page[i] !in written
  {
    var all := written + page;
    forall i, j | 0 <= i < |written| && 0 <= j < |page| ensures Less(written[i], page[j]) {
      if i < |written| - 1 { LessOrder(written[i], written[|written| - 1], page[j]); }
    }
    forall i | 0 <= i < |page| ensures page[i] !in written {
      LessOrder(page[i], page[i], page[i]);
    }
    forall r | r in matching && r !in written ensures After(Cursor(written), r) {}
    assert forall r :: r in all <==> r in written || r in page;
  }

  lemma {:induction false} Regrouped(a: Text, b: Text, c: Text)
    ensures a + b + c == a + (b + c)
  {}

  lemma {:induction false} ReceivedConcat(a: seq<TableRow>, b: seq<TableRow>)
    ensures ReceivedRows(a + b) == ReceivedRows(a) + ReceivedRows(b)
  {
    if b == [] {
      assert a + b == a && ReceivedRows(a) + [] == ReceivedRows(a);
    } else {
      var n := |b| - 1;
      assert (a + b)[..|a + b| - 1] == a + b[..n];
      ReceivedConcat(a, b[..n]);
      Regrouped(ReceivedRows(a), ReceivedRows(b[..n]), ReceivedRow(Cells(b[n].row)));
    }
  }

  method WriteChunk(response: ExportResponse, chunk: seq<TableRow>)
    modifies response
    ensures response.received == old(response.received) + ReceivedRows(chunk)
  {
    assert old(response.received) + [] == old(response.received);
    for k := 0 to |chunk|
      invariant response.received == old(response.received) + ReceivedRows(chunk[..k])
    {
      response.WriteCsvRow(Cells(chunk[k].row));
      assert chunk[..k + 1][..k] == chunk[..k];
    }
    assert chunk[..|chunk|] == chunk;
  }

  /** Writes the page and moves the cursor to its last row. */
  method WritePage(response: ExportResponse, matching: set<TableRow>, chunk: seq<TableRow>, ghost start: Text, ghost listing: seq<TableRow>)
      returns (last: Option<TableRow>)
    requires chunk != [] && Prefix(matching, listing) && IsPage(matching, Cursor(listing), CHUNK_ROWS, chunk)
    requires response.received == start + ReceivedRows(listing)
    modifies response
    ensures response.received == start + ReceivedRows(listing + chunk)
    ensures Prefix(matching, listing + chunk) && last == Cursor(listing + chunk)
    ensures |chunk| < CHUNK_ROWS ==> Listing(matching, listing + chunk)
    ensures Remaining(matching, listing + chunk) < Remaining(matching, listing)
  {
    PageExtends(matching, listing, chunk);
    RemainingShrinks(matching, listing, chunk);
    ReceivedConcat(listing, chunk);
    WriteChunk(response, chunk);
    Regrouped(start, ReceivedRows(listing), ReceivedRows(chunk));
    last := Some(chunk[|chunk| - 1]);
  }

  method StreamRows(response: ExportResponse, matching: set<TableRow>, first: seq<TableRow>) returns (ghost listing: seq<TableRow>)
    requires Keyed(matching) && IsPage(matching, None, CHUNK_ROWS, first)
    modifies response
    ensures Listing(matching, listing)
    ensures response.received == old(response.received) + ReceivedRows(listing)
  {
    var chunk := first;
    ghost var start := response.received;
    listing := [];
    assert start + [] == start;
    while chunk != []
      invariant Prefix(matching, listing)
      invariant IsPage(matching, Cursor(listing), CHUNK_ROWS, chunk)
      invariant response.received == start + ReceivedRows(listing)
      decreases Remaining(matching, listing)
    {
      var last := WritePage(response, matching, chunk, start, listing);
      listing := listing + chunk;
      if |chunk| < CHUNK_ROWS { return; }
      chunk := ReadChunk(matching, last);
    }
    PageExtends(matching, listing, []);
    assert listing + [] == listing;
  }

  /** `streamStreetLightsExport` for CSV, to the end of a connection that stays open. */
  method StreamCsvExport(response: ExportResponse, matching: set<TableRow>) returns (ghost listing: seq<TableRow>)
    requires Keyed(matching)
    modifies response
    ensures Listing(matching, listing)
    ensures response.received == old(response.received) + ReceivedRow(Header()) + ReceivedRows(listing)
  {
    var chunk := ReadChunk(matching, None);
    response.WriteCsvRow(Header());
    listing := StreamRows(response, matching, chunk);
  }

  ghost function Remaining(matching: set<TableRow>, written: seq<TableRow>): set<TableRow> {
    set r | r in matching && r !in written
  }

  lemma {:induction false} RemainingShrinks(matching: set<TableRow>, written: seq<TableRow>, page: seq<TableRow>)
    requires page != [] && page[0] in matching && page[0] !in written
    ensures Remaining(matching, written + page) < Remaining(matching, written)
  {
    assert page[0] in Remaining(matching, written);
    assert page[0] !in Remaining(matching, written + page);
  }

  // ---------- round trip through the stream ----------

  predicate Sendable(r: ExportRow) {
    forall i :: 0 <= i < 11 ==> WellFormed(Cells(r)[i]) && !BoundaryCutsPair(Cells(r)[i], WRITE_CHARS)
  }

  function Rows(listing: seq<TableRow>): (r: seq<ExportRow>)
    ensures |r| == |listing|
    ensures forall i :: 0 <= i < |r| ==> r[i] == listing[i].row
  {
    seq(|listing|, i requires 0 <= i < |listing| => listing[i].row)
  }

  lemma {:induction false} RowsTextConcat(a: seq<seq<Text>>, b: seq<seq<Text>>)
    ensures RowsText(a + b) == RowsText(a) + RowsText(b)
  {
    if a == [] {
      assert [] + b == b && [] + RowsText(b) == RowsText(b);
    } else {
      assert (a + b)[1..] == a[1..] + b;
      RowsTextConcat(a[1..], b);
    }
  }

  lemma {:induction false} RowArrives(r: ExportRow)
    requires Sendable(r)
    ensures ReceivedRow(Cells(r)) == RowText(Cells(r))
  {
    ReceivedFieldsExact(Cells(r));
  }

  lemma {:induction false} CellsSnoc(listing: seq<TableRow>)
    requires listing != []
    ensures var n := |listing| - 1; AllCells(Rows(listing)) == AllCells(Rows(listing[..n])) + [Cells(listing[n].row)]
  {}

  lemma {:induction false} OneMoreRow(rows: seq<seq<Text>>, cells: seq<Text>)
    ensures RowsText(rows + [cells]) == RowsText(rows) + RowText(cells)
  {
    RowsTextConcat(rows, [cells]);
    assert RowsText([cells]) == RowText(cells) + [];
  }

  lemma {:induction false} ReceivedIsText(listing: seq<TableRow>)
    requires forall i :: 0 <= i < |listing| ==> Sendable(listing[i].row)
    ensures ReceivedRows(listing) == RowsText(AllCells(Rows(listing)))
  {
    if listing != [] {
      var n := |listing| - 1;
      ReceivedIsText(listing[..n]);
      RowArrives(listing[n].row);
      CellsSnoc(listing);
      OneMoreRow(AllCells(Rows(listing[..n])), Cells(listing[n].row));
    }
  }

  /** What the client of a complete export received, fed to the import, gives the whole filtered listing
      back in key order, provided no field has a surrogate pair across a piece boundary. */
  lemma {:induction false} ExportThenImport(f: Foreign, matching: set<TableRow>, listing: seq<TableRow>, received: Text)
    requires Listing(matching, listing)
    requires forall r :: r in matching ==> Stored(f, r.row) && Sendable(r.row)
    requires received == ReceivedRow(Header()) + ReceivedRows(listing)
    ensures received == FileText(Rows(listing))
    ensures forall i :: 0 <= i < |listing| ==> Stored(f, Rows(listing)[i])
    ensures ImportCsv(f, received) ==
      if Utf8Length(received) > MAX_FILE_BYTES then Err(FileTooLarge)
      else if matching == {} then Err(NoData)
      else if |listing| > MAX_ROWS then Err(TooManyRows)
      else Ok(Payloads(f, Rows(listing)))
  {
    forall i | 0 <= i < |listing| ensures Stored(f, listing[i].row) && Sendable(listing[i].row) {
      assert listing[i] in listing;
    }
    ReceivedIsText(listing);
    HeaderSendable();
    ReceivedFieldsExact(Header());
    var cells := AllCells(Rows(listing));
    assert ([Header()] + cells)[1..] == cells;
    assert RowsText([Header()] + cells) == RowText(Header()) + RowsText(cells);
    ExportedFileImports(f, Rows(listing));
    assert listing != [] ==> listing[0] in listing;
    if matching != {} {
      var r :| r in matching;
      assert r in listing;
    }
  }

  lemma {:induction false} HeaderSendable()
    ensures forall i :: 0 <= i < 11 ==> WellFormed(Header()[i]) && !BoundaryCutsPair(Header()[i], WRITE_CHARS)
  {
    NamesPlain();
    forall i | 0 <= i < 11 ensures WellFormed(Header()[i]) && !BoundaryCutsPair(Header()[i], WRITE_CHARS) {
      assert PlainName(NAMES[i]);
      var h := Header()[i];
      assert forall k :: 0 <= k < |h| ==> h[k] < 128;
    }
  }
}
