/** Which rows of an imported CSV file are valid, what they say and how the others are refused, told from the columns of the
    file. */
module CsvColumns {
  import opened Utf16Text
  import opened CsvParse
  import opened CsvImport
  import opened Options
  import G = CsvGrammar

  // ---------- columns ----------

  /** The cell under the first of the names that the header has. */
  ghost predicate CellUnder(headers: seq<Text>, values: seq<Text>, names: seq<Text>, cell: Option<Text>)
    requires |values| == |headers|
  {
    match cell
    case None => forall k :: 0 <= k < |names| ==> names[k] !in headers
    case Some(v) => exists k, i :: IsCell(headers, values, names, k, i, v)
  }

  predicate IsCell(headers: seq<Text>, values: seq<Text>, names: seq<Text>, k: int, i: int, v: Text)
    requires |values| == |headers|
  {
    && 0 <= k < |names| && 0 <= i < |headers| && headers[i] == names[k] && values[i] == v
    && forall m :: 0 <= m < k ==> names[m] !in headers
  }

  lemma {:induction false} ObjectKeys(headers: seq<Text>, values: seq<Text>, key: Text)
    requires |values| == |headers|
    ensures key in ToObject(headers, values) <==> key in headers
  {
    if headers != [] {
      var n := |headers| - 1;
      ObjectKeys(headers[..n], values[..n], key);
      assert headers == headers[..n] + [headers[n]];
    }
  }

  lemma {:induction false} FirstOwnIs(headers: seq<Text>, values: seq<Text>, names: seq<Text>)
    requires |values| == |headers| && Unique(headers)
    ensures CellUnder(headers, values, names, FirstOwn(ToObject(headers, values), names))
  {
    if names == [] { return; }
    ObjectKeys(headers, values, names[0]);
    if names[0] in headers {
      var i :| 0 <= i < |headers| && headers[i] == names[0];
      ToObjectAt(headers, values, i);
      assert IsCell(headers, values, names, 0, i, values[i]);
    } else {
      FirstOwnIs(headers, values, names[1..]);
      var cell := FirstOwn(ToObject(headers, values), names[1..]);
      if cell.Some? {
        var k, i :| IsCell(headers, values, names[1..], k, i, cell.value);
        forall m | 0 <= m < k + 1 ensures names[m] !in headers { if m > 0 { assert names[m] == names[1..][m - 1]; } }
        assert IsCell(headers, values, names, k + 1, i, cell.value);
      } else {
        forall k | 0 <= k < |names| ensures names[k] !in headers { if k > 0 { assert names[k] == names[1..][k - 1]; } }
      }
    }
  }

  lemma {:induction false} OneCell(headers: seq<Text>, values: seq<Text>, names: seq<Text>, a: Option<Text>, b: Option<Text>)
    requires |values| == |headers| && Unique(headers)
    requires CellUnder(headers, values, names, a) && CellUnder(headers, values, names, b)
    ensures a == b
  {
    if a.Some? && b.Some? {
      var k, i :| IsCell(headers, values, names, k, i, a.value);
      var m, j :| IsCell(headers, values, names, m, j, b.value);
      assert headers[i] in headers && headers[j] in headers;
    }
  }

  datatype Columns = Columns(number: Option<Text>, longitude: Option<Text>, latitude: Option<Text>, status: Option<Text>,
    externalId: Option<Text>, address: Option<Text>, district: Option<Text>, lampType: Option<Text>)

  ghost predicate Holds(headers: seq<Text>, values: seq<Text>, c: Columns)
    requires |values| == |headers|
  {
    && CellUnder(headers, values, [Ascii("inventory_number"), Ascii("inventoryNumber")], c.number)
    && CellUnder(headers, values, [Ascii("longitude"), Ascii("lon"), Ascii("lng")], c.longitude)
    && CellUnder(headers, values, [Ascii("latitude"), Ascii("lat")], c.latitude)
    && CellUnder(headers, values, [Ascii("status")], c.status)
    && CellUnder(headers, values, [Ascii("external_id"), Ascii("externalId")], c.externalId)
    && CellUnder(headers, values, [Ascii("address")], c.address)
    && CellUnder(headers, values, [Ascii("district")], c.district)
    && CellUnder(headers, values, [Ascii("lamp_type"), Ascii("lampType")], c.lampType)
  }

  // ---------- one row ----------

  function CanonicalNumber(f: Foreign, c: Columns): Text {
    f.nfc(if c.number.Some? then Trim(c.number.value) else [])
  }

  predicate Degrees(f: Foreign, cell: Option<Text>, bound: real) {
    && cell.Some? && !Blank(cell.value) && f.number(cell.value).Some?
    && -bound <= f.number(cell.value).value <= bound
  }

  predicate KnownStatus(cell: Option<Text>) {
    cell.Some? ==> cell.value in [Ascii("active"), Ascii("inactive"), Ascii("maintenance")]
  }

  /** No column, an empty cell for null, or a text. */
  predicate TextIs(cell: Option<Text>, field: Option<Option<Text>>) {
    && (cell.None? <==> field.None?)
    && (cell.Some? ==> field.value == if cell.value == [] then None else cell)
  }

  predicate PayloadSays(f: Foreign, c: Columns, p: Payload) {
    && p.number == CanonicalNumber(f, c)
    && Degrees(f, c.longitude, 180.0) && p.longitude == f.number(c.longitude.value).value
    && Degrees(f, c.latitude, 90.0) && p.latitude == f.number(c.latitude.value).value
    && TextIs(c.externalId, p.externalId) && TextIs(c.address, p.address)
    && TextIs(c.district, p.district) && TextIs(c.lampType, p.lampType)
    && p.status == c.status
  }

  predicate ValidRow(f: Foreign, c: Columns) {
    CanonicalNumber(f, c) != [] && Degrees(f, c.longitude, 180.0) && Degrees(f, c.latitude, 90.0) && KnownStatus(c.status)
  }

  /** A valid row carries what its columns hold; any other is refused for the first thing that is wrong with it. */
  predicate RowSays(f: Foreign, c: Columns, rowIndex: nat, row: ImportRow) {
    if ValidRow(f, c) then row.Good? && row.rowIndex == rowIndex && PayloadSays(f, c, row.payload)
    else if CanonicalNumber(f, c) == [] then row == Bad(rowIndex, [], "missing_inventory_number")
    else if !(Degrees(f, c.longitude, 180.0) && Degrees(f, c.latitude, 90.0)) then
      row == Bad(rowIndex, CanonicalNumber(f, c), "invalid_coordinates")
    else row == Bad(rowIndex, CanonicalNumber(f, c), "invalid_status")
  }

  ghost predicate RowFrom(f: Foreign, headers: seq<Text>, values: seq<Text>, rowIndex: nat, row: ImportRow) {
    if |values| != |headers| then row == Bad(rowIndex, [], "malformed_record")
    else exists c :: Holds(headers, values, c) && RowSays(f, c, rowIndex, row)
  }

  lemma {:induction false} StartBlank(t: Text)
    ensures TrimStart(t) == [] <==> Blank(t)
    ensures TrimStart(t) != [] ==> !IsSpace(TrimStart(t)[0])
  {
    if t != [] && IsSpace(t[0]) {
      StartBlank(t[1..]);
      if Blank(t[1..]) { forall i | 0 <= i < |t| ensures IsSpace(t[i]) { if i > 0 { assert t[i] == t[1..][i - 1]; } } }
      if Blank(t) { forall i | 0 <= i < |t[1..]| ensures IsSpace(t[1..][i]) { assert t[1..][i] == t[i + 1]; } }
    }
  }

  lemma {:induction false} EndKeeps(t: Text)
    requires t != [] && !IsSpace(t[0])
    ensures TrimEnd(t) != []
  {
    if IsSpace(t[|t| - 1]) { EndKeeps(t[..|t| - 1]); }
  }

  lemma {:induction false} TrimBlank(t: Text)
    ensures Trim(t) == [] <==> Blank(t)
  {
    StartBlank(t);
    if TrimStart(t) != [] { EndKeeps(TrimStart(t)); }
  }

  lemma {:induction false} ColumnsOf(headers: seq<Text>, values: seq<Text>) returns (c: Columns)
    requires |values| == |headers| && Unique(headers)
    ensures Holds(headers, values, c)
    ensures var obj := ToObject(headers, values);
      && c.number == FirstOwn(obj, [Ascii("inventory_number"), Ascii("inventoryNumber")])
      && c.longitude == FirstOwn(obj, [Ascii("longitude"), Ascii("lon"), Ascii("lng")])
      && c.latitude == FirstOwn(obj, [Ascii("latitude"), Ascii("lat")])
      && c.status == FirstOwn(obj, [Ascii("status")])
      && c.externalId == FirstOwn(obj, [Ascii("external_id"), Ascii("externalId")])
      && c.address == FirstOwn(obj, [Ascii("address")])
      && c.district == FirstOwn(obj, [Ascii("district")])
      && c.lampType == FirstOwn(obj, [Ascii("lamp_type"), Ascii("lampType")])
  {
    var obj := ToObject(headers, values);
    c := Columns(
      FirstOwn(obj, [Ascii("inventory_number"), Ascii("inventoryNumber")]),
      FirstOwn(obj, [Ascii("longitude"), Ascii("lon"), Ascii("lng")]), FirstOwn(obj, [Ascii("latitude"), Ascii("lat")]),
      FirstOwn(obj, [Ascii("status")]), FirstOwn(obj, [Ascii("external_id"), Ascii("externalId")]),
      FirstOwn(obj, [Ascii("address")]), FirstOwn(obj, [Ascii("district")]), FirstOwn(obj, [Ascii("lamp_type"), Ascii("lampType")]));
    FirstOwnIs(headers, values, [Ascii("inventory_number"), Ascii("inventoryNumber")]);
    FirstOwnIs(headers, values, [Ascii("longitude"), Ascii("lon"), Ascii("lng")]);
    FirstOwnIs(headers, values, [Ascii("latitude"), Ascii("lat")]);
    FirstOwnIs(headers, values, [Ascii("status")]);
    FirstOwnIs(headers, values, [Ascii("external_id"), Ascii("externalId")]);
    FirstOwnIs(headers, values, [Ascii("address")]);
    FirstOwnIs(headers, values, [Ascii("district")]);
    FirstOwnIs(headers, values, [Ascii("lamp_type"), Ascii("lampType")]);
  }

  lemma {:induction false} RecordSays(f: Foreign, obj: map<Text, Text>, c: Columns, rowIndex: nat)
    requires c.number == FirstOwn(obj, [Ascii("inventory_number"), Ascii("inventoryNumber")])
    requires c.longitude == FirstOwn(obj, [Ascii("longitude"), Ascii("lon"), Ascii("lng")])
    requires c.latitude == FirstOwn(obj, [Ascii("latitude"), Ascii("lat")])
    requires c.status == FirstOwn(obj, [Ascii("status")])
    requires c.externalId == FirstOwn(obj, [Ascii("external_id"), Ascii("externalId")])
    requires c.address == FirstOwn(obj, [Ascii("address")])
    requires c.district == FirstOwn(obj, [Ascii("district")])
    requires c.lampType == FirstOwn(obj, [Ascii("lamp_type"), Ascii("lampType")])
    ensures RowSays(f, c, rowIndex, ParseRecord(f, obj, rowIndex))
  {
    if c.longitude.Some? { TrimBlank(c.longitude.value); }
    if c.latitude.Some? { TrimBlank(c.latitude.value); }
  }

  /** Every row, valid or not, is what its cells under the header's names make it. */
  lemma {:induction false} RowIsRead(f: Foreign, headers: seq<Text>, values: seq<Text>, rowIndex: nat)
    requires Unique(headers)
    ensures RowFrom(f, headers, values, rowIndex, ParseRow(f, headers, values, rowIndex))
  {
    if |values| == |headers| {
      var c := ColumnsOf(headers, values);
      RecordSays(f, ToObject(headers, values), c, rowIndex);
    }
  }

  // ---------- the file ----------

  predicate SameHeader(record: seq<Text>, i: nat, j: nat)
    requires i < |record| && j < |record|
  {
    i != j && Trim(record[i]) == Trim(record[j])
  }

  predicate NamedTwice(record: seq<Text>) {
    exists i, j :: 0 <= i < |record| && 0 <= j < |record| && SameHeader(record, i, j)
  }

  predicate Has(record: seq<Text>, names: seq<Text>) {
    exists i :: 0 <= i < |record| && Trim(record[i]) in names
  }

  predicate NamesRequired(record: seq<Text>) {
    && Has(record, [Ascii("inventory_number"), Ascii("inventoryNumber")])
    && Has(record, [Ascii("latitude"), Ascii("lat")])
    && Has(record, [Ascii("longitude"), Ascii("lon"), Ascii("lng")])
  }

  /** One row for each record after the header, numbered from one. */
  ghost predicate RowsFrom(f: Foreign, headers: seq<Text>, records: seq<seq<Text>>, rows: seq<ImportRow>) {
    |rows| == |records| && forall i :: 0 <= i < |rows| ==> RowFrom(f, headers, records[i], i + 1, rows[i])
  }

  /** The first thing that is wrong with the records decides; otherwise every record is read. */
  ghost predicate RecordsSay(f: Foreign, records: seq<seq<Text>>, result: ImportResult) {
    if |records| < 2 then result == Err(NoData)
    else if |records| > 50_001 then result == Err(TooManyRows)
    else if NamedTwice(records[0]) then result == Err(DuplicateHeader)
    else if !NamesRequired(records[0]) then result == Err(MissingColumns)
    else result.Ok? && RowsFrom(f, Trimmed(records[0]), records[1..], result.rows)
  }

  lemma {:induction false} HasIff(record: seq<Text>, names: seq<Text>)
    ensures HasHeader(Trimmed(record), names) <==> Has(record, names)
  {
    if Has(record, names) {
      var i :| 0 <= i < |record| && Trim(record[i]) in names;
      assert Trimmed(record)[i] in names;
    }
  }

  lemma {:induction false} UniqueIff(record: seq<Text>)
    ensures Unique(Trimmed(record)) <==> !NamedTwice(record)
  {
    var headers := Trimmed(record);
    if !NamedTwice(record) {
      forall i, j | 0 <= i < j < |headers| ensures headers[i] != headers[j] { assert !SameHeader(record, i, j); }
    }
    if Unique(headers) {
      forall i, j | 0 <= i < |record| && 0 <= j < |record| ensures !SameHeader(record, i, j) {
        assert i < j ==> headers[i] != headers[j];
        assert j < i ==> headers[j] != headers[i];
      }
    }
  }

  lemma {:induction false} HeaderSays(record: seq<Text>)
    ensures HeaderError(Trimmed(record)) ==
      if NamedTwice(record) then Some(DuplicateHeader) else if !NamesRequired(record) then Some(MissingColumns) else None
  {
    UniqueIff(record);
    HasIff(record, [Ascii("inventory_number"), Ascii("inventoryNumber")]);
    HasIff(record, [Ascii("latitude"), Ascii("lat")]);
    HasIff(record, [Ascii("longitude"), Ascii("lon"), Ascii("lng")]);
  }

  lemma {:induction false} RowOf(f: Foreign, headers: seq<Text>, values: seq<Text>, rowIndex: nat, row: ImportRow)
    requires Unique(headers) && row == ParseRow(f, headers, values, rowIndex)
    ensures RowFrom(f, headers, values, rowIndex, row)
  {
    RowIsRead(f, headers, values, rowIndex);
  }

  lemma {:induction false} RowsAreRead(f: Foreign, headers: seq<Text>, records: seq<seq<Text>>)
    requires Unique(headers)
    ensures RowsFrom(f, headers, records, ParseRows(f, headers, records))
  {
    var rows := ParseRows(f, headers, records);
    forall i | 0 <= i < |rows| ensures RowFrom(f, headers, records[i], i + 1, rows[i]) {
      RowOf(f, headers, records[i], i + 1, rows[i]);
    }
  }

  lemma {:induction false} RecordsAreRead(f: Foreign, records: seq<seq<Text>>)
    ensures RecordsSay(f, records, ImportRecords(f, records))
  {
    if 2 <= |records| <= 50_001 {
      HeaderSays(records[0]);
      UniqueIff(records[0]);
      if !NamedTwice(records[0]) { RowsAreRead(f, Trimmed(records[0]), records[1..]); }
    }
  }

  function WithoutMark(text: Text): Text { if text != [] && text[0] == 0xFEFF then text[1..] else text }

  /** Too long, blank, not CSV; otherwise the records the grammar gives the text decide. */
  ghost predicate FileSays(f: Foreign, text: Text, result: ImportResult) {
    if Utf8Length(text) > 16_777_216 then result == Err(FileTooLarge)
    else if Blank(text) then result == Err(EmptyFile)
    else
      exists file :: G.Spells(file, WithoutMark(text)) &&
        if G.FaultOf(file).Some? then result == Err(BadCsv) else RecordsSay(f, G.Rows(file), result)
  }

  /** Every file, whatever it holds, is read or refused for the first reason that applies to it. */
  lemma {:induction false} FileIsRead(f: Foreign, text: Text)
    ensures FileSays(f, text, ImportCsv(f, text))
  {
    var file := G.OneVerdict(WithoutMark(text));
    RecordsAreRead(f, G.Rows(file));
  }
}
