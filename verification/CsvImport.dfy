/** From CSV text to import rows, and back from what the export wrote. */
module CsvImport {
  import opened Utf16Text
  import opened CsvExport
  import opened CsvParse
  import opened Options

  const MAX_FILE_BYTES: nat := 16 * 1024 * 1024
  const MAX_ROWS: nat := 50_000

  /** Unicode normalisation to NFC and the number syntax of the host language. */
  datatype Foreign = Foreign(nfc: Text -> Text, number: Text -> Option<real>)

  /** Fields of a valid row. The outer option of a text field says whether its column is there, the inner
      one whether it holds a text or null. */
  datatype Payload = Payload(
    number: Text, longitude: real, latitude: real,
    externalId: Option<Option<Text>>, address: Option<Option<Text>>, district: Option<Option<Text>>,
    lampType: Option<Option<Text>>, status: Option<Text>)

  datatype ImportRow = Good(rowIndex: nat, payload: Payload) | Bad(rowIndex: nat, number: Text, code: string)

  datatype ImportError = FileTooLarge | EmptyFile | NoData | TooManyRows | DuplicateHeader | MissingColumns | BadCsv

  datatype ImportResult = Ok(rows: seq<ImportRow>) | Err(error: ImportError)

  function FirstOwn(obj: map<Text, Text>, keys: seq<Text>): Option<Text> {
    if keys == [] then None else if keys[0] in obj then Some(obj[keys[0]]) else FirstOwn(obj, keys[1..])
  }

  function OptionalText(value: Text): Option<Text> { if value == [] then None else Some(value) }

  function OptionalField(obj: map<Text, Text>, keys: seq<Text>): Option<Option<Text>> {
    var field := FirstOwn(obj, keys);
    if field.None? then None else Some(OptionalText(field.value))
  }

  function ParseNumber(f: Foreign, value: Option<Text>): Option<real> {
    if value.None? || Trim(value.value) == [] then None else f.number(value.value)
  }

  predicate ValidStatus(t: Text) { t == Ascii("active") || t == Ascii("inactive") || t == Ascii("maintenance") }

  /** `parseRecord` on a CSV record, whose values are all strings. */
  function ParseRecord(f: Foreign, obj: map<Text, Text>, rowIndex: nat): ImportRow {
    var raw := FirstOwn(obj, [Ascii("inventory_number"), Ascii("inventoryNumber")]);
    var number := if raw.None? then f.nfc([]) else f.nfc(Trim(raw.value));
    if number == [] then Bad(rowIndex, [], "missing_inventory_number") else
    var longitude := ParseNumber(f, FirstOwn(obj, [Ascii("longitude"), Ascii("lon"), Ascii("lng")]));
    var latitude := ParseNumber(f, FirstOwn(obj, [Ascii("latitude"), Ascii("lat")]));
    if longitude.None? || latitude.None? then Bad(rowIndex, number, "invalid_coordinates")
    else if !(-90.0 <= latitude.value <= 90.0) || !(-180.0 <= longitude.value <= 180.0) then
      Bad(rowIndex, number, "invalid_coordinates")
    else
      var status := FirstOwn(obj, [Ascii("status")]);
      if status.Some? && !ValidStatus(status.value) then Bad(rowIndex, number, "invalid_status") else
      Good(rowIndex, Payload(number, longitude.value, latitude.value,
        OptionalField(obj, [Ascii("external_id"), Ascii("externalId")]),
        OptionalField(obj, [Ascii("address")]), OptionalField(obj, [Ascii("district")]),
        OptionalField(obj, [Ascii("lamp_type"), Ascii("lampType")]), status))
  }

  /** `obj[header] = value` for each column in turn. */
  function ToObject(headers: seq<Text>, values: seq<Text>): map<Text, Text>
    requires |headers| == |values|
  {
    if headers == [] then map[] else
    var n := |headers| - 1;
    ToObject(headers[..n], values[..n])[headers[n] := values[n]]
  }

  function ParseRow(f: Foreign, headers: seq<Text>, values: seq<Text>, rowIndex: nat): ImportRow {
    if |values| != |headers| then Bad(rowIndex, [], "malformed_record")
    else ParseRecord(f, ToObject(headers, values), rowIndex)
  }

  predicate Unique(headers: seq<Text>) { forall i, j :: 0 <= i < j < |headers| ==> headers[i] != headers[j] }

  predicate HasHeader(headers: seq<Text>, aliases: seq<Text>) { exists i :: 0 <= i < |headers| && headers[i] in aliases }

  function StripBom(t: Text): Text { if t != [] && t[0] == 0xFEFF then t[1..] else t }

  function Trimmed(record: seq<Text>): (r: seq<Text>)
    ensures |r| == |record|
    ensures forall i :: 0 <= i < |record| ==> r[i] == Trim(record[i])
  {
    seq(|record|, i requires 0 <= i < |record| => Trim(record[i]))
  }

  function HeaderError(headers: seq<Text>): Option<ImportError> {
    if !Unique(headers) then Some(DuplicateHeader)
    else if !HasHeader(headers, [Ascii("inventory_number"), Ascii("inventoryNumber")])
         || !HasHeader(headers, [Ascii("latitude"), Ascii("lat")])
         || !HasHeader(headers, [Ascii("longitude"), Ascii("lon"), Ascii("lng")]) then Some(MissingColumns)
    else None
  }

  function ParseRows(f: Foreign, headers: seq<Text>, rows: seq<seq<Text>>): (r: seq<ImportRow>)
    ensures |r| == |rows|
    ensures forall i :: 0 <= i < |rows| ==> r[i] == ParseRow(f, headers, rows[i], i + 1)
  {
    seq(|rows|, i requires 0 <= i < |rows| => ParseRow(f, headers, rows[i], i + 1))
  }

  /** `parseCsv` on the parsed records. */
  function ImportRecords(f: Foreign, records: seq<seq<Text>>): ImportResult {
    if |records| < 2 then Err(NoData)
    else if |records| - 1 > MAX_ROWS then Err(TooManyRows)
    else
      var headers := Trimmed(records[0]);
      var error := HeaderError(headers);
      if error.Some? then Err(error.value) else Ok(ParseRows(f, headers, records[1..]))
  }

  /** `parseImportSource` for a CSV file, given as its decoded text. */
  function ImportCsv(f: Foreign, text: Text): ImportResult {
    if Utf8Length(text) > MAX_FILE_BYTES then Err(FileTooLarge)
    else if Blank(text) then Err(EmptyFile)
    else
      var parsed := Parse(StripBom(text), START);
      if !parsed.Records? then Err(BadCsv) else ImportRecords(f, parsed.records)
  }

  // ---------- the exported columns ----------

  datatype ExportRow = ExportRow(
    id: Text, number: Text, externalId: Option<Text>, longitude: Text, latitude: Text,
    address: Option<Text>, district: Option<Text>, lampType: Option<Text>, status: Text,
    createdAt: Text, updatedAt: Text)

  const NAMES: seq<string> := ["id", "inventory_number", "external_id", "longitude", "latitude", "address",
                               "district", "lamp_type", "status", "created_at", "updated_at"]

  function Header(): (h: seq<Text>)
    ensures |h| == 11
  {
    seq(11, i requires 0 <= i < 11 => Ascii(NAMES[i]))
  }

  function CellOf(t: Option<Text>): Text { if t.None? then [] else t.value }

  function Cells(r: ExportRow): (c: seq<Text>)
    ensures |c| == 11
  {
    [r.id, r.number, CellOf(r.externalId), r.longitude, r.latitude, CellOf(r.address), CellOf(r.district),
     CellOf(r.lampType), r.status, r.createdAt, r.updatedAt]
  }

  function AllCells(rows: seq<ExportRow>): (r: seq<seq<Text>>)
    ensures |r| == |rows|
    ensures forall i :: 0 <= i < |rows| ==> r[i] == Cells(rows[i])
  {
    seq(|rows|, i requires 0 <= i < |rows| => Cells(rows[i]))
  }

  function FileText(rows: seq<ExportRow>): Text { RowsText([Header()] + AllCells(rows)) }

  /** A row as the database holds it: canonical number, coordinates in range and printed by the host
      language so that it reads them back, a known status. */
  predicate Stored(f: Foreign, r: ExportRow) {
    && r.number != [] && f.nfc(Trim(r.number)) == r.number
    && Trim(r.longitude) != [] && f.number(r.longitude).Some? && -180.0 <= f.number(r.longitude).value <= 180.0
    && Trim(r.latitude) != [] && f.number(r.latitude).Some? && -90.0 <= f.number(r.latitude).value <= 90.0
    && ValidStatus(r.status)
  }

  /** An empty optional text is read as null, like null itself. */
  function NonEmpty(t: Option<Text>): Option<Text> { if t == Some([]) then None else t }

  function PayloadOf(f: Foreign, r: ExportRow): Payload
    requires Stored(f, r)
  {
    Payload(r.number, f.number(r.longitude).value, f.number(r.latitude).value, Some(NonEmpty(r.externalId)),
            Some(NonEmpty(r.address)), Some(NonEmpty(r.district)), Some(NonEmpty(r.lampType)), Some(r.status))
  }

  // ---------- the round trip ----------

  lemma {:induction false} AsciiInjective(a: string, b: string)
    requires a != b && (forall i :: 0 <= i < |a| ==> a[i] < 128 as char) && (forall i :: 0 <= i < |b| ==> b[i] < 128 as char)
    ensures Ascii(a) != Ascii(b)
  {
    if |a| == |b| {
      var i :| 0 <= i < |a| && a[i] != b[i];
      assert a[i] as int != b[i] as int;
      assert Ascii(a)[i] != Ascii(b)[i];
    }
  }

  predicate PlainName(s: string) { |s| > 0 && forall i :: 0 <= i < |s| ==> '!' <= s[i] <= '~' }

  lemma {:induction false} NamesDiffer()
    ensures forall i, j :: 0 <= i < j < 11 ==> NAMES[i] != NAMES[j]
  {}

  lemma {:induction false} FirstNamesPlain()
    ensures forall i :: 0 <= i < 6 ==> PlainName(NAMES[i])
  {
    assert PlainName(NAMES[0]) && PlainName(NAMES[1]) && PlainName(NAMES[2]);
    assert PlainName(NAMES[3]) && PlainName(NAMES[4]) && PlainName(NAMES[5]);
  }

  lemma {:induction false} LastNamesPlain()
    ensures forall i :: 6 <= i < 11 ==> PlainName(NAMES[i])
  {
    assert PlainName(NAMES[6]) && PlainName(NAMES[7]) && PlainName(NAMES[8]) && PlainName(NAMES[9]) && PlainName(NAMES[10]);
  }

  lemma {:induction false} NamesPlain()
    ensures forall i :: 0 <= i < 11 ==> PlainName(NAMES[i])
    ensures forall i, j :: 0 <= i < j < 11 ==> NAMES[i] != NAMES[j]
  {
    NamesDiffer();
    FirstNamesPlain();
    LastNamesPlain();
  }

  lemma {:induction false} TrimNothing(t: Text)
    requires t != [] && !IsSpace(t[0]) && !IsSpace(t[|t| - 1])
    ensures Trim(t) == t
  {}

  lemma {:induction false} HeaderFacts()
    ensures Unique(Header())
    ensures forall i :: 0 <= i < 11 ==> Trim(Header()[i]) == Header()[i]
  {
    NamesPlain();
    var h := Header();
    forall i, j | 0 <= i < j < 11 ensures h[i] != h[j] {
      assert PlainName(NAMES[i]) && PlainName(NAMES[j]);
      AsciiInjective(NAMES[i], NAMES[j]);
    }
    forall i | 0 <= i < 11 ensures Trim(h[i]) == h[i] {
      assert PlainName(NAMES[i]);
      TrimNothing(h[i]);
    }
  }

  lemma {:induction false} ToObjectAt(headers: seq<Text>, values: seq<Text>, k: nat)
    requires |headers| == |values| && Unique(headers) && k < |headers|
    ensures headers[k] in ToObject(headers, values) && ToObject(headers, values)[headers[k]] == values[k]
  {
    var n := |headers| - 1;
    if k < n { ToObjectAt(headers[..n], values[..n], k); }
  }

  /** Each exported column is found under its own name. */
  lemma {:induction false} ColumnsFound(values: seq<Text>)
    requires |values| == 11
    ensures var obj := ToObject(Header(), values);
      forall k :: 0 <= k < 11 ==> Ascii(NAMES[k]) in obj && obj[Ascii(NAMES[k])] == values[k]
  {
    HeaderFacts();
    forall k | 0 <= k < 11
      ensures Ascii(NAMES[k]) in ToObject(Header(), values) && ToObject(Header(), values)[Ascii(NAMES[k])] == values[k]
    {
      ToObjectAt(Header(), values, k);
      assert Header()[k] == Ascii(NAMES[k]);
    }
  }

  lemma {:induction false} FirstFound(obj: map<Text, Text>, keys: seq<Text>)
    requires keys != [] && keys[0] in obj
    ensures FirstOwn(obj, keys) == Some(obj[keys[0]])
  {}

  lemma {:induction false} StoredRowImports(f: Foreign, r: ExportRow, rowIndex: nat)
    requires Stored(f, r)
    ensures ParseRow(f, Header(), Cells(r), rowIndex) == Good(rowIndex, PayloadOf(f, r))
  {
    var obj := ToObject(Header(), Cells(r));
    ColumnsFound(Cells(r));
    assert NAMES[1] == "inventory_number" && NAMES[2] == "external_id" && NAMES[3] == "longitude" && NAMES[4] == "latitude";
    assert NAMES[5] == "address" && NAMES[6] == "district" && NAMES[7] == "lamp_type" && NAMES[8] == "status";
    FirstFound(obj, [Ascii("inventory_number"), Ascii("inventoryNumber")]);
    FirstFound(obj, [Ascii("longitude"), Ascii("lon"), Ascii("lng")]);
    FirstFound(obj, [Ascii("latitude"), Ascii("lat")]);
    FirstFound(obj, [Ascii("status")]);
    FirstFound(obj, [Ascii("external_id"), Ascii("externalId")]);
    FirstFound(obj, [Ascii("address")]);
    FirstFound(obj, [Ascii("district")]);
    FirstFound(obj, [Ascii("lamp_type"), Ascii("lampType")]);
  }

  lemma {:induction false} HeaderAccepted()
    ensures HeaderError(Header()) == None && Trimmed(Header()) == Header()
  {
    HeaderFacts();
    var h := Header();
    assert h[1] == Ascii("inventory_number") && h[3] == Ascii("longitude") && h[4] == Ascii("latitude");
    assert h[1] in [Ascii("inventory_number"), Ascii("inventoryNumber")];
    assert h[4] in [Ascii("latitude"), Ascii("lat")];
    assert h[3] in [Ascii("longitude"), Ascii("lon"), Ascii("lng")];
  }

  function Payloads(f: Foreign, rows: seq<ExportRow>): (r: seq<ImportRow>)
    requires forall i :: 0 <= i < |rows| ==> Stored(f, rows[i])
    ensures |r| == |rows|
    ensures forall i :: 0 <= i < |rows| ==> r[i] == Good(i + 1, PayloadOf(f, rows[i]))
  {
    seq(|rows|, i requires 0 <= i < |rows| => Good(i + 1, PayloadOf(f, rows[i])))
  }

  lemma {:induction false} RowsImport(f: Foreign, rows: seq<ExportRow>)
    requires forall i :: 0 <= i < |rows| ==> Stored(f, rows[i])
    ensures ParseRows(f, Header(), AllCells(rows)) == Payloads(f, rows)
  {
    forall i | 0 <= i < |rows| ensures ParseRows(f, Header(), AllCells(rows))[i] == Payloads(f, rows)[i] {
      StoredRowImports(f, rows[i], i + 1);
    }
  }

  /** Eleven cells a row under the exported header: the file is read cell by cell, unless the importer's own limits
      refuse it. */
  lemma {:induction false} WrittenFileImports(f: Foreign, rows: seq<seq<Text>>)
    requires forall i :: 0 <= i < |rows| ==> |rows[i]| == 11
    ensures ImportCsv(f, RowsText([Header()] + rows)) ==
      if Utf8Length(RowsText([Header()] + rows)) > MAX_FILE_BYTES then Err(FileTooLarge)
      else if rows == [] then Err(NoData)
      else if |rows| > MAX_ROWS then Err(TooManyRows)
      else Ok(ParseRows(f, Header(), rows))
  {
    var records := [Header()] + rows;
    RowsRead(records, []);
    assert [] + records == records;
    FirstLetter(records);
    HeaderAccepted();
    assert records[1..] == rows;
  }

  /** The text of an export is read back row for row, unless the importer's own limits refuse the file. */
  lemma {:induction false} ExportedFileImports(f: Foreign, rows: seq<ExportRow>)
    requires forall i :: 0 <= i < |rows| ==> Stored(f, rows[i])
    ensures ImportCsv(f, FileText(rows)) ==
      if Utf8Length(FileText(rows)) > MAX_FILE_BYTES then Err(FileTooLarge)
      else if rows == [] then Err(NoData)
      else if |rows| > MAX_ROWS then Err(TooManyRows)
      else Ok(Payloads(f, rows))
  {
    WrittenFileImports(f, AllCells(rows));
    RowsImport(f, rows);
  }

  lemma {:induction false} FirstLetter(records: seq<seq<Text>>)
    requires records != [] && records[0] == Header()
    ensures RowsText(records) != [] && RowsText(records)[0] == 0x69
    ensures !Blank(RowsText(records))
  {
    var name := Header()[0];
    assert NAMES[0] == "id" && name == Ascii("id");
    assert name[0] == 'i' as int && name[1] == 'd' as int && |name| == 2;
    assert !NeedsQuotes(name);
    assert FieldText(name) == name;
    assert FieldsText(Header())[0] == name[0];
    assert RowsText(records)[0] == FieldsText(Header())[0];
    assert !IsSpace(RowsText(records)[0]);
  }
}
