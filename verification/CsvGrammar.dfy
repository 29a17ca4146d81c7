/** The CSV the import reads, as a grammar: every text is spelled in it in some way, and its spelling alone decides the
    records or the error. */
module CsvGrammar {
  import opened Utf16Text
  import opened CsvExport
  import opened CsvParse
  import opened Options

  // ---------- the grammar ----------

  /** A cell as it stands, or a quoted value with blanks after it. */
  datatype Cell = Bare(text: Text) | Quoted(value: Text, blanks: Text)

  predicate Divides(u: Unit) { u == COMMA || u == CR || u == LF }

  predicate Blanks(t: Text) { forall i :: 0 <= i < |t| ==> t[i] == SPACE || t[i] == TAB }

  /** A bare cell holds no comma or line end, and a quote only after its first character. */
  predicate CellOk(c: Cell) {
    match c
    case Bare(t) => (t != [] ==> t[0] != QUOTE) && forall i :: 0 <= i < |t| ==> !Divides(t[i])
    case Quoted(_, blanks) => Blanks(blanks)
  }

  function CellText(c: Cell): Text {
    match c
    case Bare(t) => t
    case Quoted(value, blanks) => [QUOTE] + (Doubled(value) + ([QUOTE] + blanks))
  }

  function CellValue(c: Cell): Text { if c.Bare? then c.text else c.value }

  predicate CellsOk(cells: seq<Cell>) { forall i :: 0 <= i < |cells| ==> CellOk(cells[i]) }

  function Values(cells: seq<Cell>): (r: seq<Text>)
    ensures |r| == |cells|
  {
    seq(|cells|, i requires 0 <= i < |cells| => CellValue(cells[i]))
  }

  /** Cells with a comma after each. */
  function LeadText(cells: seq<Cell>): Text {
    if cells == [] then [] else CellText(cells[0]) + ([COMMA] + LeadText(cells[1..]))
  }

  /** Cells between commas. */
  function RecordText(cells: seq<Cell>): Text
  {
    if cells == [] then [] else LeadText(cells[..|cells| - 1]) + CellText(cells[|cells| - 1])
  }

  /** What no cell begins with: a quote that is never closed, or something other than blanks after a closing quote. */
  datatype Fault = Open(value: Text) | Stray(value: Text, blanks: Text, rest: Text)

  predicate FaultOk(x: Fault) {
    match x
    case Open(_) => true
    case Stray(_, blanks, rest) =>
      && Blanks(blanks) && rest != [] && !Divides(rest[0]) && rest[0] != SPACE && rest[0] != TAB
      && (blanks == [] ==> rest[0] != QUOTE)
  }

  function FaultText(x: Fault): Text {
    match x
    case Open(value) => [QUOTE] + Doubled(value)
    case Stray(value, blanks, rest) => [QUOTE] + (Doubled(value) + ([QUOTE] + (blanks + rest)))
  }

  datatype File = Last(cells: seq<Cell>) | Line(cells: seq<Cell>, end: Text, rest: File) | Broken(cells: seq<Cell>, fault: Fault)

  function FileText(f: File): Text {
    match f
    case Last(cells) => RecordText(cells)
    case Line(cells, end, rest) => RecordText(cells) + (end + FileText(rest))
    case Broken(cells, fault) => LeadText(cells) + FaultText(fault)
  }

  /** Lines end with CR, LF or both; a CR before an LF belongs to it. */
  predicate FileOk(f: File) {
    match f
    case Last(cells) => cells != [] && CellsOk(cells)
    case Line(cells, end, rest) =>
      && cells != [] && CellsOk(cells) && FileOk(rest)
      && (end == [LF] || end == [CR, LF] || (end == [CR] && !(FileText(rest) != [] && FileText(rest)[0] == LF)))
    case Broken(cells, fault) => CellsOk(cells) && FaultOk(fault)
  }

  /** A record of one blank cell is an empty line. */
  function Kept(values: seq<Text>): seq<seq<Text>> {
    if |values| == 1 && Blank(values[0]) then [] else [values]
  }

  function Rows(f: File): seq<seq<Text>> {
    match f
    case Last(cells) => Kept(Values(cells))
    case Line(cells, _, rest) => Kept(Values(cells)) + Rows(rest)
    case Broken(_, _) => []
  }

  function FaultOf(f: File): Option<Fault> {
    match f
    case Last(_) => None
    case Line(_, _, rest) => FaultOf(rest)
    case Broken(_, fault) => Some(fault)
  }

  function Verdict(f: File): ParseResult {
    match FaultOf(f)
    case None => Records(Rows(f))
    case Some(Open(_)) => Unclosed
    case Some(Stray(_, _, _)) => Malformed
  }

  // ---------- reading a spelling ----------

  predicate Fresh(s: Scan) { !s.quoted && !s.closedQuote && s.cell == [] }

  predicate AtEnd(rest: Text) { rest == [] || Divides(rest[0]) }

  lemma {:induction false} BareRead(t: Text, rest: Text, s: Scan)
    requires !s.quoted && !s.closedQuote && (s.cell == [] && t != [] ==> t[0] != QUOTE)
    requires forall i :: 0 <= i < |t| ==> !Divides(t[i])
    ensures Parse(t + rest, s) == Parse(rest, s.(cell := s.cell + t))
    decreases t
  {
    if t == [] {
      assert t + rest == rest && s.cell + t == s.cell;
    } else {
      assert (t + rest)[0] == t[0] && (t + rest)[1..] == t[1..] + rest;
      BareRead(t[1..], rest, s.(cell := s.cell + [t[0]]));
      assert s.cell + [t[0]] + t[1..] == s.cell + t;
    }
  }

  /** Inside quotes: doubled quotes are one, anything else is itself. */
  lemma {:induction false} InsideRead(t: Text, rest: Text, s: Scan)
    requires s.quoted && (rest == [] || rest[0] == QUOTE) && !(|rest| > 1 && rest[1] == QUOTE)
    ensures Parse(Doubled(t) + rest, s) == Parse(rest, s.(cell := s.cell + t))
    decreases t
  {
    var all := Doubled(t) + rest;
    if t == [] {
      assert all == rest && s.cell + t == s.cell;
    } else {
      var tail := Doubled(t[1..]) + rest;
      if t[0] == QUOTE { assert all[0] == QUOTE && all[1] == QUOTE && all[2..] == tail; } else { assert all[0] == t[0] && all[1..] == tail; }
      InsideRead(t[1..], rest, s.(cell := s.cell + [t[0]]));
      assert s.cell + [t[0]] + t[1..] == s.cell + t;
    }
  }

  lemma {:induction false} BlanksRead(t: Text, rest: Text, s: Scan)
    requires !s.quoted && s.closedQuote && Blanks(t)
    ensures Parse(t + rest, s) == Parse(rest, s)
    decreases t
  {
    if t == [] {
      assert t + rest == rest;
    } else {
      assert (t + rest)[0] == t[0] && (t + rest)[1..] == t[1..] + rest;
      forall i | 0 <= i < |t[1..]| ensures t[1..][i] == SPACE || t[1..][i] == TAB { assert t[1..][i] == t[i + 1]; }
      BlanksRead(t[1..], rest, s);
    }
  }

  /** From the start of a cell to the end of the blanks after its closing quote. */
  lemma {:induction false} QuotedCellRead(value: Text, blanks: Text, rest: Text, s: Scan)
    requires Fresh(s) && Blanks(blanks) && !(blanks == [] && rest != [] && rest[0] == QUOTE)
    ensures Parse([QUOTE] + (Doubled(value) + ([QUOTE] + (blanks + rest))), s) == Parse(rest, s.(cell := value, closedQuote := true))
  {
    var after := [QUOTE] + (blanks + rest);
    OpenQuote(Doubled(value) + after, s);
    assert |after| > 1 ==> after[1] == (blanks + rest)[0];
    InsideRead(value, after, s.(quoted := true));
    assert [] + value == value;
    assert after[1..] == blanks + rest;
    BlanksRead(blanks, rest, s.(cell := value, closedQuote := true));
  }

  lemma {:induction false} CellRead(c: Cell, rest: Text, s: Scan)
    requires CellOk(c) && Fresh(s) && AtEnd(rest)
    ensures Parse(CellText(c) + rest, s) == Parse(rest, s.(cell := CellValue(c), closedQuote := c.Quoted?))
  {
    match c
    case Bare(t) =>
      BareRead(t, rest, s);
      assert [] + t == t;
    case Quoted(value, blanks) =>
      QuotedCellRead(value, blanks, rest, s);
      assert CellText(c) + rest == [QUOTE] + (Doubled(value) + ([QUOTE] + (blanks + rest)));
  }

  lemma {:induction false} CellThenComma(c: Cell, rest: Text, s: Scan)
    requires CellOk(c) && Fresh(s)
    ensures Parse(CellText(c) + ([COMMA] + rest), s) == Parse(rest, s.(record := s.record + [CellValue(c)]))
  {
    CellRead(c, [COMMA] + rest, s);
    EndCell(rest, s.(cell := CellValue(c), closedQuote := c.Quoted?));
  }

  lemma {:induction false} Regrouped(a: Text, b: Text, c: Text, d: Text)
    ensures (a + (b + c)) + d == a + (b + (c + d)) && (a + b) + c == a + (b + c)
  {}

  lemma {:induction false} LeadRead(cells: seq<Cell>, rest: Text, s: Scan)
    requires CellsOk(cells) && Fresh(s)
    ensures Parse(LeadText(cells) + rest, s) == Parse(rest, s.(record := s.record + Values(cells)))
    decreases cells
  {
    if cells == [] {
      assert [] + rest == rest && s.record + Values(cells) == s.record;
    } else {
      var more := LeadText(cells[1..]) + rest;
      Regrouped(CellText(cells[0]), [COMMA], LeadText(cells[1..]), rest);
      CellThenComma(cells[0], more, s);
      LeadRead(cells[1..], rest, s.(record := s.record + [CellValue(cells[0])]));
      assert s.record + [CellValue(cells[0])] + Values(cells[1..]) == s.record + Values(cells);
    }
  }

  /** The variables after the last cell of a record: finishing the record adds its values, and skipping it is the same when
      there is nothing to add. */
  ghost predicate AtRecordEnd(s: Scan, records: seq<seq<Text>>, values: seq<Text>) {
    && !s.quoted && s.records == records && s.record + [s.cell] == values
  }

  lemma {:induction false} Finished(s: Scan, records: seq<seq<Text>>, values: seq<Text>)
    requires AtRecordEnd(s, records, values)
    ensures FinishRecord(s) == Scan(records + Kept(values), [], [], false, false)
    ensures s.cell == [] && s.record == [] ==> Kept(values) == []
  {
    assert records + [] == records;
    if s.record == [] { assert values == [s.cell]; }
  }

  lemma {:induction false} RecordRead(cells: seq<Cell>, rest: Text, records: seq<seq<Text>>) returns (s: Scan)
    requires cells != [] && CellsOk(cells) && AtEnd(rest)
    ensures AtRecordEnd(s, records, Values(cells))
    ensures Parse(RecordText(cells) + rest, Scan(records, [], [], false, false)) == Parse(rest, s)
  {
    var n := |cells| - 1;
    var start := Scan(records, [], [], false, false);
    Regrouped(LeadText(cells[..n]), CellText(cells[n]), rest, []);
    LeadRead(cells[..n], CellText(cells[n]) + rest, start);
    assert [] + Values(cells[..n]) == Values(cells[..n]);
    var led := start.(record := Values(cells[..n]));
    CellRead(cells[n], rest, led);
    s := led.(cell := CellValue(cells[n]), closedQuote := cells[n].Quoted?);
    assert Values(cells[..n]) + [CellValue(cells[n])] == Values(cells);
  }

  lemma {:induction false} LineEndRead(end: Text, rest: Text, s: Scan)
    requires !s.quoted && (end == [LF] || end == [CR, LF] || (end == [CR] && !(rest != [] && rest[0] == LF)))
    ensures Parse(end + rest, s) == Parse(rest, FinishRecord(s))
  {
    if end == [CR, LF] { EndRecord(rest, s); } else { assert (end + rest)[1..] == rest; }
  }

  lemma {:induction false} FaultRead(x: Fault, s: Scan)
    requires FaultOk(x) && Fresh(s)
    ensures Parse(FaultText(x), s) == if x.Open? then Unclosed else Malformed
  {
    match x
    case Open(value) =>
      OpenQuote(Doubled(value), s);
      InsideRead(value, [], s.(quoted := true));
      assert Doubled(value) + [] == Doubled(value);
    case Stray(value, blanks, rest) =>
      QuotedCellRead(value, blanks, rest, s);
  }

  lemma {:induction false} LastRead(cells: seq<Cell>, records: seq<seq<Text>>)
    requires cells != [] && CellsOk(cells)
    ensures Parse(RecordText(cells), Scan(records, [], [], false, false)) == Records(records + Kept(Values(cells)))
  {
    var s := RecordRead(cells, [], records);
    Finished(s, records, Values(cells));
    assert RecordText(cells) + [] == RecordText(cells) && records + [] == records;
  }

  lemma {:induction false} LineRead(cells: seq<Cell>, end: Text, rest: Text, records: seq<seq<Text>>)
    requires cells != [] && CellsOk(cells)
    requires end == [LF] || end == [CR, LF] || (end == [CR] && !(rest != [] && rest[0] == LF))
    ensures Parse(RecordText(cells) + (end + rest), Scan(records, [], [], false, false))
      == Parse(rest, Scan(records + Kept(Values(cells)), [], [], false, false))
  {
    var s := RecordRead(cells, end + rest, records);
    LineEndRead(end, rest, s);
    Finished(s, records, Values(cells));
  }

  lemma {:induction false} BrokenRead(cells: seq<Cell>, fault: Fault, records: seq<seq<Text>>)
    requires CellsOk(cells) && FaultOk(fault)
    ensures Parse(LeadText(cells) + FaultText(fault), Scan(records, [], [], false, false)) == if fault.Open? then Unclosed else Malformed
  {
    LeadRead(cells, FaultText(fault), Scan(records, [], [], false, false));
    FaultRead(fault, Scan(records, [] + Values(cells), [], false, false));
  }

  /** What the file says when these records came before it. */
  function VerdictAfter(f: File, records: seq<seq<Text>>): ParseResult {
    match FaultOf(f)
    case None => Records(records + Rows(f))
    case Some(fault) => if fault.Open? then Unclosed else Malformed
  }

  lemma {:induction false} RowsRegrouped(a: seq<seq<Text>>, b: seq<seq<Text>>, c: seq<seq<Text>>)
    ensures (a + b) + c == a + (b + c)
  {}

  lemma {:induction false} FileRead(f: File, records: seq<seq<Text>>)
    requires FileOk(f)
    ensures Parse(FileText(f), Scan(records, [], [], false, false)) == VerdictAfter(f, records)
    decreases f
  {
    match f
    case Last(cells) => LastRead(cells, records);
    case Line(cells, end, rest) =>
      LineRead(cells, end, FileText(rest), records);
      FileRead(rest, records + Kept(Values(cells)));
      RowsRegrouped(records, Kept(Values(cells)), Rows(rest));
    case Broken(cells, fault) => BrokenRead(cells, fault, records);
  }

  /** However a text is spelled in the grammar, the parser gives what the spelling says. */
  lemma {:induction false} SpellingDecides(f: File)
    requires FileOk(f)
    ensures Parse(FileText(f), START) == Verdict(f)
  {
    FileRead(f, []);
    assert [] + Rows(f) == Rows(f);
  }

  // ---------- spelling any text ----------

  lemma {:induction false} BareSplit(t: Text) returns (n: nat)
    ensures n <= |t| && (forall i :: 0 <= i < n ==> !Divides(t[i])) && (n < |t| ==> Divides(t[n]))
  {
    n := 0;
    while n < |t| && !Divides(t[n])
      invariant n <= |t| && forall i :: 0 <= i < n ==> !Divides(t[i])
    {
      n := n + 1;
    }
  }

  lemma {:induction false} BlankSplit(t: Text) returns (n: nat)
    ensures n <= |t| && Blanks(t[..n]) && (n < |t| ==> t[n] != SPACE && t[n] != TAB)
  {
    n := 0;
    while n < |t| && (t[n] == SPACE || t[n] == TAB)
      invariant n <= |t| && forall i :: 0 <= i < n ==> t[i] == SPACE || t[i] == TAB
    {
      n := n + 1;
    }
  }

  /** Up to the quote that closes, if there is one. */
  lemma {:induction false} InsideSplit(t: Text) returns (value: Text, rest: Text, closed: bool)
    ensures closed ==> t == Doubled(value) + ([QUOTE] + rest) && !(rest != [] && rest[0] == QUOTE)
    ensures !closed ==> t == Doubled(value)
    decreases t
  {
    if t == [] { return [], [], false; }
    if t[0] == QUOTE && !(|t| > 1 && t[1] == QUOTE) {
      assert t == [] + ([QUOTE] + t[1..]);
      return [], t[1..], true;
    }
    var k := if t[0] == QUOTE then 2 else 1;
    var more;
    more, rest, closed := InsideSplit(t[k..]);
    value := [t[0]] + more;
    assert value[1..] == more && t == t[..k] + t[k..];
    assert Doubled(value) == t[..k] + Doubled(more);
    if closed { Regrouped(t[..k], Doubled(more), [QUOTE] + rest, []); }
  }

  lemma {:induction false} CellSplit(t: Text) returns (c: Cell, rest: Text, fault: Option<Fault>)
    ensures fault.None? ==> CellOk(c) && AtEnd(rest) && t == CellText(c) + rest
    ensures fault.Some? ==> FaultOk(fault.value) && t == FaultText(fault.value)
  {
    c, rest, fault := Bare([]), [], None;
    if t == [] || t[0] != QUOTE {
      var n := BareSplit(t);
      c, rest := Bare(t[..n]), t[n..];
    } else {
      var value, after, closed := InsideSplit(t[1..]);
      assert t == [QUOTE] + t[1..];
      if !closed { return c, rest, Some(Open(value)); }
      var n := BlankSplit(after);
      var blanks := after[..n];
      assert after == blanks + after[n..];
      if n == |after| || Divides(after[n]) {
        c, rest := Quoted(value, blanks), after[n..];
        assert t == CellText(c) + rest;
      } else {
        fault := Some(Stray(value, blanks, after[n..]));
      }
    }
  }

  /** The text is a whole record up to its end, or some whole cells and a fault. */
  ghost predicate RecordParts(t: Text, cells: seq<Cell>, rest: Text, fault: Option<Fault>) {
    CellsOk(cells) &&
    match fault
    case None => cells != [] && t == RecordText(cells) + rest && (rest != [] ==> rest[0] == CR || rest[0] == LF)
    case Some(x) => FaultOk(x) && t == LeadText(cells) + FaultText(x)
  }

  lemma {:induction false} LeadCons(c: Cell, more: seq<Cell>, rest: Text)
    ensures LeadText([c] + more) + rest == CellText(c) + ([COMMA] + (LeadText(more) + rest))
  {
    assert ([c] + more)[1..] == more;
    Regrouped(CellText(c), [COMMA], LeadText(more), rest);
  }

  lemma {:induction false} RecordCons(c: Cell, more: seq<Cell>, rest: Text)
    requires more != []
    ensures RecordText([c] + more) + rest == CellText(c) + ([COMMA] + (RecordText(more) + rest))
  {
    var n := |more| - 1;
    var last := CellText(more[n]);
    assert ([c] + more)[..n + 1] == [c] + more[..n];
    LeadCons(c, more[..n], last);
    Regrouped(CellText(c), [COMMA], RecordText(more), rest);
  }

  lemma {:induction false} PartsCons(c: Cell, t: Text, more: seq<Cell>, rest: Text, fault: Option<Fault>)
    requires CellOk(c) && RecordParts(t, more, rest, fault)
    ensures RecordParts(CellText(c) + ([COMMA] + t), [c] + more, rest, fault)
  {
    if fault.Some? { LeadCons(c, more, FaultText(fault.value)); } else { RecordCons(c, more, rest); }
  }

  lemma {:induction false} FaultAlone(x: Fault, rest: Text)
    requires FaultOk(x)
    ensures RecordParts(FaultText(x), [], rest, Some(x))
  {
    assert FaultText(x) == [] + FaultText(x);
  }

  lemma {:induction false} CellAlone(c: Cell, rest: Text)
    requires CellOk(c) && (rest != [] ==> rest[0] == CR || rest[0] == LF)
    ensures RecordParts(CellText(c) + rest, [c], rest, None)
  {
    assert [c][..0] == [] && [] + CellText(c) == CellText(c);
  }

  lemma {:induction false} RecordSplit(t: Text) returns (cells: seq<Cell>, rest: Text, fault: Option<Fault>)
    ensures RecordParts(t, cells, rest, fault)
    decreases |t|
  {
    var c;
    c, rest, fault := CellSplit(t);
    if fault.Some? {
      FaultAlone(fault.value, rest);
      cells := [];
    } else if rest == [] || rest[0] != COMMA {
      CellAlone(c, rest);
      cells := [c];
    } else {
      var after, more := rest[1..], [];
      assert rest == [COMMA] + after;
      more, rest, fault := RecordSplit(after);
      cells := [c] + more;
      PartsCons(c, after, more, rest, fault);
    }
  }

  /** Every text is spelled in the grammar. */
  lemma {:induction false} EveryText(t: Text) returns (f: File)
    ensures FileOk(f) && FileText(f) == t
    decreases |t|
  {
    var cells, rest, fault := RecordSplit(t);
    if fault.Some? { return Broken(cells, fault.value); }
    if rest == [] {
      assert RecordText(cells) + [] == RecordText(cells);
      return Last(cells);
    }
    var k := if rest[0] == CR && |rest| > 1 && rest[1] == LF then 2 else 1;
    assert |t| == |RecordText(cells)| + |rest|;
    var more := EveryText(rest[k..]);
    assert rest == rest[..k] + rest[k..];
    f := Line(cells, rest[..k], more);
  }

  // ---------- what the parser accepts ----------

  ghost predicate Spells(f: File, t: Text) { FileOk(f) && FileText(f) == t }

  lemma {:induction false} OneVerdict(t: Text) returns (f: File)
    ensures Spells(f, t)
    ensures forall g :: Spells(g, t) ==> Verdict(g) == Parse(t, START)
  {
    f := EveryText(t);
    forall g | Spells(g, t) ensures Verdict(g) == Parse(t, START) { SpellingDecides(g); }
  }

  /** The parser accepts a text with these records if and only if some spelling of the text without a fault has them; all
      spellings of a text say the same. */
  lemma {:induction false} AcceptsIff(t: Text, rows: seq<seq<Text>>)
    ensures Parse(t, START) == Records(rows) <==> exists f :: Spells(f, t) && FaultOf(f).None? && Rows(f) == rows
    ensures forall f, g :: Spells(f, t) && Spells(g, t) ==> Verdict(f) == Verdict(g)
  {
    var f := OneVerdict(t);
  }

  /** It refuses a text as unclosed exactly when after some whole cells a quote opens that is never closed. */
  lemma {:induction false} UnclosedIff(t: Text)
    ensures Parse(t, START) == Unclosed <==> exists f :: Spells(f, t) && FaultOf(f).Some? && FaultOf(f).value.Open?
  {
    var f := OneVerdict(t);
  }

  /** It refuses a text as malformed exactly when after some whole cells something other than blanks follows a closing quote. */
  lemma {:induction false} MalformedIff(t: Text)
    ensures Parse(t, START) == Malformed <==> exists f :: Spells(f, t) && FaultOf(f).Some? && FaultOf(f).value.Stray?
  {
    var f := OneVerdict(t);
  }

  lemma {:induction false} DoubledLength(t: Text)
    ensures |Doubled(t)| >= |t|
  {
    if t != [] { DoubledLength(t[1..]); }
  }

  /** A field is exported as it stands exactly when it holds no comma, quote or line end; and either way its text is one cell
      of the grammar with the field as its value. */
  lemma {:induction false} FieldIsCell(t: Text)
    ensures FieldText(t) == t <==> forall i :: 0 <= i < |t| ==> !Divides(t[i]) && t[i] != QUOTE
    ensures exists c :: CellOk(c) && CellText(c) == FieldText(t) && CellValue(c) == t
  {
    DoubledLength(t);
    if NeedsQuotes(t) {
      var c := Quoted(t, []);
      assert [QUOTE] + [] == [QUOTE] && CellText(c) == FieldText(t) && CellOk(c);
    } else {
      var c := Bare(t);
      assert forall i :: 0 <= i < |t| ==> !Special(t[i]);
      assert CellOk(c) && CellText(c) == FieldText(t);
    }
  }
}
