/** Building the preview of an import: duplicate inventory numbers inside one file are resolved before
    anything is queued. */
module ImportPreview {
  import opened ImportModel
  import opened ImportProofs
  import opened ImportRuns
  import opened Options

  /** A source row after parsing; an error row has no payload. */
  datatype ParsedRow = ParsedRow(rowIndex: nat, number: string, payload: Option<Payload>, errorCode: Option<string>)

  /** What the record parser hands over: a payload carries the row's own non-empty number. */
  predicate Parsed(row: ParsedRow) {
    && (row.payload.Some? ==> row.payload.value.number == row.number && row.number != "")
    && (row.payload.Some? <==> row.errorCode.None?)
  }

  predicate SameGroup(rows: seq<ParsedRow>, i: nat, j: nat)
    requires i < |rows| && j < |rows|
  {
    rows[i].number == rows[j].number && rows[i].number != ""
  }

  /** All rows of the number that occur among the first `n` rows are valid and identical. */
  predicate Agreed(rows: seq<ParsedRow>, number: string, n: nat)
    requires n <= |rows|
  {
    forall i, j :: 0 <= i < n && 0 <= j < n && rows[i].number == number && rows[j].number == number ==>
      rows[i].payload.Some? && rows[i].payload == rows[j].payload
  }

  /** A later identical copy of a valid row. */
  predicate IsDuplicate(rows: seq<ParsedRow>, i: nat)
    requires i < |rows|
  {
    (exists j :: 0 <= j < i && SameGroup(rows, i, j)) && Agreed(rows, rows[i].number, |rows|)
  }

  /** One of several rows with the same number that are not all valid and identical. */
  predicate IsConflict(rows: seq<ParsedRow>, i: nat)
    requires i < |rows|
  {
    (exists j :: 0 <= j < |rows| && j != i && SameGroup(rows, i, j)) && !Agreed(rows, rows[i].number, |rows|)
  }

  /** The signature of a row is its payload: the serialised form lists the fields in a fixed order. */
  datatype Group = Group(first: nat, duplicates: seq<nat>, conflict: bool)

  ghost predicate GroupOk(rows: seq<ParsedRow>, n: nat, number: string, g: Group)
    requires n <= |rows|
  {
    && g.first < n && rows[g.first].number == number
    && (forall i :: 0 <= i < n && rows[i].number == number ==> i == g.first || i in g.duplicates)
    && (forall k :: 0 <= k < |g.duplicates| ==> g.first < g.duplicates[k] < n && rows[g.duplicates[k]].number == number)
    && (g.conflict <==> !Agreed(rows, number, n))
  }

  ghost predicate GroupsOk(rows: seq<ParsedRow>, n: nat, groups: map<string, Group>)
    requires n <= |rows|
  {
    && (forall i :: 0 <= i < n && rows[i].number != "" ==> rows[i].number in groups)
    && (forall number :: number in groups ==> number != "" && GroupOk(rows, n, number, groups[number]))
  }

  lemma {:induction false} AgreedGrows(rows: seq<ParsedRow>, number: string, n: nat, first: nat)
    requires n < |rows|
    ensures rows[n].number != number ==> (Agreed(rows, number, n + 1) <==> Agreed(rows, number, n))
    ensures rows[n].number == number && first < n && rows[first].number == number ==>
      (Agreed(rows, number, n + 1) <==>
         Agreed(rows, number, n) && rows[n].payload.Some? && rows[n].payload == rows[first].payload)
  {}

  /** What the grouping loop does with row `n`. */
  function Regroup(rows: seq<ParsedRow>, n: nat, groups: map<string, Group>): map<string, Group>
    requires n < |rows| && GroupsOk(rows, n, groups)
  {
    var row := rows[n];
    if row.number == "" then groups
    else if row.number !in groups then groups[row.number := Group(n, [], row.payload.None?)]
    else
      var g := groups[row.number];
      var first := rows[g.first];
      groups[row.number := Group(g.first, g.duplicates + [n],
        g.conflict || row.payload.None? || first.payload.None? || row.payload != first.payload)]
  }

  lemma {:induction false} OtherGroup(rows: seq<ParsedRow>, n: nat, number: string, g: Group)
    requires n < |rows| && GroupOk(rows, n, number, g) && rows[n].number != number
    ensures GroupOk(rows, n + 1, number, g)
  {
    AgreedGrows(rows, number, n, 0);
  }

  lemma {:induction false} RegroupOk(rows: seq<ParsedRow>, n: nat, groups: map<string, Group>)
    requires n < |rows| && GroupsOk(rows, n, groups)
    ensures GroupsOk(rows, n + 1, Regroup(rows, n, groups))
  {
    var number := rows[n].number;
    var groups' := Regroup(rows, n, groups);
    forall m | m in groups' ensures m != "" && GroupOk(rows, n + 1, m, groups'[m]) {
      if m != number {
        OtherGroup(rows, n, m, groups[m]);
      } else if number in groups {
        GroupStep(rows, n, number, groups[number], groups'[number]);
      }
    }
  }

  /** The grouping loop. */
  method GroupRows(rows: seq<ParsedRow>) returns (groups: map<string, Group>)
    ensures GroupsOk(rows, |rows|, groups)
  {
    groups := map[];
    for n := 0 to |rows|
      invariant GroupsOk(rows, n, groups)
    {
      RegroupOk(rows, n, groups);
      var row := rows[n];
      if row.number == "" { continue; }
      if row.number !in groups {
        groups := groups[row.number := Group(n, [], row.payload.None?)];
        continue;
      }
      var g := groups[row.number];
      var first := rows[g.first];
      groups := groups[row.number := Group(g.first, g.duplicates + [n],
                         g.conflict || row.payload.None? || first.payload.None? || row.payload != first.payload)];
    }
  }

  lemma {:induction false} GroupStep(rows: seq<ParsedRow>, n: nat, number: string, g: Group, g': Group)
    requires n < |rows| && rows[n].number == number && GroupOk(rows, n, number, g)
    requires g' == Group(g.first, g.duplicates + [n], g.conflict || rows[n].payload.None? ||
                         rows[g.first].payload.None? || rows[n].payload != rows[g.first].payload)
    ensures GroupOk(rows, n + 1, number, g')
  {
    AgreedGrows(rows, number, n, g.first);
  }

  ghost predicate Resolved(rows: seq<ParsedRow>, numbers: set<string>, skips: set<nat>, conflicts: set<nat>) {
    && (forall i :: i in skips <==> 0 <= i < |rows| && rows[i].number in numbers && IsDuplicate(rows, i))
    && (forall i :: i in conflicts <==> 0 <= i < |rows| && rows[i].number in numbers && IsConflict(rows, i))
  }

  lemma {:induction false} ResolveOne(rows: seq<ParsedRow>, numbers: set<string>, skips: set<nat>, conflicts: set<nat>,
                   number: string, g: Group, skips': set<nat>, conflicts': set<nat>)
    requires Resolved(rows, numbers, skips, conflicts) && number !in numbers && number != ""
    requires GroupOk(rows, |rows|, number, g)
    requires forall i :: i in skips' <==> i in skips || (!g.conflict && i in g.duplicates)
    requires forall i :: i in conflicts' <==> i in conflicts || (g.conflict && g.duplicates != [] && (i == g.first || i in g.duplicates))
    ensures Resolved(rows, numbers + {number}, skips', conflicts')
  {
    forall i | 0 <= i < |rows|
      ensures i in skips' <==> rows[i].number in numbers + {number} && IsDuplicate(rows, i)
      ensures i in conflicts' <==> rows[i].number in numbers + {number} && IsConflict(rows, i)
    {
      if rows[i].number == number { GroupVerdict(rows, number, g, i); }
    }
  }

  method ResolveGroup(g: Group, skips: set<nat>, conflicts: set<nat>) returns (skips': set<nat>, conflicts': set<nat>)
    ensures forall i :: i in skips' <==> i in skips || (!g.conflict && i in g.duplicates)
    ensures forall i :: i in conflicts' <==>
      i in conflicts || (g.conflict && g.duplicates != [] && (i == g.first || i in g.duplicates))
  {
    skips', conflicts' := skips, conflicts;
    if g.duplicates == [] { return; }
    var others := set d | d in g.duplicates;
    if g.conflict {
      conflicts' := conflicts + {g.first} + others;
    } else {
      skips' := skips + others;
    }
  }

  /** The second loop: conflicting groups lose every row, agreeing ones keep their first row. */
  method ResolveDuplicates(rows: seq<ParsedRow>) returns (skips: set<nat>, conflicts: set<nat>)
    ensures forall i :: i in skips <==> 0 <= i < |rows| && IsDuplicate(rows, i)
    ensures forall i :: i in conflicts <==> 0 <= i < |rows| && IsConflict(rows, i)
  {
    var groups := GroupRows(rows);
    skips, conflicts := {}, {};
    var todo := groups.Keys;
    ghost var finished: set<string> := {};
    while todo != {}
      invariant todo <= groups.Keys && finished == groups.Keys - todo
      invariant Resolved(rows, finished, skips, conflicts)
      decreases todo
    {
      var number :| number in todo;
      assert GroupOk(rows, |rows|, number, groups[number]);
      var skips', conflicts' := ResolveGroup(groups[number], skips, conflicts);
      ResolveOne(rows, finished, skips, conflicts, number, groups[number], skips', conflicts');
      skips, conflicts := skips', conflicts';
      todo, finished := todo - {number}, finished + {number};
    }
    assert forall i :: 0 <= i < |rows| && (IsDuplicate(rows, i) || IsConflict(rows, i)) ==> rows[i].number in groups;
  }

  lemma {:induction false} GroupVerdict(rows: seq<ParsedRow>, number: string, g: Group, i: nat)
    requires number != "" && GroupOk(rows, |rows|, number, g) && i < |rows| && rows[i].number == number
    ensures i == g.first || i in g.duplicates
    ensures IsDuplicate(rows, i) <==> !g.conflict && i in g.duplicates
    ensures IsConflict(rows, i) <==> g.conflict && g.duplicates != []
  {
    assert SameGroup(rows, i, g.first);
    if g.duplicates != [] { assert SameGroup(rows, i, g.duplicates[0]); }
  }

  // ---------- the preview batch ----------

  function PreviewState(rows: seq<ParsedRow>, i: nat): RowState
    requires i < |rows|
  {
    if IsDuplicate(rows, i) then Done(Skipped, "duplicate_in_same_import")
    else if IsConflict(rows, i) then Done(Failed, "conflicting_duplicate_inventory_number")
    else if rows[i].errorCode.Some? then Done(Failed, rows[i].errorCode.value)
    else if rows[i].payload.None? then Done(Failed, "invalid_row")
    else Pending(rows[i].payload.value)
  }

  function PreviewRows(rows: seq<ParsedRow>): (r: seq<Row>)
    ensures |r| == |rows|
  {
    seq(|rows|, i requires 0 <= i < |rows| => Row(rows[i].rowIndex, PreviewState(rows, i)))
  }

  /** The preview batch as inserted: its counters are written before the rows are counted. */
  method BuildImportPreview(rows: seq<ParsedRow>) returns (batch: Batch)
    ensures batch == Batch(Preview, None, |rows|, Counters(0, 0, 0, 0, 0, 0, 0), PreviewRows(rows))
  {
    var skips, conflicts := ResolveDuplicates(rows);
    var out: seq<Row> := [];
    for n := 0 to |rows|
      invariant out == PreviewRows(rows)[..n]
    {
      var row := rows[n];
      var state: RowState;
      if n in skips {
        state := Done(Skipped, "duplicate_in_same_import");
      } else if row.errorCode.Some? || row.payload.None? || n in conflicts {
        var code := if n in conflicts then Some("conflicting_duplicate_inventory_number") else row.errorCode;
        state := Done(Failed, if code.Some? then code.value else "invalid_row");
      } else {
        state := Pending(row.payload.value);
      }
      out := out + [Row(row.rowIndex, state)];
    }
    batch := Batch(Preview, None, |rows|, Counters(0, 0, 0, 0, 0, 0, 0), out);
  }

  /** After the duplicate rules no two rows that will be processed share an inventory number. */
  lemma {:induction false} PendingNumbersDistinct(rows: seq<ParsedRow>)
    requires forall i :: 0 <= i < |rows| ==> Parsed(rows[i])
    ensures Distinct(PreviewRows(rows))
  {
    var out := PreviewRows(rows);
    forall i, j | 0 <= i < |out| && 0 <= j < |out| ensures !SameNumberPending(out, i, j) {
      if SameNumberPending(out, i, j) {
        assert Parsed(rows[i]) && Parsed(rows[j]);
        assert SameGroup(rows, i, j) && SameGroup(rows, j, i);
      }
    }
  }

  /** A duplicate is dropped only when an earlier row with the same payload stays pending. */
  lemma {:induction false} DuplicateKeepsFirst(rows: seq<ParsedRow>, i: nat)
    requires i < |rows| && IsDuplicate(rows, i) && (forall k :: 0 <= k < |rows| ==> Parsed(rows[k]))
    ensures exists f :: 0 <= f < i && rows[f].payload.Some? && rows[f].payload == rows[i].payload &&
                        PreviewState(rows, f) == Pending(rows[f].payload.value)
  {
    var f := LeastOfGroup(rows, i, i);
    forall j | 0 <= j < f ensures !SameGroup(rows, f, j) { assert !SameGroup(rows, i, j); }
    assert SameGroup(rows, i, f);
    assert Parsed(rows[f]) && Agreed(rows, rows[i].number, |rows|);
  }

  lemma {:induction false} LeastOfGroup(rows: seq<ParsedRow>, i: nat, n: nat) returns (f: nat)
    requires i < |rows| && n <= |rows| && exists j :: 0 <= j < n && SameGroup(rows, i, j)
    ensures f < n && SameGroup(rows, i, f) && forall j :: 0 <= j < f ==> !SameGroup(rows, i, j)
  {
    var j :| 0 <= j < n && SameGroup(rows, i, j);
    if exists k :: 0 <= k < j && SameGroup(rows, i, k) { f := LeastOfGroup(rows, i, j); } else { f := j; }
  }

  /** The confirmed batch starts with counters that match its rows and nothing processed yet. */
  lemma {:induction false} ConfirmedPreview(rows: seq<ParsedRow>)
    ensures var b := Batch(Preview, None, |rows|, Counters(0, 0, 0, 0, 0, 0, 0), PreviewRows(rows));
      && Counted(Confirm(b))
      && CountRows(b.rows, Created) == CountRows(b.rows, Updated) == CountRows(b.rows, Unchanged) == 0
      && (Counted(b) <==> CountRows(b.rows, Skipped) == CountRows(b.rows, Failed) == 0)
  {
    var out := PreviewRows(rows);
    NeverProcessed(out, Created);
    NeverProcessed(out, Updated);
    NeverProcessed(out, Unchanged);
  }

  lemma {:induction false} NeverProcessed(rows: seq<Row>, o: Outcome)
    requires forall i :: 0 <= i < |rows| ==> rows[i].state.Pending? || rows[i].state.outcome != o
    ensures CountRows(rows, o) == 0
  {
    if rows != [] { NeverProcessed(rows[1..], o); }
  }

  function PreviewBatch(rows: seq<ParsedRow>): Batch {
    Batch(Preview, None, |rows|, Counters(0, 0, 0, 0, 0, 0, 0), PreviewRows(rows))
  }

  /** From the parsed file to the completed batch: whatever happened in between, the inventory, the outcomes and the
      audit events are those of taking the file's surviving rows one by one. */
  lemma {:induction false} ImportedFileIsFolded(rules: Rules, world: World, rows: seq<ParsedRow>, states: seq<Sys>, evs: seq<Event>, i: nat)
    requires forall k :: 0 <= k < |rows| ==> Parsed(rows[k])
    requires IsRun(rules, Db(world, Confirm(PreviewBatch(rows))), states, evs) && i < |states|
    requires states[i].db.batch.status == Completed || states[i].db.batch.status == CompletedWithErrors
    ensures (states[i].db.world, states[i].db.batch.rows) == Fold(rules, world, PreviewRows(rows))
    ensures !AnyPending(states[i].db.batch.rows) && Counted(states[i].db.batch)
  {
    var start := Db(world, Confirm(PreviewBatch(rows)));
    PendingNumbersDistinct(rows);
    ConfirmedPreview(rows);
    CompletedMeansFolded(rules, start, PreviewBatch(rows), states, evs, i);
    CountersAddUp(rules, start, PreviewBatch(rows), states, evs, i);
  }
}
