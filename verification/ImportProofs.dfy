/** The worker's statements, replays and lease changes against the one-row-at-a-time meaning of a batch. */
module ImportProofs {
  import opened ImportModel
  import opened Options

  // ---------- the fold ----------

  lemma {:induction false} FoldConcat(rules: Rules, w: World, a: seq<Row>, b: seq<Row>)
    ensures var (w1, a1) := Fold(rules, w, a); var (w2, b1) := Fold(rules, w1, b);
      Fold(rules, w, a + b) == (w2, a1 + b1)
    decreases a
  {
    if a == [] {
      assert [] + b == b;
      assert [] + Fold(rules, w, b).1 == Fold(rules, w, b).1;
    } else {
      assert (a + b)[0] == a[0] && (a + b)[1..] == a[1..] + b;
      var (w0, r0) := ApplyOne(rules, w, a[0]);
      FoldConcat(rules, w0, a[1..], b);
      var (w1, rest) := Fold(rules, w0, a[1..]);
      var (w2, b1) := Fold(rules, w1, b);
      assert ([r0] + rest) + b1 == [r0] + (rest + b1);
    }
  }

  ghost predicate AllDone(rows: seq<Row>) { forall i :: 0 <= i < |rows| ==> rows[i].state.Done? }

  lemma {:induction false} FoldDone(rules: Rules, w: World, rows: seq<Row>)
    requires AllDone(rows)
    ensures Fold(rules, w, rows) == (w, rows)
    decreases rows
  {
    if rows != [] {
      FoldDone(rules, w, rows[1..]);
      assert rows == [rows[0]] + rows[1..];
    }
  }

  // ---------- the bounded statement is the fold of its rows ----------

  ghost predicate Distinct(rows: seq<Row>) {
    forall i, j :: 0 <= i < |rows| && 0 <= j < |rows| ==> !SameNumberPending(rows, i, j)
  }

  predicate Agree(a: Inventory, b: Inventory, number: string) {
    (number in a <==> number in b) && (number in a ==> a[number] == b[number])
  }

  /** No pending row is rejected, and both inventories look the same to every pending row. */
  ghost predicate Clean(rules: Rules, snapshot: Inventory, inventory: Inventory, rows: seq<Row>) {
    forall i :: 0 <= i < |rows| && rows[i].state.Pending? ==>
      && Agree(snapshot, inventory, rows[i].state.payload.number)
      && Rejection(rules, PlanRow(rules, snapshot, rows[i].state.payload)).None?
  }

  lemma {:induction false} CleanTail(rules: Rules, snapshot: Inventory, w: World, rows: seq<Row>)
    requires rows != [] && Distinct(rows) && Clean(rules, snapshot, w.inventory, rows)
    ensures Distinct(rows[1..])
    ensures Clean(rules, snapshot, ApplyOne(rules, w, rows[0]).0.inventory, rows[1..])
  {
    var rest := rows[1..];
    forall i, j | 0 <= i < |rest| && 0 <= j < |rest| ensures !SameNumberPending(rest, i, j) {
      assert !SameNumberPending(rows, i + 1, j + 1);
    }
    forall i | 0 <= i < |rest| && rest[i].state.Pending?
      ensures Agree(snapshot, ApplyOne(rules, w, rows[0]).0.inventory, rest[i].state.payload.number)
      ensures Rejection(rules, PlanRow(rules, snapshot, rest[i].state.payload)).None?
    {
      assert rest[i] == rows[i + 1];
      assert !SameNumberPending(rows, 0, i + 1);
    }
  }

  lemma {:induction false} FoldCons(rules: Rules, w: World, r: Row, rest: seq<Row>)
    ensures var (w1, r1) := ApplyOne(rules, w, r); var (w2, rest') := Fold(rules, w1, rest);
      Fold(rules, w, [r] + rest) == (w2, [r1] + rest')
  {
    assert ([r] + rest)[1..] == rest;
  }

  lemma {:induction false} MergeRegrouped(a: Inventory, b: Inventory, c: Inventory)
    ensures (a + b) + c == a + (b + c)
  {}

  /** The first row's own contribution, computed from the snapshot. */
  lemma {:induction false} ApplyFromSnapshot(rules: Rules, snapshot: Inventory, w: World, rows: seq<Row>)
    requires rows != [] && Clean(rules, snapshot, w.inventory, rows)
    ensures var (w1, r1) := ApplyOne(rules, w, rows[0]); var later := SnapshotWrites(rules, snapshot, rows[1..]);
      && r1 == MarkRow(rules, snapshot, rows[0])
      && w1.inventory + later == w.inventory + SnapshotWrites(rules, snapshot, rows)
      && w1.audit + SnapshotAudits(rules, snapshot, rows[1..]) == w.audit + SnapshotAudits(rules, snapshot, rows)
  {
    var later := SnapshotWrites(rules, snapshot, rows[1..]);
    if rows[0].state.Pending? {
      var plan := PlanRow(rules, snapshot, rows[0].state.payload);
      ApplyClean(rules, snapshot, w, rows);
      MergeRegrouped(w.inventory, Writes(plan), later);
    } else {
      assert map[] + later == later;
    }
  }

  lemma {:induction false} ApplyClean(rules: Rules, snapshot: Inventory, w: World, rows: seq<Row>)
    requires rows != [] && rows[0].state.Pending? && Clean(rules, snapshot, w.inventory, rows)
    ensures var plan := PlanRow(rules, snapshot, rows[0].state.payload);
      ApplyOne(rules, w, rows[0]) ==
        (World(w.inventory + Writes(plan), w.audit + Audits(plan)), rows[0].(state := PlanState(plan)))
  {
    assert PlanRow(rules, snapshot, rows[0].state.payload) == PlanRow(rules, w.inventory, rows[0].state.payload);
  }

  /** Reading the inventory once is as good as reading it again before every row. */
  lemma {:induction false} SnapshotIsFold(rules: Rules, snapshot: Inventory, w: World, rows: seq<Row>)
    requires Distinct(rows) && Clean(rules, snapshot, w.inventory, rows)
    ensures Fold(rules, w, rows).0.inventory == w.inventory + SnapshotWrites(rules, snapshot, rows)
    ensures Fold(rules, w, rows).0.audit == w.audit + SnapshotAudits(rules, snapshot, rows)
    ensures Fold(rules, w, rows).1 == SnapshotRows(rules, snapshot, rows)
    decreases rows
  {
    if rows == [] {
      assert w.inventory + map[] == w.inventory;
    } else {
      CleanTail(rules, snapshot, w, rows);
      SnapshotIsFold(rules, snapshot, ApplyOne(rules, w, rows[0]).0, rows[1..]);
      ApplyFromSnapshot(rules, snapshot, w, rows);
      assert rows == [rows[0]] + rows[1..];
      FoldCons(rules, w, rows[0], rows[1..]);
    }
  }

  lemma {:induction false} RejectionListed(rules: Rules, snapshot: Inventory, rows: seq<Row>, i: nat)
    requires i < |rows| && rows[i].state.Pending?
    requires Rejection(rules, PlanRow(rules, snapshot, rows[i].state.payload)).Some?
    ensures SnapshotErrors(rules, snapshot, rows) != {}
  {
    assert Rejection(rules, PlanRow(rules, snapshot, rows[i].state.payload)).value in SnapshotErrors(rules, snapshot, rows);
  }

  lemma {:induction false} NoErrorsClean(rules: Rules, snapshot: Inventory, rows: seq<Row>)
    requires SnapshotErrors(rules, snapshot, rows) == {}
    ensures Clean(rules, snapshot, snapshot, rows)
  {
    forall i | 0 <= i < |rows| && rows[i].state.Pending?
      ensures Rejection(rules, PlanRow(rules, snapshot, rows[i].state.payload)).None?
    {
      if Rejection(rules, PlanRow(rules, snapshot, rows[i].state.payload)).Some? {
        RejectionListed(rules, snapshot, rows, i);
      }
    }
  }

  // ---------- selecting the next rows ----------

  lemma {:induction false} CutFacts(rows: seq<Row>, limit: nat)
    ensures var n := Cut(rows, limit);
      && CountPending(rows[..n]) <= limit
      && (CountPending(rows[..n]) < limit ==> n == |rows|)
      && (n > 0 && CountPending(rows[..n]) == limit && limit > 0 ==> rows[n - 1].state.Pending?)
      && (limit == 1 && n > 0 ==> AllDone(rows[..n - 1]))
  {
    if rows != [] && limit > 0 {
      var less := if rows[0].state.Pending? then limit - 1 else limit;
      var n := Cut(rows[1..], less);
      CutFacts(rows[1..], less);
      assert rows[..n + 1] == [rows[0]] + rows[1..][..n];
      assert rows[..n + 1][1..] == rows[1..][..n];
      if limit == 1 && !rows[0].state.Pending? && n > 0 {
        assert rows[..n] == [rows[0]] + rows[1..][..n - 1];
      }
      if n == 0 { assert rows[1..][..0] == []; }
    }
  }

  lemma {:induction false} PendingCount(rows: seq<Row>)
    ensures CountPending(rows) == 0 <==> AllDone(rows)
  {
    if rows != [] {
      PendingCount(rows[1..]);
      assert rows == [rows[0]] + rows[1..];
      if AllDone(rows[1..]) && rows[0].state.Done? { assert AllDone(rows); }
      if AllDone(rows) { assert forall i :: 0 <= i < |rows[1..]| ==> rows[1..][i] == rows[i + 1]; }
    }
  }

  lemma {:induction false} MarkedLength(rules: Rules, snapshot: Inventory, rows: seq<Row>)
    ensures |Marked(rules, snapshot, rows)| == CountPending(rows)
  {
    if rows != [] { MarkedLength(rules, snapshot, rows[1..]); }
  }

  // ---------- counters ----------

  lemma {:induction false} CountConcat(a: seq<Row>, b: seq<Row>, o: Outcome)
    ensures CountRows(a + b, o) == CountRows(a, o) + CountRows(b, o)
  {
    if a == [] {
      assert [] + b == b;
    } else {
      assert (a + b)[0] == a[0] && (a + b)[1..] == a[1..] + b;
      CountConcat(a[1..], b, o);
    }
  }

  lemma {:induction false} CountOfCons(mark: Outcome, rest: seq<Outcome>, o: Outcome)
    ensures CountOf([mark] + rest, o) == (if mark == o then 1 else 0) + CountOf(rest, o)
  {
    assert ([mark] + rest)[1..] == rest;
  }

  lemma {:induction false} CountMarked(rules: Rules, snapshot: Inventory, rows: seq<Row>, o: Outcome)
    ensures CountRows(SnapshotRows(rules, snapshot, rows), o) == CountRows(rows, o) + CountOf(Marked(rules, snapshot, rows), o)
    ensures CountOf(Marked(rules, snapshot, rows), Failed) == 0
  {
    if rows != [] {
      CountMarked(rules, snapshot, rows[1..], o);
      assert SnapshotRows(rules, snapshot, rows)[1..] == SnapshotRows(rules, snapshot, rows[1..]);
      if rows[0].state.Pending? {
        var mark := PlanState(PlanRow(rules, snapshot, rows[0].state.payload)).outcome;
        CountOfCons(mark, Marked(rules, snapshot, rows[1..]), o);
        CountOfCons(mark, Marked(rules, snapshot, rows[1..]), Failed);
      } else {
        assert [] + Marked(rules, snapshot, rows[1..]) == Marked(rules, snapshot, rows[1..]);
      }
    }
  }

  lemma {:induction false} CountsPartition(rows: seq<Row>)
    ensures CountRows(rows, Created) + CountRows(rows, Updated) + CountRows(rows, Unchanged)
          + CountRows(rows, Skipped) + CountRows(rows, Failed) + CountPending(rows) == |rows|
  {
    if rows != [] { CountsPartition(rows[1..]); }
  }

  /** Each counter is the number of rows with its outcome. */
  predicate Counted(b: Batch) {
    && b.totalRows == |b.rows|
    && b.counters.created == CountRows(b.rows, Created)
    && b.counters.updated == CountRows(b.rows, Updated)
    && b.counters.kept == CountRows(b.rows, Unchanged)
    && b.counters.skipped == CountRows(b.rows, Skipped)
    && b.counters.failed == CountRows(b.rows, Failed)
    && b.counters.applied == b.counters.created + b.counters.updated
    && b.counters.successful == b.counters.created + b.counters.updated + b.counters.kept
  }

  lemma {:induction false} StatementCounts(rules: Rules, db: Db, n: nat)
    requires n <= |db.batch.rows| && Counted(db.batch)
    ensures Counted(AfterStatement(rules, db, n).batch)
  {
    var rows := db.batch.rows;
    var snapshot := db.world.inventory;
    assert rows[..n] + rows[n..] == rows;
    forall o ensures CountRows(SnapshotRows(rules, snapshot, rows[..n]) + rows[n..], o)
                  == CountRows(rows, o) + CountOf(Marked(rules, snapshot, rows[..n]), o)
    {
      CountConcat(SnapshotRows(rules, snapshot, rows[..n]), rows[n..], o);
      CountConcat(rows[..n], rows[n..], o);
      CountMarked(rules, snapshot, rows[..n], o);
    }
    CountMarked(rules, snapshot, rows[..n], Failed);
  }

  lemma {:induction false} FailCounts(b: Batch, n: nat, code: string, o: Outcome)
    requires n < |b.rows| && b.rows[n].state.Pending?
    ensures CountRows(b.rows[n := b.rows[n].(state := Done(Failed, code))], o)
         == CountRows(b.rows, o) + (if o == Failed then 1 else 0)
  {
    var failed := b.rows[n].(state := Done(Failed, code));
    assert b.rows == b.rows[..n] + ([b.rows[n]] + b.rows[n + 1..]);
    assert b.rows[n := failed] == b.rows[..n] + ([failed] + b.rows[n + 1..]);
    CountConcat(b.rows[..n], [b.rows[n]] + b.rows[n + 1..], o);
    CountConcat(b.rows[..n], [failed] + b.rows[n + 1..], o);
    assert ([failed] + b.rows[n + 1..])[1..] == b.rows[n + 1..];
    assert ([b.rows[n]] + b.rows[n + 1..])[1..] == b.rows[n + 1..];
  }

  // ---------- what every step keeps ----------

  /** The result the rest of the batch leads to, seen from this database. */
  ghost function Destiny(rules: Rules, db: Db): (World, seq<Row>) {
    Fold(rules, db.world, db.batch.rows)
  }

  lemma {:induction false} StatementKeepsDestiny(rules: Rules, db: Db, n: nat)
    requires n <= |db.batch.rows| && Distinct(db.batch.rows)
    requires SnapshotErrors(rules, db.world.inventory, db.batch.rows[..n]) == {}
    ensures Destiny(rules, AfterStatement(rules, db, n)) == Destiny(rules, db)
  {
    var rows := db.batch.rows;
    var selected, rest := rows[..n], rows[n..];
    var db' := AfterStatement(rules, db, n);
    forall i, j | 0 <= i < n && 0 <= j < n ensures !SameNumberPending(selected, i, j) {
      assert !SameNumberPending(rows, i, j);
    }
    NoErrorsClean(rules, db.world.inventory, selected);
    SnapshotIsFold(rules, db.world.inventory, db.world, selected);
    var done := SnapshotRows(rules, db.world.inventory, selected);
    assert rows == selected + rest;
    FoldConcat(rules, db.world, selected, rest);
    assert AllDone(done);
    FoldDone(rules, db'.world, done);
    FoldConcat(rules, db'.world, done, rest);
  }

  /** The first pending row is the one its owner is about to mark failed with `code`. */
  ghost predicate NextFails(rules: Rules, db: Db, code: string) {
    var n := Cut(db.batch.rows, 1);
    && n > 0 && db.batch.rows[n - 1].state.Pending?
    && ApplyOne(rules, db.world, db.batch.rows[n - 1]) == (db.world, db.batch.rows[n - 1].(state := Done(Failed, code)))
  }

  lemma {:induction false} FoldFailed(rules: Rules, w: World, rows: seq<Row>, k: nat, failed: Row)
    requires k < |rows| && AllDone(rows[..k]) && ApplyOne(rules, w, rows[k]) == (w, failed) == ApplyOne(rules, w, failed)
    ensures Fold(rules, w, rows[k := failed]) == Fold(rules, w, rows)
  {
    var before, r, rest := rows[..k], rows[k], rows[k + 1..];
    assert rows == before + ([r] + rest) && rows[k := failed] == before + ([failed] + rest);
    FoldDone(rules, w, before);
    FoldConcat(rules, w, before, [r] + rest);
    FoldConcat(rules, w, before, [failed] + rest);
    FoldCons(rules, w, r, rest);
    FoldCons(rules, w, failed, rest);
  }

  lemma {:induction false} FailKeepsDestiny(rules: Rules, db: Db, token: nat, code: string)
    requires Owned(db.batch, token) && NextFails(rules, db, code)
    ensures Destiny(rules, FailNext(db, token, code)) == Destiny(rules, db)
  {
    var rows := db.batch.rows;
    var n := Cut(rows, 1);
    CutFacts(rows, 1);
    FoldFailed(rules, db.world, rows, n - 1, rows[n - 1].(state := Done(Failed, code)));
  }

  /** A one-row statement can only stop on the row that comes next. */
  lemma {:induction false} OneRowError(rules: Rules, db: Db, e: SqlError)
    requires e in SnapshotErrors(rules, db.world.inventory, db.batch.rows[..Cut(db.batch.rows, 1)])
    ensures SafeFailure(e).Some? ==> NextFails(rules, db, SafeFailure(e).value)
    ensures SafeFailure(e).None? ==>
      exists i :: 0 <= i < |db.batch.rows| && db.batch.rows[i].state.Pending? && ApplyOne(rules, db.world, db.batch.rows[i]).1 == db.batch.rows[i]
  {
    var rows := db.batch.rows;
    var n := Cut(rows, 1);
    var selected := rows[..n];
    CutFacts(rows, 1);
    forall i | 0 <= i < n - 1 ensures selected[i].state.Done? { assert selected[i] == rows[..n - 1][i]; }
    assert forall i, j :: 0 <= i < n && 0 <= j < n ==> !SameNumberPending(selected, i, j);
    var i :| 0 <= i < n && selected[i].state.Pending?
          && Rejection(rules, PlanRow(rules, db.world.inventory, selected[i].state.payload)) == Some(e);
    assert rows[i] == selected[i];
  }
}
