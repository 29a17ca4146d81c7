/** The queue worker's loop over the batch tables, and when it gets a batch done. */
module ImportWorker {
  import opened ImportModel
  import opened ImportProofs
  import opened Options

  // ---------- rows the worker cannot classify ----------

  /** The row would be written, and the database would refuse it with an error the worker throws on. */
  predicate Unclassified(rules: Rules, inventory: Inventory, r: Row) {
    r.state.Pending? &&
    var verdict := Rejection(rules, PlanRow(rules, inventory, r.state.payload));
    verdict.Some? && SafeFailure(verdict.value).None?
  }

  predicate Blocked(rules: Rules, db: Db) {
    exists i :: 0 <= i < |db.batch.rows| && Unclassified(rules, db.world.inventory, db.batch.rows[i])
  }

  lemma {:induction false} DistinctTail(rules: Rules, w: World, rows: seq<Row>)
    requires rows != [] && Distinct(rows)
    ensures Distinct(rows[1..])
    ensures forall i :: 0 <= i < |rows| - 1 ==>
      Unclassified(rules, ApplyOne(rules, w, rows[0]).0.inventory, rows[1..][i]) == Unclassified(rules, w.inventory, rows[i + 1])
  {
    forall i, j | 0 <= i < |rows| - 1 && 0 <= j < |rows| - 1 ensures !SameNumberPending(rows[1..], i, j) {
      assert !SameNumberPending(rows, i + 1, j + 1);
    }
    forall i | 0 <= i < |rows| - 1
      ensures Unclassified(rules, ApplyOne(rules, w, rows[0]).0.inventory, rows[1..][i]) == Unclassified(rules, w.inventory, rows[i + 1])
    {
      assert !SameNumberPending(rows, 0, i + 1);
    }
  }

  /** The fold leaves pending exactly the rows that are unclassified from the start. */
  lemma {:induction false} FoldLeavesPending(rules: Rules, w: World, rows: seq<Row>)
    requires Distinct(rows)
    ensures forall i :: 0 <= i < |rows| ==>
      (Fold(rules, w, rows).1[i].state.Pending? <==> Unclassified(rules, w.inventory, rows[i]))
    decreases rows
  {
    if rows != [] {
      var (w1, r1) := ApplyOne(rules, w, rows[0]);
      DistinctTail(rules, w, rows);
      FoldLeavesPending(rules, w1, rows[1..]);
      forall i | 0 <= i < |rows| ensures Fold(rules, w, rows).1[i].state.Pending? <==> Unclassified(rules, w.inventory, rows[i]) {
        if i > 0 { assert Fold(rules, w, rows).1[i] == Fold(rules, w1, rows[1..]).1[i - 1]; }
      }
    }
  }

  /** Whether a batch can ever complete is decided by its rows and the inventory it starts from. */
  lemma {:induction false} BlockedMeansStuck(rules: Rules, db: Db)
    requires Distinct(db.batch.rows)
    ensures Blocked(rules, db) <==> AnyPending(Destiny(rules, db).1)
  {
    FoldLeavesPending(rules, db.world, db.batch.rows);
  }

  /** An error outside the recognised ones comes from an unclassified row. */
  lemma {:induction false} ThrownErrorBlocks(rules: Rules, db: Db, n: nat, e: SqlError)
    requires n <= |db.batch.rows| && SafeFailure(e).None?
    requires e in SnapshotErrors(rules, db.world.inventory, db.batch.rows[..n])
    ensures Blocked(rules, db)
  {
    var selected := db.batch.rows[..n];
    var i :| 0 <= i < n && selected[i].state.Pending?
          && Rejection(rules, PlanRow(rules, db.world.inventory, selected[i].state.payload)) == Some(e);
    assert selected[i] == db.batch.rows[i];
    assert Unclassified(rules, db.world.inventory, db.batch.rows[i]);
  }

  lemma {:induction false} StatementProgress(rules: Rules, db: Db, limit: nat)
    requires limit > 0
    ensures var n := Cut(db.batch.rows, limit); var m := Marked(rules, db.world.inventory, db.batch.rows[..n]);
      && (m == [] <==> AllDone(db.batch.rows))
      && CountPending(AfterStatement(rules, db, n).batch.rows) + |m| == CountPending(db.batch.rows)
  {
    var rows := db.batch.rows;
    var snapshot := db.world.inventory;
    var n := Cut(rows, limit);
    CutFacts(rows, limit);
    MarkedLength(rules, snapshot, rows[..n]);
    assert rows == rows[..n] + rows[n..];
    PendingConcat(rows[..n], rows[n..]);
    PendingCount(rows);
    var done := SnapshotRows(rules, snapshot, rows[..n]);
    PendingConcat(done, rows[n..]);
    assert AllDone(done);
    PendingCount(done);
  }

  lemma {:induction false} PendingConcat(a: seq<Row>, b: seq<Row>)
    ensures CountPending(a + b) == CountPending(a) + CountPending(b)
  {
    if a == [] {
      assert [] + b == b;
    } else {
      assert (a + b)[0] == a[0] && (a + b)[1..] == a[1..] + b;
      PendingConcat(a[1..], b);
    }
  }

  lemma {:induction false} FailProgress(db: Db, token: nat, code: string)
    requires Owned(db.batch, token) && !AllDone(db.batch.rows)
    ensures CountPending(FailNext(db, token, code).batch.rows) == CountPending(db.batch.rows) - 1
  {
    var rows := db.batch.rows;
    FirstPending(rows);
    var n := Cut(rows, 1);
    PendingReplaced(rows, n - 1, rows[n - 1].(state := Done(Failed, code)));
  }

  lemma {:induction false} FirstPending(rows: seq<Row>)
    requires !AllDone(rows)
    ensures 1 <= Cut(rows, 1) <= |rows| && rows[Cut(rows, 1) - 1].state.Pending?
  {
    CutFacts(rows, 1);
    PendingCount(rows);
    var n := Cut(rows, 1);
    PendingCount(rows[..n]);
    assert n == |rows| ==> rows[..n] == rows;
  }

  lemma {:induction false} PendingReplaced(rows: seq<Row>, k: nat, done: Row)
    requires k < |rows| && rows[k].state.Pending? && done.state.Done?
    ensures CountPending(rows[k := done]) == CountPending(rows) - 1
  {
    var rest := rows[k + 1..];
    assert rows == rows[..k] + ([rows[k]] + rest) && rows[k := done] == rows[..k] + ([done] + rest);
    PendingConcat(rows[..k], [rows[k]] + rest);
    PendingConcat(rows[..k], [done] + rest);
    assert ([rows[k]] + rest)[1..] == rest && ([done] + rest)[1..] == rest;
  }

  // ---------- the tables and the loop ----------

  datatype BatchEnd = Finished | FencedOff | Interrupted | Threw

  function Requeued(db: Db, leaseExpired: bool): Db {
    if db.batch.status == Processing && leaseExpired then db.(batch := db.batch.(status := Queued, token := None)) else db
  }

  class ImportTables {
    const rules: Rules
    var inventory: Inventory
    var audit: multiset<Audit>
    var status: BatchStatus
    var workerToken: Option<nat>
    var totalRows: nat
    var counters: Counters
    var rows: seq<Row>

    ghost function Abs(): Db
      reads this
    {
      Db(World(inventory, audit), Batch(status, workerToken, totalRows, counters, rows))
    }

    constructor (rules: Rules, db: Db)
      ensures Abs() == db && this.rules == rules
    {
      this.rules := rules;
      inventory, audit := db.world.inventory, db.world.audit;
      status, workerToken, totalRows := db.batch.status, db.batch.token, db.batch.totalRows;
      counters, rows := db.batch.counters, db.batch.rows;
    }

    /** A processing batch whose lease ran out is queued again; then a queued batch goes to the worker with the fresh
        token, unless another batch is being processed. */
    method ClaimBatch(token: nat, leaseExpired: bool, otherProcessing: bool) returns (claimed: bool)
      modifies this
      ensures claimed == (!otherProcessing && (old(status) == Queued || (old(status) == Processing && leaseExpired)))
      ensures claimed ==> Abs() == old(Abs()).(batch := old(Abs()).batch.(status := Processing, token := Some(token)))
      ensures !claimed ==> Abs() == Requeued(old(Abs()), leaseExpired)
    {
      if status == Processing && leaseExpired { status, workerToken := Queued, None; }
      claimed := status == Queued && !otherProcessing;
      if claimed { status, workerToken := Processing, Some(token); }
    }

    /** `blocked`: another statement holds the batch row, and this one skips it. */
    method ProcessImportRows(token: nat, limit: nat, blocked: bool) returns (result: StatementResult)
      modifies this
      ensures Statement(rules, old(Abs()), token, limit, blocked, Abs(), result)
    {
      if blocked || status != Processing || workerToken != Some(token) { return Returned([]); }
      var n := Cut(rows, limit);
      var selected := rows[..n];
      var snapshot := inventory;
      var errors := SnapshotErrors(rules, snapshot, selected);
      if errors != {} {
        var e :| e in errors;
        return Raised(e);
      }
      var marked := Marked(rules, snapshot, selected);
      inventory := inventory + SnapshotWrites(rules, snapshot, selected);
      audit := audit + SnapshotAudits(rules, snapshot, selected);
      rows := SnapshotRows(rules, snapshot, selected) + rows[n..];
      counters := AddCounts(counters, marked);
      return Returned(marked);
    }

    method FailNextPendingRow(token: nat, code: string)
      modifies this
      ensures Abs() == FailNext(old(Abs()), token, code)
    {
      if status != Processing || workerToken != Some(token) { return; }
      var n := Cut(rows, 1);
      if n == 0 || rows[n - 1].state.Done? { return; }
      rows := rows[n - 1 := rows[n - 1].(state := Done(Failed, code))];
      counters := counters.(failed := counters.failed + 1);
    }

    method CompleteBatch(token: nat)
      modifies this
      ensures Abs() == Complete(old(Abs()), token)
    {
      if status != Processing || workerToken != Some(token) || AnyPending(rows) { return; }
      status := if counters.failed > 0 then CompletedWithErrors else Completed;
      workerToken := None;
    }

    /** One-row replay of a statement that was rolled back. Returns false when it throws. */
    method Replay(token: nat) returns (ok: bool)
      requires Owned(Abs().batch, token) && Distinct(rows) && !AllDone(rows) && Counted(Abs().batch)
      modifies this
      ensures Owned(Abs().batch, token) && Distinct(rows) && Counted(Abs().batch)
      ensures Destiny(rules, Abs()) == Destiny(rules, old(Abs()))
      ensures ok ==> CountPending(rows) < CountPending(old(rows))
      ensures !ok ==> Blocked(rules, Abs())
    {
      for index := 0 to ROWS_PER_QUERY
        invariant Owned(Abs().batch, token) && Distinct(rows) && Counted(Abs().batch)
        invariant Destiny(rules, Abs()) == Destiny(rules, old(Abs()))
        invariant if index == 0 then Abs() == old(Abs()) else CountPending(rows) < CountPending(old(rows))
      {
        ghost var before := Abs();
        StatementProgress(rules, before, 1);
        var result := ProcessImportRows(token, 1, false);
        StatementFacts(rules, before, token, 1, Abs(), result);
        if result.Returned? {
          if result.outcomes == [] { break; }
        } else if SafeFailure(result.error).None? {
          ThrownErrorBlocks(rules, before, Cut(before.batch.rows, 1), result.error);
          return false;
        } else {
          var code := SafeFailure(result.error).value;
          OneRowError(rules, before, result.error);
          NextFailsFacts(rules, before, token, code);
          FailNextPendingRow(token, code);
        }
      }
      return true;
    }

    /** The lease runs out between two turns and somebody else claims the batch. */
    method LeaseTaken(other: nat)
      requires status == Processing && workerToken.Some?
      modifies this
      ensures Abs() == old(Abs()).(batch := old(Abs()).batch.(token := Some(other)))
    {
      workerToken := Some(other);
    }

    /** `processBatch` with the token of the batch; `stop` is the shutdown flag at each turn of the loop, `taken`
        the new owner when the lease was lost before a turn. A worker that is fenced off changes nothing more. */
    method ProcessBatch(token: nat, stop: nat -> bool, taken: nat -> Option<nat>) returns (end: BatchEnd)
      requires Owned(Abs().batch, token) && Distinct(rows) && Counted(Abs().batch)
      requires forall i :: taken(i) != Some(token)
      modifies this
      ensures Destiny(rules, Abs()) == Destiny(rules, old(Abs()))
      ensures end == Finished ==>
        && status == (if counters.failed > 0 then CompletedWithErrors else Completed)
        && (Abs().world, rows) == Fold(rules, old(Abs()).world, old(rows))
        && Counted(Abs().batch)
      ensures end == FencedOff <==> !Owned(Abs().batch, token) && status == Processing
      ensures end == FencedOff ==> Counted(Abs().batch) && exists i :: workerToken == taken(i)
      ensures end == Interrupted || end == Threw ==> Owned(Abs().batch, token)
      ensures end == Threw ==> Blocked(rules, old(Abs()))
      ensures Blocked(rules, old(Abs())) ==> end != Finished
      ensures (forall i :: !stop(i)) && (forall i :: taken(i).None?) ==> (end == Finished <==> !Blocked(rules, old(Abs())))
    {
      ghost var start := Abs();
      BlockedMeansStuck(rules, start);
      var turn := 0;
      while !stop(turn)
        invariant Owned(Abs().batch, token) && Distinct(rows) && Counted(Abs().batch)
        invariant Destiny(rules, Abs()) == Destiny(rules, start)
        decreases CountPending(rows)
      {
        if taken(turn).Some? {
          LeaseTaken(taken(turn).value);
          var nothing := ProcessImportRows(token, ROWS_PER_QUERY, false);
          CompleteBatch(token);
          return FencedOff;
        }
        turn := turn + 1;
        ghost var before := Abs();
        BlockedMeansStuck(rules, before);
        StatementProgress(rules, before, ROWS_PER_QUERY);
        var result := ProcessImportRows(token, ROWS_PER_QUERY, false);
        StatementFacts(rules, before, token, ROWS_PER_QUERY, Abs(), result);
        if result.Returned? {
          if result.outcomes == [] {
            FoldDone(rules, Abs().world, rows);
            CompleteBatch(token);
            return Finished;
          }
        } else {
          if SafeFailure(result.error).None? {
            ThrownErrorBlocks(rules, before, Cut(before.batch.rows, ROWS_PER_QUERY), result.error);
            return Threw;
          }
          AllDoneNoErrors(rules, before, ROWS_PER_QUERY);
          var ok := Replay(token);
          if !ok {
            BlockedMeansStuck(rules, Abs());
            return Threw;
          }
        }
      }
      return Interrupted;
    }
  }

  lemma {:induction false} AllDoneNoErrors(rules: Rules, db: Db, limit: nat)
    requires SnapshotErrors(rules, db.world.inventory, db.batch.rows[..Cut(db.batch.rows, limit)]) != {}
    ensures !AllDone(db.batch.rows)
  {
    var selected := db.batch.rows[..Cut(db.batch.rows, limit)];
    var e :| e in SnapshotErrors(rules, db.world.inventory, selected);
    var i :| 0 <= i < |selected| && selected[i].state.Pending?;
    assert db.batch.rows[i] == selected[i];
  }

  lemma {:induction false} StatementFacts(rules: Rules, db: Db, token: nat, limit: nat, db': Db, result: StatementResult)
    requires Owned(db.batch, token) && Distinct(db.batch.rows) && Counted(db.batch)
    requires Statement(rules, db, token, limit, false, db', result)
    ensures Owned(db'.batch, token) && Distinct(db'.batch.rows) && Counted(db'.batch)
    ensures Destiny(rules, db') == Destiny(rules, db)
  {
    if result.Returned? {
      var n := Cut(db.batch.rows, limit);
      StatementKeepsDestiny(rules, db, n);
      StatementCounts(rules, db, n);
      DistinctAfter(rules, db, n);
    }
  }

  lemma {:induction false} DistinctAfter(rules: Rules, db: Db, n: nat)
    requires Distinct(db.batch.rows) && n <= |db.batch.rows|
    ensures Distinct(AfterStatement(rules, db, n).batch.rows)
  {
    var rows, rows' := db.batch.rows, AfterStatement(rules, db, n).batch.rows;
    forall i, j | 0 <= i < |rows'| && 0 <= j < |rows'| ensures !SameNumberPending(rows', i, j) {
      assert !SameNumberPending(rows, i, j);
    }
  }

  lemma {:induction false} NextFailsFacts(rules: Rules, db: Db, token: nat, code: string)
    requires Owned(db.batch, token) && Distinct(db.batch.rows) && Counted(db.batch) && NextFails(rules, db, code)
    ensures var db' := FailNext(db, token, code);
      && Owned(db'.batch, token) && Distinct(db'.batch.rows) && Counted(db'.batch)
      && Destiny(rules, db') == Destiny(rules, db)
      && CountPending(db'.batch.rows) < CountPending(db.batch.rows)
  {
    var db' := FailNext(db, token, code);
    FailKeepsDestiny(rules, db, token, code);
    FailProgress(db, token, code);
    forall i, j | 0 <= i < |db'.batch.rows| && 0 <= j < |db'.batch.rows| ensures !SameNumberPending(db'.batch.rows, i, j) {
      assert !SameNumberPending(db.batch.rows, i, j);
    }
    forall o ensures CountRows(db'.batch.rows, o) == CountRows(db.batch.rows, o) + (if o == Failed then 1 else 0) {
      FailCounts(db.batch, Cut(db.batch.rows, 1) - 1, code, o);
    }
  }
}
