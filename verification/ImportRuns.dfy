/** Every run of a confirmed batch under any number of current, stale and crashed workers. */
module ImportRuns {
  import opened ImportModel
  import opened ImportProofs
  import opened Options

  // ---------- the invariant ----------

  /** Only a worker that was given the token holds it, and only while processing. */
  ghost predicate TokenOk(s: Sys) {
    && (s.db.batch.token.Some? <==> s.db.batch.status == Processing)
    && (s.db.batch.token.Some? ==> s.db.batch.token.value in s.workers)
  }

  /** The worker in charge fails exactly the row whose statement it saw fail. */
  ghost predicate FailureOk(rules: Rules, s: Sys) {
    s.db.batch.token.Some? && s.db.batch.token.value in s.workers && s.workers[s.db.batch.token.value].MustFail? ==>
      NextFails(rules, s.db, s.workers[s.db.batch.token.value].code)
  }

  ghost predicate Inv(rules: Rules, start: Db, s: Sys) {
    && TokenOk(s) && FailureOk(rules, s)
    && s.db.batch.status != Preview
    && Distinct(s.db.batch.rows) && Counted(s.db.batch)
    && Destiny(rules, s.db) == Destiny(rules, start)
    && s.db.batch.totalRows == start.batch.totalRows
    && (s.db.batch.status == Completed || s.db.batch.status == CompletedWithErrors ==> AllDone(s.db.batch.rows))
    && (s.db.batch.status == Completed ==> s.db.batch.counters.failed == 0)
    && (s.db.batch.status == CompletedWithErrors ==> s.db.batch.counters.failed > 0)
  }

  // ---------- how one statement changes the rows ----------

  /** A finished row never changes, and only pending rows of an owned batch do. */
  ghost predicate RowsKept(db: Db, db': Db, token: Option<nat>) {
    && |db'.batch.rows| == |db.batch.rows|
    && (forall i :: 0 <= i < |db.batch.rows| ==>
          && db'.batch.rows[i].source == db.batch.rows[i].source
          && (db.batch.rows[i].state.Done? ==> db'.batch.rows[i] == db.batch.rows[i])
          && (db'.batch.rows[i] != db.batch.rows[i] ==>
                db'.batch.rows[i].state.Done? && token.Some? && Owned(db.batch, token.value)))
  }

  lemma {:induction false} StatementRows(rules: Rules, db: Db, token: nat, limit: nat, blocked: bool, db': Db, result: StatementResult)
    requires Statement(rules, db, token, limit, blocked, db', result)
    ensures RowsKept(db, db', Some(token))
    ensures db'.batch == db.batch.(rows := db'.batch.rows, counters := db'.batch.counters)
    ensures !Owned(db.batch, token) ==> db' == db
    ensures result.Raised? ==> db' == db && Owned(db.batch, token)
  {}

  lemma {:induction false} KeepsDistinct(db: Db, db': Db, token: Option<nat>)
    requires Distinct(db.batch.rows) && RowsKept(db, db', token)
    ensures Distinct(db'.batch.rows)
  {
    var rows, rows' := db.batch.rows, db'.batch.rows;
    forall i, j | 0 <= i < |rows'| && 0 <= j < |rows'| ensures !SameNumberPending(rows', i, j) {
      assert !SameNumberPending(rows, i, j);
    }
  }

  lemma {:induction false} StatementKeeps(rules: Rules, start: Db, s: Sys, token: nat, limit: nat, blocked: bool, s': Sys, result: StatementResult, pc: Pc)
    requires Inv(rules, start, s) && token in s.workers
    requires Statement(rules, s.db, token, limit, blocked, s'.db, result)
    requires s'.workers == s.workers[token := pc]
    requires s'.workers[token].MustFail? && Owned(s.db.batch, token) ==>
               s'.db == s.db && NextFails(rules, s.db, s'.workers[token].code)
    ensures Inv(rules, start, s')
  {
    StatementRows(rules, s.db, token, limit, blocked, s'.db, result);
    KeepsDistinct(s.db, s'.db, Some(token));
    if !blocked && Owned(s.db.batch, token) && result.Returned? {
      var n := Cut(s.db.batch.rows, limit);
      StatementCounts(rules, s.db, n);
      StatementKeepsDestiny(rules, s.db, n);
    }
  }

  lemma {:induction false} FailKeeps(rules: Rules, start: Db, s: Sys, token: nat, pc: Pc)
    requires Inv(rules, start, s) && token in s.workers && s.workers[token].MustFail? && !pc.MustFail?
    ensures Inv(rules, start, Sys(FailNext(s.db, token, s.workers[token].code), s.workers[token := pc]))
    ensures RowsKept(s.db, FailNext(s.db, token, s.workers[token].code), Some(token))
  {
    var db' := FailNext(s.db, token, s.workers[token].code);
    if Owned(s.db.batch, token) {
      FailKeepsDestiny(rules, s.db, token, s.workers[token].code);
      KeepsDistinct(s.db, db', Some(token));
      forall o ensures CountRows(db'.batch.rows, o) == CountRows(s.db.batch.rows, o) + (if o == Failed then 1 else 0) {
        FailCounts(s.db.batch, Cut(s.db.batch.rows, 1) - 1, s.workers[token].code, o);
      }
    }
  }

  lemma {:induction false} BulkKeeps(rules: Rules, start: Db, s: Sys, token: nat, blocked: bool, s': Sys)
    requires Inv(rules, start, s) && Next(rules, s, Bulk(token, blocked), s')
    ensures Inv(rules, start, s') && RowsKept(s.db, s'.db, Some(token))
  {
    var result: StatementResult :| Statement(rules, s.db, token, ROWS_PER_QUERY, blocked, s'.db, result)
              && s'.workers == s.workers[token := AfterBulk(result)];
    StatementRows(rules, s.db, token, ROWS_PER_QUERY, blocked, s'.db, result);
    StatementKeeps(rules, start, s, token, ROWS_PER_QUERY, blocked, s', result, AfterBulk(result));
  }

  lemma {:induction false} OneKeeps(rules: Rules, start: Db, s: Sys, token: nat, blocked: bool, s': Sys)
    requires Inv(rules, start, s) && Next(rules, s, One(token, blocked), s')
    ensures Inv(rules, start, s') && RowsKept(s.db, s'.db, Some(token))
  {
    var result: StatementResult :| Statement(rules, s.db, token, 1, blocked, s'.db, result)
              && s'.workers == s.workers[token := AfterOne(result, s.workers[token].index)];
    StatementRows(rules, s.db, token, 1, blocked, s'.db, result);
    if result.Raised? { OneRowError(rules, s.db, result.error); }
    StatementKeeps(rules, start, s, token, 1, blocked, s', result, AfterOne(result, s.workers[token].index));
  }

  lemma {:induction false} NextKeeps(rules: Rules, start: Db, s: Sys, ev: Event, s': Sys)
    requires Inv(rules, start, s) && Next(rules, s, ev, s')
    ensures Inv(rules, start, s')
    ensures RowsKept(s.db, s'.db, Acting(ev))
  {
    match ev
    case Claim(token) =>
    case Release =>
    case Bulk(token, blocked) =>
      BulkKeeps(rules, start, s, token, blocked, s');
    case One(token, blocked) =>
      OneKeeps(rules, start, s, token, blocked, s');
    case Fail(token) => FailKeeps(rules, start, s, token, AfterReplay(s.workers[token].index));
    case Finish(token) =>
    case Crash(token) =>
  }

  function Acting(ev: Event): Option<nat> {
    match ev
    case Bulk(token, _) => Some(token)
    case One(token, _) => Some(token)
    case Fail(token) => Some(token)
    case _ => None
  }

  // ---------- runs ----------

  ghost predicate IsRun(rules: Rules, start: Db, states: seq<Sys>, evs: seq<Event>) {
    && |states| == |evs| + 1 && states[0] == Sys(start, map[])
    && forall i :: 0 <= i < |evs| ==> Next(rules, states[i], evs[i], states[i + 1])
  }

  /** A batch just confirmed from a preview whose pending rows have different inventory numbers. */
  ghost predicate JustConfirmed(start: Db, preview: Batch) {
    && start.batch == Confirm(preview) && preview.token == None
    && preview.totalRows == |preview.rows| && Distinct(preview.rows)
    && CountRows(preview.rows, Created) == CountRows(preview.rows, Updated) == CountRows(preview.rows, Unchanged) == 0
  }

  lemma {:induction false} RunKeeps(rules: Rules, start: Db, preview: Batch, states: seq<Sys>, evs: seq<Event>, i: nat)
    requires JustConfirmed(start, preview) && IsRun(rules, start, states, evs) && i < |states|
    ensures Inv(rules, start, states[i])
  {
    if i > 0 {
      RunKeeps(rules, start, preview, states, evs, i - 1);
      NextKeeps(rules, start, states[i - 1], evs[i - 1], states[i]);
    }
  }

  /** However the batch was cut up by errors, crashes, stale workers and new leases, a completed batch left the
      inventory, the row outcomes and the audit events of processing its rows one by one in source order. */
  lemma {:induction false} CompletedMeansFolded(rules: Rules, start: Db, preview: Batch, states: seq<Sys>, evs: seq<Event>, i: nat)
    requires JustConfirmed(start, preview) && IsRun(rules, start, states, evs) && i < |states|
    requires states[i].db.batch.status == Completed || states[i].db.batch.status == CompletedWithErrors
    ensures (states[i].db.world, states[i].db.batch.rows) == Fold(rules, start.world, preview.rows)
    ensures !AnyPending(Fold(rules, start.world, preview.rows).1)
    ensures states[i].db.batch.status == CompletedWithErrors <==> CountRows(Fold(rules, start.world, preview.rows).1, Failed) > 0
  {
    RunKeeps(rules, start, preview, states, evs, i);
    var db := states[i].db;
    FoldDone(rules, db.world, db.batch.rows);
  }

  /** In every state after the confirmation the counters are the row counts and add up to the total. */
  lemma {:induction false} CountersAddUp(rules: Rules, start: Db, preview: Batch, states: seq<Sys>, evs: seq<Event>, i: nat)
    requires JustConfirmed(start, preview) && IsRun(rules, start, states, evs) && i < |states|
    ensures Counted(states[i].db.batch)
    ensures var b := states[i].db.batch; var c := b.counters;
      c.created + c.updated + c.kept + c.skipped + c.failed + CountPending(b.rows) == b.totalRows == preview.totalRows
  {
    RunKeeps(rules, start, preview, states, evs, i);
    CountsPartition(states[i].db.batch.rows);
  }

  /** A row leaves `pending` at most once, and in the one step that takes it out the acting worker holds
      the current token of the processing batch. */
  lemma {:induction false} PendingLeavesOnce(rules: Rules, start: Db, preview: Batch, states: seq<Sys>, evs: seq<Event>, i: nat, row: nat)
    requires JustConfirmed(start, preview) && IsRun(rules, start, states, evs) && i < |evs|
    requires row < |preview.rows|
    ensures |states[i].db.batch.rows| == |states[i + 1].db.batch.rows| == |preview.rows|
    ensures var r, r' := states[i].db.batch.rows[row], states[i + 1].db.batch.rows[row];
      && (r.state.Done? ==> r' == r)
      && (r' != r ==> r'.state.Done? && Acting(evs[i]).Some? && Owned(states[i].db.batch, Acting(evs[i]).value))
  {
    RunKeeps(rules, start, preview, states, evs, i);
    RunKeeps(rules, start, preview, states, evs, i + 1);
    NextKeeps(rules, start, states[i], evs[i], states[i + 1]);
  }
}
