/** Which confirmed batches can complete at all, over every run of current, stale and crashed workers. */
module ImportCompletion {
  import opened ImportModel
  import opened ImportProofs
  import opened ImportRuns
  import opened ImportWorker
  import opened ImportPreview
  import opened Options

  predicate Ended(b: Batch) { b.status == Completed || b.status == CompletedWithErrors }

  /** A batch with a row that only an unrecognised error refuses completes in no run, whoever works on it. */
  lemma {:induction false} BlockedNeverCompletes(rules: Rules, start: Db, preview: Batch, states: seq<Sys>, evs: seq<Event>, i: nat)
    requires JustConfirmed(start, preview) && IsRun(rules, start, states, evs) && i < |states|
    requires Blocked(rules, start)
    ensures !Ended(states[i].db.batch)
  {
    BlockedMeansStuck(rules, start);
    if Ended(states[i].db.batch) { CompletedMeansFolded(rules, start, preview, states, evs, i); }
  }

  // ---------- a run that completes ----------

  ghost predicate Path(rules: Rules, s: Sys, states: seq<Sys>, evs: seq<Event>) {
    && |states| == |evs| + 1 && states[0] == s
    && forall i :: 0 <= i < |evs| ==> Next(rules, states[i], evs[i], states[i + 1])
  }

  lemma {:induction false} Prepend(rules: Rules, s: Sys, ev: Event, states: seq<Sys>, evs: seq<Event>)
    requires states != [] && Next(rules, s, ev, states[0]) && Path(rules, states[0], states, evs)
    ensures Path(rules, s, [s] + states, [ev] + evs)
    ensures ([s] + states)[|states|] == states[|states| - 1]
  {
    var all, events := [s] + states, [ev] + evs;
    forall i | 0 <= i < |events| ensures Next(rules, all[i], events[i], all[i + 1]) {
      if i > 0 { assert all[i] == states[i - 1] && events[i] == evs[i - 1] && all[i + 1] == states[i]; }
    }
  }

  /** The worker with this token owns a good batch that no row blocks. */
  ghost predicate Working(rules: Rules, s: Sys, token: nat) {
    && token in s.workers && Owned(s.db.batch, token) && Distinct(s.db.batch.rows) && Counted(s.db.batch)
    && !Blocked(rules, s.db)
  }

  lemma {:induction false} StaysUnblocked(rules: Rules, db: Db, db': Db)
    requires Distinct(db.batch.rows) && Distinct(db'.batch.rows) && Destiny(rules, db') == Destiny(rules, db)
    ensures Blocked(rules, db') <==> Blocked(rules, db)
  {
    BlockedMeansStuck(rules, db);
    BlockedMeansStuck(rules, db');
  }

  /** What the statement does for the owner of the batch, when it runs to its end or stops at a row. */
  lemma {:induction false} StatementOutcome(rules: Rules, db: Db, token: nat, limit: nat) returns (db': Db, result: StatementResult)
    requires Owned(db.batch, token) && Distinct(db.batch.rows) && Counted(db.batch) && !Blocked(rules, db) && limit > 0
    ensures Statement(rules, db, token, limit, false, db', result)
    ensures Owned(db'.batch, token) && Distinct(db'.batch.rows) && Counted(db'.batch) && !Blocked(rules, db')
    ensures result.Raised? ==> db' == db && SafeFailure(result.error).Some? && !AllDone(db.batch.rows)
    ensures result.Raised? && limit == 1 ==> NextFails(rules, db, SafeFailure(result.error).value)
    ensures result == Returned([]) ==> AllDone(db.batch.rows) && AllDone(db'.batch.rows)
    ensures CountPending(db'.batch.rows) <= CountPending(db.batch.rows)
    ensures result.Returned? && result.outcomes != [] ==> CountPending(db'.batch.rows) < CountPending(db.batch.rows)
  {
    var n := Cut(db.batch.rows, limit);
    CutFacts(db.batch.rows, limit);
    var errors := SnapshotErrors(rules, db.world.inventory, db.batch.rows[..n]);
    if errors != {} {
      var e :| e in errors;
      db', result := db, Raised(e);
      if SafeFailure(e).None? { ThrownErrorBlocks(rules, db, n, e); }
      AllDoneNoErrors(rules, db, limit);
      if limit == 1 { OneRowError(rules, db, e); }
    } else {
      db' := AfterStatement(rules, db, n);
      result := Returned(Marked(rules, db.world.inventory, db.batch.rows[..n]));
      StatementProgress(rules, db, limit);
      StatementFacts(rules, db, token, limit, db', result);
      StaysUnblocked(rules, db, db');
      if result == Returned([]) { NothingMarked(rules, db, n); }
    }
  }

  lemma {:induction false} NothingMarked(rules: Rules, db: Db, n: nat)
    requires n <= |db.batch.rows| && AllDone(db.batch.rows)
    ensures AllDone(AfterStatement(rules, db, n).batch.rows)
  {
    var rows, rows' := db.batch.rows, AfterStatement(rules, db, n).batch.rows;
    forall i | 0 <= i < |rows'| ensures rows'[i].state.Done? { assert rows[i].state.Done?; }
  }

  /** Where a worker goes on by itself: before a bulk statement or in the middle of a replay. */
  predicate Going(pc: Pc) { pc == AtBulk || pc.Replaying? }

  /** Replay of a finished batch leads back to the bulk statement, which ends it; otherwise replay takes a row. */
  function Phase(pc: Pc, rows: seq<Row>): nat { if pc == AtBulk then 1 else if CountPending(rows) == 0 then 2 else 0 }

  lemma {:induction false} FinishPath(rules: Rules, s: Sys, token: nat) returns (states: seq<Sys>, evs: seq<Event>)
    requires Working(rules, s, token) && s.workers[token] == AtComplete && AllDone(s.db.batch.rows)
    ensures Path(rules, s, states, evs) && Ended(states[|states| - 1].db.batch)
  {
    states := [s, Sys(Complete(s.db, token), s.workers[token := Stopped])];
    evs := [Finish(token)];
  }

  lemma {:induction false} FailStep(rules: Rules, s: Sys, token: nat) returns (s': Sys)
    requires Working(rules, s, token) && s.workers[token].MustFail? && NextFails(rules, s.db, s.workers[token].code)
    ensures Next(rules, s, Fail(token), s') && Working(rules, s', token) && Going(s'.workers[token])
    ensures CountPending(s'.db.batch.rows) < CountPending(s.db.batch.rows)
  {
    var code := s.workers[token].code;
    NextFailsFacts(rules, s.db, token, code);
    s' := Sys(FailNext(s.db, token, code), s.workers[token := AfterReplay(s.workers[token].index)]);
    StaysUnblocked(rules, s.db, s'.db);
  }

  /** One statement of the worker. */
  lemma {:induction false} StatementStep(rules: Rules, s: Sys, token: nat) returns (s': Sys, ev: Event, result: StatementResult)
    requires Working(rules, s, token) && Going(s.workers[token])
    ensures Next(rules, s, ev, s') && Working(rules, s', token)
    ensures s'.workers[token] == if s.workers[token] == AtBulk then AfterBulk(result) else AfterOne(result, s.workers[token].index)
    ensures result.Raised? ==> s'.db == s.db && SafeFailure(result.error).Some? && CountPending(s.db.batch.rows) > 0
    ensures result.Raised? && s.workers[token].Replaying? ==> NextFails(rules, s'.db, SafeFailure(result.error).value)
    ensures result == Returned([]) ==> AllDone(s'.db.batch.rows) && CountPending(s.db.batch.rows) == 0
    ensures CountPending(s'.db.batch.rows) <= CountPending(s.db.batch.rows)
    ensures result.Returned? && result.outcomes != [] ==> CountPending(s'.db.batch.rows) < CountPending(s.db.batch.rows)
  {
    var db';
    PendingCount(s.db.batch.rows);
    if s.workers[token] == AtBulk {
      db', result := StatementOutcome(rules, s.db, token, ROWS_PER_QUERY);
      s', ev := Sys(db', s.workers[token := AfterBulk(result)]), Bulk(token, false);
    } else {
      db', result := StatementOutcome(rules, s.db, token, 1);
      s', ev := Sys(db', s.workers[token := AfterOne(result, s.workers[token].index)]), One(token, false);
    }
  }

  /** An undisturbed worker completes an unblocked batch. */
  lemma {:induction false} CompletingPath(rules: Rules, s: Sys, token: nat) returns (states: seq<Sys>, evs: seq<Event>)
    requires Working(rules, s, token) && Going(s.workers[token])
    ensures Path(rules, s, states, evs) && Ended(states[|states| - 1].db.batch)
    decreases CountPending(s.db.batch.rows), Phase(s.workers[token], s.db.batch.rows)
  {
    var s', ev, result := StatementStep(rules, s, token);
    if Going(s'.workers[token]) {
      states, evs := CompletingPath(rules, s', token);
    } else if s'.workers[token] == AtComplete {
      states, evs := FinishPath(rules, s', token);
    } else {
      var s2 := FailStep(rules, s', token);
      states, evs := CompletingPath(rules, s2, token);
      Prepend(rules, s', Fail(token), states, evs);
      states, evs := [s'] + states, [Fail(token)] + evs;
    }
    Prepend(rules, s, ev, states, evs);
    states, evs := [s] + states, [ev] + evs;
  }

  ghost predicate CanComplete(rules: Rules, start: Db) {
    exists states: seq<Sys>, evs: seq<Event>, i: nat :: IsRun(rules, start, states, evs) && i < |states| && Ended(states[i].db.batch)
  }

  /** A confirmed batch can complete if and only if no row of it is refused with an unrecognised error against the
      inventory it starts from. */
  lemma {:induction false} CompletableIff(rules: Rules, start: Db, preview: Batch)
    requires JustConfirmed(start, preview)
    ensures CanComplete(rules, start) <==> !Blocked(rules, start)
  {
    if Blocked(rules, start) {
      forall states: seq<Sys>, evs: seq<Event>, i: nat | IsRun(rules, start, states, evs) && i < |states| ensures !Ended(states[i].db.batch) {
        BlockedNeverCompletes(rules, start, preview, states, evs, i);
      }
    } else {
      var s0 := Sys(start, map[]);
      RunKeeps(rules, start, preview, [s0], [], 0);
      var s1 := Sys(start.(batch := start.batch.(status := Processing, token := Some(0))), map[0 := AtBulk]);
      assert s1.workers == s0.workers[0 := AtBulk];
      StaysUnblocked(rules, start, s1.db);
      var states, evs := CompletingPath(rules, s1, 0);
      Prepend(rules, s0, Claim(0), states, evs);
      assert IsRun(rules, start, [s0] + states, [Claim(0)] + evs);
    }
  }

  // ---------- one file that blocks ----------

  /** A text longer than its column raises an error that the worker does not recognise. */
  function DistrictLimit(): Rules {
    Rules(true, (p: Point) => if p.district.Some? && |p.district.value| > 100 then Some(OtherError) else None)
  }

  function LongDistrict(): seq<ParsedRow> {
    var district := seq(101, _ => 'x');
    [ParsedRow(1, "A1", Some(Payload("A1", 0.0, 0.0, {District}, None, None, Some(district), None, None)), None)]
  }

  /** One row with a district of 101 characters, which the preview lets through: the batch never completes. */
  lemma {:induction false} LongDistrictBlocks(states: seq<Sys>, evs: seq<Event>, i: nat)
    requires IsRun(DistrictLimit(), Db(World(map[], multiset{}), Confirm(PreviewBatch(LongDistrict()))), states, evs)
    requires i < |states|
    ensures Parsed(LongDistrict()[0]) && !Ended(states[i].db.batch)
  {
    var rows := LongDistrict();
    var start := Db(World(map[], multiset{}), Confirm(PreviewBatch(rows)));
    PendingNumbersDistinct(rows);
    ConfirmedPreview(rows);
    assert PreviewRows(rows)[0] == Row(1, Pending(rows[0].payload.value));
    assert Unclassified(DistrictLimit(), map[], start.batch.rows[0]);
    BlockedNeverCompletes(DistrictLimit(), start, PreviewBatch(rows), states, evs, i);
  }
}
