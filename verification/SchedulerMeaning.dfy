/** What a journal of the backup scheduler says: which backup every recorded result came from, and when a slot is tried
    again. */
module SchedulerMeaning {
  import opened SchedulerModel
  import opened SchedulerRuns
  import opened Options

  const MINUTE_MS: int := 60 * 1000

  predicate DueSlot(slot: int, now: int) {
    slot % (360 * MINUTE_MS) == 0 && slot <= now < slot + 360 * MINUTE_MS
  }

  predicate MayRetry(state: BackupState) { state == Incomplete || state == BlockedByMigration }

  /** A first attempt that may be repeated names the instant, a quarter of an hour after `from`; no other finish names one. */
  predicate RetryStated(f: Event, from: int)
    requires f.Finished?
  {
    f.retryAt == if f.attempt == 1 && MayRetry(f.state) then Some(from + 15 * MINUTE_MS) else None
  }

  /** The backup returned this state under the run id it was given. */
  predicate Reported(inp: Inputs, state: BackupState) { inp.execution == Result(inp.runId, state) }

  /** The state is the one the attempt's own backup returned; a backup that threw or answered for another run is incomplete. */
  ghost predicate FinishOfBackup(inp: Inputs, s: Event, f: Event) {
    && s.Started? && s.runId == inp.runId && s.at == inp.startedAt
    && Matches(s, f) && f.at == inp.finishedAt && RetryStated(f, f.at)
    && (forall state :: Reported(inp, state) ==> f.state == state)
    && ((forall state :: !Reported(inp, state)) ==> f.state == Incomplete)
  }

  /** A start left open by a dead process is incomplete, and its retry counts from when it began. */
  predicate FinishOfAbandoned(inp: Inputs, s: Event, f: Event) {
    Matches(s, f) && f.at == inp.reconcileAt(0) && f.state == Incomplete && RetryStated(f, s.at)
  }

  // ---------- when a slot is attempted ----------

  ghost predicate Sound(j: Journal) {
    forall i :: 0 <= i < |j| && j[i].Finished? ==>
      (j[i].retryAt.Some? <==> j[i].attempt == 1 && MayRetry(j[i].state))
  }

  predicate Untried(j: Journal, slot: int) {
    forall i :: 0 <= i < |j| && j[i].Started? ==> j[i].slot != slot
  }

  /** The slot's first attempt ended so that it may be repeated from `at` on, and has not been. */
  predicate AwaitsRetry(j: Journal, slot: int, at: int) {
    && (forall i :: 0 <= i < |j| && j[i].Started? && j[i].slot == slot ==> j[i].attempt == 1)
    && (exists i :: 0 <= i < |j| && RetryFrom(j[i], slot, at))
  }

  predicate RetryFrom(f: Event, slot: int, at: int) {
    f.Finished? && f.slot == slot && f.attempt == 1 && MayRetry(f.state) && f.retryAt == Some(at)
  }

  ghost predicate Due(j: Journal, slot: int, dueNow: int, attempt: nat) {
    || (attempt == 1 && Untried(j, slot))
    || (attempt == 2 && exists at :: AwaitsRetry(j, slot, at) && at <= dueNow)
  }

  /** The slot has a result that is not to be repeated. */
  predicate Settled(j: Journal, slot: int) {
    exists i :: 0 <= i < |j| && SettlingFinish(j[i], slot)
  }

  predicate SettlingFinish(f: Event, slot: int) {
    f.Finished? && f.slot == slot && (f.attempt == 2 || !MayRetry(f.state))
  }

  lemma {:induction false} UntriedDecides(j: Journal, slot: int, dueNow: int)
    requires Inv(j) && |j| % 2 == 0 && LastFinish(j, slot).None?
    ensures Untried(j, slot) && !Settled(j, slot) && forall at :: !AwaitsRetry(j, slot, at)
  {
    var k := SlotHistory(j, slot);
  }

  lemma {:induction false} TriedOnce(j: Journal, slot: int, k: nat)
    requires Inv(j) && Sound(j) && 0 < k < |j| && Matches(j[k - 1], j[k]) && j[k].slot == slot && j[k].attempt == 1
    requires forall i :: 0 <= i < |j| && j[i].slot == slot ==> i == k - 1 || i == k
    ensures !Untried(j, slot) && (Settled(j, slot) <==> !MayRetry(j[k].state))
    ensures forall at :: AwaitsRetry(j, slot, at) <==> j[k].retryAt == Some(at)
  {
    if !MayRetry(j[k].state) { assert SettlingFinish(j[k], slot); }
    forall at ensures AwaitsRetry(j, slot, at) <==> j[k].retryAt == Some(at) {
      if j[k].retryAt == Some(at) { assert RetryFrom(j[k], slot, at); }
    }
  }

  lemma {:induction false} TriedTwice(j: Journal, slot: int, k: nat)
    requires Inv(j) && 0 < k < |j| && Matches(j[k - 1], j[k]) && j[k].slot == slot && j[k].attempt == 2
    ensures !Untried(j, slot) && Settled(j, slot) && forall at :: !AwaitsRetry(j, slot, at)
  {
    assert SettlingFinish(j[k], slot) && j[k - 1].attempt == 2;
  }

  /** What an invocation decides about a slot, from the starts and finishes the journal holds for it. */
  lemma {:induction false} DecideMeans(j: Journal, slot: int, dueNow: int)
    requires Inv(j) && Sound(j) && |j| % 2 == 0
    ensures forall a :: Decide(j, slot, dueNow) == Attempt(a) <==> Due(j, slot, dueNow, a)
    ensures Decide(j, slot, dueNow) == AlreadyFinal <==> Settled(j, slot)
    ensures forall at :: Decide(j, slot, dueNow) == RetryNotDue(at) <==> AwaitsRetry(j, slot, at) && dueNow < at
  {
    var k := SlotHistory(j, slot);
    if k == -1 {
      UntriedDecides(j, slot, dueNow);
    } else {
      assert j[k - 1].attempt in {1, 2};
      if j[k].attempt == 1 { TriedOnce(j, slot, k); } else { TriedTwice(j, slot, k); }
    }
  }

  // ---------- one invocation ----------

  predicate EndsOpen(j: Journal) { j != [] && j[|j| - 1].Started? }

  ghost predicate ClosingMeans(j: Journal, inp: Inputs, closing: seq<Event>) {
    if EndsOpen(j) then |closing| == 1 && FinishOfAbandoned(inp, j[|j| - 1], closing[0]) else closing == []
  }

  ghost predicate AttemptMeans(slot: int, attempt: nat, inp: Inputs, events: seq<Event>) {
    && |events| == 2
    && events[0] == Started(slot, attempt, inp.runId, inp.startedAt)
    && FinishOfBackup(inp, events[0], events[1])
  }

  /** The events of an invocation: the end of an abandoned start, and an attempt at the due slot when one is due. */
  ghost predicate InvocationMeans(j: Journal, inp: Inputs, all: seq<Event>, closing: seq<Event>, slot: int) {
    && closing <= all && ClosingMeans(j, inp, closing) && DueSlot(slot, inp.dueNow)
    && (forall a :: inp.runIdValid && Due(j + closing, slot, inp.dueNow, a) ==> AttemptMeans(slot, a, inp, all[|closing|..]))
    && ((forall a :: !(inp.runIdValid && Due(j + closing, slot, inp.dueNow, a))) ==> all == closing)
  }

  lemma {:induction false} EndsOpenIff(j: Journal)
    requires Inv(j)
    ensures EndsOpen(j) <==> |j| % 2 == 1
  {
    if j != [] { assert InPlace(j, |j| - 1); }
  }

  lemma {:induction false} ClosingMeant(j: Journal, inp: Inputs)
    requires Inv(j) && Sound(j)
    ensures ClosingMeans(j, inp, Reconciliation(j, inp)) && Sound(j + Reconciliation(j, inp))
  {
    EndsOpenIff(j);
    ClosingShape(j, inp);
    if |j| % 2 == 1 {
      assert j[|j| - 1].attempt in {1, 2};
    }
  }

  lemma {:induction false} AttemptMeant(j: Journal, slot: int, inp: Inputs)
    requires Inv(j) && Sound(j) && |j| % 2 == 0 && Decide(j, slot, inp.dueNow).Attempt?
    ensures AttemptMeans(slot, Decide(j, slot, inp.dueNow).number, inp, AttemptEvents(slot, Decide(j, slot, inp.dueNow).number, inp))
  {
    var a := Decide(j, slot, inp.dueNow).number;
    DecideMeans(j, slot, inp.dueNow);
    assert Due(j, slot, inp.dueNow, a);
    if inp.execution.Result? && inp.execution.runId == inp.runId { assert Reported(inp, inp.execution.state); }
  }

  /** An uninterrupted invocation attempts the latest slot exactly when that is due, and records what its own backup
      returned under its own run id. */
  lemma {:induction false} InvocationMeant(j: Journal, inp: Inputs) returns (closing: seq<Event>, slot: int)
    requires Inv(j) && Sound(j) && Ordered(inp) && Fresh(j, inp.runId)
    ensures InvocationMeans(j, inp, Appended(j, inp), closing, slot)
    ensures |j + closing| % 2 == 0 && Inv(j + closing) && Sound(j + closing)
  {
    closing, slot := Reconciliation(j, inp), LatestDueSlot(inp.dueNow);
    LatestDueSlotIsLatest(inp.dueNow);
    assert ScheduledInstant(slot + 360 * MINUTE_MS);
    ClosingMeant(j, inp);
    ReconciliationKeeps(j, inp);
    DecideMeans(j + closing, slot, inp.dueNow);
    var d := Decide(j + closing, slot, inp.dueNow);
    if d.Attempt? {
      AttemptMeant(j + closing, slot, inp);
      assert Due(j + closing, slot, inp.dueNow, d.number);
      assert (closing + AttemptEvents(slot, d.number, inp))[|closing|..] == AttemptEvents(slot, d.number, inp);
    }
  }

  // ---------- histories ----------

  /** The finish was written by this invocation: for its own backup, or for a start it found open. */
  ghost predicate Wrote(inp: Inputs, s: Event, f: Event) {
    FinishOfBackup(inp, s, f) || FinishOfAbandoned(inp, s, f)
  }

  ghost predicate SomeWrote(inputs: seq<Inputs>, n: nat, s: Event, f: Event)
    requires n <= |inputs|
  {
    exists k :: 0 <= k < n && Wrote(inputs[k], s, f)
  }

  ghost predicate Explained(j: Journal, inputs: seq<Inputs>, n: nat)
    requires n <= |inputs|
  {
    forall i :: 0 <= i < |j| && j[i].Finished? ==> i > 0 && SomeWrote(inputs, n, j[i - 1], j[i])
  }

  lemma {:induction false} OneMore(j: Journal, inputs: seq<Inputs>, n: nat)
    requires n < |inputs| && Explained(j, inputs, n)
    ensures Explained(j, inputs, n + 1)
  {
    forall i | 0 <= i < |j| && j[i].Finished? ensures i > 0 && SomeWrote(inputs, n + 1, j[i - 1], j[i]) {
      assert SomeWrote(inputs, n, j[i - 1], j[i]);
    }
  }

  lemma {:induction false} StartExplained(j: Journal, s: Event, inputs: seq<Inputs>, n: nat)
    requires n <= |inputs| && Explained(j, inputs, n) && s.Started?
    ensures Explained(j + [s], inputs, n)
  {
    forall i | 0 <= i < |j| && j[i].Finished? ensures i > 0 && SomeWrote(inputs, n, (j + [s])[i - 1], (j + [s])[i]) {
      assert i > 0 && (j + [s])[i - 1] == j[i - 1];
    }
  }

  lemma {:induction false} FinishExplained(j: Journal, f: Event, inputs: seq<Inputs>, n: nat)
    requires n < |inputs| && Explained(j, inputs, n + 1)
    requires j != [] && Wrote(inputs[n], j[|j| - 1], f)
    ensures Explained(j + [f], inputs, n + 1)
  {
    assert SomeWrote(inputs, n + 1, j[|j| - 1], f);
    forall i | 0 <= i < |j| && j[i].Finished? ensures i > 0 && SomeWrote(inputs, n + 1, (j + [f])[i - 1], (j + [f])[i]) {
      assert i > 0 && (j + [f])[i - 1] == j[i - 1];
    }
  }

  lemma {:induction false} ClosingExplained(j: Journal, inputs: seq<Inputs>, n: nat, closing: seq<Event>)
    requires n < |inputs| && Explained(j, inputs, n + 1) && ClosingMeans(j, inputs[n], closing)
    ensures Explained(j + closing, inputs, n + 1)
  {
    if closing == [] { assert j + closing == j; } else { FinishExplained(j, closing[0], inputs, n); }
  }

  lemma {:induction false} AttemptExplained(base: Journal, inputs: seq<Inputs>, n: nat, slot: int, attempt: nat, events: seq<Event>)
    requires n < |inputs| && Explained(base, inputs, n + 1) && AttemptMeans(slot, attempt, inputs[n], events)
    ensures Explained(base + events[..1], inputs, n + 1) && Explained(base + events, inputs, n + 1)
  {
    assert events[..1] == [events[0]] && base + events == base + [events[0]] + [events[1]];
    StartExplained(base, events[0], inputs, n + 1);
    FinishExplained(base + [events[0]], events[1], inputs, n);
  }

  /** However an invocation is cut off, what it wrote is explained. */
  lemma {:induction false} CutExplained(j: Journal, inputs: seq<Inputs>, n: nat, cut: nat)
    requires n < |inputs| && Inv(j) && Sound(j) && Explained(j, inputs, n)
    requires Ordered(inputs[n]) && Fresh(j, inputs[n].runId) && cut <= |Appended(j, inputs[n])|
    ensures Explained(j + Appended(j, inputs[n])[..cut], inputs, n + 1)
  {
    var all := Appended(j, inputs[n]);
    var closing, slot := InvocationMeant(j, inputs[n]);
    OneMore(j, inputs, n);
    ClosingExplained(j, inputs, n, closing);
    if cut <= |closing| {
      assert j + all[..cut] == if cut == 0 then j else j + closing;
    } else {
      assert exists a :: inputs[n].runIdValid && Due(j + closing, slot, inputs[n].dueNow, a);
      var a :| inputs[n].runIdValid && Due(j + closing, slot, inputs[n].dueNow, a);
      LongCutExplained(j, inputs, n, all, closing, slot, a, cut);
    }
  }

  lemma {:induction false} LongCutExplained(j: Journal, inputs: seq<Inputs>, n: nat, all: seq<Event>, closing: seq<Event>,
                                            slot: int, attempt: nat, cut: nat)
    requires n < |inputs| && closing <= all && |closing| < cut <= |all|
    requires Explained(j + closing, inputs, n + 1) && AttemptMeans(slot, attempt, inputs[n], all[|closing|..])
    ensures Explained(j + all[..cut], inputs, n + 1)
  {
    var events := all[|closing|..];
    AttemptExplained(j + closing, inputs, n, slot, attempt, events);
    if cut == |closing| + 1 {
      assert j + all[..cut] == j + closing + events[..1];
    } else {
      assert j + all[..cut] == j + closing + events;
    }
  }

  /** So the retry instants in an explained journal are those of its first attempts that may be repeated. */
  lemma {:induction false} ExplainedSound(j: Journal, inputs: seq<Inputs>, n: nat)
    requires n <= |inputs| && Explained(j, inputs, n)
    ensures Sound(j)
  {
    forall i | 0 <= i < |j| && j[i].Finished? ensures j[i].retryAt.Some? <==> j[i].attempt == 1 && MayRetry(j[i].state) {
      var k :| 0 <= k < n && Wrote(inputs[k], j[i - 1], j[i]);
    }
  }

  /** Every finish in every journal was written for a backup that ended so, or for a start that a dead process left. */
  lemma {:induction false} HistoryExplained(js: seq<Journal>, inputs: seq<Inputs>, cuts: seq<nat>, n: nat)
    requires IsHistory(js, inputs, cuts) && n < |js|
    ensures Explained(js[n], inputs, n) && Sound(js[n])
  {
    if n > 0 {
      HistoryExplained(js, inputs, cuts, n - 1);
      HistoryKeeps(js, inputs, cuts, n - 1);
      CutExplained(js[n - 1], inputs, n - 1, cuts[n - 1]);
      ExplainedSound(js[n], inputs, n);
    }
  }

  /** A slot counts as backed up only when a backup returned complete under the run id that the journal shows. */
  lemma {:induction false} CompleteMeansBackedUp(js: seq<Journal>, inputs: seq<Inputs>, cuts: seq<nat>, n: nat, i: nat)
    requires IsHistory(js, inputs, cuts) && n < |js| && i < |js[n]|
    requires js[n][i].Finished? && js[n][i].state == Complete
    ensures exists k :: 0 <= k < n && inputs[k].runId == js[n][i].runId && inputs[k].execution == Result(js[n][i].runId, Complete)
  {
    HistoryExplained(js, inputs, cuts, n);
    var k :| 0 <= k < n && Wrote(inputs[k], js[n][i - 1], js[n][i]);
    var state :| Reported(inputs[k], state);
    assert js[n][i].state == state;
  }

  lemma {:induction false} JournalGrows(js: seq<Journal>, inputs: seq<Inputs>, cuts: seq<nat>, m: nat, n: nat)
    requires IsHistory(js, inputs, cuts) && m <= n < |js|
    ensures js[m] <= js[n]
  {
    if m < n { JournalGrows(js, inputs, cuts, m, n - 1); }
  }

  /** What the history's invocation `n` did when nothing cut it off: it closed an abandoned start, and then attempted its
      slot if that was due. */
  lemma {:induction false} UninterruptedMeant(js: seq<Journal>, inputs: seq<Inputs>, cuts: seq<nat>, n: nat)
    returns (closing: seq<Event>, slot: int, appended: seq<Event>)
    requires IsHistory(js, inputs, cuts) && n < |inputs| && cuts[n] == |Appended(js[n], inputs[n])|
    ensures js[n + 1] == js[n] + appended && InvocationMeans(js[n], inputs[n], appended, closing, slot)
  {
    HistoryKeeps(js, inputs, cuts, n);
    HistoryExplained(js, inputs, cuts, n);
    closing, slot := InvocationMeant(js[n], inputs[n]);
    appended := Appended(js[n], inputs[n]);
    assert appended[..cuts[n]] == appended;
  }

  /** After this invocation the journal ends with an attempt at the slot and the end of its backup. */
  ghost predicate EndsWithAttempt(j: Journal, inp: Inputs, slot: int, attempt: nat) {
    |j| >= 2 && AttemptMeans(slot, attempt, inp, j[|j| - 2..])
  }

  /** A first attempt that ended incomplete or blocked, say because its backup threw, is made a second time by the next
      uninterrupted invocation for that slot that begins at or after the instant it named. */
  lemma {:induction false} FailureIsRetried(js: seq<Journal>, inputs: seq<Inputs>, cuts: seq<nat>, n: nat, i: nat, slot: int)
    requires IsHistory(js, inputs, cuts) && n < |inputs| && cuts[n] == |Appended(js[n], inputs[n])| && inputs[n].runIdValid
    requires i < |js[n]| && js[n][i].Finished? && js[n][i].slot == slot && js[n][i].attempt == 1 && MayRetry(js[n][i].state)
    requires forall k :: 0 <= k < |js[n]| && js[n][k].Started? && js[n][k].slot == slot ==> js[n][k].attempt == 1
    requires DueSlot(slot, inputs[n].dueNow) && js[n][i].retryAt.Some? && js[n][i].retryAt.value <= inputs[n].dueNow
    ensures EndsWithAttempt(js[n + 1], inputs[n], slot, 2)
  {
    var j := js[n];
    var closing, due, appended := UninterruptedMeant(js, inputs, cuts, n);
    OneDueSlot(slot, due, inputs[n].dueNow);
    var at := j[i].retryAt.value;
    assert RetryFrom((j + closing)[i], slot, at);
    assert AwaitsRetry(j + closing, slot, at);
    assert Due(j + closing, slot, inputs[n].dueNow, 2);
    assert js[n + 1][|js[n + 1]| - 2..] == appended[|closing|..];
  }

  lemma {:induction false} OneDueSlot(a: int, b: int, now: int)
    requires DueSlot(a, now) && DueSlot(b, now)
    ensures a == b
  {
    var x, y := a / (360 * MINUTE_MS), b / (360 * MINUTE_MS);
    assert a == x * (360 * MINUTE_MS) && b == y * (360 * MINUTE_MS);
  }

  /** The first time a slot is the latest one and has no attempt, an uninterrupted invocation attempts it; when the backup
      completes, every later journal says so, and the slot is never attempted again. */
  lemma {:induction false} BackupIsRecorded(js: seq<Journal>, inputs: seq<Inputs>, cuts: seq<nat>, n: nat, slot: int, later: nat)
    requires IsHistory(js, inputs, cuts) && n < later < |js| && cuts[n] == |Appended(js[n], inputs[n])| && inputs[n].runIdValid
    requires DueSlot(slot, inputs[n].dueNow) && Untried(js[n], slot) && Reported(inputs[n], Complete)
    ensures EndsWithAttempt(js[n + 1], inputs[n], slot, 1) && js[n + 1] <= js[later]
    ensures js[n + 1][|js[n + 1]| - 1].state == Complete
    ensures forall k :: |js[n + 1]| <= k < |js[later]| && js[later][k].Started? ==> js[later][k].slot != slot
  {
    var closing, due, appended := UninterruptedMeant(js, inputs, cuts, n);
    OneDueSlot(slot, due, inputs[n].dueNow);
    assert Due(js[n] + closing, slot, inputs[n].dueNow, 1);
    assert js[n + 1][|js[n + 1]| - 2..] == appended[|closing|..];
    JournalGrows(js, inputs, cuts, n + 1, later);
    AttemptDiscipline(js, inputs, cuts, later);
    var end := |js[n + 1]| - 1;
    assert js[later][end] == js[n + 1][end] == appended[|closing|..][1];
    assert Final(js[later][end]);
  }

  /** A throwing backup, or one that answers for another run, leaves its slot incomplete, to be repeated a quarter of an
      hour after it ended when it was the first attempt. */
  lemma {:induction false} ThrownIsIncomplete(j: Journal, inp: Inputs, slot: int, attempt: nat)
    requires EndsWithAttempt(j, inp, slot, attempt) && (inp.execution.Result? ==> inp.execution.runId != inp.runId)
    ensures var f := j[|j| - 1];
      && f.Finished? && f.slot == slot && f.attempt == attempt && f.state == Incomplete
      && f.retryAt == (if attempt == 1 then Some(inp.finishedAt + 900_000) else None)
  {
    var events := j[|j| - 2..];
    assert events[1] == j[|j| - 1];
    assert forall state :: !Reported(inp, state);
  }

  /** Over a history: a slot whose first backup threw is attempted again once the quarter of an hour has passed. */
  lemma {:induction false} ThrownIsRetried(js: seq<Journal>, inputs: seq<Inputs>, cuts: seq<nat>, m: nat, n: nat, slot: int)
    requires IsHistory(js, inputs, cuts) && m < n < |inputs|
    requires EndsWithAttempt(js[m + 1], inputs[m], slot, 1) && inputs[m].execution == Threw
    requires forall k :: 0 <= k < |js[n]| && js[n][k].Started? && js[n][k].slot == slot ==> js[n][k].attempt == 1
    requires DueSlot(slot, inputs[n].dueNow) && inputs[m].finishedAt + 900_000 <= inputs[n].dueNow
    requires cuts[n] == |Appended(js[n], inputs[n])| && inputs[n].runIdValid
    ensures EndsWithAttempt(js[n + 1], inputs[n], slot, 2)
  {
    ThrownIsIncomplete(js[m + 1], inputs[m], slot, 1);
    JournalGrows(js, inputs, cuts, m + 1, n);
    FailureIsRetried(js, inputs, cuts, n, |js[m + 1]| - 1, slot);
  }
}
