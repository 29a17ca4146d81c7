/** The backup scheduler over its append-only journal. Times are milliseconds; a slot is named by its instant. */
module SchedulerModel {
  import opened Options

  const HOUR_MS: int := 3_600_000
  const DAY_MS: int := 86_400_000
  const RETRY_DELAY_MS: int := 900_000
  const MAX_ATTEMPTS: nat := 2

  // ---------- slots ----------

  /** The last scheduled hour that has begun, searched from the latest: 18, 12, 6, 0. */
  function DueHour(hour: int): int
    requires 0 <= hour < 24
  {
    if 18 <= hour then 18 else if 12 <= hour then 12 else if 6 <= hour then 6 else 0
  }

  function LatestDueSlot(now: int): int {
    var startOfDay := now - now % DAY_MS;
    startOfDay + DueHour(now % DAY_MS / HOUR_MS) * HOUR_MS
  }

  predicate ScheduledInstant(t: int) { t % (6 * HOUR_MS) == 0 }

  /** The slot is the latest scheduled instant that is not in the future, and there is only one such. */
  lemma {:induction false} LatestDueSlotIsLatest(now: int)
    ensures var slot := LatestDueSlot(now);
      && ScheduledInstant(slot) && slot <= now
      && forall t :: ScheduledInstant(t) && t <= now ==> t <= slot
  {
    var slot := LatestDueSlot(now);
    assert slot <= now < slot + 6 * HOUR_MS;
    assert ScheduledInstant(slot) by { assert DAY_MS == 4 * (6 * HOUR_MS); }
    forall t | ScheduledInstant(t) && t <= now ensures t <= slot {
      var a, b := t / (6 * HOUR_MS), slot / (6 * HOUR_MS);
      assert t == a * (6 * HOUR_MS) && slot == b * (6 * HOUR_MS);
    }
  }

  // ---------- the journal ----------

  datatype BackupState = Complete | SkippedOverlapping | BlockedByMigration | Incomplete | PreflightRejected

  predicate Retryable(state: BackupState) { state == Incomplete || state == BlockedByMigration }

  type RunId = string

  datatype Event =
    | Started(slot: int, attempt: nat, runId: RunId, at: int)
    | Finished(slot: int, attempt: nat, runId: RunId, at: int, state: BackupState, retryAt: Option<int>)

  type Journal = seq<Event>

  predicate HasFinish(j: Journal, runId: RunId) {
    exists i :: 0 <= i < |j| && j[i].Finished? && j[i].runId == runId
  }

  /** `startedWithoutFinish`: the starts of `some` whose run has no finish in `all`. */
  function StartsWithoutFinish(some: Journal, all: Journal): (r: seq<Event>)
    ensures forall k :: 0 <= k < |r| ==> r[k].Started? && r[k] in some && !HasFinish(all, r[k].runId)
  {
    if some == [] then [] else
    var rest := StartsWithoutFinish(some[..|some| - 1], all);
    var e := some[|some| - 1];
    if e.Started? && !HasFinish(all, e.runId) then rest + [e] else rest
  }

  function Unfinished(j: Journal): seq<Event> { StartsWithoutFinish(j, j) }

  /** The last finish recorded for a slot. */
  function LastFinish(j: Journal, slot: int): (r: Option<Event>)
    ensures r.Some? ==> r.value.Finished? && r.value.slot == slot && r.value in j
  {
    if j == [] then None else
    var e := j[|j| - 1];
    if e.Finished? && e.slot == slot then Some(e) else LastFinish(j[..|j| - 1], slot)
  }

  // ---------- one invocation under the lock ----------

  datatype Execution = Threw | Result(runId: RunId, state: BackupState)

  /** Everything an invocation takes from outside: its clock readings in order, a run id and the backup. */
  datatype Inputs = Inputs(
    reconcileAt: nat -> int, dueNow: int, startedAt: int, finishedAt: int,
    runId: RunId, runIdValid: bool, execution: Execution)

  function ReconcileOne(start: Event, at: int): Event
    requires start.Started?
  {
    Finished(start.slot, start.attempt, start.runId, at, Incomplete,
             if start.attempt < MAX_ATTEMPTS then Some(start.at + RETRY_DELAY_MS) else None)
  }

  function Reconciliation(j: Journal, inp: Inputs): (r: seq<Event>)
    ensures |r| == |Unfinished(j)|
  {
    var open := Unfinished(j);
    seq(|open|, k requires 0 <= k < |open| => ReconcileOne(open[k], inp.reconcileAt(k)))
  }

  datatype Decision = AlreadyFinal | RetryNotDue(at: int) | Attempt(number: nat)

  function EffectiveRetry(latest: Event): int
    requires latest.Finished?
  {
    if latest.retryAt.Some? then latest.retryAt.value else latest.at + RETRY_DELAY_MS
  }

  predicate Final(latest: Event)
    requires latest.Finished?
  {
    latest.state == Complete || latest.attempt >= MAX_ATTEMPTS || !Retryable(latest.state)
  }

  function Decide(j: Journal, slot: int, dueNow: int): Decision {
    match LastFinish(j, slot)
    case None => Attempt(1)
    case Some(latest) =>
      if Final(latest) then AlreadyFinal
      else if dueNow < EffectiveRetry(latest) then RetryNotDue(EffectiveRetry(latest))
      else Attempt(latest.attempt + 1)
  }

  /** The recorded state: a throwing backup or one reporting another run counts as incomplete. */
  function ResultState(inp: Inputs): BackupState {
    if inp.execution.Result? && inp.execution.runId == inp.runId then inp.execution.state else Incomplete
  }

  function AttemptEvents(slot: int, attempt: nat, inp: Inputs): seq<Event> {
    var state := ResultState(inp);
    [Started(slot, attempt, inp.runId, inp.startedAt),
     Finished(slot, attempt, inp.runId, inp.finishedAt, state,
              if attempt < MAX_ATTEMPTS && Retryable(state) then Some(inp.finishedAt + RETRY_DELAY_MS) else None)]
  }

  function AppendedFor(j: Journal, slot: int, inp: Inputs): seq<Event> {
    var closing := Reconciliation(j, inp);
    var decision := Decide(j + closing, slot, inp.dueNow);
    if decision.Attempt? && inp.runIdValid then closing + AttemptEvents(slot, decision.number, inp) else closing
  }

  /** All events an invocation appends when nothing interrupts it; a crash leaves a prefix of them. */
  function Appended(j: Journal, inp: Inputs): seq<Event> {
    AppendedFor(j, LatestDueSlot(inp.dueNow), inp)
  }

  // ---------- the scheduler object ----------

  datatype Invocation = Attempted(attempt: nat, state: BackupState) | Closed | NotDue(at: int) | InvalidRunId | Crashed

  class BackupScheduler {
    var journal: Journal
    var fuse: nat       // how many more appends reach the disk before the process dies

    constructor (journal: Journal, fuse: nat)
      ensures this.journal == journal && this.fuse == fuse
    {
      this.journal, this.fuse := journal, fuse;
    }

    method Append(e: Event) returns (alive: bool)
      modifies this
      ensures alive == (old(fuse) > 0)
      ensures journal == if alive then old(journal) + [e] else old(journal)
      ensures fuse == if alive then old(fuse) - 1 else 0
    {
      alive := fuse > 0;
      if alive {
        journal := journal + [e];
        fuse := fuse - 1;
      }
    }

    /** Closes the starts a dead process left open. */
    method Reconcile(inp: Inputs) returns (alive: bool)
      modifies this
      ensures var closing := Reconciliation(old(journal), inp);
        if alive then |closing| <= old(fuse) && journal == old(journal) + closing && fuse == old(fuse) - |closing|
        else old(fuse) < |closing| && journal == old(journal) + closing[..old(fuse)]
    {
      var abandoned := Unfinished(journal);
      ghost var closing := Reconciliation(journal, inp);
      for k := 0 to |abandoned|
        invariant k <= old(fuse) && fuse == old(fuse) - k
        invariant journal == old(journal) + closing[..k]
      {
        alive := Append(ReconcileOne(abandoned[k], inp.reconcileAt(k)));
        if !alive { return; }
        assert closing[..k + 1] == closing[..k] + [closing[k]];
      }
      assert closing[..|abandoned|] == closing;
      alive := true;
    }

    /** Records the start, runs the backup and records its result. */
    method AttemptBackup(slot: int, attempt: nat, inp: Inputs) returns (r: Invocation)
      modifies this
      ensures var events := AttemptEvents(slot, attempt, inp);
        if r == Crashed then old(fuse) < 2 && journal == old(journal) + events[..old(fuse)]
        else 2 <= old(fuse) && journal == old(journal) + events && r == Attempted(attempt, events[1].state)
    {
      var alive := Append(Started(slot, attempt, inp.runId, inp.startedAt));
      if !alive { return Crashed; }
      var state := Incomplete;
      if inp.execution.Result? && inp.execution.runId == inp.runId { state := inp.execution.state; }
      var retryAt := None;
      if attempt < MAX_ATTEMPTS && Retryable(state) { retryAt := Some(inp.finishedAt + RETRY_DELAY_MS); }
      alive := Append(Finished(slot, attempt, inp.runId, inp.finishedAt, state, retryAt));
      if !alive { return Crashed; }
      return Attempted(attempt, state);
    }

    /** `runScheduledBackupUnderLock`: cut off after `fuse` appends, it has written that prefix of `Appended`. */
    method RunUnderLock(inp: Inputs) returns (r: Invocation)
      modifies this
      ensures var all := Appended(old(journal), inp);
        if r == Crashed then old(fuse) < |all| && journal == old(journal) + all[..old(fuse)]
        else |all| <= old(fuse) && journal == old(journal) + all
      ensures r.Attempted? ==>
        && |journal| > 0 && journal[|journal| - 1].Finished?
        && journal[|journal| - 1].attempt == r.attempt && journal[|journal| - 1].state == r.state
      ensures r != Crashed ==>
        var decision := Decide(old(journal) + Reconciliation(old(journal), inp), LatestDueSlot(inp.dueNow), inp.dueNow);
        && (r == Closed <==> decision == AlreadyFinal)
        && (forall at :: r == NotDue(at) <==> decision == RetryNotDue(at))
        && (r == InvalidRunId <==> decision.Attempt? && !inp.runIdValid)
    {
      ghost var closing := Reconciliation(journal, inp);
      var alive := Reconcile(inp);
      var slot := LatestDueSlot(inp.dueNow);
      ghost var all := AppendedFor(old(journal), slot, inp);
      if !alive {
        assert all[..old(fuse)] == closing[..old(fuse)];
        return Crashed;
      }
      var latest := LastFinish(journal, slot);
      if latest.Some? {
        if latest.value.state == Complete || latest.value.attempt >= MAX_ATTEMPTS || !Retryable(latest.value.state) {
          return Closed;
        }
        var retryAt := if latest.value.retryAt.Some? then latest.value.retryAt.value else latest.value.at + RETRY_DELAY_MS;
        if inp.dueNow < retryAt { return NotDue(retryAt); }
      }
      var attempt := (if latest.Some? then latest.value.attempt else 0) + 1;
      if !inp.runIdValid { return InvalidRunId; }
      assert all == closing + AttemptEvents(slot, attempt, inp);
      r := AttemptBackup(slot, attempt, inp);
      if r == Crashed {
        assert all[..old(fuse)] == closing + AttemptEvents(slot, attempt, inp)[..old(fuse) - |closing|];
      }
    }
  }
}
