/** The bounded admission controller of the address-suggestion service, as a state machine
    whose steps are the synchronous pieces of code that run between two event-loop turns. */
module AdmissionModel {
  import opened Options

  const DAY_MS: int := 86_400_000
  const MAX_DATE_MS: int := 8_640_000_000_000_000

  type Key = string

  datatype Settings = Settings(
    maxPending: nat, maxActive: nat, queueExpiryMs: nat, minStartIntervalMs: nat, dailyBudget: Option<nat>)

  /** Result of the injected budget callback; `Throw` is an exception inside it. */
  datatype Verdict = Allow | Deny | Throw

  /** What the controller is constructed with. The injected `now` is the function from the number of
      earlier readings to the reading, so one value of `Env` is one whole course of the clock. */
  datatype Env = Env(settings: Settings, clock: nat -> int, tryConsumeBudget: Option<nat -> Verdict>)

  ghost predicate ValidEnv(env: Env) {
    && 1 <= env.settings.maxActive
    && 1 <= env.settings.queueExpiryMs
    && forall i: nat, j: nat :: i <= j ==> env.clock(i) <= env.clock(j)
  }

  datatype Phase = Queued | Starting | Running | Settled

  /** Progress of `executeEntry`: the race against the timeout, then, after a timeout, the wait for
      the provider to acknowledge the abort. */
  datatype Exec = NotStarted | Racing(timedOut: bool) | Draining | Finished

  datatype Outcome = Resolved(value: string) | Rejected(code: string) | Cancelled

  datatype Entry = Entry(
    key: Key, expiresAt: int, state: Phase, subscribers: set<nat>, expiryArmed: bool, exec: Exec)

  /** One caller of `run`: the entry it subscribed to, and every settlement its promise received. */
  datatype Call = Call(home: Option<nat>, answers: seq<Outcome>)

  /** One provider start with the readings that admitted it; `tick` numbers the last of them. */
  datatype Start = Start(id: nat, expiresAt: int, checkedAt: int, chargedAt: int, startedAt: int, tick: nat)

  datatype Counters = Counters(accepted: nat, rejected: nat, coalesced: nat, timeout: nat, providerFailure: nat)

  datatype State = State(
    entries: seq<Entry>,            // every entry ever accepted, by acceptance number
    queue: seq<nat>,
    inFlight: map<Key, nat>,
    active: int,
    nextStartAt: int,
    spacingTimer: bool,
    budgetDay: Option<int>,
    budgetUsed: nat,
    counters: Counters,
    ticks: nat,                     // clock readings so far
    budgetCalls: nat,               // budget callbacks so far
    calls: seq<Call>,               // history: every call of `run`
    starts: seq<Start>)             // history: every provider start

  function Init(): State {
    State([], [], map[], 0, 0, false, None, 0, Counters(0, 0, 0, 0, 0), 0, 0, [], [])
  }

  // ---------- settling ----------

  function Answer(calls: seq<Call>, subs: set<nat>, outcome: Outcome): (r: seq<Call>)
    ensures |r| == |calls|
  {
    seq(|calls|, i requires 0 <= i < |calls| =>
      if i in subs then calls[i].(answers := calls[i].answers + [outcome]) else calls[i])
  }

  function Unregister(inFlight: map<Key, nat>, key: Key, id: nat): map<Key, nat> {
    if key in inFlight && inFlight[key] == id then inFlight - {key} else inFlight
  }

  /** `settle`: the first settlement of an entry answers all its subscribers, later ones do nothing. */
  function Settle(s: State, id: nat, outcome: Outcome): (r: State)
    requires id < |s.entries|
    ensures r == s.(entries := r.entries, inFlight := r.inFlight, calls := r.calls)
    ensures |r.entries| == |s.entries|
    ensures forall i :: 0 <= i < |s.entries| && i != id ==> r.entries[i] == s.entries[i]
  {
    var e := s.entries[id];
    if e.state == Settled then s else
    s.(entries := s.entries[id := e.(state := Settled, expiryArmed := false, subscribers := {})],
       inFlight := Unregister(s.inFlight, e.key, id),
       calls := Answer(s.calls, e.subscribers, outcome))
  }

  predicate Increasing(q: seq<nat>) {
    forall i, j :: 0 <= i < j < |q| ==> q[i] < q[j]
  }

  /** `indexOf` and `splice`. */
  function Without(q: seq<nat>, id: nat): (r: seq<nat>) {
    if q == [] then [] else if q[0] == id then q[1..] else [q[0]] + Without(q[1..], id)
  }

  lemma {:induction false} WithoutFacts(q: seq<nat>, id: nat)
    requires Increasing(q)
    ensures Increasing(Without(q, id))
    ensures forall x :: x in Without(q, id) <==> x in q && x != id
    ensures |Without(q, id)| <= |q|
  {
    if q != [] {
      var t := q[1..];
      forall x | x in t ensures q[0] < x {
        var i :| 0 <= i < |t| && t[i] == x;
        assert t[i] == q[i + 1];
      }
      if q[0] != id {
        WithoutFacts(t, id);
        PrependFacts(q[0], Without(t, id));
      }
      forall x ensures x in Without(q, id) <==> x in q && x != id {
        assert x in q <==> x == q[0] || x in t by { assert q == [q[0]] + t; }
      }
    }
  }

  lemma {:induction false} PrependFacts(h: nat, t: seq<nat>)
    requires Increasing(t) && forall x :: x in t ==> h < x
    ensures Increasing([h] + t)
  {
    forall i, j | 0 <= i < j < |t| + 1 ensures ([h] + t)[i] < ([h] + t)[j] { assert t[j - 1] in t; }
  }

  function CountRejected(s: State): State {
    s.(counters := s.counters.(rejected := s.counters.rejected + 1))
  }

  /** `expireQueued` without the pump call that ends it. */
  function Expire(s: State, id: nat): (r: State)
    requires id < |s.entries|
    ensures |r.entries| == |s.entries|
  {
    if s.entries[id].state != Queued then s else
    CountRejected(Settle(s.(queue := Without(s.queue, id)), id, Rejected("queue_expired")))
  }

  // ---------- pump ----------

  /** Every queue element is a queued entry, in acceptance order. The pump loop needs it to end:
      an expired head in any other state would never leave the queue. */
  predicate QueueWF(s: State) {
    && Increasing(s.queue)
    && forall id :: id in s.queue ==> id < |s.entries| && s.entries[id].state == Queued
  }

  function Day(t: int): int { t / DAY_MS }

  /** The budget reservation just before a start: the new state, whether it was granted and the reading
      it was charged to (the reading of the expiry check when the clock was not read again). */
  function Reserve(env: Env, s: State, checkedAt: int): (r: (State, bool, int))
    ensures s.ticks <= r.0.ticks
    ensures r.0 == s.(ticks := r.0.ticks, budgetCalls := r.0.budgetCalls,
                      budgetDay := r.0.budgetDay, budgetUsed := r.0.budgetUsed)
  {
    match env.tryConsumeBudget
    case Some(f) => (s.(budgetCalls := s.budgetCalls + 1), f(s.budgetCalls) == Allow, checkedAt)
    case None =>
      match env.settings.dailyBudget
      case None => (s, true, checkedAt)
      case Some(budget) =>
        var t := env.clock(s.ticks);
        var s1 := s.(ticks := s.ticks + 1);
        if t < -MAX_DATE_MS || MAX_DATE_MS < t then (s1, false, t)    // toISOString throws
        else
          var s2 := if s1.budgetDay == Some(Day(t)) then s1 else s1.(budgetDay := Some(Day(t)), budgetUsed := 0);
          if s2.budgetUsed < budget then (s2.(budgetUsed := s2.budgetUsed + 1), true, t) else (s2, false, t)
  }

  function Begin(env: Env, s: State, id: nat, checkedAt: int, chargedAt: int): (r: State)
    requires id < |s.entries|
    ensures |r.entries| == |s.entries| && r.queue == s.queue
    ensures forall i :: 0 <= i < |s.entries| && i != id ==> r.entries[i] == s.entries[i]
  {
    var e := s.entries[id];
    var t := env.clock(s.ticks);
    s.(ticks := s.ticks + 1,
       nextStartAt := t + env.settings.minStartIntervalMs,
       active := s.active + 1,
       entries := s.entries[id := e.(state := Running, exec := Racing(false))],
       starts := s.starts + [Start(id, e.expiresAt, checkedAt, chargedAt, t, s.ticks)])
  }

  function LaunchUnexpired(env: Env, s: State, id: nat, t: int): (r: State)
    requires id < |s.entries|
    ensures |r.entries| == |s.entries| && r.queue == s.queue
    ensures forall i :: 0 <= i < |s.entries| && i != id ==> r.entries[i] == s.entries[i]
  {
    var (s1, granted, chargedAt) := Reserve(env, s, t);
    if !granted then CountRejected(Settle(s1, id, Rejected("daily_budget_exceeded")))
    else Begin(env, s1, id, t, chargedAt)
  }

  /** The part of an iteration after the head has left the queue: expiry re-check, budget, start. */
  function Launch(env: Env, s: State, id: nat): (r: State)
    requires id < |s.entries|
    ensures |r.entries| == |s.entries| && r.queue == s.queue
    ensures forall i :: 0 <= i < |s.entries| && i != id ==> r.entries[i] == s.entries[i]
  {
    var t := env.clock(s.ticks);
    var s0 := s.(ticks := s.ticks + 1);
    if s.entries[id].expiresAt <= t then CountRejected(Settle(s0, id, Rejected("queue_expired")))
    else LaunchUnexpired(env, s0, id, t)
  }

  function DequeueHead(s: State): (r: State)
    requires s.queue != [] && s.queue[0] < |s.entries|
  {
    var id := s.queue[0];
    s.(queue := s.queue[1..], entries := s.entries[id := s.entries[id].(expiryArmed := false, state := Starting)])
  }

  predicate CanIterate(env: Env, s: State) {
    s.active < env.settings.maxActive && s.queue != []
  }

  /** One iteration of the pump loop; the flag says whether it left the loop by `break`. */
  function Iterate(env: Env, s: State): (r: (State, bool))
    requires CanIterate(env, s) && QueueWF(s)
    ensures |r.0.entries| == |s.entries|
    ensures r.0.queue == if r.1 then s.queue else s.queue[1..]
  {
    var id := s.queue[0];
    assert id in s.queue;
    var t1 := env.clock(s.ticks);
    var s1 := s.(ticks := s.ticks + 1);
    if s.entries[id].expiresAt <= t1 then
      (Expire(s1, id), false)
    else
      var t2 := env.clock(s1.ticks);
      var s2 := s1.(ticks := s1.ticks + 1);
      if s.nextStartAt - t2 > 0 then (s2.(spacingTimer := true), true)
      else (Launch(env, DequeueHead(s2), id), false)
  }

  /** An iteration changes no entry but the head of the queue. */
  lemma {:induction false} IterateFrame(env: Env, s: State)
    requires CanIterate(env, s) && QueueWF(s)
    ensures forall i :: 0 <= i < |s.entries| && i != s.queue[0] ==> Iterate(env, s).0.entries[i] == s.entries[i]
    ensures Iterate(env, s).1 ==> Iterate(env, s).0.entries == s.entries
    ensures QueueWF(Iterate(env, s).0)
  {
    IterateEntries(env, s);
    TailWF(s, Iterate(env, s).0);
  }

  lemma {:induction false} IterateEntries(env: Env, s: State)
    requires CanIterate(env, s) && QueueWF(s)
    ensures forall i :: 0 <= i < |s.entries| && i != s.queue[0] ==> Iterate(env, s).0.entries[i] == s.entries[i]
    ensures Iterate(env, s).1 ==> Iterate(env, s).0.entries == s.entries
  {
    assert s.queue[0] in s.queue;
  }

  lemma {:induction false} TailWF(s: State, r: State)
    requires QueueWF(s) && s.queue != [] && |r.entries| == |s.entries|
    requires forall i :: 0 <= i < |s.entries| && i != s.queue[0] ==> r.entries[i] == s.entries[i]
    requires (r.queue == s.queue && r.entries == s.entries) || r.queue == s.queue[1..]
    ensures QueueWF(r)
  {
    assert forall x :: x in s.queue[1..] ==> x in s.queue && s.queue[0] < x;
  }

  function Pump(env: Env, s: State): (r: State)
    requires QueueWF(s)
    ensures |r.entries| == |s.entries| && |r.queue| <= |s.queue|
    decreases |s.queue|
  {
    if CanIterate(env, s) then
      var (s', stop) := Iterate(env, s);
      IterateFrame(env, s);
      if stop then s' else Pump(env, s')
    else s
  }

  // ---------- events ----------

  datatype RaceResult = Value(value: string) | NoValue | Failure(code: string)

  datatype Event =
    | Arrive(key: Key, aborted: bool, admitted: bool, abortedMeanwhile: bool)
    | Abort(call: nat)
    | ExpiryFires(id: nat)
    | SpacingFires
    | TimeoutFires(id: nat)
    | RaceEnds(id: nat, result: RaceResult)
    | WorkEnds(id: nat)

  function NewCall(s: State, home: Option<nat>, answers: seq<Outcome>): State {
    s.(calls := s.calls + [Call(home, answers)])
  }

  /** `subscribe`: a signal that aborted in the meantime is refused without joining. */
  function Subscribe(s: State, id: nat, aborted: bool): State
    requires id < |s.entries|
  {
    if aborted then NewCall(s, None, [Cancelled]) else
    var e := s.entries[id];
    NewCall(s.(entries := s.entries[id := e.(subscribers := e.subscribers + {|s.calls|})]), Some(id), [])
  }

  /** The test for immediate start; the clock is read only when the first two conditions hold. */
  function CanStartImmediately(env: Env, s: State): (r: (bool, State))
    ensures r.1 == s || r.1 == s.(ticks := s.ticks + 1)
  {
    if s.active < env.settings.maxActive && s.queue == [] then
      (s.nextStartAt <= env.clock(s.ticks), s.(ticks := s.ticks + 1))
    else (false, s)
  }

  /** Creating, registering and queueing a new entry with its first subscriber. */
  function Accept(env: Env, s: State, key: Key, abortedMeanwhile: bool): (r: State)
    ensures |r.entries| == |s.entries| + 1 && r.queue == s.queue + [|s.entries|]
  {
    var id := |s.entries|;
    var e := Entry(key, env.clock(s.ticks) + env.settings.queueExpiryMs, Queued, {}, true, NotStarted);
    var s1 := s.(ticks := s.ticks + 1, entries := s.entries + [e], inFlight := s.inFlight[key := id],
                 counters := s.counters.(accepted := s.counters.accepted + 1));
    var s2 := Subscribe(s1, id, abortedMeanwhile);
    s2.(queue := s2.queue + [id])
  }

  /** `cancelWhenUnobserved` for an unsettled entry nobody listens to, without its pump call. */
  function Withdraw(s: State, id: nat): (r: State)
    requires id < |s.entries|
    ensures |r.entries| == |s.entries|
  {
    var e := s.entries[id];
    s.(queue := if e.state == Queued then Without(s.queue, id) else s.queue,
       entries := s.entries[id := e.(state := Settled, expiryArmed := false)],
       inFlight := Unregister(s.inFlight, e.key, id))
  }

  /** The subscriber's abort handler: the entry is cancelled with its last observer. */
  function Leave(s: State, call: nat, id: nat): (r: State)
    requires id < |s.entries| && call < |s.calls|
  {
    var e := s.entries[id];
    s.(entries := s.entries[id := e.(subscribers := e.subscribers - {call})],
       calls := Answer(s.calls, {call}, Cancelled))
  }

  function FinishSlot(s: State, id: nat): State
    requires id < |s.entries|
  {
    s.(active := s.active - 1, entries := s.entries[id := s.entries[id].(exec := Finished)])
  }

  function RaceOutcome(result: RaceResult): Outcome {
    match result
    case Value(v) => Resolved(v)
    case NoValue => Rejected("provider_unavailable")
    case Failure(code) => Rejected(code)
  }

  /** The continuation of `executeEntry` after the race, without the final pump call. The flag says
      whether the execution ended, so that the slot was freed. */
  function AfterRace(s: State, id: nat, result: RaceResult): (r: (State, bool))
    requires id < |s.entries| && s.entries[id].exec.Racing?
  {
    if !result.Failure? then (FinishSlot(Settle(s, id, RaceOutcome(result)), id), true)
    else if s.entries[id].exec.timedOut then
      var s1 := Settle(s.(counters := s.counters.(timeout := s.counters.timeout + 1)), id, Rejected("address_provider_timeout"));
      (s1.(entries := s1.entries[id := s1.entries[id].(exec := Draining)]), false)
    else if s.entries[id].state == Settled then (FinishSlot(s, id), true)
    else (FinishSlot(Settle(CountFailure(s), id, RaceOutcome(result)), id), true)
  }

  function CountFailure(s: State): State {
    s.(counters := s.counters.(providerFailure := s.counters.providerFailure + 1))
  }

  /** Timers fire only while set, and an execution step needs an execution in that stage. */
  predicate Enabled(s: State, ev: Event) {
    match ev
    case Arrive(_, _, _, _) => true
    case Abort(call) => call < |s.calls|
    case ExpiryFires(id) => id < |s.entries| && s.entries[id].expiryArmed
    case SpacingFires => s.spacingTimer
    case TimeoutFires(id) => id < |s.entries| && s.entries[id].exec == Racing(false)
    case RaceEnds(id, _) => id < |s.entries| && s.entries[id].exec.Racing?
    case WorkEnds(id) => id < |s.entries| && s.entries[id].exec.Draining?
  }

  predicate WellFormed(s: State) {
    && QueueWF(s)
    && (forall id :: 0 <= id < |s.entries| && s.entries[id].state == Queued ==> s.entries[id].exec == NotStarted)
    && (forall k :: k in s.inFlight ==> s.inFlight[k] < |s.entries|)
    && (forall i :: 0 <= i < |s.calls| && s.calls[i].home.Some? ==> s.calls[i].home.value < |s.entries|)
  }

  lemma {:induction false} AcceptQueue(env: Env, s: State, key: Key, abortedMeanwhile: bool)
    requires QueueWF(s)
    ensures QueueWF(Accept(env, s, key, abortedMeanwhile))
  {
    forall i | 0 <= i < |s.queue| ensures s.queue[i] < |s.entries| { assert s.queue[i] in s.queue; }
  }

  /** `run` on a key that is not in flight, past the admission policy. */
  function Admit(env: Env, s: State, key: Key, abortedMeanwhile: bool): State
    requires QueueWF(s)
  {
    var (immediate, s1) := CanStartImmediately(env, s);
    if !immediate && |s1.queue| >= env.settings.maxPending then
      CountRejected(NewCall(s1, None, [Rejected("queue_full")]))
    else
      AcceptQueue(env, s1, key, abortedMeanwhile);
      Pump(env, Accept(env, s1, key, abortedMeanwhile))
  }

  function Coalesce(s: State, id: nat): State
    requires id < |s.entries|
  {
    Subscribe(s.(counters := s.counters.(coalesced := s.counters.coalesced + 1)), id, false)
  }

  /** `run`. */
  function Run(env: Env, s: State, key: Key, aborted: bool, admitted: bool, abortedMeanwhile: bool): State
    requires QueueWF(s) && (key in s.inFlight ==> s.inFlight[key] < |s.entries|)
  {
    if aborted then NewCall(s, None, [Cancelled])
    else if key in s.inFlight then Coalesce(s, s.inFlight[key])
    else if !admitted then CountRejected(NewCall(s, None, [Rejected("admission_rejected")]))
    else Admit(env, s, key, abortedMeanwhile)
  }

  /** The abort handler of a caller that is still subscribed to entry `id`. */
  function Depart(env: Env, s: State, call: nat, id: nat): State
    requires QueueWF(s) && id < |s.entries| && call < |s.calls|
  {
    var s1 := Leave(s, call, id);
    if s1.entries[id].subscribers == {} && s1.entries[id].state != Settled then
      WithoutFacts(s.queue, id);
      Pump(env, Withdraw(s1, id))
    else s1
  }

  function ExpireAndPump(env: Env, s: State, id: nat): State
    requires QueueWF(s) && id < |s.entries|
  {
    if s.entries[id].state != Queued then s else WithoutFacts(s.queue, id); Pump(env, Expire(s, id))
  }

  function Complete(env: Env, s: State, id: nat, result: RaceResult): State
    requires QueueWF(s) && id < |s.entries| && s.entries[id].exec.Racing? && s.entries[id].state != Queued
  {
    var (s1, ended) := AfterRace(s, id, result);
    NotHead(s, id);
    if ended then Pump(env, s1) else s1
  }

  lemma {:induction false} NotHead(s: State, id: nat)
    requires QueueWF(s) && id < |s.entries| && s.entries[id].state != Queued
    ensures id !in s.queue
  {}

  function Step(env: Env, s: State, ev: Event): State
    requires WellFormed(s) && Enabled(s, ev)
  {
    match ev
    case Arrive(key, aborted, admitted, abortedMeanwhile) => Run(env, s, key, aborted, admitted, abortedMeanwhile)
    case Abort(call) =>
      var home := s.calls[call].home;
      if home.Some? && call in s.entries[home.value].subscribers then Depart(env, s, call, home.value) else s
    case ExpiryFires(id) => ExpireAndPump(env, s, id)
    case SpacingFires => Pump(env, s.(spacingTimer := false))
    case TimeoutFires(id) => s.(entries := s.entries[id := s.entries[id].(exec := Racing(true))])
    case RaceEnds(id, result) => Complete(env, s, id, result)
    case WorkEnds(id) => Pump(env, FinishSlot(s, id))
  }
}
