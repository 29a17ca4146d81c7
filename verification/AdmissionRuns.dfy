/** Whole runs of the admission controller. */
module AdmissionRuns {
  import opened AdmissionModel
  import opened AdmissionInvariant
  import opened Options

  // ---------- one pump iteration ----------

  /** An iteration that does not break settles the head with a rejection or starts it. */
  lemma {:induction false} IterateCases(env: Env, s: State)
    requires CanIterate(env, s) && QueueWF(s)
    ensures var (r, stop) := Iterate(env, s); var id := s.queue[0];
      if stop then r == s.(ticks := s.ticks + 2, spacingTimer := true) else
      || Closes(s, r, id, Rejected("queue_expired"))
      || Closes(s, r, id, Rejected("daily_budget_exceeded"))
      || Begins(s, r, id)
  {
    var id := s.queue[0];
    assert id in s.queue;
    var s1 := s.(ticks := s.ticks + 1);
    if s.entries[id].expiresAt <= env.clock(s.ticks) {
      assert Closes(s, Expire(s1, id), id, Rejected("queue_expired"));
    } else if s.nextStartAt <= env.clock(s.ticks + 1) {
      LaunchCases(env, s, s.(ticks := s.ticks + 2));
    }
  }

  lemma {:induction false} LaunchCases(env: Env, s: State, s2: State)
    requires s.queue != [] && QueueWF(s) && s2 == s.(ticks := s2.ticks)
    ensures s.queue[0] in s.queue
    ensures var id := s.queue[0]; var r := Launch(env, DequeueHead(s2), id);
      || Closes(s, r, id, Rejected("queue_expired"))
      || Closes(s, r, id, Rejected("daily_budget_exceeded"))
      || Begins(s, r, id)
  {
    var id := s.queue[0];
    assert id in s.queue;
    var e := s.entries[id];
    var d := DequeueHead(s2);
    var s0 := d.(ticks := d.ticks + 1);
    SettleDequeued(s, s0, Rejected("queue_expired"));
    if env.clock(d.ticks) < e.expiresAt {
      var (s1, granted, chargedAt) := Reserve(env, s0, env.clock(d.ticks));
      if granted {
        var running := e.(state := Running, expiryArmed := false, exec := Racing(false));
        assert s1.entries[id := running] == s.entries[id := running];
      } else {
        SettleDequeued(s, s1, Rejected("daily_budget_exceeded"));
      }
    }
  }

  lemma {:induction false} SettleDequeued(s: State, d: State, outcome: Outcome)
    requires s.queue != [] && QueueWF(s) && s.queue[0] < |s.entries|
    requires d == DequeueHead(s).(ticks := d.ticks, budgetCalls := d.budgetCalls, budgetDay := d.budgetDay, budgetUsed := d.budgetUsed)
    ensures Closes(s, CountRejected(Settle(d, s.queue[0], outcome)), s.queue[0], outcome)
  {
    var id := s.queue[0];
    var closed := s.entries[id].(state := Settled, expiryArmed := false, subscribers := {});
    assert d.entries[id := closed] == s.entries[id := closed];
  }

  lemma {:induction false} IterateKeepsBase(env: Env, s: State)
    requires CanIterate(env, s) && Base(s)
    ensures Base(Iterate(env, s).0)
    ensures Iterate(env, s).0.active <= env.settings.maxActive
  {
    IterateCases(env, s);
    var (r, stop) := Iterate(env, s);
    var id := s.queue[0];
    assert id in s.queue;
    if stop {
      CallsFrame(s, r);
    } else if Begins(s, r, id) {
      BeginKeeps(s, r, id);
    } else if Closes(s, r, id, Rejected("queue_expired")) {
      CloseKeeps(s, r, id, Rejected("queue_expired"));
    } else {
      CloseKeeps(s, r, id, Rejected("daily_budget_exceeded"));
    }
  }

  // ---------- the start history ----------

  /** A start happened after its entry passed the expiry check, its charge and its start in that order. */
  predicate StartOk(st: Start) {
    st.checkedAt < st.expiresAt && st.checkedAt <= st.chargedAt <= st.startedAt
  }

  /** Starts are in acceptance order, at least the minimum interval apart, and nothing still queued
      was accepted before something started. */
  ghost predicate Spaced(starts: seq<Start>, next: int, now: int, queue: seq<nat>, accepted: nat, gap: nat) {
    && (forall i :: 0 <= i < |starts| ==>
         && StartOk(starts[i])
         && starts[i].startedAt + gap <= next
         && starts[i].startedAt <= now
         && starts[i].id < accepted)
    && (forall i, j :: 0 <= i < j < |starts| ==>
         && starts[i].id < starts[j].id
         && starts[i].startedAt + gap <= starts[j].checkedAt)
    && (forall i, q :: 0 <= i < |starts| && q in queue ==> starts[i].id < q)
  }

  ghost predicate StartsOk(env: Env, s: State) {
    Spaced(s.starts, s.nextStartAt, env.clock(s.ticks), s.queue, |s.entries|, env.settings.minStartIntervalMs)
  }

  lemma {:induction false} SpacedLater(starts: seq<Start>, next: int, now: int, queue: seq<nat>, accepted: nat, gap: nat,
                    now': int, queue': seq<nat>, accepted': nat)
    requires Spaced(starts, next, now, queue, accepted, gap)
    requires now <= now' && accepted <= accepted'
    requires forall q :: q in queue' ==> q in queue || accepted <= q
    ensures Spaced(starts, next, now', queue', accepted', gap)
  {}

  lemma {:induction false} SpacedStart(starts: seq<Start>, next: int, now: int, queue: seq<nat>, accepted: nat, gap: nat, st: Start, now': int)
    requires Spaced(starts, next, now, queue, accepted, gap)
    requires StartOk(st) && next <= st.checkedAt && st.startedAt <= now' && now <= now' && st.id < accepted
    requires forall i :: 0 <= i < |starts| ==> starts[i].id < st.id
    requires forall q :: q in queue ==> st.id < q
    ensures Spaced(starts + [st], st.startedAt + gap, now', queue, accepted, gap)
  {}

  lemma {:induction false} ClockLater(env: Env, a: nat, b: nat)
    requires ValidEnv(env) && a <= b
    ensures env.clock(a) <= env.clock(b) && Day(env.clock(a)) <= Day(env.clock(b))
  {
    DayMonotone(env.clock(a), env.clock(b));
  }

  function Charged(starts: seq<Start>, day: int): nat {
    if starts == [] then 0 else
    Charged(starts[..|starts| - 1], day) + (if Day(starts[|starts| - 1].chargedAt) == day then 1 else 0)
  }

  function StartedOn(starts: seq<Start>, day: int): nat {
    if starts == [] then 0 else
    StartedOn(starts[..|starts| - 1], day) + (if Day(starts[|starts| - 1].startedAt) == day then 1 else 0)
  }

  predicate DailyBudgeted(env: Env) { env.tryConsumeBudget.None? && env.settings.dailyBudget.Some? }

  /** The controller's own daily count is the number of starts charged to its current day, and no day
      was charged more than the budget. */
  ghost predicate Ledger(starts: seq<Start>, day: Option<int>, used: nat, budget: nat, today: int) {
    && (forall d :: Charged(starts, d) <= budget)
    && (day.None? ==> starts == [])
    && (day.Some? ==> Charged(starts, day.value) == used && day.value <= today)
    && (day.Some? ==> forall i :: 0 <= i < |starts| ==> Day(starts[i].chargedAt) <= day.value)
  }

  ghost predicate BudgetOk(env: Env, s: State) {
    DailyBudgeted(env) ==>
      Ledger(s.starts, s.budgetDay, s.budgetUsed, env.settings.dailyBudget.value, Day(env.clock(s.ticks)))
  }

  lemma {:induction false} ChargedBeyond(starts: seq<Start>, last: int, day: int)
    requires forall i :: 0 <= i < |starts| ==> Day(starts[i].chargedAt) <= last
    requires last < day
    ensures Charged(starts, day) == 0
  {
    if starts != [] {
      assert starts[|starts| - 1] in starts;
      ChargedBeyond(starts[..|starts| - 1], last, day);
    }
  }

  lemma {:induction false} ChargedSnoc(starts: seq<Start>, st: Start, day: int)
    ensures Charged(starts + [st], day) == Charged(starts, day) + (if Day(st.chargedAt) == day then 1 else 0)
  {
    assert (starts + [st])[..|starts|] == starts;
  }

  lemma {:induction false} DayMonotone(a: int, b: int)
    requires a <= b
    ensures Day(a) <= Day(b)
  {}

  ghost predicate History(env: Env, s: State) { StartsOk(env, s) && BudgetOk(env, s) }

  /** Nothing in the history depends on more than these parts of the state. */
  lemma {:induction false} HistoryFrame(env: Env, s: State, r: State)
    requires ValidEnv(env) && History(env, s)
    requires r.starts == s.starts && r.nextStartAt == s.nextStartAt && s.ticks <= r.ticks
    requires |s.entries| <= |r.entries|
    requires r.budgetDay == s.budgetDay && r.budgetUsed == s.budgetUsed
    requires forall q :: q in r.queue ==> q in s.queue || |s.entries| <= q
    ensures History(env, r)
  {
    ClockLater(env, s.ticks, r.ticks);
    SpacedLater(s.starts, s.nextStartAt, env.clock(s.ticks), s.queue, |s.entries|, env.settings.minStartIntervalMs,
                env.clock(r.ticks), r.queue, |r.entries|);
    BudgetFrame(env, s, r);
  }

  lemma {:induction false} BudgetFrame(env: Env, s: State, r: State)
    requires ValidEnv(env) && BudgetOk(env, s)
    requires r.starts == s.starts && s.ticks <= r.ticks
    requires r.budgetDay == s.budgetDay && r.budgetUsed == s.budgetUsed
    ensures BudgetOk(env, r)
  {
    ClockLater(env, s.ticks, r.ticks);
  }

  lemma {:induction false} ReserveReadings(env: Env, s: State, checkedAt: int)
    requires ValidEnv(env) && checkedAt <= env.clock(s.ticks)
    ensures var (r, _, chargedAt) := Reserve(env, s, checkedAt);
      checkedAt <= chargedAt <= env.clock(r.ticks)
  {
    ClockLater(env, s.ticks, s.ticks + 1);
  }

  /** Moving to the day of the reading keeps the ledger. */
  lemma {:induction false} LedgerDay(starts: seq<Start>, day: Option<int>, used: nat, budget: nat, today: int)
    requires Ledger(starts, day, used, budget, today)
    ensures Ledger(starts, Some(today), if day == Some(today) then used else 0, budget, today)
  {
    if day.Some? && day.value < today { ChargedBeyond(starts, day.value, today); }
  }

  lemma {:induction false} LedgerCharge(starts: seq<Start>, st: Start, today: int, used: nat, budget: nat)
    requires Ledger(starts, Some(today), used, budget, today)
    requires used < budget && Day(st.chargedAt) == today
    ensures Ledger(starts + [st], Some(today), used + 1, budget, today)
  {
    forall d ensures Charged(starts + [st], d) == Charged(starts, d) + (if d == today then 1 else 0) {
      ChargedSnoc(starts, st, d);
    }
  }

  lemma {:induction false} LedgerLater(starts: seq<Start>, day: Option<int>, used: nat, budget: nat, today: int, later: int)
    requires Ledger(starts, day, used, budget, today) && today <= later
    ensures Ledger(starts, day, used, budget, later)
  {}

  lemma {:induction false} LedgerStep(starts: seq<Start>, day: Option<int>, used: nat, budget: nat, today: int, later: int, st: Start)
    requires Ledger(starts, day, used, budget, today) && today <= later && Day(st.chargedAt) == today
    ensures var used' := if day == Some(today) then used else 0;
      if used' < budget then Ledger(starts + [st], Some(today), used' + 1, budget, later)
      else Ledger(starts, Some(today), used', budget, later)
  {
    LedgerDay(starts, day, used, budget, today);
    var used' := if day == Some(today) then used else 0;
    if used' < budget { LedgerCharge(starts, st, today, used', budget); }
  }

  lemma {:induction false} ReserveParts(env: Env, s: State, checkedAt: int)
    requires DailyBudgeted(env)
    ensures var (r, granted, chargedAt) := Reserve(env, s, checkedAt);
      var t := env.clock(s.ticks); var budget := env.settings.dailyBudget.value;
      && chargedAt == t && r.ticks == s.ticks + 1 && r.starts == s.starts
      && (if t < -MAX_DATE_MS || MAX_DATE_MS < t then !granted && r.budgetDay == s.budgetDay && r.budgetUsed == s.budgetUsed
          else
            var used := if s.budgetDay == Some(Day(t)) then s.budgetUsed else 0;
            && r.budgetDay == Some(Day(t)) && granted == (used < budget)
            && r.budgetUsed == if granted then used + 1 else used)
  {}

  /** A refused reservation keeps the day's count, a granted one makes room for exactly one more start. */
  lemma {:induction false} ReserveKeeps(env: Env, s: State, checkedAt: int, st: Start)
    requires ValidEnv(env) && DailyBudgeted(env) && BudgetOk(env, s)
    requires st.chargedAt == Reserve(env, s, checkedAt).2
    ensures var (r, granted, _) := Reserve(env, s, checkedAt);
      BudgetOk(env, if granted then r.(starts := r.starts + [st]) else r)
  {
    var budget := env.settings.dailyBudget.value;
    var t := env.clock(s.ticks);
    var today, later := Day(t), Day(env.clock(s.ticks + 1));
    ClockLater(env, s.ticks, s.ticks + 1);
    ReserveParts(env, s, checkedAt);
    if t < -MAX_DATE_MS || MAX_DATE_MS < t {
      LedgerLater(s.starts, s.budgetDay, s.budgetUsed, budget, today, later);
    } else {
      LedgerStep(s.starts, s.budgetDay, s.budgetUsed, budget, today, later, st);
    }
  }

  lemma {:induction false} BeginHistory(env: Env, s: State, id: nat, checkedAt: int, chargedAt: int)
    requires ValidEnv(env) && StartsOk(env, s) && id < |s.entries|
    requires s.nextStartAt <= checkedAt <= chargedAt <= env.clock(s.ticks)
    requires checkedAt < s.entries[id].expiresAt
    requires forall i :: 0 <= i < |s.starts| ==> s.starts[i].id < id
    requires forall q :: q in s.queue ==> id < q
    ensures StartsOk(env, Begin(env, s, id, checkedAt, chargedAt))
  {
    var t := env.clock(s.ticks);
    ClockLater(env, s.ticks, s.ticks + 1);
    SpacedStart(s.starts, s.nextStartAt, t, s.queue, |s.entries|, env.settings.minStartIntervalMs,
                Start(id, s.entries[id].expiresAt, checkedAt, chargedAt, t, s.ticks), env.clock(s.ticks + 1));
  }

  /** A head that is neither expired nor too early is taken out and launched. */
  lemma {:induction false} IterateLaunches(env: Env, s: State)
    requires CanIterate(env, s) && QueueWF(s) && s.queue[0] < |s.entries|
    requires env.clock(s.ticks) < s.entries[s.queue[0]].expiresAt && s.nextStartAt <= env.clock(s.ticks + 1)
    ensures Iterate(env, s) == (Launch(env, DequeueHead(s.(ticks := s.ticks + 2)), s.queue[0]), false)
  {
    assert s.(ticks := s.ticks + 1).(ticks := s.ticks + 2) == s.(ticks := s.ticks + 2);
    assert !Iterate(env, s).1;
  }

  lemma {:induction false} IterateKeepsHistory(env: Env, s: State)
    requires ValidEnv(env) && CanIterate(env, s) && QueueWF(s) && History(env, s)
    ensures History(env, Iterate(env, s).0)
  {
    var id := s.queue[0];
    assert id in s.queue;
    if s.entries[id].expiresAt <= env.clock(s.ticks) || s.nextStartAt > env.clock(s.ticks + 1) {
      HistoryFrame(env, s, Iterate(env, s).0);
    } else {
      IterateLaunches(env, s);
      TakenHistory(env, s, s.(ticks := s.ticks + 2));
      LaunchKeepsHistory(env, DequeueHead(s.(ticks := s.ticks + 2)), id);
    }
  }

  lemma {:induction false} TakenHistory(env: Env, s: State, s2: State)
    requires ValidEnv(env) && s.queue != [] && QueueWF(s) && History(env, s)
    requires s2 == s.(ticks := s2.ticks) && s.ticks <= s2.ticks
    ensures s.queue[0] in s.queue && History(env, DequeueHead(s2))
    ensures forall i :: 0 <= i < |s.starts| ==> s.starts[i].id < s.queue[0]
    ensures forall q :: q in DequeueHead(s2).queue ==> s.queue[0] < q
  {
    assert s.queue[0] in s.queue;
    var d := DequeueHead(s2);
    HistoryFrame(env, s, d);
    forall q | q in d.queue ensures s.queue[0] < q { assert q in s.queue[1..]; }
  }

  lemma {:induction false} LaunchKeepsHistory(env: Env, d: State, id: nat)
    requires ValidEnv(env) && History(env, d) && id < |d.entries| && d.nextStartAt <= env.clock(d.ticks)
    requires forall i :: 0 <= i < |d.starts| ==> d.starts[i].id < id
    requires forall q :: q in d.queue ==> id < q
    ensures History(env, Launch(env, d, id))
  {
    var s0 := d.(ticks := d.ticks + 1);
    HistoryFrame(env, d, s0);
    ClockLater(env, d.ticks, s0.ticks);
    LaunchSplit(env, d, id);
    if d.entries[id].expiresAt <= env.clock(d.ticks) {
      RejectedHistory(env, s0, id, "queue_expired");
    } else {
      LaunchReserved(env, s0, id, env.clock(d.ticks));
    }
  }

  lemma {:induction false} LaunchSplit(env: Env, d: State, id: nat)
    requires ValidEnv(env) && id < |d.entries|
    ensures var s0 := d.(ticks := d.ticks + 1);
      Launch(env, d, id) == if d.entries[id].expiresAt <= env.clock(d.ticks)
        then CountRejected(Settle(s0, id, Rejected("queue_expired"))) else LaunchUnexpired(env, s0, id, env.clock(d.ticks))
  {}

  lemma {:induction false} RejectedHistory(env: Env, s: State, id: nat, code: string)
    requires ValidEnv(env) && History(env, s) && id < |s.entries|
    ensures History(env, CountRejected(Settle(s, id, Rejected(code))))
  {
    HistoryFrame(env, s, CountRejected(Settle(s, id, Rejected(code))));
  }

  lemma {:induction false} LaunchReserved(env: Env, s: State, id: nat, t: int)
    requires ValidEnv(env) && History(env, s) && id < |s.entries|
    requires s.nextStartAt <= t < s.entries[id].expiresAt && t <= env.clock(s.ticks)
    requires forall i :: 0 <= i < |s.starts| ==> s.starts[i].id < id
    requires forall q :: q in s.queue ==> id < q
    ensures History(env, LaunchUnexpired(env, s, id, t))
  {
    if Reserve(env, s, t).1 {
      GrantedHistory(env, s, id, t);
    } else {
      DeniedHistory(env, s, t);
      RejectedHistory(env, Reserve(env, s, t).0, id, "daily_budget_exceeded");
    }
  }

  lemma {:induction false} DeniedHistory(env: Env, s0: State, t: int)
    requires ValidEnv(env) && History(env, s0) && !Reserve(env, s0, t).1
    ensures History(env, Reserve(env, s0, t).0)
  {
    var (s1, _, chargedAt) := Reserve(env, s0, t);
    if DailyBudgeted(env) { ReserveKeeps(env, s0, t, Start(0, 0, t, chargedAt, t, 0)); }
    StartsFrame(env, s0, s1);
  }

  lemma {:induction false} GrantedHistory(env: Env, s0: State, id: nat, t: int)
    requires ValidEnv(env) && History(env, s0) && id < |s0.entries| && Reserve(env, s0, t).1
    requires s0.nextStartAt <= t < s0.entries[id].expiresAt && t <= env.clock(s0.ticks)
    requires forall i :: 0 <= i < |s0.starts| ==> s0.starts[i].id < id
    requires forall q :: q in s0.queue ==> id < q
    ensures History(env, Begin(env, Reserve(env, s0, t).0, id, t, Reserve(env, s0, t).2))
  {
    ReserveReadings(env, s0, t);
    var (s1, _, chargedAt) := Reserve(env, s0, t);
    var st := Start(id, s0.entries[id].expiresAt, t, chargedAt, env.clock(s1.ticks), s1.ticks);
    if DailyBudgeted(env) {
      ReserveKeeps(env, s0, t, st);
      BudgetFrame(env, s1.(starts := s1.starts + [st]), Begin(env, s1, id, t, chargedAt));
    }
    StartsFrame(env, s0, s1);
    BeginHistory(env, s1, id, t, chargedAt);
  }

  lemma {:induction false} StartsFrame(env: Env, s: State, r: State)
    requires ValidEnv(env) && StartsOk(env, s)
    requires r.starts == s.starts && r.nextStartAt == s.nextStartAt && s.ticks <= r.ticks
    requires r.entries == s.entries && r.queue == s.queue
    ensures StartsOk(env, r)
  {
    ClockLater(env, s.ticks, r.ticks);
    SpacedLater(s.starts, s.nextStartAt, env.clock(s.ticks), s.queue, |s.entries|, env.settings.minStartIntervalMs,
                env.clock(r.ticks), r.queue, |r.entries|);
  }

  // ---------- the pump ----------

  ghost predicate Sound(env: Env, s: State) {
    Base(s) && History(env, s) && s.active <= env.settings.maxActive
  }

  /** Whatever state the pump starts from, it ends with no work it could still start unannounced. */
  lemma {:induction false} PumpKeeps(env: Env, s: State)
    requires ValidEnv(env) && Sound(env, s)
    ensures Sound(env, Pump(env, s)) && Awake(env, Pump(env, s))
    decreases |s.queue|
  {
    if CanIterate(env, s) {
      var (r, stop) := Iterate(env, s);
      IterateCases(env, s);
      IterateKeepsBase(env, s);
      IterateKeepsHistory(env, s);
      if !stop { PumpKeeps(env, r); }
    }
  }

  // ---------- every event ----------

  ghost predicate Inv(env: Env, s: State) {
    Sound(env, s) && Awake(env, s) && Bounded(env, s)
  }

  lemma {:induction false} InitInv(env: Env)
    requires ValidEnv(env)
    ensures Inv(env, Init())
  {
    assert Executing([]) == {};
  }

  /** An entry admitted past a full queue leaves the queue in the same turn. */
  lemma {:induction false} ImmediatePump(env: Env, s: State)
    requires ValidEnv(env) && Sound(env, s) && |s.queue| == 1
    requires s.active < env.settings.maxActive && s.ticks > 0 && s.nextStartAt <= env.clock(s.ticks - 1)
    ensures Pump(env, s).queue == []
  {
    assert s.queue[0] in s.queue;
    assert env.clock(s.ticks - 1) <= env.clock(s.ticks + 1);
    var (r, stop) := Iterate(env, s);
    assert !stop && r.queue == [];
  }

  lemma {:induction false} PumpInv(env: Env, s: State)
    requires ValidEnv(env) && Sound(env, s) && |s.queue| <= env.settings.maxPending
    ensures Inv(env, Pump(env, s))
  {
    PumpKeeps(env, s);
  }

  lemma {:induction false} RunKeeps(env: Env, s: State, key: Key, aborted: bool, admitted: bool, abortedMeanwhile: bool)
    requires ValidEnv(env) && Inv(env, s)
    ensures key in s.inFlight ==> s.inFlight[key] < |s.entries|
    ensures Inv(env, Run(env, s, key, aborted, admitted, abortedMeanwhile))
  {
    if aborted {
      RefuseKeeps(env, s, s, Cancelled);
    } else if key in s.inFlight {
      JoinKeeps(env, s, s.inFlight[key]);
    } else if !admitted {
      RefuseKeeps(env, s, s, Rejected("admission_rejected"));
    } else {
      AdmitKeeps(env, s, key, abortedMeanwhile);
    }
  }

  lemma {:induction false} JoinKeeps(env: Env, s: State, id: nat)
    requires ValidEnv(env) && Inv(env, s) && id < |s.entries| && s.entries[id].state != Settled
    ensures Inv(env, Coalesce(s, id))
  {
    JoinSound(env, s, id);
    JoinQuiet(s, id);
  }

  lemma {:induction false} JoinSound(env: Env, s: State, id: nat)
    requires ValidEnv(env) && Sound(env, s) && id < |s.entries| && s.entries[id].state != Settled
    ensures Sound(env, Coalesce(s, id))
  {
    var s0 := s.(counters := s.counters.(coalesced := s.counters.coalesced + 1));
    CounterFrame(env, s, s0);
    SubscribeSound(env, s0, id, false);
  }

  lemma {:induction false} JoinQuiet(s: State, id: nat)
    requires id < |s.entries|
    ensures var r := Coalesce(s, id); r.queue == s.queue && r.active == s.active && r.spacingTimer == s.spacingTimer
  {}

  lemma {:induction false} AdmitKeeps(env: Env, s: State, key: Key, abortedMeanwhile: bool)
    requires ValidEnv(env) && Inv(env, s) && key !in s.inFlight
    ensures Inv(env, Admit(env, s, key, abortedMeanwhile))
  {
    var (immediate, s0) := CanStartImmediately(env, s);
    if !immediate && |s.queue| >= env.settings.maxPending {
      RefuseKeeps(env, s, s0, Rejected("queue_full"));
    } else {
      TickSound(env, s, s0);
      AcceptedSound(env, s0, key, abortedMeanwhile);
      var s1 := Accept(env, s0, key, abortedMeanwhile);
      PumpKeeps(env, s1);
      if immediate { ImmediatePump(env, s1); }
    }
  }

  lemma {:induction false} TickSound(env: Env, s: State, s0: State)
    requires ValidEnv(env) && Sound(env, s) && s0 == s.(ticks := s0.ticks) && s.ticks <= s0.ticks
    ensures Sound(env, s0)
  {
    CallsFrame(s, s0);
    HistoryFrame(env, s, s0);
  }

  lemma {:induction false} RefuseKeeps(env: Env, s: State, s0: State, outcome: Outcome)
    requires ValidEnv(env) && Inv(env, s) && s0 == s.(ticks := s0.ticks) && s.ticks <= s0.ticks
    ensures Inv(env, NewCall(s0, None, [outcome]))
    ensures Inv(env, CountRejected(NewCall(s0, None, [outcome])))
  {
    TickSound(env, s, s0);
    NewCallKeeps(s0, outcome);
    var r := NewCall(s0, None, [outcome]);
    HistoryFrame(env, s0, r);
    CounterFrame(env, r, CountRejected(r));
  }

  lemma {:induction false} AcceptedSound(env: Env, s: State, key: Key, abortedMeanwhile: bool)
    requires ValidEnv(env) && Sound(env, s) && key !in s.inFlight
    ensures Sound(env, Accept(env, s, key, abortedMeanwhile))
  {
    var id := |s.entries|;
    var e := Entry(key, env.clock(s.ticks) + env.settings.queueExpiryMs, Queued, {}, true, NotStarted);
    var q := s.(ticks := s.ticks + 1, entries := s.entries + [e], inFlight := s.inFlight[key := id],
                queue := s.queue + [id], counters := s.counters.(accepted := s.counters.accepted + 1));
    assert Accept(env, s, key, abortedMeanwhile) == Subscribe(q, id, abortedMeanwhile);
    AcceptKeeps(s, q, e);
    HistoryFrame(env, s, q);
    SubscribeSound(env, q, id, abortedMeanwhile);
  }

  lemma {:induction false} SubscribeSound(env: Env, q: State, id: nat, aborted: bool)
    requires ValidEnv(env) && Sound(env, q) && id < |q.entries| && q.entries[id].state != Settled
    ensures Sound(env, Subscribe(q, id, aborted))
  {
    if aborted { NewCallKeeps(q, Cancelled); } else { SubscribeKeeps(q, id); }
    HistoryFrame(env, q, Subscribe(q, id, aborted));
  }

  lemma {:induction false} DepartKeeps(env: Env, s: State, call: nat, id: nat)
    requires ValidEnv(env) && Inv(env, s) && id < |s.entries| && call < |s.calls| && call in s.entries[id].subscribers
    ensures Inv(env, Depart(env, s, call, id))
  {
    LeaveKeeps(s, call, id);
    var s1 := Leave(s, call, id);
    HistoryFrame(env, s, s1);
    if s1.entries[id].subscribers == {} && s1.entries[id].state != Settled {
      WithdrawSound(env, s1, id);
      PumpInv(env, Withdraw(s1, id));
    }
  }

  lemma {:induction false} WithdrawSound(env: Env, s: State, id: nat)
    requires ValidEnv(env) && Sound(env, s) && id < |s.entries|
    requires s.entries[id].state != Settled && s.entries[id].subscribers == {}
    ensures Sound(env, Withdraw(s, id)) && |Withdraw(s, id).queue| <= |s.queue|
  {
    WithdrawKeeps(s, id);
    WithoutFacts(s.queue, id);
    HistoryFrame(env, s, Withdraw(s, id));
  }

  lemma {:induction false} ExpiryKeeps(env: Env, s: State, id: nat)
    requires ValidEnv(env) && Inv(env, s) && id < |s.entries|
    ensures Inv(env, ExpireAndPump(env, s, id))
  {
    if s.entries[id].state == Queued {
      var s1 := Expire(s, id);
      CloseKeeps(s, s1, id, Rejected("queue_expired"));
      WithoutFacts(s.queue, id);
      HistoryFrame(env, s, s1);
      PumpInv(env, s1);
    }
  }

  lemma {:induction false} SettleKeeps(env: Env, s: State, id: nat, outcome: Outcome)
    requires ValidEnv(env) && Sound(env, s) && id < |s.entries| && s.entries[id].state != Queued && outcome != Cancelled
    ensures Sound(env, Settle(s, id, outcome))
    ensures Settle(s, id, outcome).entries[id].exec == s.entries[id].exec
    ensures Settle(s, id, outcome).entries[id].state == Settled
  {
    if s.entries[id].state != Settled {
      var r := Settle(s, id, outcome);
      NotQueued(s, id);
      CloseKeeps(s, r, id, outcome);
      HistoryFrame(env, s, r);
    }
  }

  lemma {:induction false} NotQueued(s: State, id: nat)
    requires QueueWF(s) && id < |s.entries| && s.entries[id].state != Queued
    ensures Without(s.queue, id) == s.queue
  {
    NotIn(s.queue, id);
  }

  lemma {:induction false} NotIn(q: seq<nat>, id: nat)
    requires id !in q
    ensures Without(q, id) == q
  {
    if q != [] { NotIn(q[1..], id); }
  }

  lemma {:induction false} FinishKeeps(env: Env, s: State, id: nat)
    requires ValidEnv(env) && Sound(env, s) && id < |s.entries|
    requires Occupies(s.entries[id].exec) && s.entries[id].state == Settled
    ensures Sound(env, FinishSlot(s, id))
  {
    AdvanceKeeps(s, FinishSlot(s, id), id, Finished);
    HistoryFrame(env, s, FinishSlot(s, id));
  }

  lemma {:induction false} CounterFrame(env: Env, s: State, r: State)
    requires ValidEnv(env) && Sound(env, s)
    requires r == s.(counters := r.counters) && r.counters.accepted == s.counters.accepted
    ensures Sound(env, r)
  {
    CallsFrame(s, r);
    HistoryFrame(env, s, r);
  }

  lemma {:induction false} SettleAndFinish(env: Env, s: State, id: nat, outcome: Outcome)
    requires ValidEnv(env) && Sound(env, s) && id < |s.entries| && outcome != Cancelled
    requires s.entries[id].state != Queued && Occupies(s.entries[id].exec)
    ensures Sound(env, FinishSlot(Settle(s, id, outcome), id))
  {
    SettleKeeps(env, s, id, outcome);
    FinishKeeps(env, Settle(s, id, outcome), id);
  }

  lemma {:induction false} DrainKeeps(env: Env, s: State, id: nat)
    requires ValidEnv(env) && Inv(env, s) && id < |s.entries| && s.entries[id].exec == Racing(true)
    ensures Inv(env, AfterRace(s, id, Failure("")).0)
  {
    var s0 := s.(counters := s.counters.(timeout := s.counters.timeout + 1));
    CounterFrame(env, s, s0);
    SettleKeeps(env, s0, id, Rejected("address_provider_timeout"));
    var s1 := Settle(s0, id, Rejected("address_provider_timeout"));
    var s2 := AfterRace(s, id, Failure("")).0;
    AdvanceKeeps(s1, s2, id, Draining);
    HistoryFrame(env, s1, s2);
  }

  lemma {:induction false} CompleteKeeps(env: Env, s: State, id: nat, result: RaceResult)
    requires ValidEnv(env) && Inv(env, s) && id < |s.entries| && s.entries[id].exec.Racing?
    ensures s.entries[id].state != Queued
    ensures Inv(env, Complete(env, s, id, result))
  {
    assert EntryOk(s.entries[id]);
    if result.Failure? && s.entries[id].exec.timedOut {
      DrainKeeps(env, s, id);
    } else {
      EndedSound(env, s, id, result);
      PumpInv(env, AfterRace(s, id, result).0);
    }
  }

  lemma {:induction false} EndedSound(env: Env, s: State, id: nat, result: RaceResult)
    requires ValidEnv(env) && Sound(env, s) && id < |s.entries| && s.entries[id].exec.Racing? && s.entries[id].state != Queued
    requires !(result.Failure? && s.entries[id].exec.timedOut)
    ensures Sound(env, AfterRace(s, id, result).0) && AfterRace(s, id, result).0.queue == s.queue
  {
    if !result.Failure? {
      SettleAndFinish(env, s, id, RaceOutcome(result));
    } else if s.entries[id].state == Settled {
      FinishKeeps(env, s, id);
    } else {
      CounterFrame(env, s, CountFailure(s));
      SettleAndFinish(env, CountFailure(s), id, RaceOutcome(result));
    }
  }

  lemma {:induction false} StepKeeps(env: Env, s: State, ev: Event)
    requires ValidEnv(env) && Inv(env, s) && WellFormed(s) && Enabled(s, ev)
    ensures Inv(env, Step(env, s, ev)) && WellFormed(Step(env, s, ev))
  {
    match ev
    case Arrive(key, aborted, admitted, abortedMeanwhile) => RunKeeps(env, s, key, aborted, admitted, abortedMeanwhile);
    case Abort(call) =>
      var home := s.calls[call].home;
      if home.Some? && call in s.entries[home.value].subscribers { DepartKeeps(env, s, call, home.value); }
    case ExpiryFires(id) => ExpiryKeeps(env, s, id);
    case SpacingFires =>
      var r := s.(spacingTimer := false);
      CallsFrame(s, r);
      HistoryFrame(env, s, r);
      PumpInv(env, r);
    case TimeoutFires(id) =>
      AdvanceKeeps(s, Step(env, s, ev), id, Racing(true));
      HistoryFrame(env, s, Step(env, s, ev));
    case RaceEnds(id, result) => CompleteKeeps(env, s, id, result);
    case WorkEnds(id) =>
      FinishKeeps(env, s, id);
      PumpInv(env, FinishSlot(s, id));
  }

  // ---------- whole runs ----------

  /** The state after a sequence of events from the start; None when one of them could not happen. */
  ghost function After(env: Env, evs: seq<Event>): Option<State> {
    if evs == [] then Some(Init()) else
    match After(env, evs[..|evs| - 1])
    case None => None
    case Some(s) =>
      var ev := evs[|evs| - 1];
      if WellFormed(s) && Enabled(s, ev) then Some(Step(env, s, ev)) else None
  }

  lemma {:induction false} RunsKeepInv(env: Env, evs: seq<Event>)
    requires ValidEnv(env) && After(env, evs).Some?
    ensures Inv(env, After(env, evs).value) && WellFormed(After(env, evs).value)
  {
    if evs == [] {
      InitInv(env);
    } else {
      var before := evs[..|evs| - 1];
      RunsKeepInv(env, before);
      StepKeeps(env, After(env, before).value, evs[|evs| - 1]);
    }
  }

  /** In every reachable state: the slots in use are the unfinished executions and never exceed the limit,
      every unsettled entry is the one in flight for its key, and settled entries have no subscriber. */
  lemma {:induction false} SlotsAndFlight(env: Env, evs: seq<Event>)
    requires ValidEnv(env) && After(env, evs).Some?
    ensures var s := After(env, evs).value;
      && s.active == |Executing(s.entries)| <= env.settings.maxActive
      && (forall id :: 0 <= id < |s.entries| && s.entries[id].state != Settled ==>
            s.entries[id].key in s.inFlight && s.inFlight[s.entries[id].key] == id)
      && (forall i, j | 0 <= i < j < |s.entries| && s.entries[i].key == s.entries[j].key ::
            s.entries[i].state == Settled || s.entries[j].state == Settled)
      && (forall id :: 0 <= id < |s.entries| && s.entries[id].state == Settled ==> s.entries[id].subscribers == {})
  {
    RunsKeepInv(env, evs);
    var s := After(env, evs).value;
    forall id | 0 <= id < |s.entries| && s.entries[id].state == Settled ensures s.entries[id].subscribers == {} {
      assert EntryOk(s.entries[id]);
    }
  }

  /** In every reachable state the queue is bounded, holds exactly the queued entries in acceptance order,
      and work that could start has a pump scheduled; every queued entry also has its expiry timer armed. */
  lemma {:induction false} NoLostWakeUp(env: Env, evs: seq<Event>)
    requires ValidEnv(env) && After(env, evs).Some?
    ensures var s := After(env, evs).value;
      && |s.queue| <= env.settings.maxPending
      && (s.queue == [] || s.active == env.settings.maxActive || s.spacingTimer)
      && Increasing(s.queue)
      && (forall id :: 0 <= id < |s.entries| ==> (id in s.queue <==> s.entries[id].state == Queued))
      && (forall id :: id in s.queue ==> id < |s.entries| && s.entries[id].expiryArmed)
  {
    RunsKeepInv(env, evs);
    var s := After(env, evs).value;
    forall id | id in s.queue ensures id < |s.entries| && s.entries[id].expiryArmed { assert EntryOk(s.entries[id]); }
  }

  /** In every reachable state each caller is either waiting on one unsettled entry or was answered exactly
      once, and callers that shared an entry to its end were told the same. */
  lemma {:induction false} AnsweredOnce(env: Env, evs: seq<Event>)
    requires ValidEnv(env) && After(env, evs).Some?
    ensures var s := After(env, evs).value;
      && (forall c :: 0 <= c < |s.calls| ==>
            if Waiting(s, c) then s.calls[c].answers == [] && s.entries[s.calls[c].home.value].state != Settled
            else |s.calls[c].answers| == 1)
      && (forall c, d :: 0 <= c < |s.calls| && 0 <= d < |s.calls| && s.calls[c].home.Some? &&
                         s.calls[c].home == s.calls[d].home && Final(s.calls[c]) && Final(s.calls[d]) ==>
            s.calls[c].answers == s.calls[d].answers)
  {
    RunsKeepInv(env, evs);
    var s := After(env, evs).value;
    forall c | 0 <= c < |s.calls| && Waiting(s, c) ensures s.entries[s.calls[c].home.value].state != Settled {
      assert EntryOk(s.entries[s.calls[c].home.value]);
    }
  }

  /** Starts in any run: acceptance order, minimum spacing, never past the checked expiry. */
  lemma {:induction false} StartDiscipline(env: Env, evs: seq<Event>)
    requires ValidEnv(env) && After(env, evs).Some?
    ensures var starts := After(env, evs).value.starts;
      && (forall i, j :: 0 <= i < j < |starts| ==>
            && starts[i].id < starts[j].id
            && starts[i].startedAt + env.settings.minStartIntervalMs <= starts[j].startedAt)
      && (forall i :: 0 <= i < |starts| ==> starts[i].checkedAt < starts[i].expiresAt)
  {
    RunsKeepInv(env, evs);
    var starts := After(env, evs).value.starts;
    forall i | 0 <= i < |starts| ensures StartOk(starts[i]) {}
  }

  /** A start charged before the day and made on it, and one charged on the day and made after it. */
  ghost predicate Into(starts: seq<Start>, day: int) {
    exists k :: 0 <= k < |starts| && Day(starts[k].chargedAt) < day == Day(starts[k].startedAt)
  }

  ghost predicate OutOf(starts: seq<Start>, day: int) {
    exists k :: 0 <= k < |starts| && Day(starts[k].chargedAt) == day < Day(starts[k].startedAt)
  }

  lemma {:induction false} CrossingsGrow(starts: seq<Start>, st: Start, day: int)
    ensures Into(starts + [st], day) <==> Into(starts, day) || Day(st.chargedAt) < day == Day(st.startedAt)
    ensures OutOf(starts + [st], day) <==> OutOf(starts, day) || Day(st.chargedAt) == day < Day(st.startedAt)
  {
    var all := starts + [st];
    assert all[|starts|] == st;
    if Into(starts, day) {
      var k :| 0 <= k < |starts| && Day(starts[k].chargedAt) < day == Day(starts[k].startedAt);
      assert all[k] == starts[k];
    }
    if OutOf(starts, day) {
      var k :| 0 <= k < |starts| && Day(starts[k].chargedAt) == day < Day(starts[k].startedAt);
      assert all[k] == starts[k];
    }
  }

  lemma {:induction false} EarlierDays(starts: seq<Start>, i: nat, j: nat)
    requires i < j < |starts| && StartOk(starts[j]) && starts[i].startedAt <= starts[j].checkedAt
    ensures Day(starts[i].startedAt) <= Day(starts[j].chargedAt) <= Day(starts[j].startedAt)
  {
    DayMonotone(starts[i].startedAt, starts[j].chargedAt);
    DayMonotone(starts[j].chargedAt, starts[j].startedAt);
  }

  /** At most one start crosses into a day and at most one out of it: the starts made on the day are those charged
      to it, and the one that came in, without the one that went out. */
  lemma {:induction false} StartedExactly(starts: seq<Start>, day: int)
    requires forall i :: 0 <= i < |starts| ==> StartOk(starts[i])
    requires forall i, j :: 0 <= i < j < |starts| ==> starts[i].startedAt <= starts[j].checkedAt
    ensures StartedOn(starts, day) + (if OutOf(starts, day) then 1 else 0)
      == Charged(starts, day) + if Into(starts, day) then 1 else 0
  {
    if starts != [] {
      var n := |starts| - 1;
      var before, st := starts[..n], starts[n];
      StartedExactly(before, day);
      assert starts == before + [st];
      CrossingsGrow(before, st, day);
      DayMonotone(st.chargedAt, st.startedAt);
      forall k | 0 <= k < n ensures Day(before[k].startedAt) <= Day(st.chargedAt) { EarlierDays(starts, k, n); }
    }
  }

  /** The daily budget bounds the starts charged to any day. Measured by the instant of the start itself it is
      exceeded by at most one, and exactly when the day's budget was used up, a start charged before the day was
      made on it, and none charged to it was made after it. */
  lemma {:induction false} DailyBudget(env: Env, evs: seq<Event>, day: int)
    requires ValidEnv(env) && After(env, evs).Some? && DailyBudgeted(env)
    ensures var starts := After(env, evs).value.starts; var budget := env.settings.dailyBudget.value;
      && Charged(starts, day) <= budget && StartedOn(starts, day) <= budget + 1
      && (StartedOn(starts, day) > budget <==>
            Charged(starts, day) == budget && Into(starts, day) && !OutOf(starts, day))
  {
    RunsKeepInv(env, evs);
    StartedExactly(After(env, evs).value.starts, day);
  }

  // ---------- a start on the wrong side of midnight ----------

  /** Readings 0 to 5 fall in the last millisecond of a day, all later ones on the next day. */
  function MidnightEnv(): Env {
    Env(Settings(10, 2, 1000, 0, Some(1)), (i: nat) => if i <= 5 then DAY_MS - 1 else DAY_MS, None)
  }

  lemma {:induction false} PumpOnce(env: Env, t: State, r: State)
    requires CanIterate(env, t) && QueueWF(t) && Iterate(env, t) == (r, false) && r.queue == []
    ensures Pump(env, t) == r
  {
    IterateFrame(env, t);
  }

  lemma {:induction false} AdmitsAtOnce(env: Env, s: State, key: Key)
    requires QueueWF(s) && s.queue == [] && s.active < env.settings.maxActive && s.nextStartAt <= env.clock(s.ticks)
    ensures var t := Accept(env, s.(ticks := s.ticks + 1), key, false);
      && QueueWF(t) && Admit(env, s, key, false) == Pump(env, t)
      && t.queue == [|s.entries|] && t.ticks == s.ticks + 2 && t.active == s.active && t.nextStartAt == s.nextStartAt
  {
    AcceptedShape(env, s.(ticks := s.ticks + 1), key);
    assert CanStartImmediately(env, s) == (true, s.(ticks := s.ticks + 1));
  }

  lemma {:induction false} AcceptedShape(env: Env, s: State, key: Key)
    requires QueueWF(s) && s.queue == []
    ensures var t := Accept(env, s, key, false);
      QueueWF(t) && t.queue == [|s.entries|] && t.ticks == s.ticks + 1 && t.active == s.active && t.nextStartAt == s.nextStartAt
  {
    AcceptQueue(env, s, key, false);
  }

  /** A call that finds a free slot, no queue and no spacing to wait for starts at once. */
  lemma {:induction false} StartsAtOnce(env: Env, s: State, key: Key, t: State)
    requires QueueWF(s) && s.queue == [] && s.active < env.settings.maxActive
    requires t == Accept(env, s.(ticks := s.ticks + 1), key, false)
    requires s.nextStartAt <= env.clock(s.ticks) && s.nextStartAt <= env.clock(s.ticks + 3)
    requires env.clock(s.ticks + 2) < t.entries[|s.entries|].expiresAt
    ensures QueueWF(t) && Admit(env, s, key, false) == Launch(env, DequeueHead(t.(ticks := s.ticks + 4)), |s.entries|)
  {
    AdmitsAtOnce(env, s, key);
    IterateLaunches(env, t);
    PumpOnce(env, t, Iterate(env, t).0);
  }

  lemma {:induction false} FirstAtMidnight(env: Env, s1: State)
    requires env == MidnightEnv() && s1 == Admit(env, Init(), "a", false)
    ensures s1.starts == [Start(0, DAY_MS + 999, DAY_MS - 1, DAY_MS - 1, DAY_MS, 6)]
    ensures s1.active == 1 && s1.queue == [] && s1.ticks == 7 && s1.budgetDay == Some(0) && s1.nextStartAt == DAY_MS
    ensures "b" !in s1.inFlight && |s1.entries| == 1
  {
    StartsAtOnce(env, Init(), "a", Accept(env, Init().(ticks := 1), "a", false));
  }

  lemma {:induction false} SecondAtMidnight(env: Env, s1: State)
    requires env == MidnightEnv() && QueueWF(s1) && s1.active == 1 && s1.queue == [] && s1.ticks == 7
    requires s1.budgetDay == Some(0) && s1.nextStartAt == DAY_MS && |s1.entries| == 1
    ensures Admit(env, s1, "b", false).starts == s1.starts + [Start(1, DAY_MS + 1000, DAY_MS, DAY_MS, DAY_MS, 13)]
  {
    var t := Accept(env, s1.(ticks := 8), "b", false);
    StartsAtOnce(env, s1, "b", t);
    var d := DequeueHead(t.(ticks := 11));
    assert d.ticks == 11 && d.entries[1].expiresAt == DAY_MS + 1000;
    var (r, granted, chargedAt) := Reserve(env, d.(ticks := 12), DAY_MS);
    assert granted && chargedAt == DAY_MS;
  }

  /** A run can be continued by any event that is enabled. */
  lemma {:induction false} Continue(env: Env, evs: seq<Event>, ev: Event)
    requires ValidEnv(env) && After(env, evs).Some? && Enabled(After(env, evs).value, ev)
    ensures WellFormed(After(env, evs).value)
    ensures After(env, evs + [ev]) == Some(Step(env, After(env, evs).value, ev))
  {
    RunsKeepInv(env, evs);
    assert (evs + [ev])[..|evs|] == evs;
  }

  lemma {:induction false} TwoOnDayOne(first: Start, second: Start)
    requires Day(first.startedAt) == Day(second.startedAt) == 1
    ensures StartedOn([first, second], 1) == 2
  {
    assert [first, second][..1] == [first];
    assert [first][..0] == [];
    assert StartedOn([first], 1) == 1;
  }

  function AtMidnight(): seq<Event> { [Arrive("a", false, true, false), Arrive("b", false, true, false)] }

  lemma {:induction false} FirstEvent(env: Env, a: Event)
    requires ValidEnv(env) && Enabled(Init(), a)
    ensures WellFormed(Init()) && After(env, [a]) == Some(Step(env, Init(), a))
  {
    Continue(env, [], a);
    assert [] + [a] == [a];
  }

  lemma {:induction false} SecondEvent(env: Env, a: Event, b: Event, s1: State)
    requires ValidEnv(env) && After(env, [a]) == Some(s1) && Enabled(s1, b)
    ensures WellFormed(s1) && After(env, [a, b]) == Some(Step(env, s1, b))
  {
    Continue(env, [a], b);
    assert [a] + [b] == [a, b];
  }

  lemma {:induction false} StartsAtMidnight()
    ensures var env := MidnightEnv(); var run := After(env, AtMidnight());
      ValidEnv(env) && run.Some? && run.value.starts ==
        [Start(0, DAY_MS + 999, DAY_MS - 1, DAY_MS - 1, DAY_MS, 6), Start(1, DAY_MS + 1000, DAY_MS, DAY_MS, DAY_MS, 13)]
  {
    var env := MidnightEnv();
    var a, b := AtMidnight()[0], AtMidnight()[1];
    var s1 := Admit(env, Init(), "a", false);
    FirstAtMidnight(env, s1);
    FirstEvent(env, a);
    SecondEvent(env, a, b, s1);
    SecondAtMidnight(env, s1);
  }

  /** With a budget of one, two calls get two starts on day 1: the first was charged to day 0. */
  lemma {:induction false} BudgetStraddlesMidnight()
    ensures var env := MidnightEnv(); var run := After(env, AtMidnight());
      ValidEnv(env) && run.Some? && StartedOn(run.value.starts, 1) == 2 == env.settings.dailyBudget.value + 1
  {
    StartsAtMidnight();
    TwoOnDayOne(Start(0, DAY_MS + 999, DAY_MS - 1, DAY_MS - 1, DAY_MS, 6), Start(1, DAY_MS + 1000, DAY_MS, DAY_MS, DAY_MS, 13));
  }
}
