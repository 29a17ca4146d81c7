/** The controller as the object whose methods update its fields in place. Each method is proved to
    compute the step of the state machine in AdmissionModel. */
module AdmissionController {
  import opened AdmissionModel
  import M = AdmissionModel
  import opened Options

  class BoundedAdmissionController {
    const env: Env
    var entries: seq<Entry>
    var queue: seq<nat>
    var inFlight: map<Key, nat>
    var active: int
    var nextStartAt: int
    var pumpRunning: bool
    var spacingTimer: bool
    var dailyBudgetDay: Option<int>
    var dailyBudgetUsed: nat
    var counters: Counters
    var ticks: nat
    var budgetCalls: nat
    var calls: seq<Call>      // the promises handed out, in order
    ghost var starts: seq<Start>

    ghost function Abs(): State
      reads this
    {
      State(entries, queue, inFlight, active, nextStartAt, spacingTimer, dailyBudgetDay, dailyBudgetUsed,
            counters, ticks, budgetCalls, calls, starts)
    }

    constructor (env: Env)
      ensures Abs() == Init() && !pumpRunning && this.env == env
    {
      this.env := env;
      entries, queue, inFlight, active, nextStartAt := [], [], map[], 0, 0;
      pumpRunning, spacingTimer := false, false;
      dailyBudgetDay, dailyBudgetUsed, counters := None, 0, Counters(0, 0, 0, 0, 0);
      ticks, budgetCalls, calls, starts := 0, 0, [], [];
    }

    method Now() returns (t: int)
      modifies this`ticks
      ensures t == env.clock(old(ticks)) && ticks == old(ticks) + 1
    {
      t := env.clock(ticks);
      ticks := ticks + 1;
    }

    method Settle(id: nat, outcome: Outcome)
      requires id < |entries|
      modifies this
      ensures Abs() == M.Settle(old(Abs()), id, outcome) && pumpRunning == old(pumpRunning)
    {
      var entry := entries[id];
      if entry.state == Settled { return; }
      if entry.key in inFlight && inFlight[entry.key] == id { inFlight := inFlight - {entry.key}; }
      calls := Answer(calls, entry.subscribers, outcome);
      entries := entries[id := entry.(state := Settled, expiryArmed := false, subscribers := {})];
    }

    method ExpireQueued(id: nat)
      requires QueueWF(Abs()) && id < |entries|
      modifies this
      ensures pumpRunning == old(pumpRunning)
      ensures old(entries[id].state) != Queued ==> Abs() == old(Abs())
      ensures old(entries[id].state) == Queued ==>
        QueueWF(Expire(old(Abs()), id)) &&
        Abs() == if pumpRunning then Expire(old(Abs()), id) else M.Pump(env, Expire(old(Abs()), id))
      decreases if pumpRunning then 1 else 3, 0
    {
      if entries[id].state != Queued { return; }
      WithoutFacts(queue, id);
      queue := Without(queue, id);
      Settle(id, Rejected("queue_expired"));
      counters := counters.(rejected := counters.rejected + 1);
      assert Abs() == Expire(old(Abs()), id);
      Pump();
    }

    method SchedulePump()
      modifies this`spacingTimer
      ensures spacingTimer
    {
      if spacingTimer { return; }
      spacingTimer := true;
    }

    /** The daily reservation; an exception inside it counts as a refusal. */
    method TryConsumeBudget(checkedAt: int) returns (allowed: bool, ghost chargedAt: int)
      modifies this
      ensures (Abs(), allowed, chargedAt) == Reserve(env, old(Abs()), checkedAt) && pumpRunning == old(pumpRunning)
    {
      allowed, chargedAt := true, checkedAt;
      if env.tryConsumeBudget.Some? {
        var verdict := env.tryConsumeBudget.value(budgetCalls);
        budgetCalls := budgetCalls + 1;
        allowed := verdict == Allow;
      } else if env.settings.dailyBudget.Some? {
        var t := Now();
        chargedAt := t;
        if t < -MAX_DATE_MS || MAX_DATE_MS < t {
          allowed := false;
        } else {
          var today := Day(t);
          if dailyBudgetDay != Some(today) {
            dailyBudgetDay := Some(today);
            dailyBudgetUsed := 0;
          }
          allowed := dailyBudgetUsed < env.settings.dailyBudget.value;
          if allowed { dailyBudgetUsed := dailyBudgetUsed + 1; }
        }
      }
    }

    method RejectHead(id: nat, code: string)
      requires id < |entries|
      modifies this
      ensures Abs() == CountRejected(M.Settle(old(Abs()), id, Rejected(code))) && pumpRunning == old(pumpRunning)
    {
      Settle(id, Rejected(code));
      counters := counters.(rejected := counters.rejected + 1);
    }

    /** The rest of an iteration for a head that has just left the queue. */
    method StartHead(id: nat)
      requires id < |entries|
      modifies this
      ensures Abs() == Launch(env, old(Abs()), id) && pumpRunning == old(pumpRunning)
    {
      var t := Now();
      if entries[id].expiresAt <= t {
        RejectHead(id, "queue_expired");
        return;
      }
      var allowed, chargedAt := TryConsumeBudget(t);
      if !allowed {
        RejectHead(id, "daily_budget_exceeded");
        return;
      }
      BeginHead(id, t, chargedAt);
    }

    method BeginHead(id: nat, checkedAt: int, ghost chargedAt: int)
      requires id < |entries|
      modifies this
      ensures Abs() == Begin(env, old(Abs()), id, checkedAt, chargedAt) && pumpRunning == old(pumpRunning)
    {
      active := active + 1;
      ghost var tick := Abs().ticks;
      var startedAt := Now();
      nextStartAt := startedAt + env.settings.minStartIntervalMs;
      starts := starts + [Start(id, entries[id].expiresAt, checkedAt, chargedAt, startedAt, tick)];
      entries := entries[id := entries[id].(state := Running, exec := Racing(false))];
    }

    /** One turn of the loop in Pump; the result says whether the loop is left. */
    method Turn() returns (stop: bool)
      requires pumpRunning && QueueWF(Abs()) && CanIterate(env, Abs())
      modifies this
      ensures pumpRunning && (Abs(), stop) == Iterate(env, old(Abs()))
      decreases 1, 1
    {
      var id := queue[0];
      assert id in queue;
      var t := Now();
      if entries[id].expiresAt <= t {
        ExpireQueued(id);
        assert Abs() == Expire(old(Abs()).(ticks := old(ticks) + 1), id);
        return false;
      }
      t := Now();
      if nextStartAt - t > 0 {
        SchedulePump();
        return true;
      }
      TakeHead();
      return false;
    }

    method TakeHead()
      requires queue != [] && queue[0] < |entries|
      modifies this
      ensures Abs() == Launch(env, DequeueHead(old(Abs())), old(queue[0])) && pumpRunning == old(pumpRunning)
    {
      var id := queue[0];
      queue := queue[1..];
      entries := entries[id := entries[id].(expiryArmed := false, state := Starting)];
      StartHead(id);
    }

    method Pump()
      requires QueueWF(Abs())
      modifies this
      ensures pumpRunning == old(pumpRunning)
      ensures Abs() == if pumpRunning then old(Abs()) else M.Pump(env, old(Abs()))
      decreases if pumpRunning then 0 else 2, 0
    {
      if pumpRunning { return; }
      pumpRunning := true;
      while active < env.settings.maxActive && |queue| > 0
        invariant pumpRunning && QueueWF(Abs())
        invariant M.Pump(env, Abs()) == M.Pump(env, old(Abs()))
        decreases |queue|
      {
        ghost var before := Abs();
        IterateFrame(env, before);
        var stop := Turn();
        if stop {
          assert M.Pump(env, before) == Abs();
          break;
        }
      }
      pumpRunning := false;
    }

    method Subscribe(id: nat, aborted: bool)
      requires id < |entries|
      modifies this
      ensures Abs() == M.Subscribe(old(Abs()), id, aborted) && pumpRunning == old(pumpRunning)
    {
      if aborted {
        calls := calls + [Call(None, [Cancelled])];
        return;
      }
      var me := |calls|;
      calls := calls + [Call(Some(id), [])];
      entries := entries[id := entries[id].(subscribers := entries[id].subscribers + {me})];
    }

    method Run(key: Key, aborted: bool, admitted: bool, abortedMeanwhile: bool)
      requires !pumpRunning && WellFormed(Abs())
      modifies this
      ensures !pumpRunning && Abs() == M.Run(env, old(Abs()), key, aborted, admitted, abortedMeanwhile)
    {
      if aborted {
        calls := calls + [Call(None, [Cancelled])];
        return;
      }
      if key in inFlight {
        counters := counters.(coalesced := counters.coalesced + 1);
        Subscribe(inFlight[key], false);
        return;
      }
      if !admitted {
        Refuse("admission_rejected");
        return;
      }
      TryAdmit(key, abortedMeanwhile);
    }

    /** The capacity test, then the queue and the pump. */
    method TryAdmit(key: Key, abortedMeanwhile: bool)
      requires !pumpRunning && QueueWF(Abs())
      modifies this
      ensures !pumpRunning && Abs() == Admit(env, old(Abs()), key, abortedMeanwhile)
    {
      var immediate := active < env.settings.maxActive && |queue| == 0;
      if immediate {
        var t := Now();
        immediate := nextStartAt <= t;
      }
      ghost var checked := Abs();
      assert (immediate, checked) == CanStartImmediately(env, old(Abs()));
      if !immediate && |queue| >= env.settings.maxPending {
        Refuse("queue_full");
        return;
      }
      Enqueue(key, abortedMeanwhile);
      AcceptQueue(env, checked, key, abortedMeanwhile);
      Pump();
    }

    /** Creates the entry, registers it, arms its timer and queues it. */
    method Enqueue(key: Key, abortedMeanwhile: bool)
      modifies this
      ensures Abs() == Accept(env, old(Abs()), key, abortedMeanwhile) && pumpRunning == old(pumpRunning)
    {
      var t := Now();
      var entry := Entry(key, t + env.settings.queueExpiryMs, Queued, {}, true, NotStarted);
      var id := |entries|;
      counters := counters.(accepted := counters.accepted + 1);
      inFlight := inFlight[key := id];
      entries := entries + [entry];
      Subscribe(id, abortedMeanwhile);
      queue := queue + [id];
    }

    method Refuse(code: string)
      modifies this
      ensures Abs() == CountRejected(NewCall(old(Abs()), None, [Rejected(code)])) && pumpRunning == old(pumpRunning)
    {
      counters := counters.(rejected := counters.rejected + 1);
      calls := calls + [Call(None, [Rejected(code)])];
    }

    /** The abort listener of one caller. */
    method OnAbort(call: nat)
      requires !pumpRunning && WellFormed(Abs()) && call < |calls|
      modifies this
      ensures !pumpRunning && Abs() == Step(env, old(Abs()), Abort(call))
    {
      if calls[call].home.None? { return; }
      var id := calls[call].home.value;
      if call !in entries[id].subscribers { return; }
      ghost var before := Abs();
      entries := entries[id := entries[id].(subscribers := entries[id].subscribers - {call})];
      calls := Answer(calls, {call}, Cancelled);
      assert Abs() == Leave(before, call, id);
      CancelWhenUnobserved(id);
    }

    method CancelWhenUnobserved(id: nat)
      requires !pumpRunning && QueueWF(Abs()) && id < |entries|
      modifies this
      ensures !pumpRunning
      ensures var s := old(Abs()); var e := s.entries[id];
        if e.subscribers != {} || e.state == Settled then Abs() == s
        else QueueWF(Withdraw(s, id)) && Abs() == M.Pump(env, Withdraw(s, id))
    {
      if entries[id].subscribers != {} || entries[id].state == Settled { return; }
      WithoutFacts(queue, id);
      var entry := entries[id];
      if entry.state == Queued { queue := Without(queue, id); }
      entries := entries[id := entry.(expiryArmed := false, state := Settled)];
      if entry.key in inFlight && inFlight[entry.key] == id { inFlight := inFlight - {entry.key}; }
      assert Abs() == Withdraw(old(Abs()), id);
      Pump();
    }

    method OnExpiryTimer(id: nat)
      requires !pumpRunning && WellFormed(Abs()) && Enabled(Abs(), ExpiryFires(id))
      modifies this
      ensures !pumpRunning && Abs() == Step(env, old(Abs()), ExpiryFires(id))
    {
      ExpireQueued(id);
    }

    method OnSpacingTimer()
      requires !pumpRunning && WellFormed(Abs()) && Enabled(Abs(), SpacingFires)
      modifies this
      ensures !pumpRunning && Abs() == Step(env, old(Abs()), SpacingFires)
    {
      spacingTimer := false;
      Pump();
    }

    method OnTimeout(id: nat)
      requires !pumpRunning && WellFormed(Abs()) && Enabled(Abs(), TimeoutFires(id))
      modifies this
      ensures !pumpRunning && Abs() == Step(env, old(Abs()), TimeoutFires(id))
    {
      entries := entries[id := entries[id].(exec := Racing(true))];
    }

    /** What `executeEntry` does when the race between work and timeout is decided. */
    method OnRaceEnd(id: nat, result: RaceResult)
      requires !pumpRunning && WellFormed(Abs()) && Enabled(Abs(), RaceEnds(id, result))
      modifies this
      ensures !pumpRunning && Abs() == Step(env, old(Abs()), RaceEnds(id, result))
    {
      ghost var before := Abs();
      NotHead(before, id);
      if !result.Failure? {
        Settle(id, RaceOutcome(result));
      } else if entries[id].exec.timedOut {
        counters := counters.(timeout := counters.timeout + 1);
        Settle(id, Rejected("address_provider_timeout"));
        entries := entries[id := entries[id].(exec := Draining)];
        return;
      } else if entries[id].state != Settled {
        counters := counters.(providerFailure := counters.providerFailure + 1);
        Settle(id, RaceOutcome(result));
      }
      ReleaseSlot(id);
      assert Abs() == AfterRace(before, id, result).0;
      Pump();
    }

    method ReleaseSlot(id: nat)
      requires id < |entries|
      modifies this
      ensures Abs() == FinishSlot(old(Abs()), id) && pumpRunning == old(pumpRunning)
    {
      active := active - 1;
      entries := entries[id := entries[id].(exec := Finished)];
    }

    method OnWorkEnd(id: nat)
      requires !pumpRunning && WellFormed(Abs()) && Enabled(Abs(), WorkEnds(id))
      modifies this
      ensures !pumpRunning && Abs() == Step(env, old(Abs()), WorkEnds(id))
    {
      ReleaseSlot(id);
      Pump();
    }
  }
}
