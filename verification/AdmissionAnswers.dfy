/** What callers of the admission controller are told, and why: every answer is traced to the event, the clock
    readings or the budget that caused it. */
module AdmissionAnswers {
  import opened AdmissionModel
  import opened AdmissionInvariant
  import opened AdmissionRuns
  import opened Options

  // ---------- answers the pump gives ----------

  /** On the day of `t` nothing more can be charged. */
  ghost predicate NoRoom(env: Env, starts: seq<Start>, t: int)
    requires DailyBudgeted(env)
  {
    t < -MAX_DATE_MS || MAX_DATE_MS < t || Charged(starts, Day(t)) >= env.settings.dailyBudget.value
  }

  /** Between the two states the budget refused a start. */
  ghost predicate Denied(env: Env, s: State, r: State) {
    || (env.tryConsumeBudget.Some? &&
          exists k: nat :: s.budgetCalls <= k < r.budgetCalls && env.tryConsumeBudget.value(k) != Allow)
    || (DailyBudgeted(env) && exists n: nat :: s.ticks <= n < r.ticks && NoRoom(env, r.starts, env.clock(n)))
  }

  /** Between the two states the clock was read at or after the entry's expiry. */
  ghost predicate SeenExpired(env: Env, s: State, r: State, id: nat) {
    id < |r.entries| && exists n: nat :: s.ticks <= n < r.ticks && r.entries[id].expiresAt <= env.clock(n)
  }

  ghost predicate PumpTold(env: Env, s: State, r: State, c: nat, o: Outcome)
    requires c < |r.calls|
  {
    var home := r.calls[c].home;
    home.Some? &&
    ((o == Rejected("queue_expired") && SeenExpired(env, s, r, home.value))
      || (o == Rejected("daily_budget_exceeded") && Denied(env, s, r)))
  }

  /** Nothing is taken back: entries and calls stay, readings and starts are added. */
  ghost predicate Onward(s: State, r: State) {
    && |s.entries| <= |r.entries| && |s.calls| <= |r.calls|
    && s.ticks <= r.ticks && s.budgetCalls <= r.budgetCalls && s.starts <= r.starts
    && (forall id :: 0 <= id < |s.entries| ==> r.entries[id].expiresAt == s.entries[id].expiresAt)
    && (forall c :: 0 <= c < |s.calls| ==>
          r.calls[c].home == s.calls[c].home && s.calls[c].answers <= r.calls[c].answers)
  }

  ghost predicate PumpGrows(env: Env, s: State, r: State) {
    && Onward(s, r) && |r.entries| == |s.entries| && |r.calls| == |s.calls|
    && forall c, k :: 0 <= c < |r.calls| && |s.calls[c].answers| <= k < |r.calls[c].answers| ==>
         PumpTold(env, s, r, c, r.calls[c].answers[k])
  }

  lemma {:induction false} ChargedGrows(a: seq<Start>, b: seq<Start>, day: int)
    requires a <= b
    ensures Charged(a, day) <= Charged(b, day)
  {
    if a != b {
      ChargedGrows(a, b[..|b| - 1], day);
    }
  }

  /** A cause stays one when the stretch is made longer at either end. */
  lemma {:induction false} ToldLonger(env: Env, s: State, s': State, r': State, r: State, c: nat, o: Outcome)
    requires Onward(s, s') && Onward(s', r') && Onward(r', r) && c < |r'.calls| && PumpTold(env, s', r', c, o)
    requires r'.calls[c].home.Some? ==> r'.calls[c].home.value < |r'.entries|
    ensures PumpTold(env, s, r, c, o)
  {
    var id := r'.calls[c].home.value;
    if o == Rejected("queue_expired") && SeenExpired(env, s', r', id) {
      var n: nat :| s'.ticks <= n < r'.ticks && r'.entries[id].expiresAt <= env.clock(n);
      assert s.ticks <= n < r.ticks && r.entries[id].expiresAt <= env.clock(n);
    } else {
      DeniedLonger(env, s, s', r', r);
    }
  }

  lemma {:induction false} DeniedLonger(env: Env, s: State, s': State, r': State, r: State)
    requires Onward(s, s') && Onward(s', r') && Onward(r', r) && Denied(env, s', r')
    ensures Denied(env, s, r)
  {
    if env.tryConsumeBudget.Some? && exists k: nat :: s'.budgetCalls <= k < r'.budgetCalls && env.tryConsumeBudget.value(k) != Allow {
      var k: nat :| s'.budgetCalls <= k < r'.budgetCalls && env.tryConsumeBudget.value(k) != Allow;
      assert s.budgetCalls <= k < r.budgetCalls;
    } else {
      var n: nat :| s'.ticks <= n < r'.ticks && NoRoom(env, r'.starts, env.clock(n));
      ChargedGrows(r'.starts, r.starts, Day(env.clock(n)));
      assert s.ticks <= n < r.ticks && NoRoom(env, r.starts, env.clock(n));
    }
  }

  lemma {:induction false} OnwardJoin(s: State, m: State, r: State)
    requires Onward(s, m) && Onward(m, r)
    ensures Onward(s, r)
  {}

  lemma {:induction false} PumpGrowsJoin(env: Env, s: State, m: State, r: State)
    requires PumpGrows(env, s, m) && PumpGrows(env, m, r) && CallsOk(s)
    ensures PumpGrows(env, s, r)
  {
    OnwardJoin(s, m, r);
    forall c, k | 0 <= c < |r.calls| && |s.calls[c].answers| <= k < |r.calls[c].answers|
      ensures PumpTold(env, s, r, c, r.calls[c].answers[k])
    {
      var o := r.calls[c].answers[k];
      if k < |m.calls[c].answers| {
        assert m.calls[c].answers[k] == o;
        ToldLonger(env, s, s, m, r, c, o);
      } else {
        ToldLonger(env, s, m, r, r, c, o);
      }
    }
  }

  /** One entry is settled for one of the two reasons. */
  lemma {:induction false} ClosedGrows(env: Env, s: State, r: State, id: nat, o: Outcome)
    requires Base(s) && id < |s.entries| && Onward(s, r) && |r.entries| == |s.entries|
    requires r.calls == Answer(s.calls, s.entries[id].subscribers, o)
    requires (o == Rejected("queue_expired") && SeenExpired(env, s, r, id)) || (o == Rejected("daily_budget_exceeded") && Denied(env, s, r))
    ensures PumpGrows(env, s, r)
  {
    assert SubscribersOk(s, id);
    forall c, k | 0 <= c < |r.calls| && |s.calls[c].answers| <= k < |r.calls[c].answers|
      ensures PumpTold(env, s, r, c, r.calls[c].answers[k])
    {
      assert c in s.entries[id].subscribers;
    }
  }

  lemma {:induction false} ReserveDenied(env: Env, s: State, t: int)
    requires BudgetOk(env, s) && !Reserve(env, s, t).1
    ensures Denied(env, s, Reserve(env, s, t).0)
  {
    if env.tryConsumeBudget.Some? {
      assert env.tryConsumeBudget.value(s.budgetCalls) != Allow;
    } else {
      var r := Reserve(env, s, t).0;
      assert NoRoom(env, r.starts, env.clock(s.ticks));
    }
  }

  lemma {:induction false} SettleOnward(m: State, id: nat, o: Outcome)
    requires id < |m.entries| && m.entries[id].state != Settled
    ensures var r := CountRejected(Settle(m, id, o));
      && Onward(m, r) && |r.entries| == |m.entries| && r.calls == Answer(m.calls, m.entries[id].subscribers, o)
      && r.ticks == m.ticks && r.budgetCalls == m.budgetCalls && r.starts == m.starts
  {}

  lemma {:induction false} SeenLonger(env: Env, s: State, m: State, r: State, id: nat)
    requires SeenExpired(env, s, m, id) && Onward(m, r)
    ensures SeenExpired(env, s, r, id)
  {
    var n: nat :| s.ticks <= n < m.ticks && m.entries[id].expiresAt <= env.clock(n);
    assert s.ticks <= n < r.ticks && r.entries[id].expiresAt <= env.clock(n);
  }

  /** `d` is the state just before the settlement. */
  ghost predicate SameCallers(s: State, d: State, id: nat) {
    && id < |s.entries| == |d.entries| && d.calls == s.calls && Onward(s, d)
    && d.entries[id].subscribers == s.entries[id].subscribers && d.entries[id].state != Settled
  }

  lemma {:induction false} ExpiredGrows(env: Env, s: State, d: State, id: nat)
    requires Base(s) && SameCallers(s, d, id) && SeenExpired(env, s, d, id)
    ensures PumpGrows(env, s, CountRejected(Settle(d, id, Rejected("queue_expired"))))
  {
    var r := CountRejected(Settle(d, id, Rejected("queue_expired")));
    SettleOnward(d, id, Rejected("queue_expired"));
    SeenLonger(env, s, d, r, id);
    OnwardJoin(s, d, r);
    ClosedGrows(env, s, r, id, Rejected("queue_expired"));
  }

  lemma {:induction false} DeniedGrows(env: Env, s: State, d: State, id: nat)
    requires Base(s) && SameCallers(s, d, id) && Denied(env, s, d)
    ensures PumpGrows(env, s, CountRejected(Settle(d, id, Rejected("daily_budget_exceeded"))))
  {
    var r := CountRejected(Settle(d, id, Rejected("daily_budget_exceeded")));
    SettleOnward(d, id, Rejected("daily_budget_exceeded"));
    assert Onward(s, s);
    DeniedLonger(env, s, s, d, r);
    OnwardJoin(s, d, r);
    ClosedGrows(env, s, r, id, Rejected("daily_budget_exceeded"));
  }

  lemma {:induction false} ReserveOnward(env: Env, d: State, t: int)
    ensures var m := Reserve(env, d, t).0; Onward(d, m) && m.entries == d.entries && m.calls == d.calls
  {}

  lemma {:induction false} RefusedGrows(env: Env, s: State, d: State, id: nat, t: int)
    requires Base(s) && SameCallers(s, d, id) && BudgetOk(env, d) && !Reserve(env, d, t).1
    ensures PumpGrows(env, s, CountRejected(Settle(Reserve(env, d, t).0, id, Rejected("daily_budget_exceeded"))))
  {
    var m := Reserve(env, d, t).0;
    ReserveDenied(env, d, t);
    ReserveOnward(env, d, t);
    assert Onward(m, m);
    DeniedLonger(env, s, d, m, m);
    OnwardJoin(s, d, m);
    DeniedGrows(env, s, m, id);
  }

  lemma {:induction false} BegunGrows(env: Env, s: State, d: State, id: nat, t: int)
    requires id < |s.entries| && d.calls == s.calls && |d.entries| == |s.entries| && Onward(s, d)
    ensures PumpGrows(env, s, Begin(env, Reserve(env, d, t).0, id, t, Reserve(env, d, t).2))
  {
    var m := Reserve(env, d, t).0;
    var r := Begin(env, m, id, t, Reserve(env, d, t).2);
    assert Onward(d, m) && Onward(m, r);
    OnwardJoin(s, d, m);
    OnwardJoin(s, m, r);
  }

  lemma {:induction false} LaunchGrows(env: Env, s: State, d: State, id: nat)
    requires ValidEnv(env) && Base(s) && SameCallers(s, d, id) && BudgetOk(env, d)
    ensures PumpGrows(env, s, Launch(env, d, id))
  {
    var t, s0 := env.clock(d.ticks), d.(ticks := d.ticks + 1);
    BudgetFrame(env, d, s0);
    assert Onward(d, s0);
    OnwardJoin(s, d, s0);
    LaunchSplit(env, d, id);
    if d.entries[id].expiresAt <= t {
      assert s.ticks <= d.ticks < s0.ticks;
      assert SeenExpired(env, s, s0, id);
      ExpiredGrows(env, s, s0, id);
    } else if !Reserve(env, s0, t).1 {
      RefusedGrows(env, s, s0, id, t);
    } else {
      BegunGrows(env, s, s0, id, t);
    }
  }

  lemma {:induction false} HeadExpiredGrows(env: Env, s: State, id: nat)
    requires Base(s) && id < |s.entries| && s.entries[id].state == Queued && s.entries[id].expiresAt <= env.clock(s.ticks)
    ensures PumpGrows(env, s, Expire(s.(ticks := s.ticks + 1), id))
  {
    var d := s.(ticks := s.ticks + 1, queue := Without(s.queue, id));
    assert Onward(s, d) && s.ticks <= s.ticks < d.ticks;
    assert SeenExpired(env, s, d, id);
    ExpiredGrows(env, s, d, id);
  }

  lemma {:induction false} HeadLaunchedGrows(env: Env, s: State)
    requires ValidEnv(env) && Sound(env, s) && s.queue != [] && s.queue[0] < |s.entries|
    ensures PumpGrows(env, s, Launch(env, DequeueHead(s.(ticks := s.ticks + 2)), s.queue[0]))
  {
    var d := DequeueHead(s.(ticks := s.ticks + 2));
    BudgetFrame(env, s, d);
    assert Onward(s, d);
    LaunchGrows(env, s, d, s.queue[0]);
  }

  lemma {:induction false} IterateSplit(env: Env, s: State)
    requires CanIterate(env, s) && QueueWF(s)
    ensures var id := s.queue[0];
      && id < |s.entries| && s.entries[id].state == Queued
      && Iterate(env, s).0 ==
           if s.entries[id].expiresAt <= env.clock(s.ticks) then Expire(s.(ticks := s.ticks + 1), id)
           else if s.nextStartAt > env.clock(s.ticks + 1) then s.(ticks := s.ticks + 2, spacingTimer := true)
           else Launch(env, DequeueHead(s.(ticks := s.ticks + 2)), id)
  {
    assert s.queue[0] in s.queue;
    if s.entries[s.queue[0]].expiresAt > env.clock(s.ticks) && s.nextStartAt <= env.clock(s.ticks + 1) { IterateLaunches(env, s); }
  }

  lemma {:induction false} WaitGrows(env: Env, s: State, r: State)
    requires r == s.(ticks := r.ticks, spacingTimer := r.spacingTimer) && s.ticks <= r.ticks
    ensures PumpGrows(env, s, r)
  {}

  lemma {:induction false} IterateGrows(env: Env, s: State)
    requires ValidEnv(env) && Sound(env, s) && CanIterate(env, s)
    ensures PumpGrows(env, s, Iterate(env, s).0)
  {
    var id := s.queue[0];
    IterateSplit(env, s);
    if s.entries[id].expiresAt <= env.clock(s.ticks) {
      HeadExpiredGrows(env, s, id);
    } else if s.nextStartAt > env.clock(s.ticks + 1) {
      WaitGrows(env, s, s.(ticks := s.ticks + 2, spacingTimer := true));
    } else {
      HeadLaunchedGrows(env, s);
    }
  }

  /** Whoever the pump answers is told that the entry expired or that the budget is spent, and it is true. */
  lemma {:induction false} PumpExplained(env: Env, s: State)
    requires ValidEnv(env) && Sound(env, s)
    ensures PumpGrows(env, s, Pump(env, s))
    decreases |s.queue|
  {
    if CanIterate(env, s) {
      IterateGrows(env, s);
      IterateKeepsBase(env, s);
      IterateKeepsHistory(env, s);
      IterateFrame(env, s);
      var (m, stop) := Iterate(env, s);
      if !stop {
        PumpExplained(env, m);
        PumpGrowsJoin(env, s, m, Pump(env, m));
      }
    }
  }

  // ---------- answers an event gives ----------

  function Heard(s: State, c: nat): seq<Outcome> { if c < |s.calls| then s.calls[c].answers else [] }

  /** What the end of a provider race means to those who wait for it. */
  function RaceTells(result: RaceResult, timedOut: bool): Outcome {
    match result
    case Value(v) => Resolved(v)
    case NoValue => Rejected("provider_unavailable")
    case Failure(code) => Rejected(if timedOut then "address_provider_timeout" else code)
  }

  predicate StartsRightAway(env: Env, s: State) {
    s.active < env.settings.maxActive && s.queue == [] && s.nextStartAt <= env.clock(s.ticks)
  }

  /** Why call `c` is told `o` when `ev` takes the controller from `s` to `r`. */
  ghost predicate Caused(env: Env, s: State, ev: Event, r: State, c: nat, o: Outcome)
    requires c < |r.calls|
  {
    PumpTold(env, s, r, c, o) ||
    match ev
    case Arrive(key, aborted, admitted, abortedMeanwhile) =>
      c == |s.calls| &&
        ((o == Cancelled && (aborted || abortedMeanwhile))
          || (o == Rejected("admission_rejected") && !aborted && !admitted && key !in s.inFlight)
          || (o == Rejected("queue_full") && !aborted && admitted && key !in s.inFlight
                && |s.queue| >= env.settings.maxPending && !StartsRightAway(env, s)))
    case Abort(call) => c == call && o == Cancelled
    case ExpiryFires(id) => r.calls[c].home == Some(id) && o == Rejected("queue_expired")
    case RaceEnds(id, result) =>
      c < |s.calls| && r.calls[c].home == Some(id) && id < |s.entries| &&
        o == RaceTells(result, s.entries[id].exec == Racing(true))
    case _ => false
  }

  ghost predicate Explained(env: Env, s: State, ev: Event, r: State) {
    Onward(s, r) &&
    forall c, k :: 0 <= c < |r.calls| && |Heard(s, c)| <= k < |r.calls[c].answers| ==>
      Caused(env, s, ev, r, c, r.calls[c].answers[k])
  }

  lemma {:induction false} CausedLonger(env: Env, s: State, ev: Event, m: State, r: State, c: nat, o: Outcome)
    requires Onward(s, m) && Onward(m, r) && c < |m.calls| && Caused(env, s, ev, m, c, o)
    requires m.calls[c].home.Some? ==> m.calls[c].home.value < |m.entries|
    ensures Caused(env, s, ev, r, c, o)
  {
    if PumpTold(env, s, m, c, o) {
      assert Onward(s, s);
      ToldLonger(env, s, s, m, r, c, o);
    }
  }

  lemma {:induction false} ThenPump(env: Env, s: State, ev: Event, m: State)
    requires ValidEnv(env) && Sound(env, m) && Explained(env, s, ev, m)
    ensures Explained(env, s, ev, Pump(env, m))
  {
    PumpExplained(env, m);
    var r := Pump(env, m);
    OnwardJoin(s, m, r);
    assert Onward(r, r);
    forall c, k | 0 <= c < |r.calls| && |Heard(s, c)| <= k < |r.calls[c].answers|
      ensures Caused(env, s, ev, r, c, r.calls[c].answers[k])
    {
      var o := r.calls[c].answers[k];
      if k < |m.calls[c].answers| {
        assert m.calls[c].answers[k] == o;
        CausedLonger(env, s, ev, m, r, c, o);
      } else {
        ToldLonger(env, s, m, r, r, c, o);
      }
    }
  }

  lemma {:induction false} SilentExplained(env: Env, s: State, ev: Event, r: State)
    requires Onward(s, r) && |r.calls| == |s.calls| && forall c :: 0 <= c < |s.calls| ==> r.calls[c].answers == s.calls[c].answers
    ensures Explained(env, s, ev, r)
  {}

  /** One caller more, answered at once or not yet. */
  lemma {:induction false} NewcomerExplained(env: Env, s: State, ev: Event, r: State, call: Call)
    requires Onward(s, r) && r.calls == s.calls + [call]
    requires call.answers == [] || (|call.answers| == 1 && Caused(env, s, ev, r, |s.calls|, call.answers[0]))
    ensures Explained(env, s, ev, r)
  {}

  /** The subscribers of one entry are told the outcome. */
  lemma {:induction false} ToldExplained(env: Env, s: State, ev: Event, r: State, subs: set<nat>, o: Outcome)
    requires Onward(s, r) && r.calls == Answer(s.calls, subs, o)
    requires forall c :: c in subs && c < |r.calls| ==> Caused(env, s, ev, r, c, o)
    ensures Explained(env, s, ev, r)
  {}

  lemma {:induction false} ArriveExplained(env: Env, s: State, key: Key, aborted: bool, admitted: bool, abortedMeanwhile: bool)
    requires ValidEnv(env) && Inv(env, s)
    ensures key in s.inFlight ==> s.inFlight[key] < |s.entries|
    ensures Explained(env, s, Arrive(key, aborted, admitted, abortedMeanwhile), Run(env, s, key, aborted, admitted, abortedMeanwhile))
  {
    var ev := Arrive(key, aborted, admitted, abortedMeanwhile);
    if aborted {
      NewcomerExplained(env, s, ev, NewCall(s, None, [Cancelled]), Call(None, [Cancelled]));
    } else if key in s.inFlight {
      NewcomerExplained(env, s, ev, Coalesce(s, s.inFlight[key]), Call(Some(s.inFlight[key]), []));
    } else if !admitted {
      var o := Rejected("admission_rejected");
      NewcomerExplained(env, s, ev, CountRejected(NewCall(s, None, [o])), Call(None, [o]));
    } else {
      AdmitExplained(env, s, key, abortedMeanwhile);
    }
  }

  lemma {:induction false} AdmitExplained(env: Env, s: State, key: Key, abortedMeanwhile: bool)
    requires ValidEnv(env) && Inv(env, s) && key !in s.inFlight
    ensures Explained(env, s, Arrive(key, false, true, abortedMeanwhile), Admit(env, s, key, abortedMeanwhile))
  {
    var ev := Arrive(key, false, true, abortedMeanwhile);
    var (immediate, s0) := CanStartImmediately(env, s);
    if !immediate && |s.queue| >= env.settings.maxPending {
      var o := Rejected("queue_full");
      NewcomerExplained(env, s, ev, CountRejected(NewCall(s0, None, [o])), Call(None, [o]));
    } else {
      TickSound(env, s, s0);
      AcceptedSound(env, s0, key, abortedMeanwhile);
      AcceptExplained(env, s, s0, key, abortedMeanwhile);
      AcceptQueue(env, s0, key, abortedMeanwhile);
      ThenPump(env, s, ev, Accept(env, s0, key, abortedMeanwhile));
    }
  }

  lemma {:induction false} AcceptExplained(env: Env, s: State, s0: State, key: Key, abortedMeanwhile: bool)
    requires s0 == s.(ticks := s0.ticks) && s.ticks <= s0.ticks
    ensures Explained(env, s, Arrive(key, false, true, abortedMeanwhile), Accept(env, s0, key, abortedMeanwhile))
  {
    var m := Accept(env, s0, key, abortedMeanwhile);
    assert Onward(s, m);
    NewcomerExplained(env, s, Arrive(key, false, true, abortedMeanwhile), m,
      if abortedMeanwhile then Call(None, [Cancelled]) else Call(Some(|s.entries|), []));
  }

  lemma {:induction false} LeaveExplained(env: Env, s: State, call: nat, id: nat)
    requires id < |s.entries| && call < |s.calls|
    ensures Explained(env, s, Abort(call), Leave(s, call, id)) && Explained(env, s, Abort(call), Withdraw(Leave(s, call, id), id))
  {
    ToldExplained(env, s, Abort(call), Leave(s, call, id), {call}, Cancelled);
    ToldExplained(env, s, Abort(call), Withdraw(Leave(s, call, id), id), {call}, Cancelled);
  }

  lemma {:induction false} WithdrawnSound(env: Env, s: State, call: nat, id: nat)
    requires ValidEnv(env) && Inv(env, s) && id < |s.entries| && call < |s.calls| && call in s.entries[id].subscribers
    requires var s1 := Leave(s, call, id); s1.entries[id].subscribers == {} && s1.entries[id].state != Settled
    ensures Sound(env, Withdraw(Leave(s, call, id), id))
  {
    LeaveKeeps(s, call, id);
    HistoryFrame(env, s, Leave(s, call, id));
    WithdrawSound(env, Leave(s, call, id), id);
  }

  lemma {:induction false} AbortExplained(env: Env, s: State, call: nat, id: nat)
    requires ValidEnv(env) && Inv(env, s) && id < |s.entries| && call < |s.calls| && call in s.entries[id].subscribers
    ensures Explained(env, s, Abort(call), Depart(env, s, call, id))
  {
    LeaveExplained(env, s, call, id);
    var s1 := Leave(s, call, id);
    if s1.entries[id].subscribers == {} && s1.entries[id].state != Settled {
      WithdrawnSound(env, s, call, id);
      WithoutFacts(s.queue, id);
      ThenPump(env, s, Abort(call), Withdraw(s1, id));
    }
  }

  lemma {:induction false} ExpireTold(env: Env, s: State, id: nat)
    requires Base(s) && id < |s.entries| && s.entries[id].state == Queued
    ensures Explained(env, s, ExpiryFires(id), Expire(s, id))
  {
    assert SubscribersOk(s, id);
    ToldExplained(env, s, ExpiryFires(id), Expire(s, id), s.entries[id].subscribers, Rejected("queue_expired"));
  }

  lemma {:induction false} ExpiryExplained(env: Env, s: State, id: nat)
    requires ValidEnv(env) && Inv(env, s) && id < |s.entries|
    ensures Explained(env, s, ExpiryFires(id), ExpireAndPump(env, s, id))
  {
    var ev := ExpiryFires(id);
    if s.entries[id].state == Queued {
      var m := Expire(s, id);
      ExpireTold(env, s, id);
      CloseKeeps(s, m, id, Rejected("queue_expired"));
      WithoutFacts(s.queue, id);
      HistoryFrame(env, s, m);
      ThenPump(env, s, ev, m);
    } else {
      SilentExplained(env, s, ev, s);
    }
  }

  lemma {:induction false} AfterRaceCalls(s: State, id: nat, result: RaceResult)
    requires id < |s.entries| && s.entries[id].exec.Racing?
    ensures Onward(s, AfterRace(s, id, result).0)
    ensures AfterRace(s, id, result).0.calls ==
      if s.entries[id].state == Settled then s.calls
      else Answer(s.calls, s.entries[id].subscribers, RaceTells(result, s.entries[id].exec == Racing(true)))
  {}

  lemma {:induction false} RaceTold(env: Env, s: State, id: nat, result: RaceResult)
    requires Base(s) && id < |s.entries| && s.entries[id].exec.Racing?
    ensures Explained(env, s, RaceEnds(id, result), AfterRace(s, id, result).0)
  {
    AfterRaceCalls(s, id, result);
    assert SubscribersOk(s, id);
    var ev, m := RaceEnds(id, result), AfterRace(s, id, result).0;
    if s.entries[id].state == Settled {
      SilentExplained(env, s, ev, m);
    } else {
      ToldExplained(env, s, ev, m, s.entries[id].subscribers, RaceTells(result, s.entries[id].exec == Racing(true)));
    }
  }

  lemma {:induction false} RaceExplained(env: Env, s: State, id: nat, result: RaceResult)
    requires ValidEnv(env) && Inv(env, s) && id < |s.entries| && s.entries[id].exec.Racing?
    ensures s.entries[id].state != Queued
    ensures Explained(env, s, RaceEnds(id, result), Complete(env, s, id, result))
  {
    assert EntryOk(s.entries[id]);
    RaceTold(env, s, id, result);
    NotHead(s, id);
    if !(result.Failure? && s.entries[id].exec.timedOut) {
      EndedSound(env, s, id, result);
      ThenPump(env, s, RaceEnds(id, result), AfterRace(s, id, result).0);
    }
  }

  /** Every answer that an event brings has its cause. */
  lemma {:induction false} StepExplained(env: Env, s: State, ev: Event)
    requires ValidEnv(env) && Inv(env, s) && WellFormed(s) && Enabled(s, ev)
    ensures Explained(env, s, ev, Step(env, s, ev))
  {
    match ev
    case Arrive(key, aborted, admitted, abortedMeanwhile) => ArriveExplained(env, s, key, aborted, admitted, abortedMeanwhile);
    case Abort(call) =>
      var home := s.calls[call].home;
      if home.Some? && call in s.entries[home.value].subscribers {
        AbortExplained(env, s, call, home.value);
      } else {
        SilentExplained(env, s, ev, s);
      }
    case ExpiryFires(id) => ExpiryExplained(env, s, id);
    case SpacingFires =>
      var r := s.(spacingTimer := false);
      CallsFrame(s, r);
      HistoryFrame(env, s, r);
      SilentExplained(env, s, ev, r);
      ThenPump(env, s, ev, r);
    case TimeoutFires(id) => SilentExplained(env, s, ev, Step(env, s, ev));
    case RaceEnds(id, result) => RaceExplained(env, s, id, result);
    case WorkEnds(id) =>
      FinishKeeps(env, s, id);
      SilentExplained(env, s, ev, FinishSlot(s, id));
      ThenPump(env, s, ev, FinishSlot(s, id));
  }

  // ---------- over runs ----------

  /** The state before event `k` of a run. */
  ghost function Before(env: Env, evs: seq<Event>, k: nat): Option<State>
    requires k <= |evs|
  {
    After(env, evs[..k])
  }

  lemma {:induction false} PrefixRuns(env: Env, evs: seq<Event>, k: nat)
    requires After(env, evs).Some? && k <= |evs|
    ensures Before(env, evs, k).Some?
    decreases |evs|
  {
    if k == |evs| {
      assert evs[..k] == evs;
    } else {
      var init := evs[..|evs| - 1];
      PrefixRuns(env, init, k);
      assert init[..k] == evs[..k];
    }
  }

  lemma {:induction false} RunSteps(env: Env, evs: seq<Event>, k: nat)
    requires After(env, evs).Some? && k < |evs|
    ensures Before(env, evs, k).Some? && WellFormed(Before(env, evs, k).value) && Enabled(Before(env, evs, k).value, evs[k])
    ensures Before(env, evs, k + 1) == Some(Step(env, Before(env, evs, k).value, evs[k]))
  {
    PrefixRuns(env, evs, k);
    PrefixRuns(env, evs, k + 1);
    assert evs[..k + 1][..k] == evs[..k];
  }

  /** In every run, whatever a caller is told has its cause: its own abort, a refusal at its arrival, the expiry of
      its entry as a timer or the clock showed it, a spent budget, or the end of the provider race of its entry. */
  lemma {:induction false} AnswersExplained(env: Env, evs: seq<Event>, k: nat)
    requires ValidEnv(env) && After(env, evs).Some? && k < |evs|
    ensures Before(env, evs, k).Some? && Before(env, evs, k + 1).Some?
    ensures Explained(env, Before(env, evs, k).value, evs[k], Before(env, evs, k + 1).value)
  {
    RunSteps(env, evs, k);
    RunsKeepInv(env, evs[..k]);
    StepExplained(env, Before(env, evs, k).value, evs[k]);
  }

  /** Every subscriber of an unsettled entry hears the end of its race, and nothing else. */
  lemma {:induction false} RaceReachesAll(env: Env, s: State, id: nat, result: RaceResult)
    requires ValidEnv(env) && Inv(env, s) && WellFormed(s) && Enabled(s, RaceEnds(id, result)) && s.entries[id].state != Settled
    ensures var r := Step(env, s, RaceEnds(id, result));
      forall c :: c in s.entries[id].subscribers ==>
        c < |r.calls| && r.calls[c].answers == [RaceTells(result, s.entries[id].exec == Racing(true))]
  {
    var ev := RaceEnds(id, result);
    var m, r := AfterRace(s, id, result).0, Step(env, s, ev);
    AfterRaceCalls(s, id, result);
    StepKeeps(env, s, ev);
    assert SubscribersOk(s, id);
    RaceOnward(env, s, id, result);
    forall c | c in s.entries[id].subscribers
      ensures c < |r.calls| && r.calls[c].answers == [RaceTells(result, s.entries[id].exec == Racing(true))]
    {
      assert c < |s.calls| && Waiting(s, c);
      assert m.calls[c].answers == [RaceTells(result, s.entries[id].exec == Racing(true))];
      assert m.calls[c].answers <= r.calls[c].answers && |r.calls[c].answers| <= 1;
    }
  }

  lemma {:induction false} RaceOnward(env: Env, s: State, id: nat, result: RaceResult)
    requires ValidEnv(env) && Inv(env, s) && id < |s.entries| && s.entries[id].exec.Racing? && s.entries[id].state != Queued
    ensures Onward(AfterRace(s, id, result).0, Complete(env, s, id, result))
  {
    NotHead(s, id);
    if !(result.Failure? && s.entries[id].exec.timedOut) {
      EndedSound(env, s, id, result);
      PumpExplained(env, AfterRace(s, id, result).0);
    }
  }

  /** While call `c` waits, the race of its entry ends with the value `v`. */
  ghost predicate ServedAt(env: Env, evs: seq<Event>, k: nat, c: nat, v: string)
    requires k < |evs|
  {
    Before(env, evs, k).Some? &&
    (var s := Before(env, evs, k).value;
      c < |s.calls| && Waiting(s, c) && evs[k] == RaceEnds(s.calls[c].home.value, Value(v)))
  }

  lemma {:induction false} RunsOnward(env: Env, evs: seq<Event>, k: nat)
    requires ValidEnv(env) && After(env, evs).Some? && k <= |evs|
    ensures Before(env, evs, k).Some? && Onward(Before(env, evs, k).value, After(env, evs).value)
    decreases |evs| - k
  {
    if k == |evs| {
      assert evs[..k] == evs;
      assert Onward(After(env, evs).value, After(env, evs).value);
    } else {
      AnswersExplained(env, evs, k);
      RunsOnward(env, evs, k + 1);
      OnwardJoin(Before(env, evs, k).value, Before(env, evs, k + 1).value, After(env, evs).value);
    }
  }

  lemma {:induction false} ServedHolds(env: Env, evs: seq<Event>, k: nat, c: nat, v: string)
    requires ValidEnv(env) && After(env, evs).Some? && k < |evs| && ServedAt(env, evs, k, c, v)
    ensures var s := After(env, evs).value; c < |s.calls| && s.calls[c].answers == [Resolved(v)]
  {
    RunSteps(env, evs, k);
    RunsKeepInv(env, evs[..k]);
    RunsKeepInv(env, evs);
    var s := Before(env, evs, k).value;
    var id := s.calls[c].home.value;
    assert EntryOk(s.entries[id]);
    RaceReachesAll(env, s, id, Value(v));
    RunsOnward(env, evs, k + 1);
    AnsweredOnce(env, evs);
  }

  lemma {:induction false} ServedNow(env: Env, evs: seq<Event>, k: nat, c: nat, v: string)
    requires ValidEnv(env) && After(env, evs).Some? && k < |evs|
    requires Before(env, evs, k).Some? && Heard(Before(env, evs, k).value, c) == []
    requires Before(env, evs, k + 1).Some? && c < |Before(env, evs, k + 1).value.calls|
    requires Before(env, evs, k + 1).value.calls[c].answers == [Resolved(v)]
    ensures ServedAt(env, evs, k, c, v)
  {
    var s, r := Before(env, evs, k).value, Before(env, evs, k + 1).value;
    AnswersExplained(env, evs, k);
    assert Caused(env, s, evs[k], r, c, r.calls[c].answers[0]);
    RunsKeepInv(env, evs[..k]);
    assert c < |s.calls| && |s.calls[c].answers| == 0;
  }

  lemma {:induction false} ServedSomewhere(env: Env, evs: seq<Event>, c: nat, v: string)
    requires ValidEnv(env) && After(env, evs).Some? && c < |After(env, evs).value.calls|
    requires After(env, evs).value.calls[c].answers == [Resolved(v)]
    ensures exists k :: 0 <= k < |evs| && ServedAt(env, evs, k, c, v)
  {
    if evs != [] {
      var n := |evs| - 1;
      var init := evs[..n];
      RunSteps(env, evs, n);
      assert evs[..n + 1] == evs;
      var s := Before(env, evs, n).value;
      if c < |s.calls| && s.calls[c].answers == [Resolved(v)] {
        ServedSomewhere(env, init, c, v);
        var k :| 0 <= k < n && ServedAt(env, init, k, c, v);
        assert init[..k] == evs[..k] && init[k] == evs[k];
        assert ServedAt(env, evs, k, c, v);
      } else {
        AnswersExplained(env, evs, n);
        RunsKeepInv(env, init);
        ServedNow(env, evs, n, c, v);
      }
    }
  }

  /** A call holds a value if and only if the race of its entry ended with that value while the call was waiting. */
  lemma {:induction false} ResolvedIff(env: Env, evs: seq<Event>, c: nat, v: string)
    requires ValidEnv(env) && After(env, evs).Some? && c < |After(env, evs).value.calls|
    ensures After(env, evs).value.calls[c].answers == [Resolved(v)] <==> exists k :: 0 <= k < |evs| && ServedAt(env, evs, k, c, v)
  {
    if k: nat :| k < |evs| && ServedAt(env, evs, k, c, v) {
      ServedHolds(env, evs, k, c, v);
    } else if After(env, evs).value.calls[c].answers == [Resolved(v)] {
      ServedSomewhere(env, evs, c, v);
    }
  }
}
