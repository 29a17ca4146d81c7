/** With a budget callback, the provider is started exactly as often as the callback allowed it. */
module AdmissionGrants {
  import opened AdmissionModel
  import opened AdmissionInvariant
  import opened AdmissionRuns
  import opened Options

  /** How many of the first `n` calls of the callback returned its permission; a refusal and an exception do not. */
  function Allowed(f: nat -> Verdict, n: nat): nat {
    if n == 0 then 0 else Allowed(f, n - 1) + if f(n - 1) == Allow then 1 else 0
  }

  ghost predicate Granted(env: Env, s: State) {
    env.tryConsumeBudget.Some? ==> |s.starts| == Allowed(env.tryConsumeBudget.value, s.budgetCalls)
  }

  predicate SameStarts(s: State, r: State) { r.starts == s.starts && r.budgetCalls == s.budgetCalls }

  lemma {:induction false} ReserveGrants(env: Env, s: State, t: int)
    ensures var (r, granted, _) := Reserve(env, s, t);
      r.starts == s.starts && (env.tryConsumeBudget.Some? ==>
        Allowed(env.tryConsumeBudget.value, r.budgetCalls) == Allowed(env.tryConsumeBudget.value, s.budgetCalls) + if granted then 1 else 0)
  {}

  lemma {:induction false} LaunchGrants(env: Env, s: State, id: nat)
    requires id < |s.entries| && Granted(env, s)
    ensures Granted(env, Launch(env, s, id))
  {
    var t := env.clock(s.ticks);
    ReserveGrants(env, s.(ticks := s.ticks + 1), t);
  }

  lemma {:induction false} IterateGrants(env: Env, s: State)
    requires CanIterate(env, s) && QueueWF(s) && Granted(env, s)
    ensures Granted(env, Iterate(env, s).0)
  {
    assert s.queue[0] in s.queue;
    var s2 := s.(ticks := s.ticks + 2);
    LaunchGrants(env, DequeueHead(s2), s.queue[0]);
  }

  lemma {:induction false} PumpGrants(env: Env, s: State)
    requires QueueWF(s) && Granted(env, s)
    ensures Granted(env, Pump(env, s))
    decreases |s.queue|
  {
    if CanIterate(env, s) {
      IterateGrants(env, s);
      IterateFrame(env, s);
      if !Iterate(env, s).1 { PumpGrants(env, Iterate(env, s).0); }
    }
  }

  lemma {:induction false} ArriveGrants(env: Env, s: State, key: Key, abortedMeanwhile: bool)
    requires QueueWF(s) && Granted(env, s)
    ensures Granted(env, Admit(env, s, key, abortedMeanwhile))
  {
    var s1 := CanStartImmediately(env, s).1;
    AcceptQueue(env, s1, key, abortedMeanwhile);
    PumpGrants(env, Accept(env, s1, key, abortedMeanwhile));
  }

  lemma {:induction false} DepartGrants(env: Env, s: State, call: nat, id: nat)
    requires QueueWF(s) && id < |s.entries| && call < |s.calls| && Granted(env, s)
    ensures Granted(env, Depart(env, s, call, id))
  {
    var s1 := Leave(s, call, id);
    if s1.entries[id].subscribers == {} && s1.entries[id].state != Settled {
      WithoutFacts(s.queue, id);
      PumpGrants(env, Withdraw(s1, id));
    }
  }

  lemma {:induction false} ExpireGrants(env: Env, s: State, id: nat)
    requires QueueWF(s) && id < |s.entries| && Granted(env, s)
    ensures Granted(env, ExpireAndPump(env, s, id))
  {
    if s.entries[id].state == Queued {
      WithoutFacts(s.queue, id);
      PumpGrants(env, Expire(s, id));
    }
  }

  lemma {:induction false} RaceGrants(env: Env, s: State, id: nat, result: RaceResult)
    requires QueueWF(s) && id < |s.entries| && s.entries[id].exec.Racing? && s.entries[id].state != Queued && Granted(env, s)
    ensures Granted(env, Complete(env, s, id, result))
  {
    var (s1, ended) := AfterRace(s, id, result);
    NotHead(s, id);
    assert SameStarts(s, s1);
    if ended { PumpGrants(env, s1); }
  }

  lemma {:induction false} StepGrants(env: Env, s: State, ev: Event)
    requires WellFormed(s) && Enabled(s, ev) && Granted(env, s)
    ensures Granted(env, Step(env, s, ev))
  {
    match ev
    case Arrive(key, aborted, admitted, abortedMeanwhile) =>
      if !aborted && key !in s.inFlight && admitted { ArriveGrants(env, s, key, abortedMeanwhile); }
    case Abort(call) =>
      var home := s.calls[call].home;
      if home.Some? && call in s.entries[home.value].subscribers { DepartGrants(env, s, call, home.value); }
    case ExpiryFires(id) => ExpireGrants(env, s, id);
    case SpacingFires => PumpGrants(env, s.(spacingTimer := false));
    case TimeoutFires(id) =>
    case RaceEnds(id, result) => RaceGrants(env, s, id, result);
    case WorkEnds(id) => PumpGrants(env, FinishSlot(s, id));
  }

  /** Over every run: as many provider starts as permissions of the budget callback, which is asked once for each. */
  lemma {:induction false} StartsAreGranted(env: Env, evs: seq<Event>)
    requires ValidEnv(env) && After(env, evs).Some?
    ensures Granted(env, After(env, evs).value)
  {
    if evs != [] {
      var n := |evs| - 1;
      StartsAreGranted(env, evs[..n]);
      RunsKeepInv(env, evs[..n]);
      StepGrants(env, After(env, evs[..n]).value, evs[n]);
    }
  }
}
