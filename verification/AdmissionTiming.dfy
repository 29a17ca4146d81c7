/** Which clock readings a provider start rests on, and what follows for expiry and for the day of its charge. */
module AdmissionTiming {
  import opened AdmissionModel
  import opened AdmissionInvariant
  import opened AdmissionRuns
  import opened Options

  /** Readings from the last expiry check to the one that stamps the start: a daily budget reads the clock between. */
  function Gap(env: Env): nat { if DailyBudgeted(env) then 2 else 1 }

  /** The expiry instant was fixed by a reading before the `before`-th. */
  ghost predicate Dated(env: Env, expiresAt: int, before: nat) {
    exists a: nat :: a < before && expiresAt == env.clock(a) + env.settings.queueExpiryMs
  }

  ghost predicate Timed(env: Env, st: Start) {
    && Gap(env) <= st.tick
    && st.checkedAt == env.clock(st.tick - Gap(env)) && st.startedAt == env.clock(st.tick)
    && (DailyBudgeted(env) ==> st.chargedAt == env.clock(st.tick - 1))
    && Dated(env, st.expiresAt, st.tick - Gap(env))
  }

  ghost predicate Clocked(env: Env, s: State) {
    && (forall id :: 0 <= id < |s.entries| ==> Dated(env, s.entries[id].expiresAt, s.ticks))
    && (forall k :: 0 <= k < |s.starts| ==> Timed(env, s.starts[k]))
  }

  /** Nothing that bears on timing changed but the number of readings. */
  ghost predicate SameTimes(s: State, r: State) {
    && |r.entries| == |s.entries| && r.starts == s.starts && s.ticks <= r.ticks
    && forall id :: 0 <= id < |s.entries| ==> r.entries[id].expiresAt == s.entries[id].expiresAt
  }

  lemma {:induction false} SameClocked(env: Env, s: State, r: State)
    requires Clocked(env, s) && SameTimes(s, r)
    ensures Clocked(env, r)
  {
    forall id | 0 <= id < |r.entries| ensures Dated(env, r.entries[id].expiresAt, r.ticks) {
      assert Dated(env, s.entries[id].expiresAt, s.ticks);
    }
  }

  lemma {:induction false} AcceptClocked(env: Env, s: State, key: Key, abortedMeanwhile: bool)
    requires Clocked(env, s)
    ensures Clocked(env, Accept(env, s, key, abortedMeanwhile))
  {
    var r := Accept(env, s, key, abortedMeanwhile);
    assert r.ticks == s.ticks + 1 && r.starts == s.starts;
    forall id | 0 <= id < |r.entries| ensures Dated(env, r.entries[id].expiresAt, r.ticks) {
      if id < |s.entries| {
        assert r.entries[id] == s.entries[id];
        assert Dated(env, s.entries[id].expiresAt, s.ticks);
      } else {
        assert r.entries[id].expiresAt == env.clock(s.ticks) + env.settings.queueExpiryMs;
      }
    }
  }

  lemma {:induction false} ReserveTimes(env: Env, s: State, t: int)
    ensures var (r, granted, chargedAt) := Reserve(env, s, t);
      && SameTimes(s, r)
      && (granted ==> r.ticks == s.ticks + Gap(env) - 1 && (DailyBudgeted(env) ==> chargedAt == env.clock(s.ticks)))
  {}

  lemma {:induction false} LaunchClocked(env: Env, s: State, id: nat)
    requires Clocked(env, s) && id < |s.entries|
    ensures Clocked(env, Launch(env, s, id))
  {
    var t, s0 := env.clock(s.ticks), s.(ticks := s.ticks + 1);
    var r := Launch(env, s, id);
    var (s1, granted, chargedAt) := Reserve(env, s0, t);
    ReserveTimes(env, s0, t);
    if s.entries[id].expiresAt <= t || !granted {
      assert SameTimes(s, r);
      SameClocked(env, s, r);
    } else {
      var st := Start(id, s.entries[id].expiresAt, t, chargedAt, env.clock(s1.ticks), s1.ticks);
      assert r == Begin(env, s1, id, t, chargedAt) && r.starts == s.starts + [st];
      assert Dated(env, s.entries[id].expiresAt, s.ticks);
      assert SameTimes(s, r.(starts := s.starts));
      SameClocked(env, s, r.(starts := s.starts));
    }
  }

  lemma {:induction false} IterateClocked(env: Env, s: State)
    requires CanIterate(env, s) && QueueWF(s) && Clocked(env, s)
    ensures Clocked(env, Iterate(env, s).0)
  {
    var id := s.queue[0];
    assert id in s.queue;
    var r := Iterate(env, s).0;
    if s.entries[id].expiresAt <= env.clock(s.ticks) || s.nextStartAt > env.clock(s.ticks + 1) {
      assert SameTimes(s, r);
      SameClocked(env, s, r);
    } else {
      IterateLaunches(env, s);
      var d := DequeueHead(s.(ticks := s.ticks + 2));
      assert SameTimes(s, d);
      SameClocked(env, s, d);
      LaunchClocked(env, d, id);
    }
  }

  lemma {:induction false} PumpClocked(env: Env, s: State)
    requires QueueWF(s) && Clocked(env, s)
    ensures Clocked(env, Pump(env, s))
    decreases |s.queue|
  {
    if CanIterate(env, s) {
      IterateClocked(env, s);
      IterateFrame(env, s);
      var (r, stop) := Iterate(env, s);
      if !stop { PumpClocked(env, r); }
    }
  }

  lemma {:induction false} AfterRaceTimes(s: State, id: nat, result: RaceResult)
    requires id < |s.entries| && s.entries[id].exec.Racing?
    ensures SameTimes(s, AfterRace(s, id, result).0)
  {}

  lemma {:induction false} AdmitClocked(env: Env, s: State, key: Key, abortedMeanwhile: bool)
    requires QueueWF(s) && Clocked(env, s)
    ensures Clocked(env, Admit(env, s, key, abortedMeanwhile))
  {
    var (immediate, s1) := CanStartImmediately(env, s);
    SameClocked(env, s, s1);
    if !immediate && |s1.queue| >= env.settings.maxPending {
      SameClocked(env, s1, Admit(env, s, key, abortedMeanwhile));
    } else {
      AcceptQueue(env, s1, key, abortedMeanwhile);
      AcceptClocked(env, s1, key, abortedMeanwhile);
      PumpClocked(env, Accept(env, s1, key, abortedMeanwhile));
    }
  }

  lemma {:induction false} DepartClocked(env: Env, s: State, call: nat, id: nat)
    requires QueueWF(s) && Clocked(env, s) && id < |s.entries| && call < |s.calls|
    ensures Clocked(env, Depart(env, s, call, id))
  {
    var s1 := Leave(s, call, id);
    SameClocked(env, s, s1);
    if s1.entries[id].subscribers == {} && s1.entries[id].state != Settled {
      WithoutFacts(s.queue, id);
      SameClocked(env, s1, Withdraw(s1, id));
      PumpClocked(env, Withdraw(s1, id));
    }
  }

  lemma {:induction false} CompleteClocked(env: Env, s: State, id: nat, result: RaceResult)
    requires QueueWF(s) && Clocked(env, s)
    requires id < |s.entries| && s.entries[id].exec.Racing? && s.entries[id].state != Queued
    ensures Clocked(env, Complete(env, s, id, result))
  {
    AfterRaceTimes(s, id, result);
    var (s1, ended) := AfterRace(s, id, result);
    SameClocked(env, s, s1);
    NotHead(s, id);
    if ended { PumpClocked(env, s1); }
  }

  lemma {:induction false} StepClocked(env: Env, s: State, ev: Event)
    requires WellFormed(s) && Enabled(s, ev) && Clocked(env, s)
    ensures Clocked(env, Step(env, s, ev))
  {
    match ev
    case Arrive(key, aborted, admitted, abortedMeanwhile) =>
      if !aborted && key !in s.inFlight && admitted {
        AdmitClocked(env, s, key, abortedMeanwhile);
      } else {
        SameClocked(env, s, Step(env, s, ev));
      }
    case Abort(call) =>
      var home := s.calls[call].home;
      if home.Some? && call in s.entries[home.value].subscribers { DepartClocked(env, s, call, home.value); }
    case ExpiryFires(id) =>
      if s.entries[id].state == Queued {
        WithoutFacts(s.queue, id);
        SameClocked(env, s, Expire(s, id));
        PumpClocked(env, Expire(s, id));
      }
    case SpacingFires =>
      SameClocked(env, s, s.(spacingTimer := false));
      PumpClocked(env, s.(spacingTimer := false));
    case TimeoutFires(id) => SameClocked(env, s, Step(env, s, ev));
    case RaceEnds(id, result) => CompleteClocked(env, s, id, result);
    case WorkEnds(id) =>
      SameClocked(env, s, FinishSlot(s, id));
      PumpClocked(env, FinishSlot(s, id));
  }

  lemma {:induction false} RunsClocked(env: Env, evs: seq<Event>)
    requires After(env, evs).Some?
    ensures Clocked(env, After(env, evs).value)
  {
    if evs != [] {
      var before := evs[..|evs| - 1];
      RunsClocked(env, before);
      StepClocked(env, After(env, before).value, evs[|evs| - 1]);
    }
  }

  // ---------- starts and expiry ----------

  ghost predicate Late(starts: seq<Start>) { exists k :: 0 <= k < |starts| && starts[k].expiresAt <= starts[k].startedAt }

  /** An expiry instant lies after reading `n` and not after the reading that would stamp a start checked at `n`. */
  ghost predicate Crosses(env: Env, expiresAt: int, n: nat) { env.clock(n) < expiresAt <= env.clock(n + Gap(env)) }

  /** The same for the expiry of an entry accepted at reading `a`. */
  ghost predicate CrossesExpiryOf(env: Env, a: nat, n: nat) { Crosses(env, env.clock(a) + env.settings.queueExpiryMs, n) }

  /** The clock never passes the expiry of an earlier reading between an expiry check and its start reading. */
  ghost predicate CrossesNoExpiry(env: Env) { forall a: nat, n: nat :: a < n ==> !CrossesExpiryOf(env, a, n) }

  lemma {:induction false} StartLateIff(env: Env, st: Start)
    requires Timed(env, st) && StartOk(st)
    ensures st.expiresAt <= st.startedAt <==> Crosses(env, st.expiresAt, st.tick - Gap(env))
    ensures CrossesNoExpiry(env) ==> st.startedAt < st.expiresAt
  {
    var n := st.tick - Gap(env);
    var a: nat :| a < n && st.expiresAt == env.clock(a) + env.settings.queueExpiryMs;
    assert CrossesNoExpiry(env) ==> !CrossesExpiryOf(env, a, n);
  }

  ghost predicate CrossedBy(env: Env, st: Start) { Gap(env) <= st.tick && Crosses(env, st.expiresAt, st.tick - Gap(env)) }

  /** A run starts an entry at or after its expiry exactly when the clock passed that expiry between the check and
      the start; on a clock that never does so no run has such a start. */
  lemma {:induction false} LateIff(env: Env, evs: seq<Event>)
    requires ValidEnv(env) && After(env, evs).Some?
    ensures var starts := After(env, evs).value.starts;
      Late(starts) <==> exists k :: 0 <= k < |starts| && CrossedBy(env, starts[k])
    ensures CrossesNoExpiry(env) ==> !Late(After(env, evs).value.starts)
  {
    RunsClocked(env, evs);
    RunsKeepInv(env, evs);
    var starts := After(env, evs).value.starts;
    forall k | 0 <= k < |starts|
      ensures starts[k].expiresAt <= starts[k].startedAt <==> CrossedBy(env, starts[k])
      ensures CrossesNoExpiry(env) ==> starts[k].startedAt < starts[k].expiresAt
    {
      StartLateIff(env, starts[k]);
    }
  }

  /** How late: by less than the clock moves between the check and the start. */
  lemma {:induction false} LateByLess(env: Env, evs: seq<Event>, d: int)
    requires ValidEnv(env) && After(env, evs).Some?
    requires forall n: nat :: env.clock(n + Gap(env)) - env.clock(n) <= d
    ensures forall k :: 0 <= k < |After(env, evs).value.starts| ==>
      After(env, evs).value.starts[k].startedAt < After(env, evs).value.starts[k].expiresAt + d
  {
    RunsClocked(env, evs);
    RunsKeepInv(env, evs);
    var starts := After(env, evs).value.starts;
    forall k | 0 <= k < |starts| ensures starts[k].startedAt < starts[k].expiresAt + d {
      assert Timed(env, starts[k]) && StartOk(starts[k]);
      var n := starts[k].tick - Gap(env);
      assert env.clock(n + Gap(env)) - env.clock(n) <= d;
    }
  }

  predicate Unbudgeted(env: Env) { env.tryConsumeBudget.None? && env.settings.dailyBudget.None? }

  /** The first call of a run, without a budget: it reads the clock six times, and its start is late exactly when
      its expiry falls between the fifth reading and the sixth. */
  lemma {:induction false} FirstCallLateIff(env: Env, key: Key)
    requires ValidEnv(env) && Unbudgeted(env) && 0 <= env.clock(0)
    ensures var run := After(env, [Arrive(key, false, true, false)]);
      run.Some? && (Late(run.value.starts) <==> Crosses(env, env.clock(1) + env.settings.queueExpiryMs, 4))
  {
    FirstEvent(env, Arrive(key, false, true, false));
    FirstCallStarts(env, key);
    var starts := Admit(env, Init(), key, false).starts;
    if starts != [] { assert starts[0].expiresAt == env.clock(1) + env.settings.queueExpiryMs; }
  }

  lemma {:induction false} LaunchUnbudgeted(env: Env, d: State, id: nat)
    requires Unbudgeted(env) && id < |d.entries|
    ensures var t, expiresAt := env.clock(d.ticks), d.entries[id].expiresAt;
      Launch(env, d, id).starts ==
        if t < expiresAt then d.starts + [Start(id, expiresAt, t, t, env.clock(d.ticks + 1), d.ticks + 1)] else d.starts
  {}

  lemma {:induction false} ExpiredOnArrival(env: Env, t: State)
    requires CanIterate(env, t) && QueueWF(t) && |t.queue| == 1 && t.queue[0] < |t.entries|
    requires t.entries[t.queue[0]].expiresAt <= env.clock(t.ticks)
    ensures Pump(env, t).starts == t.starts
  {
    assert t.queue[0] in t.queue;
    PumpOnce(env, t, Iterate(env, t).0);
  }

  lemma {:induction false} FirstEntry(env: Env, key: Key)
    ensures var t := Accept(env, Init().(ticks := 1), key, false);
      t.starts == [] && |t.entries| == 1 && t.entries[0].expiresAt == env.clock(1) + env.settings.queueExpiryMs
  {}

  lemma {:induction false} FirstCallStarts(env: Env, key: Key)
    requires ValidEnv(env) && Unbudgeted(env) && 0 <= env.clock(0)
    ensures var expiresAt := env.clock(1) + env.settings.queueExpiryMs;
      Admit(env, Init(), key, false).starts ==
        if env.clock(4) < expiresAt then [Start(0, expiresAt, env.clock(4), env.clock(4), env.clock(5), 5)] else []
  {
    var t := Accept(env, Init().(ticks := 1), key, false);
    ClockLater(env, 0, 3);
    ClockLater(env, 2, 4);
    AdmitsAtOnce(env, Init(), key);
    FirstEntry(env, key);
    if env.clock(2) < t.entries[0].expiresAt {
      StartsAtOnce(env, Init(), key, t);
      LaunchUnbudgeted(env, DequeueHead(t.(ticks := 4)), 0);
    } else {
      ExpiredOnArrival(env, t);
    }
  }

  /** The clock stands still for five readings and then a second has gone by. */
  function StallEnv(): Env { Env(Settings(10, 2, 1, 0, None), (i: nat) => if i <= 4 then 0 else 1000, None) }

  /** The code does start an entry after its expiry: accepted and checked at 0, expired at 1, started at 1000. */
  lemma {:induction false} StartsExpired()
    ensures var run := After(StallEnv(), [Arrive("a", false, true, false)]);
      ValidEnv(StallEnv()) && run.Some? && Late(run.value.starts)
  {
    FirstCallLateIff(StallEnv(), "a");
  }

  // ---------- the day of the charge ----------

  /** Reading `n` is the first one on the day. */
  predicate FirstOn(env: Env, day: int, n: nat) { n > 0 && Day(env.clock(n - 1)) < day == Day(env.clock(n)) }

  lemma {:induction false} OneFirst(env: Env, day: int, m: nat, n: nat)
    requires ValidEnv(env) && FirstOn(env, day, m) && m < n
    ensures !FirstOn(env, day, n)
  {
    ClockLater(env, m, n - 1);
  }

  /** One of the starts was stamped by the reading that is first on the day. */
  ghost predicate FirstStamps(env: Env, starts: seq<Start>, day: int) {
    exists k :: 0 <= k < |starts| && FirstOn(env, day, starts[k].tick)
  }

  ghost predicate StampedBy(starts: seq<Start>, n: nat) { exists k :: 0 <= k < |starts| && starts[k].tick == n }

  /** The extra start of a day in terms of the clock: midnight into the day falls between the charge reading of a
      start and the next one, which stamps it. */
  lemma {:induction false} IntoIff(env: Env, evs: seq<Event>, day: int)
    requires ValidEnv(env) && After(env, evs).Some? && DailyBudgeted(env)
    ensures Into(After(env, evs).value.starts, day) <==> FirstStamps(env, After(env, evs).value.starts, day)
  {
    RunsClocked(env, evs);
    var starts := After(env, evs).value.starts;
    forall k | 0 <= k < |starts|
      ensures Day(starts[k].chargedAt) < day == Day(starts[k].startedAt) <==> FirstOn(env, day, starts[k].tick)
    {
      assert Timed(env, starts[k]);
    }
  }

  lemma {:induction false} FirstStampsIff(env: Env, starts: seq<Start>, day: int, first: nat)
    requires ValidEnv(env) && FirstOn(env, day, first)
    ensures FirstStamps(env, starts, day) <==> StampedBy(starts, first)
  {
    forall k | 0 <= k < |starts| ensures FirstOn(env, day, starts[k].tick) <==> starts[k].tick == first {
      var tick := starts[k].tick;
      if tick < first && FirstOn(env, day, tick) { OneFirst(env, day, tick, first); }
      if first < tick { OneFirst(env, day, first, tick); }
    }
  }

  /** For any run, given where midnight falls among the readings: the day gets one start too many exactly when its
      first reading stamps a start, its budget was used up, and no start charged to it was made after it. */
  lemma {:induction false} ExtraStartIff(env: Env, evs: seq<Event>, day: int, first: nat)
    requires ValidEnv(env) && After(env, evs).Some? && DailyBudgeted(env) && FirstOn(env, day, first)
    ensures var starts := After(env, evs).value.starts; var budget := env.settings.dailyBudget.value;
      StartedOn(starts, day) > budget <==>
        Charged(starts, day) == budget && !OutOf(starts, day) && StampedBy(starts, first)
  {
    DailyBudget(env, evs, day);
    IntoIff(env, evs, day);
    FirstStampsIff(env, After(env, evs).value.starts, day, first);
  }

  /** A condition on the clock alone: a day that no two successive readings cross into keeps its budget in every run. */
  lemma {:induction false} BudgetWithoutMidnight(env: Env, evs: seq<Event>, day: int)
    requires ValidEnv(env) && After(env, evs).Some? && DailyBudgeted(env)
    requires forall n: nat :: !FirstOn(env, day, n)
    ensures StartedOn(After(env, evs).value.starts, day) <= env.settings.dailyBudget.value
  {
    DailyBudget(env, evs, day);
    IntoIff(env, evs, day);
  }
}
