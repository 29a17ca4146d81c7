/** What a call of the admission controller meets when it arrives, when its caller aborts and when its entry expires. */
module AdmissionArrivals {
  import opened AdmissionModel
  import opened AdmissionInvariant
  import opened AdmissionRuns
  import opened AdmissionAnswers
  import opened Options

  // ---------- what the pump leaves alone ----------

  /** The pump changes no entry outside the queue, and registers nothing. */
  lemma {:induction false} PumpFrame(env: Env, s: State, id: nat)
    requires QueueWF(s) && id < |s.entries| && id !in s.queue
    ensures Pump(env, s).entries[id] == s.entries[id]
    ensures id !in Pump(env, s).queue && forall k :: k in Pump(env, s).inFlight ==> k in s.inFlight && Pump(env, s).inFlight[k] == s.inFlight[k]
    decreases |s.queue|
  {
    if CanIterate(env, s) {
      var (m, stop) := Iterate(env, s);
      IterateFrame(env, s);
      assert s.queue[0] in s.queue && forall q :: q in s.queue[1..] ==> q in s.queue;
      IterateFlight(env, s);
      if !stop { PumpFrame(env, m, id); }
    }
  }

  lemma {:induction false} IterateFlight(env: Env, s: State)
    requires CanIterate(env, s) && QueueWF(s)
    ensures forall k :: k in Iterate(env, s).0.inFlight ==> k in s.inFlight && Iterate(env, s).0.inFlight[k] == s.inFlight[k]
  {
    assert s.queue[0] in s.queue;
  }

  /** The calls that are there hear nothing else than the one answer they have. */
  lemma {:induction false} HeardOnce(env: Env, s: State, m: State, r: State, c: nat)
    requires Onward(m, r) && CallsOk(r) && c < |m.calls| && m.calls[c].answers != []
    ensures r.calls[c].answers == m.calls[c].answers && r.calls[c].home == m.calls[c].home
  {
    assert m.calls[c].answers <= r.calls[c].answers && |r.calls[c].answers| <= 1;
  }

  // ---------- arriving ----------

  /** The call joins the queue behind a new entry for its key, which expires the queue time after it was made. */
  ghost predicate Joins(env: Env, s: State, r: State, key: Key, abortedMeanwhile: bool) {
    var c, n := |s.calls|, |s.entries|;
    && |r.calls| == c + 1 && |r.entries| == n + 1
    && r.entries[n].key == key
    && (exists t: nat :: s.ticks <= t <= s.ticks + 1 && t < r.ticks && r.entries[n].expiresAt == env.clock(t) + env.settings.queueExpiryMs)
    && (if abortedMeanwhile then r.calls[c] == Call(None, [Cancelled]) else r.calls[c].home == Some(n))
  }

  /** The call is answered on the spot, and nothing else happens to any entry or caller. */
  ghost predicate TurnedAway(s: State, r: State, o: Outcome) {
    r.calls == s.calls + [Call(None, [o])] && r.entries == s.entries && r.queue == s.queue && r.inFlight == s.inFlight
    && r.starts == s.starts && r.active == s.active
  }

  /** The call waits with those who already wait for its key. */
  ghost predicate Shares(s: State, r: State, id: nat) {
    && id < |s.entries| && r.calls == s.calls + [Call(Some(id), [])]
    && r.entries == s.entries[id := s.entries[id].(subscribers := s.entries[id].subscribers + {|s.calls|})]
    && r.queue == s.queue && r.inFlight == s.inFlight && r.starts == s.starts && r.active == s.active
  }

  ghost predicate Arrives(env: Env, s: State, key: Key, aborted: bool, admitted: bool, abortedMeanwhile: bool, r: State) {
    if aborted then TurnedAway(s, r, Cancelled)
    else if key in s.inFlight then Shares(s, r, s.inFlight[key])
    else if !admitted then TurnedAway(s, r, Rejected("admission_rejected"))
    else if |s.queue| >= env.settings.maxPending && !StartsRightAway(env, s) then TurnedAway(s, r, Rejected("queue_full"))
    else Joins(env, s, r, key, abortedMeanwhile)
  }

  lemma {:induction false} AcceptedJoins(env: Env, s: State, s0: State, key: Key, abortedMeanwhile: bool)
    requires s0 == s.(ticks := s0.ticks) && s.ticks <= s0.ticks <= s.ticks + 1
    ensures Joins(env, s, Accept(env, s0, key, abortedMeanwhile), key, abortedMeanwhile)
  {
    var r := Accept(env, s0, key, abortedMeanwhile);
    assert r.entries[|s.entries|].expiresAt == env.clock(s0.ticks) + env.settings.queueExpiryMs;
  }

  lemma {:induction false} JoinedLater(env: Env, s: State, m: State, r: State, key: Key, abortedMeanwhile: bool)
    requires Joins(env, s, m, key, abortedMeanwhile) && Onward(m, r) && CallsOk(r)
    requires |r.entries| == |m.entries| && |r.calls| == |m.calls| && r.entries[|s.entries|].key == key
    ensures Joins(env, s, r, key, abortedMeanwhile)
  {
    if abortedMeanwhile { HeardOnce(env, s, m, r, |s.calls|); }
  }

  lemma {:induction false} IterateKey(env: Env, s: State, id: nat)
    requires CanIterate(env, s) && QueueWF(s) && id < |s.entries|
    ensures Iterate(env, s).0.entries[id].key == s.entries[id].key
  {
    assert s.queue[0] in s.queue;
    if id != s.queue[0] { IterateFrame(env, s); }
  }

  lemma {:induction false} KeyStays(env: Env, s: State, id: nat)
    requires QueueWF(s) && id < |s.entries|
    ensures Pump(env, s).entries[id].key == s.entries[id].key
    decreases |s.queue|
  {
    if CanIterate(env, s) {
      var (m, stop) := Iterate(env, s);
      IterateKey(env, s, id);
      IterateFrame(env, s);
      if !stop { KeyStays(env, m, id); }
    }
  }

  lemma {:induction false} AdmitJoins(env: Env, s: State, key: Key, abortedMeanwhile: bool)
    requires ValidEnv(env) && Inv(env, s) && key !in s.inFlight
    requires !(|s.queue| >= env.settings.maxPending && !StartsRightAway(env, s))
    ensures Joins(env, s, Admit(env, s, key, abortedMeanwhile), key, abortedMeanwhile)
  {
    var (immediate, s0) := CanStartImmediately(env, s);
    TickSound(env, s, s0);
    AcceptedSound(env, s0, key, abortedMeanwhile);
    AcceptedJoins(env, s, s0, key, abortedMeanwhile);
    AcceptQueue(env, s0, key, abortedMeanwhile);
    var m := Accept(env, s0, key, abortedMeanwhile);
    PumpExplained(env, m);
    PumpKeeps(env, m);
    KeyStays(env, m, |s.entries|);
    JoinedLater(env, s, m, Pump(env, m), key, abortedMeanwhile);
  }

  /** An aborted caller is cancelled, one for a key in flight shares its entry, one that the policy does not admit or that
      finds the queue full is refused, and every other one gets an entry of its own. */
  lemma {:induction false} ArrivalDecided(env: Env, s: State, key: Key, aborted: bool, admitted: bool, abortedMeanwhile: bool)
    requires ValidEnv(env) && Inv(env, s) && WellFormed(s)
    ensures Arrives(env, s, key, aborted, admitted, abortedMeanwhile, Step(env, s, Arrive(key, aborted, admitted, abortedMeanwhile)))
  {
    if !aborted && key !in s.inFlight && admitted && !(|s.queue| >= env.settings.maxPending && !StartsRightAway(env, s)) {
      AdmitJoins(env, s, key, abortedMeanwhile);
    }
  }

  // ---------- aborting ----------

  /** The entry is closed: nobody waits for it, it is not queued, and its key is free. */
  ghost predicate Closed(r: State, id: nat) {
    && id < |r.entries| && r.entries[id].state == Settled && r.entries[id].subscribers == {}
    && id !in r.queue && forall k :: k in r.inFlight ==> r.inFlight[k] != id
  }

  /** A waiting caller that aborts is cancelled; when others wait for the entry nothing else changes, and when it was the
      last one the entry is closed. */
  lemma {:induction false} AbortReaches(env: Env, s: State, call: nat)
    requires ValidEnv(env) && Inv(env, s) && WellFormed(s) && call < |s.calls| && Waiting(s, call)
    ensures var r := Step(env, s, Abort(call)); var id := s.calls[call].home.value;
      && call < |r.calls| && r.calls[call].answers == [Cancelled]
      && (s.entries[id].subscribers == {call} ==> Closed(r, id))
      && (s.entries[id].subscribers != {call} ==>
            && r.entries == s.entries[id := s.entries[id].(subscribers := s.entries[id].subscribers - {call})]
            && r.queue == s.queue && r.inFlight == s.inFlight && r.starts == s.starts
            && forall c :: 0 <= c < |s.calls| && c != call ==> r.calls[c] == s.calls[c])
  {
    var id := s.calls[call].home.value;
    assert EntryOk(s.entries[id]);
    var m := Leave(s, call, id);
    assert m.calls[call].answers == [Cancelled];
    if s.entries[id].subscribers == {call} {
      WithdrawnCloses(env, s, call, id);
    } else {
      assert s.entries[id].subscribers - {call} != {};
    }
  }

  lemma {:induction false} WithdrawnCloses(env: Env, s: State, call: nat, id: nat)
    requires ValidEnv(env) && Inv(env, s) && id < |s.entries| && call < |s.calls| && s.entries[id].subscribers == {call}
    requires s.calls[call].home == Some(id) && s.calls[call].answers == [] && s.entries[id].state != Settled
    ensures var r := Depart(env, s, call, id); Closed(r, id) && call < |r.calls| && r.calls[call].answers == [Cancelled]
  {
    var s1 := Leave(s, call, id);
    assert s1.entries[id].subscribers == {};
    WithoutFacts(s.queue, id);
    WithdrawnSound(env, s, call, id);
    var m := Withdraw(s1, id);
    assert m.calls[call].answers == [Cancelled] && id !in m.queue;
    PumpFrame(env, m, id);
    PumpExplained(env, m);
    PumpKeeps(env, m);
    HeardOnce(env, s, m, Pump(env, m), call);
    assert forall k :: k in m.inFlight ==> m.inFlight[k] != id;
  }

  // ---------- expiring ----------

  /** When the expiry timer of a queued entry fires, all who wait for it are told so, and it is closed. */
  lemma {:induction false} ExpiryReaches(env: Env, s: State, id: nat)
    requires ValidEnv(env) && Inv(env, s) && WellFormed(s) && Enabled(s, ExpiryFires(id))
    ensures var r := Step(env, s, ExpiryFires(id));
      && Closed(r, id)
      && forall c :: c in s.entries[id].subscribers ==> c < |r.calls| && r.calls[c].answers == [Rejected("queue_expired")]
  {
    assert EntryOk(s.entries[id]) && SubscribersOk(s, id);
    var m := Expire(s, id);
    WithoutFacts(s.queue, id);
    CloseKeeps(s, m, id, Rejected("queue_expired"));
    HistoryFrame(env, s, m);
    assert id !in m.queue;
    PumpFrame(env, m, id);
    PumpExplained(env, m);
    PumpKeeps(env, m);
    assert forall k :: k in m.inFlight ==> m.inFlight[k] != id;
    forall c | c in s.entries[id].subscribers
      ensures c < |Pump(env, m).calls| && Pump(env, m).calls[c].answers == [Rejected("queue_expired")]
    {
      assert Waiting(s, c);
      assert m.calls[c].answers == [Rejected("queue_expired")];
      HeardOnce(env, s, m, Pump(env, m), c);
    }
  }
}
