/** What every event of the admission controller keeps. */
module AdmissionInvariant {
  import opened AdmissionModel
  import opened Options

  // ---------- the invariant ----------

  /** Queue elements are exactly the queued entries, in acceptance order. */
  ghost predicate QueueOk(s: State) {
    && QueueWF(s)
    && forall id :: 0 <= id < |s.entries| && s.entries[id].state == Queued ==> id in s.queue
  }

  predicate Occupies(exec: Exec) { exec.Racing? || exec.Draining? }

  /** No entry is caught half-way through a start, a settled entry has no subscriber, the expiry timer
      is armed exactly while the entry is queued, and only started entries execute. */
  predicate EntryOk(e: Entry) {
    && e.state != Starting
    && (e.state == Settled ==> e.subscribers == {})
    && (e.expiryArmed <==> e.state == Queued)
    && (e.state == Queued ==> e.exec == NotStarted)
    && (e.state == Running ==> e.exec.Racing?)
  }

  ghost predicate EntriesOk(s: State) {
    forall id :: 0 <= id < |s.entries| ==> EntryOk(s.entries[id])
  }

  /** `inFlight` holds exactly the unsettled entries, one per key. */
  ghost predicate FlightOk(s: State) {
    && (forall k :: k in s.inFlight ==>
         var id := s.inFlight[k];
         id < |s.entries| && s.entries[id].key == k && s.entries[id].state != Settled)
    && (forall id :: 0 <= id < |s.entries| && s.entries[id].state != Settled ==>
         s.entries[id].key in s.inFlight && s.inFlight[s.entries[id].key] == id)
  }

  ghost predicate Waiting(s: State, call: nat)
    requires call < |s.calls|
  {
    var home := s.calls[call].home;
    home.Some? && home.value < |s.entries| && call in s.entries[home.value].subscribers
  }

  /** Every call is either waiting on the one entry it joined or has been answered exactly once. */
  ghost predicate CallsOk(s: State) {
    && (forall c :: 0 <= c < |s.calls| ==>
         && |s.calls[c].answers| == (if Waiting(s, c) then 0 else 1)
         && (s.calls[c].home.Some? ==> s.calls[c].home.value < |s.entries|))
    && (forall id :: 0 <= id < |s.entries| ==> SubscribersOk(s, id))
  }

  ghost predicate SubscribersOk(s: State, id: nat)
    requires id < |s.entries|
  {
    forall c :: c in s.entries[id].subscribers ==> c < |s.calls| && s.calls[c].home == Some(id)
  }

  /** Callers that shared an entry and stayed until it settled got the same answer; before it settles
      the only answer its callers can have is their own cancellation. */
  ghost predicate SharedOk(s: State) {
    && (forall c :: 0 <= c < |s.calls| && Final(s.calls[c]) ==> HomeSettled(s, c))
    && (forall c, d :: 0 <= c < |s.calls| && 0 <= d < |s.calls| && Final(s.calls[c]) && Final(s.calls[d]) &&
                       s.calls[c].home == s.calls[d].home && s.calls[c].home.Some? ==>
                       s.calls[c].answers == s.calls[d].answers)
  }

  /** Answered by something other than the caller's own cancellation. */
  predicate Final(call: Call) { call.answers != [] && call.answers != [Cancelled] }

  predicate HomeSettled(s: State, c: nat)
    requires c < |s.calls|
  {
    s.calls[c].home.Some? ==>
      s.calls[c].home.value < |s.entries| && s.entries[s.calls[c].home.value].state == Settled
  }

  ghost function Executing(entries: seq<Entry>): set<nat> {
    set i: nat | i < |entries| && Occupies(entries[i].exec)
  }

  ghost predicate ActiveOk(s: State) { s.active == |Executing(s.entries)| }

  ghost predicate Base(s: State) {
    && QueueOk(s) && EntriesOk(s) && FlightOk(s) && CallsOk(s) && SharedOk(s) && ActiveOk(s)
    && s.counters.accepted == |s.entries|
  }

  /** No lost wake-up: queued work means a full house or a pump already scheduled. */
  ghost predicate Awake(env: Env, s: State) {
    s.queue != [] && s.active < env.settings.maxActive ==> s.spacingTimer
  }

  ghost predicate Bounded(env: Env, s: State) {
    s.active <= env.settings.maxActive && |s.queue| <= env.settings.maxPending
  }

  // ---------- elementary changes ----------

  lemma {:induction false} SameExecuting(a: seq<Entry>, b: seq<Entry>)
    requires |a| == |b|
    requires forall i :: 0 <= i < |a| ==> Occupies(a[i].exec) == Occupies(b[i].exec)
    ensures Executing(a) == Executing(b)
  {}

  lemma {:induction false} OneMoreExecuting(a: seq<Entry>, id: nat, e: Entry)
    requires id < |a| && !Occupies(a[id].exec) && Occupies(e.exec)
    ensures |Executing(a[id := e])| == |Executing(a)| + 1
  {
    assert Executing(a[id := e]) == Executing(a) + {id};
  }

  lemma {:induction false} OneLessExecuting(a: seq<Entry>, id: nat, e: Entry)
    requires id < |a| && Occupies(a[id].exec) && !Occupies(e.exec)
    ensures |Executing(a[id := e])| == |Executing(a)| - 1
  {
    assert Executing(a) == Executing(a[id := e]) + {id};
  }

  /** A change that leaves the old calls and everybody's subscriptions alone keeps the accounting. */
  lemma {:induction false} CallsFrame(s: State, r: State)
    requires CallsOk(s) && SharedOk(s)
    requires s.calls <= r.calls && |s.entries| <= |r.entries|
    requires forall i :: 0 <= i < |s.entries| ==> r.entries[i].subscribers == s.entries[i].subscribers
    requires forall i :: 0 <= i < |s.entries| && s.entries[i].state == Settled ==> r.entries[i].state == Settled
    requires forall i :: |s.entries| <= i < |r.entries| ==> r.entries[i].subscribers == {}
    requires forall c :: |s.calls| <= c < |r.calls| ==> r.calls[c].home.None? && |r.calls[c].answers| == 1
    ensures CallsOk(r) && SharedOk(r)
  {
    forall i | 0 <= i < |r.entries| ensures SubscribersOk(r, i) {
      if i < |s.entries| { assert SubscribersOk(s, i); }
    }
    forall c | 0 <= c < |r.calls| ensures |r.calls[c].answers| == (if Waiting(r, c) then 0 else 1) {
      if c < |s.calls| { assert Waiting(r, c) == Waiting(s, c); }
    }
    forall c | 0 <= c < |r.calls| && Final(r.calls[c]) ensures HomeSettled(r, c) {
      if c < |s.calls| { assert HomeSettled(s, c); }
    }
  }

  /** `r` is `s` after entry `id` was settled with `outcome` and taken out of the queue. */
  ghost predicate Closes(s: State, r: State, id: nat, outcome: Outcome) {
    && id < |s.entries|
    && var e := s.entries[id];
    && r.entries == s.entries[id := e.(state := Settled, expiryArmed := false, subscribers := {})]
    && r.queue == Without(s.queue, id)
    && r.inFlight == Unregister(s.inFlight, e.key, id)
    && r.calls == Answer(s.calls, e.subscribers, outcome)
    && r.active == s.active && r.counters.accepted == s.counters.accepted
  }

  lemma {:induction false} CloseKeeps(s: State, r: State, id: nat, outcome: Outcome)
    requires Base(s) && Closes(s, r, id, outcome)
    requires s.entries[id].state == Queued || s.entries[id].state == Running
    requires outcome != Cancelled
    ensures Base(r)
  {
    CloseTables(s, r, id, outcome);
    CloseCalls(s, r, id, outcome);
  }

  lemma {:induction false} CloseTables(s: State, r: State, id: nat, outcome: Outcome)
    requires QueueOk(s) && EntriesOk(s) && FlightOk(s) && ActiveOk(s) && Closes(s, r, id, outcome)
    requires s.entries[id].state == Queued || s.entries[id].state == Running
    ensures QueueOk(r) && EntriesOk(r) && FlightOk(r) && ActiveOk(r)
  {
    WithoutFacts(s.queue, id);
    SameExecuting(s.entries, r.entries);
  }

  lemma {:induction false} CloseCalls(s: State, r: State, id: nat, outcome: Outcome)
    requires CallsOk(s) && SharedOk(s) && Closes(s, r, id, outcome)
    requires s.entries[id].state != Settled && outcome != Cancelled
    ensures CallsOk(r) && SharedOk(r)
  {
    forall c | 0 <= c < |s.calls| ensures CloseEffect(s, r, id, outcome, c) { assert SubscribersOk(s, id); }
    forall c | 0 <= c < |r.calls|
      ensures |r.calls[c].answers| == (if Waiting(r, c) then 0 else 1)
    { assert CloseEffect(s, r, id, outcome, c); }
    forall i | 0 <= i < |r.entries| ensures SubscribersOk(r, i) { assert SubscribersOk(s, i); }
    CloseShared(s, r, id, outcome);
  }

  ghost predicate CloseEffect(s: State, r: State, id: nat, outcome: Outcome, c: nat)
    requires c < |s.calls| == |r.calls|
  {
    && r.calls[c].home == s.calls[c].home
    && (Waiting(r, c) <==> Waiting(s, c) && s.calls[c].home != Some(id))
    && r.calls[c].answers == if Waiting(s, c) && s.calls[c].home == Some(id) then [outcome] else s.calls[c].answers
  }

  lemma {:induction false} CloseShared(s: State, r: State, id: nat, outcome: Outcome)
    requires SharedOk(s) && Closes(s, r, id, outcome) && s.entries[id].state != Settled
    requires forall c :: 0 <= c < |s.calls| ==> CloseEffect(s, r, id, outcome, c)
    ensures SharedOk(r)
  {
    forall c | 0 <= c < |r.calls| && Final(r.calls[c]) ensures HomeSettled(r, c) {
      assert CloseEffect(s, r, id, outcome, c);
    }
    forall c, d | 0 <= c < |r.calls| && 0 <= d < |r.calls| && Final(r.calls[c]) && Final(r.calls[d]) &&
                  r.calls[c].home == r.calls[d].home && r.calls[c].home.Some?
      ensures r.calls[c].answers == r.calls[d].answers
    {
      assert CloseEffect(s, r, id, outcome, c) && CloseEffect(s, r, id, outcome, d);
      if r.calls[c].home == Some(id) {
        assert !Final(s.calls[c]) && !Final(s.calls[d]);
      }
    }
  }

  /** `r` is `s` after the queued entry `id` left the queue and began to execute. */
  ghost predicate Begins(s: State, r: State, id: nat) {
    && id < |s.entries|
    && r.entries == s.entries[id := s.entries[id].(state := Running, expiryArmed := false, exec := Racing(false))]
    && r.queue == Without(s.queue, id)
    && r.inFlight == s.inFlight && r.calls == s.calls
    && r.active == s.active + 1 && r.counters.accepted == s.counters.accepted
  }

  lemma {:induction false} BeginKeeps(s: State, r: State, id: nat)
    requires Base(s) && Begins(s, r, id) && s.entries[id].state == Queued
    ensures Base(r)
  {
    WithoutFacts(s.queue, id);
    OneMoreExecuting(s.entries, id, r.entries[id]);
    assert QueueOk(r);
    CallsFrame(s, r);
  }

  /** Only the execution stage of entry `id` changed, and the slot count with it. */
  ghost predicate Advances(s: State, r: State, id: nat, exec: Exec) {
    && id < |s.entries|
    && r.entries == s.entries[id := s.entries[id].(exec := exec)]
    && r.queue == s.queue && r.inFlight == s.inFlight && r.calls == s.calls
    && r.active == (if Occupies(exec) then s.active else s.active - 1)
    && r.counters.accepted == s.counters.accepted
  }

  lemma {:induction false} AdvanceKeeps(s: State, r: State, id: nat, exec: Exec)
    requires Base(s) && Advances(s, r, id, exec)
    requires Occupies(s.entries[id].exec) && (s.entries[id].state == Settled || exec.Racing?)
    ensures Base(r)
  {
    if Occupies(exec) { SameExecuting(s.entries, r.entries); }
    else { OneLessExecuting(s.entries, id, r.entries[id]); }
    CallsFrame(s, r);
  }

  lemma {:induction false} NewCallKeeps(s: State, outcome: Outcome)
    requires Base(s)
    ensures Base(NewCall(s, None, [outcome]))
  {
    var r := NewCall(s, None, [outcome]);
    CallsFrame(s, r);
  }

  lemma {:induction false} SubscribeKeeps(s: State, id: nat)
    requires Base(s) && id < |s.entries| && s.entries[id].state != Settled
    ensures Base(Subscribe(s, id, false))
  {
    var r := Subscribe(s, id, false);
    SameExecuting(s.entries, r.entries);
    assert FlightOk(r);
    SubscribeCalls(s, id);
  }

  lemma {:induction false} SubscribeCalls(s: State, id: nat)
    requires CallsOk(s) && SharedOk(s) && id < |s.entries| && s.entries[id].state != Settled
    ensures CallsOk(Subscribe(s, id, false)) && SharedOk(Subscribe(s, id, false))
  {
    var r := Subscribe(s, id, false);
    forall c | 0 <= c < |s.calls| ensures Waiting(r, c) == Waiting(s, c) && r.calls[c] == s.calls[c] {}
    assert r.calls[|s.calls|] == Call(Some(id), []);
    assert Waiting(r, |s.calls|);
    forall c | 0 <= c < |r.calls| ensures |r.calls[c].answers| == (if Waiting(r, c) then 0 else 1) {
      if c < |s.calls| { assert Waiting(r, c) == Waiting(s, c); }
    }
    forall i | 0 <= i < |r.entries| ensures SubscribersOk(r, i) { assert SubscribersOk(s, i); }
    assert forall c :: 0 <= c < |r.calls| && Final(r.calls[c]) ==> c < |s.calls| && HomeSettled(s, c);
  }

  lemma {:induction false} LeaveKeeps(s: State, call: nat, id: nat)
    requires Base(s) && id < |s.entries| && call in s.entries[id].subscribers
    ensures call < |s.calls| && Base(Leave(s, call, id))
  {
    assert SubscribersOk(s, id);
    var r := Leave(s, call, id);
    SameExecuting(s.entries, r.entries);
    assert FlightOk(r);
    LeaveCalls(s, call, id);
  }

  lemma {:induction false} LeaveCalls(s: State, call: nat, id: nat)
    requires CallsOk(s) && SharedOk(s) && id < |s.entries| && call in s.entries[id].subscribers
    requires call < |s.calls|
    ensures CallsOk(Leave(s, call, id)) && SharedOk(Leave(s, call, id))
  {
    var r := Leave(s, call, id);
    assert SubscribersOk(s, id);
    assert Waiting(s, call);
    assert r.calls[call] == Call(Some(id), [Cancelled]);
    forall i | 0 <= i < |r.entries| ensures SubscribersOk(r, i) { assert SubscribersOk(s, i); }
    forall c | 0 <= c < |r.calls| ensures |r.calls[c].answers| == (if Waiting(r, c) then 0 else 1) {
      if c != call { assert Waiting(r, c) == Waiting(s, c); }
    }
    forall c | 0 <= c < |r.calls| && Final(r.calls[c]) ensures c != call && HomeSettled(r, c) {
      assert HomeSettled(s, c);
    }
  }

  lemma {:induction false} WithdrawKeeps(s: State, id: nat)
    requires Base(s) && id < |s.entries| && s.entries[id].state != Settled && s.entries[id].subscribers == {}
    ensures Base(Withdraw(s, id))
  {
    var r := Withdraw(s, id);
    WithoutFacts(s.queue, id);
    SameExecuting(s.entries, r.entries);
    assert QueueOk(r);
    assert FlightOk(r);
    CallsFrame(s, r);
  }

  lemma {:induction false} AcceptKeeps(s: State, r: State, e: Entry)
    requires Base(s) && e.key !in s.inFlight
    requires e == Entry(e.key, e.expiresAt, Queued, {}, true, NotStarted)
    requires r.entries == s.entries + [e] && r.queue == s.queue + [|s.entries|]
    requires r.inFlight == s.inFlight[e.key := |s.entries|] && r.calls == s.calls && r.active == s.active
    requires r.counters.accepted == s.counters.accepted + 1
    ensures Base(r)
  {
    assert Executing(r.entries) == Executing(s.entries);
    forall i | 0 <= i < |s.queue| ensures s.queue[i] < |s.entries| { assert s.queue[i] in s.queue; }
    assert QueueOk(r);
    assert FlightOk(r);
    CallsFrame(s, r);
  }
}
