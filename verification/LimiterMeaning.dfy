/** What each answer of the address limiter means for the calls made so far. */
module LimiterMeaning {
  import opened AddressLimiter
  import opened Options

  // ---------- refused for its rate ----------

  /** Since call `from` of its key the bucket was never full again: it lost a token for each admission and gained the rate. */
  ghost predicate SpentSince(s: Settings, calls: seq<Call>, key: Key, b: Bucket, from: int)
    requires ValidSettings(s)
  {
    && 0 <= from < |calls| && calls[from].key == key && calls[from].now <= b.updatedAt
    && b.tokens + TOKEN * Admitted(s, calls, key, from) == Full(s) + (b.updatedAt - calls[from].now) * s.refillPerMinute
  }

  ghost predicate Accounted(s: Settings, calls: seq<Call>, key: Key)
    requires ValidSettings(s)
  {
    key in Run(s, calls).0 ==> exists from :: SpentSince(s, calls, key, Run(s, calls).0[key], from)
  }

  lemma {:induction false} RefillAdds(s: Settings, b: Bucket, now: int, start: int)
    requires ValidSettings(s) && start <= b.updatedAt <= now
    ensures Refilled(s, b, now) == Min(Full(s), b.tokens + (now - b.updatedAt) * s.refillPerMinute)
    ensures (now - b.updatedAt) * s.refillPerMinute + (b.updatedAt - start) * s.refillPerMinute == (now - start) * s.refillPerMinute
  {
    GainedIsProduct(s, now - b.updatedAt);
  }

  lemma {:induction false} FullStart(s: Settings, calls: seq<Call>, c: Call, b: Bucket)
    requires ValidSettings(s) && var (m, a) := Consume(s, Run(s, calls).0, c.key, c.now);
      !a.Capacity? && c.key in m && m[c.key] == b && b.updatedAt == c.now
      && b.tokens == Full(s) - if a == Allowed then TOKEN else 0
    ensures SpentSince(s, calls + [c], c.key, b, |calls|)
  {
    OneMore(s, calls, c, c.key, |calls|);
    NoneBefore(s, calls, c.key, |calls|);
  }

  /** The bucket a served call leaves, and the refill it was computed from. */
  ghost predicate Served(s: Settings, m: Buckets, c: Call, b: Bucket, refill: int)
    requires ValidSettings(s)
  {
    var (m', a) := Consume(s, m, c.key, c.now);
    && !a.Capacity? && c.key in m' && m'[c.key] == b
    && refill == Refilled(s, if c.key in m then m[c.key] else Fresh(s, c.now), c.now)
    && b == Bucket(refill - (if a == Allowed then TOKEN else 0), c.now, c.now)
    && (a == Allowed <==> TOKEN <= refill)
  }

  lemma {:induction false} ServedShape(s: Settings, m: Buckets, c: Call)
    requires ValidSettings(s) && !Consume(s, m, c.key, c.now).1.Capacity?
    ensures c.key in Consume(s, m, c.key, c.now).0
    ensures Served(s, m, c, Consume(s, m, c.key, c.now).0[c.key],
              Refilled(s, if c.key in m then m[c.key] else Fresh(s, c.now), c.now))
  {}

  lemma {:induction false} SameKeyAccounted(s: Settings, calls: seq<Call>, c: Call)
    requires ValidSettings(s) && Accounted(s, calls, c.key) && !Consume(s, Run(s, calls).0, c.key, c.now).1.Capacity?
    requires c.key in Run(s, calls).0 ==> Run(s, calls).0[c.key].updatedAt <= c.now
    ensures Accounted(s, calls + [c], c.key)
  {
    var m := Run(s, calls).0;
    var (m', a) := Consume(s, m, c.key, c.now);
    ServedShape(s, m, c);
    OneMore(s, calls, c, c.key, 0);
    var b := m'[c.key];
    var refill := b.tokens + if a == Allowed then TOKEN else 0;
    if c.key !in m || refill == Full(s) {
      GainedIsProduct(s, 0);
      FullStart(s, calls, c, b);
      assert SpentSince(s, calls + [c], c.key, b, |calls|);
    } else {
      var from :| SpentSince(s, calls, c.key, m[c.key], from);
      RefillAdds(s, m[c.key], c.now, calls[from].now);
      OneMore(s, calls, c, c.key, from);
      assert (calls + [c])[from] == calls[from];
      assert SpentSince(s, calls + [c], c.key, b, from);
    }
  }

  lemma {:induction false} StillSpent(s: Settings, calls: seq<Call>, c: Call, key: Key, b: Bucket, from: int)
    requires ValidSettings(s) && SpentSince(s, calls, key, b, from)
    requires c.key != key || Consume(s, Run(s, calls).0, c.key, c.now).1 != Allowed
    ensures SpentSince(s, calls + [c], key, b, from)
  {
    OneMore(s, calls, c, key, from);
    assert (calls + [c])[from] == calls[from];
  }

  lemma {:induction false} OtherBucket(s: Settings, m: Buckets, c: Call, key: Key)
    requires ValidSettings(s) && (c.key != key || Consume(s, m, c.key, c.now).1.Capacity?)
    ensures var m' := Consume(s, m, c.key, c.now).0; key in m' ==> key in m && m'[key] == m[key]
  {}

  lemma {:induction false} OtherKeyAccounted(s: Settings, calls: seq<Call>, c: Call, key: Key)
    requires ValidSettings(s) && Accounted(s, calls, key)
    requires c.key != key || Consume(s, Run(s, calls).0, c.key, c.now).1.Capacity?
    ensures Accounted(s, calls + [c], key)
  {
    var m := Run(s, calls).0;
    OneMore(s, calls, c, key, 0);
    OtherBucket(s, m, c, key);
    if key in Run(s, calls + [c]).0 {
      var from :| SpentSince(s, calls, key, m[key], from);
      StillSpent(s, calls, c, key, m[key], from);
    }
  }

  lemma {:induction false} AllAccounted(s: Settings, calls: seq<Call>, key: Key)
    requires ValidSettings(s) && Ordered(calls)
    ensures Accounted(s, calls, key)
  {
    if calls != [] {
      var n := |calls| - 1;
      var c := calls[n];
      AllAccounted(s, calls[..n], key);
      assert calls[..n] + [c] == calls;
      if c.key == key && !Consume(s, Run(s, calls[..n]).0, key, c.now).1.Capacity? {
        UpdatedBy(s, calls[..n], key, c.now);
        SameKeyAccounted(s, calls[..n], c);
      } else {
        OtherKeyAccounted(s, calls[..n], c, key);
      }
    }
  }

  /** More admissions than a full burst and the refill of the span. */
  predicate Exceeds(s: Settings, admitted: int, span: int) {
    TOKEN * admitted > s.burst * TOKEN + span * s.refillPerMinute
  }

  /** One more admission at `now` would be more than a full burst and the refill since call `from` of the key. */
  ghost predicate OverRate(s: Settings, calls: seq<Call>, key: Key, now: int, from: int)
    requires ValidSettings(s)
  {
    && 0 <= from < |calls| && calls[from].key == key
    && Exceeds(s, Admitted(s, calls, key, from) + 1, now - calls[from].now)
  }

  /** A call is refused for its rate only when admitting it would break the rate over some span of its key's calls; and when
      forgetting is safe, a call that would is never admitted. */
  lemma {:induction false} RateLimitedMeans(s: Settings, calls: seq<Call>, c: Call)
    requires ValidSettings(s) && Ordered(calls + [c])
    ensures var answer := Run(s, calls + [c]).1[|calls|];
      && (answer.RateLimited? ==> exists from :: OverRate(s, calls, c.key, c.now, from))
      && (LongEnough(s) && answer == Allowed ==> forall from :: !OverRate(s, calls, c.key, c.now, from))
  {
    var all := calls + [c];
    OneMore(s, calls, c, c.key, 0);
    assert forall i :: 0 <= i < |calls| ==> calls[i] == all[i];
    var answer := Run(s, all).1[|calls|];
    if answer.RateLimited? { RefusedOverRate(s, calls, c); }
    if LongEnough(s) && answer == Allowed { AllowedWithinRate(s, calls, c); }
  }

  lemma {:induction false} WithinMeans(s: Settings, all: seq<Call>, key: Key, from: nat)
    requires ValidSettings(s) && from < |all| && WithinRate(s, all, key, from)
    ensures !Exceeds(s, Admitted(s, all, key, from), all[|all| - 1].now - all[from].now)
  {}

  lemma {:induction false} WithinOne(s: Settings, calls: seq<Call>, c: Call, from: nat)
    requires ValidSettings(s) && Ordered(calls + [c]) && LongEnough(s) && from < |calls|
    requires Consume(s, Run(s, calls).0, c.key, c.now).1 == Allowed
    ensures !OverRate(s, calls, c.key, c.now, from)
  {
    var all := calls + [c];
    OneMore(s, calls, c, c.key, from);
    AdmissionBound(s, all, c.key, from);
    WithinMeans(s, all, c.key, from);
    assert all[from] == calls[from] && all[|all| - 1] == c;
  }

  lemma {:induction false} AllowedWithinRate(s: Settings, calls: seq<Call>, c: Call)
    requires ValidSettings(s) && Ordered(calls + [c]) && LongEnough(s)
    requires Consume(s, Run(s, calls).0, c.key, c.now).1 == Allowed
    ensures forall from :: !OverRate(s, calls, c.key, c.now, from)
  {
    forall from: int | 0 <= from < |calls| ensures !OverRate(s, calls, c.key, c.now, from) {
      WithinOne(s, calls, c, from);
    }
  }

  lemma {:induction false} RefusedIsShort(s: Settings, m: Buckets, key: Key, now: int)
    requires ValidSettings(s) && Consume(s, m, key, now).1.RateLimited? && (key in m ==> m[key].updatedAt <= now)
    ensures key in m && Refilled(s, m[key], now) < TOKEN <= Full(s)
  {
    GainedIsProduct(s, 0);
  }

  lemma {:induction false} ShortIsOver(s: Settings, calls: seq<Call>, key: Key, b: Bucket, now: int, from: int)
    requires ValidSettings(s) && SpentSince(s, calls, key, b, from) && b.updatedAt <= now && Refilled(s, b, now) < TOKEN <= Full(s)
    ensures OverRate(s, calls, key, now, from)
  {
    RefillAdds(s, b, now, calls[from].now);
  }

  lemma {:induction false} RefusedOverRate(s: Settings, calls: seq<Call>, c: Call)
    requires ValidSettings(s) && Ordered(calls) && (calls != [] ==> calls[|calls| - 1].now <= c.now)
    requires Consume(s, Run(s, calls).0, c.key, c.now).1.RateLimited?
    ensures exists from :: OverRate(s, calls, c.key, c.now, from)
  {
    var m := Run(s, calls).0;
    AllAccounted(s, calls, c.key);
    UpdatedBy(s, calls, c.key, c.now);
    RefusedIsShort(s, m, c.key, c.now);
    var from :| SpentSince(s, calls, c.key, m[c.key], from);
    ShortIsOver(s, calls, c.key, m[c.key], c.now, from);
  }

  // ---------- refused for capacity ----------

  /** Seen less than the idle time ago. */
  predicate Recent(s: Settings, m: Buckets, now: int, k: Key) { k in m && now < m[k].lastSeenAt + s.idleTtlMs }

  predicate AllRecent(s: Settings, m: Buckets, now: int, keys: set<Key>) { forall k :: k in keys ==> Recent(s, m, now, k) }

  /** As many keys as there is room for were seen less than the idle time ago. */
  ghost predicate Crowded(s: Settings, m: Buckets, now: int) {
    exists keys: set<Key> :: |keys| >= s.maxKeys && AllRecent(s, m, now, keys)
  }

  /** A call is turned away for capacity exactly when its key has no bucket and as many keys as there is room for were seen
      less than the idle time ago; what is kept then is the recent keys. */
  lemma {:induction false} CapacityIff(s: Settings, m: Buckets, key: Key, now: int)
    requires ValidSettings(s)
    ensures var (m', answer) := Consume(s, m, key, now);
      && (answer.Capacity? <==> key !in m && Crowded(s, m, now))
      && (answer.Capacity? ==> forall k :: k in m' <==> Recent(s, m, now, k))
  {
    var kept := Evicted(s, m, now);
    assert forall k :: k in kept.Keys <==> Recent(s, m, now, k);
    if key !in m {
      if |kept| >= s.maxKeys {
        assert |kept.Keys| >= s.maxKeys && AllRecent(s, m, now, kept.Keys);
      } else {
        forall recent: set<Key> | AllRecent(s, m, now, recent) ensures |recent| < s.maxKeys {
          assert recent <= kept.Keys;
          SmallerSet(recent, kept.Keys);
        }
      }
    }
  }

  lemma {:induction false} SmallerSet(a: set<Key>, b: set<Key>)
    requires a <= b
    ensures |a| <= |b|
  {
    assert b == a + (b - a);
  }

  /** The bucket of a key was last seen by a served call of that key. */
  ghost predicate SeenByCall(s: Settings, calls: seq<Call>, k: Key, at: int)
    requires ValidSettings(s)
  {
    exists i :: 0 <= i < |calls| && calls[i] == Call(k, at) && !Run(s, calls).1[i].Capacity?
  }

  lemma {:induction false} SeenLater(s: Settings, calls: seq<Call>, c: Call, k: Key, at: int)
    requires ValidSettings(s) && SeenByCall(s, calls, k, at)
    ensures SeenByCall(s, calls + [c], k, at)
  {
    OneMore(s, calls, c, k, 0);
    var i :| 0 <= i < |calls| && calls[i] == Call(k, at) && !Run(s, calls).1[i].Capacity?;
    assert (calls + [c])[i] == calls[i] && Run(s, calls + [c]).1[i] == Run(s, calls).1[i];
  }

  lemma {:induction false} BucketsAreSeen(s: Settings, calls: seq<Call>, k: Key)
    requires ValidSettings(s) && k in Run(s, calls).0
    ensures SeenByCall(s, calls, k, Run(s, calls).0[k].lastSeenAt)
  {
    var n := |calls| - 1;
    var c := calls[n];
    assert calls[..n] + [c] == calls;
    OneMore(s, calls[..n], c, k, 0);
    var m, m' := Run(s, calls[..n]).0, Run(s, calls).0;
    if c.key == k && !Consume(s, m, k, c.now).1.Capacity? {
      assert calls[n] == Call(k, m'[k].lastSeenAt) && !Run(s, calls).1[n].Capacity?;
    } else {
      assert k in m && m'[k] == m[k];
      BucketsAreSeen(s, calls[..n], k);
      SeenLater(s, calls[..n], c, k, m[k].lastSeenAt);
    }
  }

  ghost predicate ServedSince(s: Settings, calls: seq<Call>, k: Key, now: int)
    requires ValidSettings(s)
  {
    exists at :: SeenByCall(s, calls, k, at) && now < at + s.idleTtlMs
  }

  ghost predicate ServedLately(s: Settings, calls: seq<Call>, keys: set<Key>, now: int)
    requires ValidSettings(s)
  {
    forall k :: k in keys ==> ServedSince(s, calls, k, now)
  }

  /** Over runs: a call turned away for capacity met as many other keys as there is room for, each served less than the idle
      time ago. */
  lemma {:induction false} CapacityMeansBusy(s: Settings, calls: seq<Call>, c: Call)
    requires ValidSettings(s) && Run(s, calls + [c]).1[|calls|].Capacity?
    ensures exists keys: set<Key> :: |keys| >= s.maxKeys && c.key !in keys && ServedLately(s, calls, keys, c.now)
  {
    OneMore(s, calls, c, c.key, 0);
    var m := Run(s, calls).0;
    CapacityIff(s, m, c.key, c.now);
    var recent: set<Key> :| |recent| >= s.maxKeys && AllRecent(s, m, c.now, recent);
    forall k | k in recent ensures ServedSince(s, calls, k, c.now) {
      assert Recent(s, m, c.now, k);
      BucketsAreSeen(s, calls, k);
    }
    assert ServedLately(s, calls, recent, c.now) && c.key !in recent;
  }

  predicate SeenJustThen(m: Buckets, now: int) { forall k :: k in m ==> m[k].lastSeenAt == now }

  lemma {:induction false} RoomAgain(s: Settings, kept: Buckets, now: int, again: Key, later: int)
    requires ValidSettings(s) && again !in kept && (forall k :: k in kept ==> kept[k].lastSeenAt <= now) && now + s.idleTtlMs <= later
    ensures Consume(s, kept, again, later).1 == Allowed
  {
    GainedIsProduct(s, 0);
    assert Evicted(s, kept, later) == map[];
  }

  lemma {:induction false} NoRoomYet(s: Settings, m: Buckets, now: int, again: Key, later: int)
    requires ValidSettings(s) && again !in m && SeenJustThen(m, now) && now <= later < now + s.idleTtlMs
    ensures Evicted(s, m, later) == m
    ensures |m| >= s.maxKeys ==> Consume(s, m, again, later) == (m, Capacity(Max(1, CeilDiv(s.idleTtlMs, 1000))))
  {}

  /** Turned away for capacity: when no call comes for as long as told, the next one is admitted, whatever its key; and a
      second less may be too little, when all keys were seen just then. */
  lemma {:induction false} CapacityWait(s: Settings, m: Buckets, key: Key, now: int, again: Key, later: int)
    requires ValidSettings(s) && Consume(s, m, key, now).1.Capacity? && again !in m
    requires forall k :: k in m ==> m[k].lastSeenAt <= now
    ensures var (m', answer) := Consume(s, m, key, now);
      && (now + answer.retryAfterSeconds * 1000 <= later ==> Consume(s, m', again, later).1 == Allowed)
      && (SeenJustThen(m, now) && now <= later <= now + (answer.retryAfterSeconds - 1) * 1000 ==>
            Consume(s, m', again, later).1 == answer)
  {
    var kept := Evicted(s, m, now);
    CeilBounds(s.idleTtlMs, 1000);
    if now + s.idleTtlMs <= later {
      RoomAgain(s, kept, now, again, later);
    } else if SeenJustThen(m, now) && now <= later {
      NoRoomYet(s, m, now, key, now);
      NoRoomYet(s, m, now, again, later);
    }
  }
}
