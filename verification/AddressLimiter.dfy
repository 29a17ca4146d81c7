/** The token-bucket limiter per client address. Tokens are counted in sixty-thousandths, so that the refill
    per millisecond is the integer `refillPerMinute` and no fraction is lost. */
module AddressLimiter {
  import opened Options

  const TOKEN: int := 60_000

  datatype Settings = Settings(burst: int, refillPerMinute: int, maxKeys: int, idleTtlMs: int)

  predicate ValidSettings(s: Settings) {
    1 <= s.burst && 1 <= s.refillPerMinute && 1 <= s.maxKeys && 1 <= s.idleTtlMs
  }

  type Key = string

  datatype Bucket = Bucket(tokens: int, updatedAt: int, lastSeenAt: int)

  type Buckets = map<Key, Bucket>

  datatype Answer = Allowed | RateLimited(retryAfterSeconds: int) | Capacity(retryAfterSeconds: int)

  function Max(a: int, b: int): int { if a < b then b else a }
  function Min(a: int, b: int): int { if a < b then a else b }

  function CeilDiv(a: int, b: int): int
    requires b > 0
  {
    -((-a) / b)
  }

  function Full(s: Settings): int { s.burst * TOKEN }

  /** What a bucket gains, millisecond by millisecond. */
  function Gained(s: Settings, elapsed: nat): (g: int)
    ensures 0 <= s.refillPerMinute ==> 0 <= g
  {
    if elapsed == 0 then 0 else Gained(s, elapsed - 1) + s.refillPerMinute
  }

  lemma {:induction false} GainedIsProduct(s: Settings, elapsed: nat)
    ensures Gained(s, elapsed) == elapsed * s.refillPerMinute
  {
    if elapsed > 0 { GainedIsProduct(s, elapsed - 1); }
  }

  function Refilled(s: Settings, b: Bucket, now: int): int {
    Min(Full(s), b.tokens + Gained(s, Max(0, now - b.updatedAt)))
  }

  /** How many whole seconds, at least one, bring the missing part of a token. */
  function SecondsFor(s: Settings, missing: int): (n: int)
    requires ValidSettings(s)
    ensures 1 <= n
    decreases missing
  {
    if missing <= s.refillPerMinute * 1000 then 1 else 1 + SecondsFor(s, missing - s.refillPerMinute * 1000)
  }

  lemma {:induction false} SecondsForIsCeiling(s: Settings, missing: int)
    requires ValidSettings(s)
    ensures SecondsFor(s, missing) == Max(1, CeilDiv(missing, s.refillPerMinute * 1000))
    decreases missing
  {
    var d := s.refillPerMinute * 1000;
    CeilBounds(missing, d);
    if missing <= d {
      if CeilDiv(missing, d) > 1 { MulMonotone(2, CeilDiv(missing, d), d); }
    } else {
      SecondsForIsCeiling(s, missing - d);
      CeilBounds(missing - d, d);
      CeilUnique(missing, d, CeilDiv(missing - d, d) + 1);
    }
  }

  lemma {:induction false} CeilBounds(a: int, b: int)
    requires b > 0
    ensures a <= CeilDiv(a, b) * b < a + b
  {}

  lemma {:induction false} CeilUnique(a: int, b: int, q: int)
    requires b > 0 && a <= q * b < a + b
    ensures q == CeilDiv(a, b)
  {
    CeilBounds(a, b);
    var c := CeilDiv(a, b);
    assert (q + 1) * b == q * b + b && (c + 1) * b == c * b + b;
    if q < c { MulMonotone(q + 1, c, b); }
    if c < q { MulMonotone(c + 1, q, b); }
  }

  lemma {:induction false} MulMonotone(a: int, b: int, r: int)
    requires a <= b && 0 <= r
    ensures a * r <= b * r
  {}

  /** Refill and spend: the part of `consume` after the bucket is found. */
  function Spend(s: Settings, b: Bucket, now: int): (Bucket, Answer)
    requires ValidSettings(s)
  {
    var tokens := Refilled(s, b, now);
    if tokens < TOKEN then
      (Bucket(tokens, now, now), RateLimited(SecondsFor(s, TOKEN - tokens)))
    else (Bucket(tokens - TOKEN, now, now), Allowed)
  }

  function Fresh(s: Settings, now: int): Bucket { Bucket(Full(s), now, now) }

  function Evicted(s: Settings, m: Buckets, now: int): Buckets {
    m - set k | k in m && now - m[k].lastSeenAt >= s.idleTtlMs
  }

  /** `consume` for a normalised address. */
  function Consume(s: Settings, m: Buckets, key: Key, now: int): (Buckets, Answer)
    requires ValidSettings(s)
  {
    if key in m then
      var (b, answer) := Spend(s, m[key], now);
      (m[key := b], answer)
    else
      var kept := Evicted(s, m, now);
      if |kept| >= s.maxKeys then (kept, Capacity(Max(1, CeilDiv(s.idleTtlMs, 1000))))
      else
        var (b, answer) := Spend(s, Fresh(s, now), now);
        (kept[key := b], answer)
  }

  /** The limiter that never forgets a key and has room for all of them. */
  function Ideal(s: Settings, m: Buckets, key: Key, now: int): (Buckets, Answer)
    requires ValidSettings(s)
  {
    var (b, answer) := Spend(s, if key in m then m[key] else Fresh(s, now), now);
    (m[key := b], answer)
  }

  // ---------- the limiter object ----------

  class AddressIpLimiter {
    const settings: Settings
    var buckets: Buckets

    constructor (settings: Settings)
      ensures this.settings == settings && buckets == map[]
    {
      this.settings := settings;
      buckets := map[];
    }

    method EvictIdle(now: int)
      modifies this
      ensures buckets == Evicted(settings, old(buckets), now)
    {
      var todo := buckets.Keys;
      while todo != {}
        invariant todo <= buckets.Keys <= old(buckets).Keys
        invariant forall k :: k in buckets ==> buckets[k] == old(buckets)[k]
        invariant forall k :: k in old(buckets) && k !in todo ==>
          (k in buckets <==> now - old(buckets)[k].lastSeenAt < settings.idleTtlMs)
        decreases todo
      {
        var k :| k in todo;
        todo := todo - {k};
        if now - buckets[k].lastSeenAt >= settings.idleTtlMs { buckets := buckets - {k}; }
      }
    }

    /** `normalized` is None for a text that is no address. */
    method ConsumeAddress(normalized: Option<Key>, now: int) returns (answer: Answer)
      requires ValidSettings(settings)
      modifies this
      ensures normalized.None? ==> answer == Capacity(60) && buckets == old(buckets)
      ensures normalized.Some? ==> (buckets, answer) == Consume(settings, old(buckets), normalized.value, now)
    {
      if normalized.None? { return Capacity(60); }
      var key := normalized.value;
      var bucket := Fresh(settings, now);
      if key in buckets {
        bucket := buckets[key];
      } else {
        EvictIdle(now);
        if |buckets| >= settings.maxKeys { return Capacity(Max(1, CeilDiv(settings.idleTtlMs, 1000))); }
        buckets := buckets[key := bucket];
      }
      ghost var kept := if key in old(buckets) then old(buckets) else Evicted(settings, old(buckets), now);
      var elapsed := Max(0, now - bucket.updatedAt);
      var tokens := Min(Full(settings), bucket.tokens + elapsed * settings.refillPerMinute);
      GainedIsProduct(settings, elapsed);
      if tokens < TOKEN {
        buckets := buckets[key := Bucket(tokens, now, now)];
        assert buckets == kept[key := Bucket(tokens, now, now)];
        SecondsForIsCeiling(settings, TOKEN - tokens);
        return RateLimited(Max(1, CeilDiv(TOKEN - tokens, settings.refillPerMinute * 1000)));
      }
      buckets := buckets[key := Bucket(tokens - TOKEN, now, now)];
      assert buckets == kept[key := Bucket(tokens - TOKEN, now, now)];
      return Allowed;
    }
  }

  // ---------- runs ----------

  datatype Call = Call(key: Key, now: int)

  predicate Ordered(calls: seq<Call>) { forall i, j :: 0 <= i < j < |calls| ==> calls[i].now <= calls[j].now }

  /** Buckets after the calls, and the answers. */
  function Run(s: Settings, calls: seq<Call>): (r: (Buckets, seq<Answer>))
    requires ValidSettings(s)
    ensures |r.1| == |calls|
  {
    if calls == [] then (map[], []) else
    var (m, answers) := Run(s, calls[..|calls| - 1]);
    var c := calls[|calls| - 1];
    var (m', a) := Consume(s, m, c.key, c.now);
    (m', answers + [a])
  }

  /** The ideal limiter on the same calls, not told about those turned away for capacity. */
  function IdealRun(s: Settings, calls: seq<Call>): (r: (Buckets, seq<Option<Answer>>))
    requires ValidSettings(s)
    ensures |r.1| == |calls|
  {
    if calls == [] then (map[], []) else
    var n := |calls| - 1;
    var (m, answers) := IdealRun(s, calls[..n]);
    if Run(s, calls).1[n].Capacity? then (m, answers + [None]) else
    var (m', a) := Ideal(s, m, calls[n].key, calls[n].now);
    (m', answers + [Some(a)])
  }

  ghost predicate Agree(s: Settings, calls: seq<Call>)
    requires ValidSettings(s)
  {
    forall i :: 0 <= i < |calls| && !Run(s, calls).1[i].Capacity? ==> IdealRun(s, calls).1[i] == Some(Run(s, calls).1[i])
  }

  // ---------- forgetting idle keys changes no answer ----------

  /** How long a forgotten key has at least been idle when it gets a fresh bucket. With room for one key
      only, the key that displaced it must go idle as well first. */
  function Absence(s: Settings): int { if s.maxKeys == 1 then 2 * s.idleTtlMs else s.idleTtlMs }

  predicate LongEnough(s: Settings) { Full(s) <= Absence(s) * s.refillPerMinute }

  predicate BucketOk(s: Settings, b: Bucket, now: int) {
    0 <= b.tokens <= Full(s) && b.lastSeenAt == b.updatedAt <= now
  }

  /** The actual buckets are those of the ideal limiter except for keys that were idle when dropped. */
  ghost predicate Related(s: Settings, actual: Buckets, ideal: Buckets, now: int) {
    && |actual| <= s.maxKeys
    && (forall k :: k in ideal ==> BucketOk(s, ideal[k], now))
    && (forall k :: k in actual ==> k in ideal && actual[k] == ideal[k])
    && (forall k :: k in ideal && k !in actual ==> ideal[k].updatedAt + s.idleTtlMs <= now)
    && (s.maxKeys == 1 ==> forall k, b :: k in ideal && k !in actual && b in actual ==>
          ideal[k].updatedAt + s.idleTtlMs <= actual[b].lastSeenAt)
    && (actual == map[] ==> ideal == map[])
  }

  lemma {:induction false} SpendOk(s: Settings, b: Bucket, now: int)
    requires ValidSettings(s) && BucketOk(s, b, now)
    ensures BucketOk(s, Spend(s, b, now).0, now)
  {}

  lemma {:induction false} FullAgain(s: Settings, b: Bucket, now: int)
    requires ValidSettings(s) && LongEnough(s) && BucketOk(s, b, now) && b.updatedAt + Absence(s) <= now
    ensures Spend(s, b, now) == Spend(s, Fresh(s, now), now)
  {
    GainedIsProduct(s, now - b.updatedAt);
    MulMonotone(Absence(s), now - b.updatedAt, s.refillPerMinute);
  }

  lemma {:induction false} SmallerMap(m: Buckets, n: Buckets)
    requires n.Keys <= m.Keys
    ensures |n| <= |m|
    ensures n.Keys < m.Keys ==> |n| < |m|
  {
    if n.Keys < m.Keys { assert |m.Keys - n.Keys| > 0; }
    assert m.Keys == n.Keys + (m.Keys - n.Keys);
  }

  /** Eviction keeps the relation; when one slot is the limit and the call gets it, the slot was empty. */
  lemma {:induction false} ConsumeRelated(s: Settings, actual: Buckets, ideal: Buckets, before: int, key: Key, now: int)
    requires ValidSettings(s) && Related(s, actual, ideal, before) && before <= now
    ensures var (actual', answer) := Consume(s, actual, key, now);
      if answer.Capacity? then Related(s, actual', ideal, now)
      else (LongEnough(s) ==> answer == Ideal(s, ideal, key, now).1 && Related(s, actual', Ideal(s, ideal, key, now).0, now))
  {
    if key in actual {
      SpendOk(s, ideal[key], now);
      assert |actual[key := Spend(s, actual[key], now).0]| == |actual|
        by { assert actual[key := Spend(s, actual[key], now).0].Keys == actual.Keys; }
    } else {
      var kept := Evicted(s, actual, now);
      SmallerMap(actual, kept);
      if |kept| >= s.maxKeys {
        CapacityRelated(s, actual, ideal, before, now);
      } else if LongEnough(s) {
        ReentryRelated(s, actual, ideal, before, key, now);
      }
    }
  }

  lemma {:induction false} CapacityRelated(s: Settings, actual: Buckets, ideal: Buckets, before: int, now: int)
    requires ValidSettings(s) && Related(s, actual, ideal, before) && before <= now
    requires |Evicted(s, actual, now)| >= s.maxKeys
    ensures Related(s, Evicted(s, actual, now), ideal, now)
  {
    var kept := Evicted(s, actual, now);
    SmallerMap(actual, kept);
    assert kept.Keys == actual.Keys;
    assert kept == actual;
  }

  lemma {:induction false} ReentryRelated(s: Settings, actual: Buckets, ideal: Buckets, before: int, key: Key, now: int)
    requires ValidSettings(s) && LongEnough(s) && Related(s, actual, ideal, before) && before <= now
    requires key !in actual && |Evicted(s, actual, now)| < s.maxKeys
    ensures var b := Spend(s, Fresh(s, now), now).0;
      Related(s, Evicted(s, actual, now)[key := b], Ideal(s, ideal, key, now).0, now)
    ensures Ideal(s, ideal, key, now).1 == Spend(s, Fresh(s, now), now).1
  {
    var kept := Evicted(s, actual, now);
    var b := Spend(s, Fresh(s, now), now).0;
    SpendOk(s, Fresh(s, now), now);
    assert kept[key := b].Keys == kept.Keys + {key};
    assert s.maxKeys == 1 ==> kept == map[];
    if key in ideal {
      AbsentLongEnough(s, actual, ideal, before, key, now);
      FullAgain(s, ideal[key], now);
    }
  }

  lemma {:induction false} AbsentLongEnough(s: Settings, actual: Buckets, ideal: Buckets, before: int, key: Key, now: int)
    requires ValidSettings(s) && Related(s, actual, ideal, before) && before <= now
    requires key in ideal && key !in actual && |Evicted(s, actual, now)| < s.maxKeys
    ensures ideal[key].updatedAt + Absence(s) <= now
  {
    if s.maxKeys == 1 {
      assert Evicted(s, actual, now) == map[];
      var other :| other in actual;
      assert other !in Evicted(s, actual, now);
    }
  }

  lemma {:induction false} RunRelated(s: Settings, calls: seq<Call>, now: int)
    requires ValidSettings(s) && LongEnough(s) && Ordered(calls)
    requires calls == [] || calls[|calls| - 1].now <= now
    ensures Related(s, Run(s, calls).0, IdealRun(s, calls).0, now)
    ensures Agree(s, calls)
  {
    if calls != [] {
      var n := |calls| - 1;
      var c := calls[n];
      RunRelated(s, calls[..n], c.now);
      ConsumeRelated(s, Run(s, calls[..n]).0, IdealRun(s, calls[..n]).0, c.now, c.key, c.now);
      forall i | 0 <= i < n && !Run(s, calls).1[i].Capacity?
        ensures IdealRun(s, calls).1[i] == Some(Run(s, calls).1[i])
      {
        assert Run(s, calls).1[i] == Run(s, calls[..n]).1[i];
        assert IdealRun(s, calls).1[i] == IdealRun(s, calls[..n]).1[i];
      }
      RelatedLater(s, Run(s, calls).0, IdealRun(s, calls).0, c.now, now);
    }
  }

  lemma {:induction false} RelatedLater(s: Settings, actual: Buckets, ideal: Buckets, now: int, later: int)
    requires Related(s, actual, ideal, now) && now <= later
    ensures Related(s, actual, ideal, later)
  {}

  // ---------- how many calls are admitted ----------

  /** Admissions of `key` among the calls from position `from` on. */
  function Admitted(s: Settings, calls: seq<Call>, key: Key, from: nat): (n: nat)
    requires ValidSettings(s)
  {
    if |calls| <= from then 0 else
    var n := |calls| - 1;
    Admitted(s, calls[..n], key, from) + if calls[n].key == key && Run(s, calls).1[n] == Allowed then 1 else 0
  }

  /** What a bucket still holds and the `n` tokens taken since `start` came from one full bucket and the refill. */
  ghost predicate Balanced(s: Settings, b: Bucket, n: int, start: int) {
    start <= b.updatedAt && TOKEN * n + b.tokens <= Full(s) + Gained(s, b.updatedAt - start)
  }

  lemma {:induction false} SpendBalanced(s: Settings, b: Bucket, now: int, n: int, start: int)
    requires ValidSettings(s) && BucketOk(s, b, now) && start <= now && (n == 0 || Balanced(s, b, n, start))
    ensures var (b', a) := Spend(s, b, now); (n == 0 && a != Allowed) || Balanced(s, b', if a == Allowed then n + 1 else n, start)
  {
    var r := s.refillPerMinute;
    GainedIsProduct(s, now - b.updatedAt);
    GainedIsProduct(s, now - start);
    MulMonotone(0, now - start, r);
    if n != 0 {
      GainedIsProduct(s, b.updatedAt - start);
      assert (b.updatedAt - start) * r + (now - b.updatedAt) * r == (now - start) * r;
    }
  }

  ghost predicate BalancedKey(s: Settings, m: Buckets, key: Key, n: int, start: int) {
    n == 0 || (key in m && Balanced(s, m[key], n, start))
  }

  lemma {:induction false} BalancedStep(s: Settings, m: Buckets, c: Call, key: Key, n: nat, start: int)
    requires ValidSettings(s) && start <= c.now && (key in m ==> BucketOk(s, m[key], c.now)) && BalancedKey(s, m, key, n, start)
    ensures var (m', a) := Ideal(s, m, c.key, c.now);
      BalancedKey(s, m', key, if c.key == key && a == Allowed then n + 1 else n, start)
  {
    if c.key == key { SpendBalanced(s, if key in m then m[key] else Fresh(s, c.now), c.now, n, start); }
  }

  /** The ideal buckets and the count of `key` after a call that was turned away for capacity, or served. */
  ghost predicate Counts(s: Settings, m: Buckets, m': Buckets, c: Call, key: Key, n: nat, n': nat)
    requires ValidSettings(s)
  {
    var (r, a) := Ideal(s, m, c.key, c.now);
    (m' == m && n' == n) || (m' == r && n' == if c.key == key && a == Allowed then n + 1 else n)
  }

  ghost predicate KeyOk(s: Settings, m: Buckets, key: Key, now: int) { key in m ==> BucketOk(s, m[key], now) }

  /** The last step of both runs when they agree. */
  lemma {:induction false} LastStep(s: Settings, calls: seq<Call>, key: Key, from: nat)
    requires ValidSettings(s) && Agree(s, calls) && from < |calls|
    ensures var n := |calls| - 1;
      Counts(s, IdealRun(s, calls[..n]).0, IdealRun(s, calls).0, calls[n], key,
        Admitted(s, calls[..n], key, from), Admitted(s, calls, key, from))
  {
    var n := |calls| - 1;
    assert Run(s, calls).1[n].Capacity? || IdealRun(s, calls).1[n] == Some(Run(s, calls).1[n]);
  }

  lemma {:induction false} BucketBefore(s: Settings, calls: seq<Call>, key: Key)
    requires ValidSettings(s) && Ordered(calls) && calls != []
    ensures KeyOk(s, IdealRun(s, calls[..|calls| - 1]).0, key, calls[|calls| - 1].now)
  {
    var n := |calls| - 1;
    if n > 0 {
      IdealBucketsOk(s, calls[..n]);
      assert calls[..n][n - 1].now <= calls[n].now;
    }
  }

  lemma {:induction false} BalancedChange(s: Settings, m: Buckets, m': Buckets, c: Call, key: Key, n: nat, n': nat, start: int)
    requires ValidSettings(s) && start <= c.now && KeyOk(s, m, key, c.now) && BalancedKey(s, m, key, n, start)
    requires Counts(s, m, m', c, key, n, n')
    ensures BalancedKey(s, m', key, n', start)
  {
    BalancedStep(s, m, c, key, n, start);
  }

  lemma {:induction false} NoneBefore(s: Settings, calls: seq<Call>, key: Key, from: nat)
    requires ValidSettings(s) && |calls| <= from
    ensures Admitted(s, calls, key, from) == 0
  {}

  lemma {:induction false} SpentFromRefill(s: Settings, calls: seq<Call>, key: Key, from: nat)
    requires ValidSettings(s) && Ordered(calls) && Agree(s, calls) && from < |calls|
    ensures BalancedKey(s, IdealRun(s, calls).0, key, Admitted(s, calls, key, from), calls[from].now)
  {
    var n := |calls| - 1;
    if from < n {
      AgreePrefix(s, calls);
      SpentFromRefill(s, calls[..n], key, from);
    } else {
      NoneBefore(s, calls[..n], key, from);
    }
    BucketBefore(s, calls, key);
    LastStep(s, calls, key, from);
    BalancedChange(s, IdealRun(s, calls[..n]).0, IdealRun(s, calls).0, calls[n], key,
      Admitted(s, calls[..n], key, from), Admitted(s, calls, key, from), calls[from].now);
  }

  lemma {:induction false} AgreePrefix(s: Settings, calls: seq<Call>)
    requires ValidSettings(s) && calls != [] && Agree(s, calls)
    ensures Agree(s, calls[..|calls| - 1])
  {
    var n := |calls| - 1;
    forall i | 0 <= i < n && !Run(s, calls[..n]).1[i].Capacity?
      ensures IdealRun(s, calls[..n]).1[i] == Some(Run(s, calls[..n]).1[i])
    {
      assert Run(s, calls).1[i] == Run(s, calls[..n]).1[i];
      assert IdealRun(s, calls).1[i] == IdealRun(s, calls[..n]).1[i];
    }
  }

  lemma {:induction false} IdealBucketsOk(s: Settings, calls: seq<Call>)
    requires ValidSettings(s) && Ordered(calls) && calls != []
    ensures forall k :: k in IdealRun(s, calls).0 ==> BucketOk(s, IdealRun(s, calls).0[k], calls[|calls| - 1].now)
  {
    var n := |calls| - 1;
    if n > 0 { IdealBucketsOk(s, calls[..n]); }
    assert n > 0 ==> calls[n - 1].now <= calls[n].now;
  }

  /** From position `from` on, a key is admitted at most a full burst and the refill of the span. */
  ghost predicate WithinRate(s: Settings, calls: seq<Call>, key: Key, from: nat)
    requires ValidSettings(s) && from < |calls|
  {
    TOKEN * Admitted(s, calls, key, from) <= s.burst * TOKEN + (calls[|calls| - 1].now - calls[from].now) * s.refillPerMinute
  }

  lemma {:induction false} AdmissionBound(s: Settings, calls: seq<Call>, key: Key, from: nat)
    requires ValidSettings(s) && Ordered(calls) && LongEnough(s) && from < |calls|
    ensures WithinRate(s, calls, key, from)
  {
    RunRelated(s, calls, calls[|calls| - 1].now);
    SpanBound(s, calls, key, from);
  }

  lemma {:induction false} SpanBound(s: Settings, calls: seq<Call>, key: Key, from: nat)
    requires ValidSettings(s) && Ordered(calls) && Agree(s, calls) && from < |calls|
    ensures WithinRate(s, calls, key, from)
  {
    SpentFromRefill(s, calls, key, from);
    IdealBucketsOk(s, calls);
    var last, start := calls[|calls| - 1].now, calls[from].now;
    MulMonotone(0, last - start, s.refillPerMinute);
    if Admitted(s, calls, key, from) > 0 {
      var elapsed := IdealRun(s, calls).0[key].updatedAt - start;
      GainedIsProduct(s, elapsed);
      MulMonotone(elapsed, last - start, s.refillPerMinute);
    }
  }

  /** The size limit needs neither an ordered clock nor a long idle time. */
  lemma {:induction false} SizeBounded(s: Settings, calls: seq<Call>)
    requires ValidSettings(s)
    ensures |Run(s, calls).0| <= s.maxKeys
  {
    if calls != [] {
      var n := |calls| - 1;
      SizeBounded(s, calls[..n]);
      var m := Run(s, calls[..n]).0;
      var kept := Evicted(s, m, calls[n].now);
      SmallerMap(m, kept);
      var m' := Run(s, calls).0;
      assert calls[n].key in m ==> m'.Keys == m.Keys;
      assert calls[n].key !in m ==> m'.Keys == kept.Keys || m'.Keys == kept.Keys + {calls[n].key};
    }
  }

  // ---------- the idle time is exactly what is needed ----------

  function Repeat(c: Call, n: nat): (r: seq<Call>)
    ensures |r| == n && forall i :: 0 <= i < n ==> r[i] == c
  {
    if n == 0 then [] else Repeat(c, n - 1) + [c]
  }

  lemma {:induction false} RunPrefix(s: Settings, calls: seq<Call>, more: seq<Call>)
    requires ValidSettings(s)
    ensures Run(s, calls + more).1[..|calls|] == Run(s, calls).1
  {
    if more == [] {
      assert calls + more == calls;
    } else {
      var n := |more| - 1;
      assert (calls + more)[..|calls + more| - 1] == calls + more[..n];
      RunPrefix(s, calls, more[..n]);
    }
  }

  lemma {:induction false} OneMore(s: Settings, calls: seq<Call>, c: Call, key: Key, from: nat)
    requires ValidSettings(s) && from <= |calls|
    ensures var (m, a) := Consume(s, Run(s, calls).0, c.key, c.now);
      && Run(s, calls + [c]) == (m, Run(s, calls).1 + [a])
      && Admitted(s, calls + [c], key, from) == Admitted(s, calls, key, from) + if c.key == key && a == Allowed then 1 else 0
  {
    assert (calls + [c])[..|calls|] == calls;
  }

  /** The state of a key after `n` calls of a burst at `now`. */
  function Spent(s: Settings, n: nat, now: int): Bucket { Bucket(Full(s) - n * TOKEN, now, now) }

  lemma {:induction false} FirstOfBurst(s: Settings, m: Buckets, c: Call)
    requires ValidSettings(s) && c.key !in m && |Evicted(s, m, c.now)| < s.maxKeys
    ensures Consume(s, m, c.key, c.now) == (Evicted(s, m, c.now)[c.key := Spent(s, 1, c.now)], Allowed)
  {}

  lemma {:induction false} NextOfBurst(s: Settings, m: Buckets, c: Call, n: nat)
    requires ValidSettings(s) && 1 <= n < s.burst
    ensures Consume(s, m[c.key := Spent(s, n, c.now)], c.key, c.now) == (m[c.key := Spent(s, n + 1, c.now)], Allowed)
  {
    assert (n + 1) * TOKEN <= s.burst * TOKEN;
    var m' := m[c.key := Spent(s, n, c.now)];
    assert m'[c.key := Spent(s, n + 1, c.now)] == m[c.key := Spent(s, n + 1, c.now)];
  }

  lemma {:induction false} BurstStep(s: Settings, calls: seq<Call>, c: Call, kept: Buckets, n: nat, from: nat)
    requires ValidSettings(s) && 1 <= n < s.burst && from <= |calls|
    requires Run(s, calls).0 == kept[c.key := Spent(s, n, c.now)]
    ensures Run(s, calls + [c]).0 == kept[c.key := Spent(s, n + 1, c.now)]
    ensures Admitted(s, calls + [c], c.key, from) == Admitted(s, calls, c.key, from) + 1
  {
    OneMore(s, calls, c, c.key, from);
    NextOfBurst(s, kept, c, n);
  }

  lemma {:induction false} BurstStart(s: Settings, calls: seq<Call>, c: Call, from: nat)
    requires ValidSettings(s) && from <= |calls|
    requires var m := Run(s, calls).0; c.key !in m && |Evicted(s, m, c.now)| < s.maxKeys
    ensures Run(s, calls + [c]).0 == Evicted(s, Run(s, calls).0, c.now)[c.key := Spent(s, 1, c.now)]
    ensures Admitted(s, calls + [c], c.key, from) == Admitted(s, calls, c.key, from) + 1
  {
    OneMore(s, calls, c, c.key, from);
    FirstOfBurst(s, Run(s, calls).0, c);
  }

  lemma {:induction false} RepeatMore(calls: seq<Call>, c: Call, n: nat)
    ensures calls + Repeat(c, n + 1) == calls + Repeat(c, n) + [c]
  {}

  lemma {:induction false} BurstRest(s: Settings, calls: seq<Call>, c: Call, n: nat, from: nat, kept: Buckets)
    requires ValidSettings(s) && n < s.burst && from <= |calls| && Run(s, calls).0 == kept[c.key := Spent(s, 1, c.now)]
    ensures Run(s, calls + Repeat(c, n)).0 == kept[c.key := Spent(s, n + 1, c.now)]
    ensures Admitted(s, calls + Repeat(c, n), c.key, from) == Admitted(s, calls, c.key, from) + n
  {
    if n == 0 {
      assert calls + Repeat(c, n) == calls;
    } else {
      RepeatMore(calls, c, n - 1);
      BurstRest(s, calls, c, n - 1, from, kept);
      BurstStep(s, calls + Repeat(c, n - 1), c, kept, n, from);
    }
  }

  lemma {:induction false} RepeatFirst(c: Call, n: nat)
    ensures Repeat(c, n + 1) == [c] + Repeat(c, n)
  {}

  /** A key without a bucket, and room for it: a whole burst at one instant is admitted. */
  lemma {:induction false} BurstAdmitted(s: Settings, calls: seq<Call>, c: Call, from: nat, kept: Buckets)
    requires ValidSettings(s) && from <= |calls| && kept == Evicted(s, Run(s, calls).0, c.now)
    requires c.key !in Run(s, calls).0 && |kept| < s.maxKeys
    ensures Run(s, calls + Repeat(c, s.burst)).0 == kept[c.key := Spent(s, s.burst, c.now)]
    ensures Admitted(s, calls + Repeat(c, s.burst), c.key, from) == Admitted(s, calls, c.key, from) + s.burst
  {
    var n := s.burst - 1;
    BurstStart(s, calls, c, from);
    BurstRest(s, calls + [c], c, n, from, kept);
    RepeatFirst(c, n);
    assert calls + Repeat(c, s.burst) == calls + [c] + Repeat(c, n);
  }

  /** A burst of one key, another key's call that evicts it, and the burst again. */
  function Cycle(s: Settings): (calls: seq<Call>)
    requires ValidSettings(s)
  {
    Repeat(Call("A", 0), s.burst) + [Call("B", s.idleTtlMs)] + Repeat(Call("A", Absence(s)), s.burst)
  }

  lemma {:induction false} OpeningBurst(s: Settings, a: Call)
    requires ValidSettings(s)
    ensures Run(s, Repeat(a, s.burst)).0 == map[a.key := Spent(s, s.burst, a.now)]
    ensures Admitted(s, Repeat(a, s.burst), a.key, 0) == s.burst
  {
    var none: seq<Call> := [];
    assert none + Repeat(a, s.burst) == Repeat(a, s.burst);
    assert Evicted(s, map[], a.now) == map[];
    BurstAdmitted(s, none, a, 0, map[]);
  }

  /** Until the second burst: the first key is forgotten. */
  lemma {:induction false} BurstForgotten(s: Settings, a: Call, b: Call)
    requires ValidSettings(s) && a.key != b.key && a.now + s.idleTtlMs <= b.now
    ensures var calls := Repeat(a, s.burst) + [b];
      Admitted(s, calls, a.key, 0) == s.burst && Run(s, calls).0 == map[b.key := Spent(s, 1, b.now)]
  {
    OpeningBurst(s, a);
    var m := map[a.key := Spent(s, s.burst, a.now)];
    assert Evicted(s, m, b.now) == map[];
    OneMore(s, Repeat(a, s.burst), b, a.key, 0);
    FirstOfBurst(s, m, b);
  }

  lemma {:induction false} CycleAdmitted(s: Settings)
    requires ValidSettings(s)
    ensures Admitted(s, Cycle(s), "A", 0) == 2 * s.burst
  {
    var b := Call("B", s.idleTtlMs);
    BurstForgotten(s, Call("A", 0), b);
    var calls := Repeat(Call("A", 0), s.burst) + [b];
    var m := map[b.key := Spent(s, 1, b.now)];
    var kept := Evicted(s, m, Absence(s));
    assert |m| == |m.Keys| == |{b.key}|;
    SmallerMap(m, kept);
    assert s.maxKeys == 1 ==> kept == map[];
    BurstAdmitted(s, calls, Call("A", Absence(s)), 0, kept);
  }

  lemma {:induction false} CycleOrdered(s: Settings)
    requires ValidSettings(s)
    ensures Ordered(Cycle(s)) && |Cycle(s)| == 2 * s.burst + 1
    ensures Cycle(s)[0].now == 0 && Cycle(s)[2 * s.burst].now == Absence(s)
  {}

  /** Forgetting idle keys changes no answer of any ordered run exactly when a bucket refills while its key is absent. */
  lemma {:induction false} ForgettingSafeIff(s: Settings)
    requires ValidSettings(s)
    ensures LongEnough(s) <==> forall calls: seq<Call> :: Ordered(calls) ==> Agree(s, calls)
  {
    if LongEnough(s) {
      forall calls: seq<Call> | Ordered(calls) ensures Agree(s, calls) {
        RunRelated(s, calls, if calls == [] then 0 else calls[|calls| - 1].now);
      }
    } else {
      CycleAdmitted(s);
      CycleOrdered(s);
      if Agree(s, Cycle(s)) { SpanBound(s, Cycle(s), "A", 0); }
    }
  }

  /** And exactly then no key of any ordered run is admitted more than its rate in any span. */
  lemma {:induction false} AdmissionBoundIff(s: Settings)
    requires ValidSettings(s)
    ensures LongEnough(s) <==>
      forall calls: seq<Call>, key, from: nat :: Ordered(calls) && from < |calls| ==> WithinRate(s, calls, key, from)
  {
    if LongEnough(s) {
      forall calls: seq<Call>, key, from: nat | Ordered(calls) && from < |calls| ensures WithinRate(s, calls, key, from) {
        AdmissionBound(s, calls, key, from);
      }
    } else {
      CycleAdmitted(s);
      CycleOrdered(s);
      assert !WithinRate(s, Cycle(s), "A", 0);
    }
  }

  // ---------- waiting as told ----------

  /** The bucket holds a token from `at` on, if nothing is taken from it. */
  ghost predicate ReadyBucket(s: Settings, b: Bucket, at: int) {
    b.tokens + (at - b.updatedAt) * s.refillPerMinute >= TOKEN
  }

  ghost predicate ReadyBy(s: Settings, m: Buckets, key: Key, at: int) { key in m ==> ReadyBucket(s, m[key], at) }

  lemma {:induction false} RefusalSetsReady(s: Settings, b: Bucket, now: int)
    requires ValidSettings(s) && Spend(s, b, now).1.RateLimited?
    ensures var (b', a) := Spend(s, b, now); ReadyBucket(s, b', now + a.retryAfterSeconds * 1000)
  {
    var d := s.refillPerMinute * 1000;
    var need := TOKEN - Refilled(s, b, now);
    var wait := Max(1, CeilDiv(need, d));
    SecondsForIsCeiling(s, need);
    CeilBounds(need, d);
    MulMonotone(CeilDiv(need, d), wait, d);
    assert wait * d == wait * 1000 * s.refillPerMinute;
  }

  lemma {:induction false} ReadySpend(s: Settings, b: Bucket, at: int, now: int)
    requires ValidSettings(s) && ReadyBucket(s, b, at) && b.updatedAt <= now
    ensures at <= now ==> Spend(s, b, now).1 == Allowed
    ensures Spend(s, b, now).1 != Allowed ==> ReadyBucket(s, Spend(s, b, now).0, at)
  {
    var r := s.refillPerMinute;
    GainedIsProduct(s, now - b.updatedAt);
    assert (at - b.updatedAt) * r == (at - now) * r + (now - b.updatedAt) * r;
    if at <= now { MulMonotone(at - now, 0, r); } else { MulMonotone(0, at - now, r); }
  }

  lemma {:induction false} ReadyNotRefused(s: Settings, m: Buckets, key: Key, at: int, now: int)
    requires ValidSettings(s) && ReadyBy(s, m, key, at) && at <= now && (key in m ==> m[key].updatedAt <= now)
    ensures !Consume(s, m, key, now).1.RateLimited?
  {
    if key in m { ReadySpend(s, m[key], at, now); }
  }

  lemma {:induction false} ReadyKept(s: Settings, m: Buckets, key: Key, at: int, c: Call)
    requires ValidSettings(s) && ReadyBy(s, m, key, at) && (key in m ==> m[key].updatedAt <= c.now)
    requires c.key == key ==> Consume(s, m, key, c.now).1 != Allowed
    ensures ReadyBy(s, Consume(s, m, c.key, c.now).0, key, at)
  {
    if c.key == key && key in m { ReadySpend(s, m[key], at, c.now); }
  }

  lemma {:induction false} UpdatedBy(s: Settings, calls: seq<Call>, key: Key, now: int)
    requires ValidSettings(s) && Ordered(calls) && (calls != [] ==> calls[|calls| - 1].now <= now)
    ensures key in Run(s, calls).0 ==> Run(s, calls).0[key].updatedAt <= now
  {
    if calls != [] {
      var n := |calls| - 1;
      UpdatedBy(s, calls[..n], key, now);
    }
  }

  lemma {:induction false} ReadyStart(s: Settings, calls: seq<Call>)
    requires ValidSettings(s) && calls != [] && Run(s, calls).1[|calls| - 1].RateLimited?
    ensures var c := calls[|calls| - 1];
      ReadyBy(s, Run(s, calls).0, c.key, c.now + Run(s, calls).1[|calls| - 1].retryAfterSeconds * 1000)
  {
    var m := Run(s, calls[..|calls| - 1]).0;
    var c := calls[|calls| - 1];
    RefusalSetsReady(s, if c.key in m then m[c.key] else Fresh(s, c.now), c.now);
  }

  lemma {:induction false} ReadyAfter(s: Settings, calls: seq<Call>, more: seq<Call>, key: Key, at: int)
    requires ValidSettings(s) && Ordered(calls + more) && calls != []
    requires ReadyBy(s, Run(s, calls).0, key, at)
    requires forall i :: 0 <= i < |more| && more[i].key == key ==> Run(s, calls + more).1[|calls| + i] != Allowed
    ensures ReadyBy(s, Run(s, calls + more).0, key, at)
  {
    if more == [] {
      assert calls + more == calls;
    } else {
      var n := |more| - 1;
      var before, c := calls + more[..n], more[n];
      assert calls + more == before + [c];
      OneMore(s, before, c, key, 0);
      forall i | 0 <= i < n && more[i].key == key ensures Run(s, before).1[|calls| + i] != Allowed {
        assert Run(s, calls + more).1[|calls| + i] == Run(s, before).1[|calls| + i];
      }
      assert Run(s, calls + more).1[|calls| + n] == Consume(s, Run(s, before).0, c.key, c.now).1;
      assert (calls + more)[|before| - 1].now <= (calls + more)[|before|].now;
      assert forall i :: 0 <= i < |before| ==> before[i] == (calls + more)[i];
      ReadyAfter(s, calls, more[..n], key, at);
      UpdatedBy(s, before, key, c.now);
      ReadyKept(s, Run(s, before).0, key, at, c);
    }
  }

  /** A refused key that is admitted nothing else meanwhile and comes back after `retryAfterSeconds` is not refused
      for its rate again, whatever the other keys did and whatever was evicted. */
  lemma {:induction false} RetryAfterSuffices(s: Settings, calls: seq<Call>, more: seq<Call>, again: Call)
    requires ValidSettings(s) && Ordered(calls + more + [again]) && calls != []
    requires Run(s, calls).1[|calls| - 1].RateLimited? && calls[|calls| - 1].key == again.key
    requires calls[|calls| - 1].now + Run(s, calls).1[|calls| - 1].retryAfterSeconds * 1000 <= again.now
    requires forall i :: 0 <= i < |more| && more[i].key == again.key ==> Run(s, calls + more).1[|calls| + i] != Allowed
    ensures !Run(s, calls + more + [again]).1[|calls + more|].RateLimited?
  {
    var at := calls[|calls| - 1].now + Run(s, calls).1[|calls| - 1].retryAfterSeconds * 1000;
    ReadyStart(s, calls);
    RetryAt(s, calls, more, again, at);
  }

  lemma {:induction false} RetryAt(s: Settings, calls: seq<Call>, more: seq<Call>, again: Call, at: int)
    requires ValidSettings(s) && Ordered(calls + more + [again]) && calls != [] && at <= again.now
    requires ReadyBy(s, Run(s, calls).0, again.key, at)
    requires forall i :: 0 <= i < |more| && more[i].key == again.key ==> Run(s, calls + more).1[|calls| + i] != Allowed
    ensures !Run(s, calls + more + [again]).1[|calls + more|].RateLimited?
  {
    var before := calls + more;
    var all := before + [again];
    assert forall i :: 0 <= i < |before| ==> before[i] == all[i];
    assert before[|before| - 1].now <= all[|before|].now;
    OneMore(s, before, again, again.key, 0);
    ReadyAfter(s, calls, more, again.key, at);
    UpdatedBy(s, before, again.key, again.now);
    ReadyNotRefused(s, Run(s, before).0, again.key, at, again.now);
  }

  /** And a whole second less is not enough. */
  lemma {:induction false} RetryAfterLeast(s: Settings, b: Bucket, now: int)
    requires ValidSettings(s) && Spend(s, b, now).1.RateLimited? && Spend(s, b, now).1.retryAfterSeconds > 1
    ensures var (b', a) := Spend(s, b, now); Spend(s, b', now + (a.retryAfterSeconds - 1) * 1000).1.RateLimited?
  {
    var d := s.refillPerMinute * 1000;
    var need := TOKEN - Refilled(s, b, now);
    var wait := CeilDiv(need, d);
    SecondsForIsCeiling(s, need);
    CeilBounds(need, d);
    GainedIsProduct(s, (wait - 1) * 1000);
    assert (wait - 1) * d < need;
    assert (wait - 1) * 1000 * s.refillPerMinute == (wait - 1) * d;
  }
}
