/** What a refusal by the limits of the verification store means, and what waiting as told is good for. */
module RateLimitWaits {
  import opened VerificationRateLimits

  // ---------- what a refusal means ----------

  /** No attempt of the key between the `i`-th and the `j`-th. */
  predicate Quiet(attempts: seq<Attempt>, key: Key, i: nat, j: nat) {
    i < j < |attempts| && forall m :: i < m < j ==> attempts[m].key != key
  }

  lemma {:induction false} QuietRow(t: Table, attempts: seq<Attempt>, i: nat, j: nat)
    requires i < |attempts| && Quiet(attempts, attempts[i].key, i, j)
    ensures var full := AfterAll(t, attempts[..j]); attempts[i].key in full && full[attempts[i].key] == RowAt(t, attempts, i)
  {
    var n := j - 1;
    assert attempts[..j][..n] == attempts[..n];
    if n > i { QuietRow(t, attempts, i, n); }
  }

  lemma {:induction false} WaitIsLeast(row: Row, now: int)
    requires now < row.windowStart + HOUR
    ensures var w := RetryAfter(row, now);
      w >= 1 && row.windowStart + HOUR <= now + w * SECOND && now + (w - 1) * SECOND < row.windowStart + HOUR
  {
    var d := row.windowStart + HOUR - now;
    assert -CeilSeconds(d) == (-d) / SECOND;
    assert (-d) == SECOND * ((-d) / SECOND) + (-d) % SECOND;
  }

  /** A refused attempt is told how long to wait: the next attempt of its key is within the limit when it comes that much
      later, and is refused again when it comes a second too early. */
  lemma {:induction false} WaitDecides(t: Table, attempts: seq<Attempt>, i: nat, j: nat)
    requires i < j < |attempts| && attempts[i].key == attempts[j].key && Quiet(attempts, attempts[i].key, i, j)
    requires !WithinAt(t, attempts, i)
    ensures var w := Wait(t, attempts, i);
      && w >= 1
      && (attempts[i].now + w * SECOND <= attempts[j].now ==> WithinAt(t, attempts, j))
      && (attempts[j].now <= attempts[i].now + (w - 1) * SECOND ==> !WithinAt(t, attempts, j))
  {
    var row := RowAt(t, attempts, i);
    QuietRow(t, attempts, i, j);
    assert attempts[i].now < row.windowStart + HOUR;
    WaitIsLeast(row, attempts[i].now);
  }

  /** How often the key was tried from the instant on. */
  function TriedSince(attempts: seq<Attempt>, key: Key, from: int): nat {
    if attempts == [] then 0 else
    var n := |attempts| - 1;
    TriedSince(attempts[..n], key, from) + if attempts[n].key == key && from <= attempts[n].now then 1 else 0
  }

  lemma {:induction false} CountIsTried(attempts: seq<Attempt>, key: Key)
    requires Ordered(attempts)
    ensures var t := AfterAll(map[], attempts);
      key in t ==> t[key].count <= TriedSince(attempts, key, t[key].windowStart) && t[key].windowStart <= t[key].updatedAt
    ensures attempts != [] ==> Sane(AfterAll(map[], attempts), attempts[|attempts| - 1].now)
  {
    if attempts != [] {
      var n := |attempts| - 1;
      CountIsTried(attempts[..n], key);
      assert n > 0 ==> attempts[n - 1].now <= attempts[n].now;
    }
  }

  lemma {:induction false} FewerLater(attempts: seq<Attempt>, key: Key, from: int, later: int)
    requires from <= later
    ensures TriedSince(attempts, key, later) <= TriedSince(attempts, key, from)
  {
    if attempts != [] { FewerLater(attempts[..|attempts| - 1], key, from, later); }
  }

  /** An attempt is only refused when its key was tried at least as often as its limit in the hour before it. */
  lemma {:induction false} RefusedMeansBusy(attempts: seq<Attempt>, i: nat)
    requires Ordered(attempts) && i < |attempts| && !WithinAt(map[], attempts, i)
    ensures TriedSince(attempts[..i], attempts[i].key, attempts[i].now - HOUR + 1) >= MaxAttempts(attempts[i].key.scope)
  {
    var key := attempts[i].key;
    CountIsTried(attempts[..i], key);
    var row := AfterAll(map[], attempts[..i])[key];
    FewerLater(attempts[..i], key, attempts[i].now - HOUR + 1, row.windowStart);
  }

  /** An attempt is within its limit whenever its key was tried less often than that in the hour before it. */
  lemma {:induction false} CalmMeansWithin(attempts: seq<Attempt>, i: nat)
    requires Ordered(attempts) && i < |attempts|
    requires TriedSince(attempts[..i], attempts[i].key, attempts[i].now - HOUR + 1) <
      (match attempts[i].key.scope case SendEmail => 3 case SendIp => 15 case VerifyEmail => 15 case VerifyIp => 30)
    ensures WithinAt(map[], attempts, i)
  {
    if !WithinAt(map[], attempts, i) { RefusedMeansBusy(attempts, i); }
  }

  // ---------- repeating a refused request ----------

  lemma {:induction false} AfterBoth(t: Table, a: seq<Attempt>, b: seq<Attempt>)
    ensures AfterAll(t, a + b) == AfterAll(AfterAll(t, a), b)
  {
    if b == [] {
      assert a + b == a;
    } else {
      var n := |b| - 1;
      assert (a + b)[..|a + b| - 1] == a + b[..n];
      AfterBoth(t, a, b[..n]);
    }
  }

  /** The same request again after others of other keys: the same limits, each for a key of its own. */
  predicate Repeated(limits: seq<Attempt>, between: seq<Attempt>, again: seq<Attempt>) {
    && |again| == |limits|
    && (forall k :: 0 <= k < |limits| ==> again[k].key == limits[k].key)
    && (forall k, m :: 0 <= k < m < |limits| ==> limits[k].key != limits[m].key)
    && (forall k, m :: 0 <= k < |limits| && 0 <= m < |between| ==> between[m].key != limits[k].key)
  }

  lemma {:induction false} RepeatedRow(t: Table, limits: seq<Attempt>, between: seq<Attempt>, again: seq<Attempt>, k: nat)
    requires Repeated(limits, between, again) && k < |limits|
    ensures RowAt(AfterAll(t, limits + between), again, k) == Bumped(map[again[k].key := RowAt(t, limits, k)], again[k].key, again[k].now)
  {
    var all := limits + between + again;
    var j := |limits| + |between| + k;
    assert all[k] == limits[k] && all[j] == again[k] && all[..k] == limits[..k];
    assert Quiet(all, limits[k].key, k, j);
    QuietRow(t, all, k, j);
    assert all[..j] == (limits + between) + again[..k];
    AfterBoth(t, limits + between, again[..k]);
  }

  /** A refused request that is repeated after the wait it was told, with no other attempt of its keys in between: the limits
      it had exceeded are kept. Each other limit is kept if and only if its window is over or had room for one more. */
  lemma {:induction false} RepeatedWithin(t: Table, limits: seq<Attempt>, between: seq<Attempt>, again: seq<Attempt>, w: int, k: nat)
    requires Repeated(limits, between, again) && LongestWait(t, limits, |limits|, w) && k < |limits|
    requires limits[k].now + w * SECOND <= again[k].now
    ensures var row := RowAt(t, limits, k);
      WithinAt(AfterAll(t, limits + between), again, k) <==>
        !WithinAt(t, limits, k) || row.windowStart + HOUR <= again[k].now || row.count < MaxAttempts(limits[k].key.scope)
  {
    var row := RowAt(t, limits, k);
    RepeatedRow(t, limits, between, again, k);
    if !WithinAt(t, limits, k) {
      WaitIsLeast(row, limits[k].now);
      assert Wait(t, limits, k) <= w;
      assert Wait(t, limits, k) * SECOND <= w * SECOND;
    }
  }

  /** So the told wait is not always enough: it is that of the address, and the third code for the email was the last. */
  lemma {:induction false} RepeatedAndRefused(email: Key, ip: Key)
    requires email.scope == SendEmail && ip.scope == SendIp
    ensures exists t: Table, limits: seq<Attempt>, again: seq<Attempt>, w: int ::
      && Repeated(limits, [], again) && |limits| == 2 && limits[0].key == email && limits[1].key == ip
      && LongestWait(t, limits, 2, w) && w > 0 && (forall k :: 0 <= k < 2 ==> again[k].now == limits[k].now + w * SECOND)
      && !WithinAt(AfterAll(t, limits + []), again, 0)
  {
    var t: Table := map[email := Row(HOUR - 20 * SECOND, 2, HOUR - 20 * SECOND), ip := Row(0, 15, 0)];
    var now := HOUR - 10 * SECOND;
    var limits, again := [Attempt(email, now), Attempt(ip, now)], [Attempt(email, HOUR), Attempt(ip, HOUR)];
    assert limits[..0] == [] && limits[..1] == [limits[0]] && [limits[0]][..0] == [];
    assert RowAt(t, limits, 0) == Row(HOUR - 20 * SECOND, 3, now) && RowAt(t, limits, 1) == Row(0, 16, now);
    assert Wait(t, limits, 0) == 0 && Wait(t, limits, 1) == 10;
    assert LongestWait(t, limits, 2, 10);
    RepeatedWithin(t, limits, [], again, 10, 0);
  }
}
