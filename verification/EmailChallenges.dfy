/** The challenge table of the email verification store: one transaction is one step, with every reading of
    the database clock passed in. Digests of different codes, tokens and addresses are different values. */
module EmailChallenges {
  import opened VerificationRateLimits
  import opened Options

  const TTL: int := 600 * SECOND
  const COOLDOWN: int := 60 * SECOND
  const MAX_SENDS: int := 3
  const MAX_TRIES: int := 5

  type Intent = string

  datatype Challenge = Challenge(
    email: Digest, otp: Digest, token: Option<Digest>, attempts: int, sends: int,
    lastSentAt: int, expiresAt: int, verifiedAt: Option<int>, consumedAt: Option<int>)

  type Challenges = map<Intent, Challenge>

  /** Neither verified nor consumed. */
  predicate Open(c: Challenge) { c.verifiedAt.None? && c.consumedAt.None? }

  predicate Found(cs: Challenges, i: Intent, email: Digest) { i in cs && cs[i].email == email }

  predicate Outdated(c: Challenge, now: int) {
    c.expiresAt < now - HOUR || (c.consumedAt.Some? && c.consumedAt.value < now - HOUR)
  }

  /** Cleanup deletes any of the outdated rows: it works in bounded batches and skips locked ones. */
  function Swept(cs: Challenges, chosen: set<Intent>, now: int): Challenges {
    cs - set i | i in cs && i in chosen && Outdated(cs[i], now)
  }

  datatype Sweep = Sweep(chosen: set<Intent>, now: int)

  // ---------- create ----------

  datatype CreateResult = Created | CreateLimited(retryAfterSeconds: int)

  function FirstSend(email: Digest, otp: Digest, sentAt: int, expiryFrom: int): Challenge {
    Challenge(email, otp, None, 0, 1, sentAt, expiryFrom + TTL, None, None)
  }

  /** The result is `None` when the intent id is taken: the insert fails and the transaction is rolled back. */
  function Create(cs: Challenges, i: Intent, email: Digest, otp: Digest, verdict: Verdict, sentAt: int, expiryFrom: int, sweep: Sweep)
    : (Challenges, Option<CreateResult>)
  {
    if verdict.Limited? then (Swept(cs, sweep.chosen, sweep.now), Some(CreateLimited(verdict.retryAfterSeconds)))
    else if i in cs then (cs, None)
    else (Swept(cs[i := FirstSend(email, otp, sentAt, expiryFrom)], sweep.chosen, sweep.now), Some(Created))
  }

  // ---------- resend ----------

  datatype ResendResult = Sent | ResendLimited(retryAfterSeconds: int) | Cooldown(retryAfterSeconds: int)
    | SendLimit | ResendExpired | ResendNotFound

  /** The readings of a resend in the order of its statements; cleanup happens between `expiryFrom` and `recheck`. */
  datatype ResendTimes = ResendTimes(checkExpiry: int, checkCooldown: int, guardExpiry: int, guardCooldown: int,
                                     sentAt: int, expiryFrom: int, recheck: int)

  predicate ResendOrdered(t: ResendTimes) {
    t.checkExpiry <= t.checkCooldown <= t.guardExpiry <= t.guardCooldown <= t.sentAt <= t.expiryFrom <= t.recheck
  }

  function CooldownLeft(c: Challenge, now: int): int { Max(0, CeilSeconds(c.lastSentAt + COOLDOWN - now)) }

  function Renewed(c: Challenge, otp: Digest, t: ResendTimes): Challenge {
    c.(otp := otp, attempts := 0, sends := c.sends + 1, lastSentAt := t.sentAt, expiresAt := t.expiryFrom + TTL)
  }

  /** Refused before any limit is charged. */
  function EarlyRefusal(cs: Challenges, i: Intent, email: Digest, t: ResendTimes): Option<ResendResult> {
    if !Found(cs, i, email) then Some(ResendNotFound)
    else if cs[i].expiresAt <= t.checkExpiry then Some(ResendExpired)
    else if !Open(cs[i]) then Some(ResendNotFound)
    else if cs[i].sends >= MAX_SENDS then Some(SendLimit)
    else if CooldownLeft(cs[i], t.checkCooldown) > 0 then Some(Cooldown(CooldownLeft(cs[i], t.checkCooldown)))
    else None
  }

  predicate RenewGuard(c: Challenge, t: ResendTimes) {
    Open(c) && c.expiresAt > t.guardExpiry && c.sends < MAX_SENDS && c.lastSentAt <= t.guardCooldown - COOLDOWN
  }

  function Resend(cs: Challenges, i: Intent, email: Digest, otp: Digest, verdict: Verdict, t: ResendTimes, sweep: Sweep)
    : (Challenges, ResendResult)
  {
    var early := EarlyRefusal(cs, i, email, t);
    if early.Some? then (cs, early.value)
    else if verdict.Limited? then (Swept(cs, sweep.chosen, sweep.now), ResendLimited(verdict.retryAfterSeconds))
    else if Found(cs, i, email) && RenewGuard(cs[i], t) then
      (Swept(cs[i := Renewed(cs[i], otp, t)], sweep.chosen, sweep.now), Sent)
    else
      var cs' := Swept(cs, sweep.chosen, sweep.now);
      (cs', if Found(cs', i, email) && cs'[i].expiresAt <= t.recheck then ResendExpired else ResendNotFound)
  }

  // ---------- verify ----------

  datatype VerifyResult = Verified(expiresInSeconds: int) | VerifyLimited(retryAfterSeconds: int)
    | Invalid(attemptsRemaining: int) | Exhausted | VerifyExpired | AlreadyVerified | VerifyNotFound

  datatype VerifyTimes = VerifyTimes(tryGuard: int, current: int, verifyGuard: int, verifiedAt: int, left: int, recheck: int)

  predicate VerifyOrdered(t: VerifyTimes) {
    t.tryGuard <= t.current <= t.verifyGuard <= t.verifiedAt <= t.left <= t.recheck
  }

  /** The first update: an attempt is counted before the code is looked at. */
  predicate MayTry(cs: Challenges, i: Intent, email: Digest, t: VerifyTimes) {
    Found(cs, i, email) && Open(cs[i]) && cs[i].expiresAt > t.tryGuard && cs[i].attempts < MAX_TRIES
  }

  function Tried(cs: Challenges, i: Intent): Challenges
    requires i in cs
  {
    cs[i := cs[i].(attempts := cs[i].attempts + 1)]
  }

  function NoTryResult(cs: Challenges, i: Intent, email: Digest, t: VerifyTimes): VerifyResult {
    if !Found(cs, i, email) then VerifyNotFound
    else if cs[i].expiresAt <= t.current then VerifyExpired
    else if !Open(cs[i]) then AlreadyVerified
    else if cs[i].attempts >= MAX_TRIES then Exhausted
    else VerifyNotFound
  }

  function Accepted(cs: Challenges, i: Intent, token: Digest, t: VerifyTimes): Challenges
    requires i in cs
  {
    cs[i := cs[i].(verifiedAt := Some(t.verifiedAt), token := Some(token))]
  }

  function Verify(cs: Challenges, i: Intent, email: Digest, otp: Digest, token: Digest, verdict: Verdict, t: VerifyTimes, sweep: Sweep)
    : (Challenges, VerifyResult)
  {
    if verdict.Limited? then (Swept(cs, sweep.chosen, sweep.now), VerifyLimited(verdict.retryAfterSeconds))
    else if !MayTry(cs, i, email, t) then (Swept(cs, sweep.chosen, sweep.now), NoTryResult(cs, i, email, t))
    else
      var tried := Tried(cs, i);
      if tried[i].otp != otp then
        (Swept(tried, sweep.chosen, sweep.now),
          if tried[i].attempts >= MAX_TRIES then Exhausted else Invalid(MAX_TRIES - tried[i].attempts))
      else if tried[i].expiresAt > t.verifyGuard then
        (Swept(Accepted(tried, i, token, t), sweep.chosen, sweep.now), Verified(Max(1, CeilSeconds(tried[i].expiresAt - t.left))))
      else
        var cs' := Swept(tried, sweep.chosen, sweep.now);
        (cs', if Found(cs', i, email) && cs'[i].expiresAt <= t.recheck then VerifyExpired else AlreadyVerified)
  }

  // ---------- delete and consume ----------

  function WithoutUndelivered(cs: Challenges, i: Intent, otp: Digest): Challenges {
    if i in cs && cs[i].otp == otp && Open(cs[i]) then cs - {i} else cs
  }

  datatype ConsumeTimes = ConsumeTimes(guard: int, consumedAt: int)

  predicate MayConsume(cs: Challenges, i: Intent, email: Digest, token: Digest, t: ConsumeTimes) {
    && Found(cs, i, email)
    && cs[i].token == Some(token) && cs[i].verifiedAt.Some? && cs[i].consumedAt.None?
    && cs[i].expiresAt > t.guard
  }

  function Consumed(cs: Challenges, i: Intent, t: ConsumeTimes): Challenges
    requires i in cs
  {
    cs[i := cs[i].(consumedAt := Some(t.consumedAt))]
  }

  // ---------- the store ----------

  /** The limits of a request; each is charged by its own statement. */
  function SendLimits(email: Digest, ip: Digest, t0: int, t1: int): seq<Attempt> {
    [Attempt(Key(SendEmail, email), t0), Attempt(Key(SendIp, ip), t1)]
  }

  function VerifyLimits(email: Digest, ip: Digest, t0: int, t1: int): seq<Attempt> {
    [Attempt(Key(VerifyEmail, email), t0), Attempt(Key(VerifyIp, ip), t1)]
  }

  class EmailVerificationStore {
    var challenges: Challenges
    const limits: RateLimitTable

    constructor ()
      ensures challenges == map[] && fresh(limits) && limits.rows == map[]
    {
      challenges := map[];
      limits := new RateLimitTable();
    }

    method Cleanup(sweep: Sweep)
      modifies this
      ensures challenges == Swept(old(challenges), sweep.chosen, sweep.now)
    {
      var todo := challenges.Keys * sweep.chosen;
      while todo != {}
        invariant todo <= challenges.Keys <= old(challenges).Keys
        invariant forall i :: i in challenges ==> challenges[i] == old(challenges)[i]
        invariant forall i :: i in old(challenges) && i !in todo ==>
          (i in challenges <==> !(i in sweep.chosen && Outdated(old(challenges)[i], sweep.now)))
        decreases todo
      {
        var i :| i in todo;
        todo := todo - {i};
        if Outdated(challenges[i], sweep.now) { challenges := challenges - {i}; }
      }
    }

    method CreateChallenge(i: Intent, email: Digest, otp: Digest, ip: Digest, t0: int, t1: int, sentAt: int, expiryFrom: int, sweep: Sweep)
      returns (result: Option<CreateResult>, ghost verdict: Verdict)
      modifies this, limits
      ensures (challenges, result) == Create(old(challenges), i, email, otp, verdict, sentAt, expiryFrom, sweep)
      ensures limits.rows == if result.None? then old(limits.rows) else AfterAll(old(limits.rows), SendLimits(email, ip, t0, t1))
      ensures verdict.Allowed? <==> forall k :: 0 <= k < 2 ==> WithinAt(old(limits.rows), SendLimits(email, ip, t0, t1), k)
    {
      var rows := limits.rows;
      var limited := limits.ApplyRateLimits(SendLimits(email, ip, t0, t1));
      verdict := limited;
      if limited.Limited? {
        Cleanup(sweep);
        result := Some(CreateLimited(limited.retryAfterSeconds));
        return;
      }
      if i in challenges {
        limits.rows := rows;
        result := None;
        return;
      }
      challenges := challenges[i := FirstSend(email, otp, sentAt, expiryFrom)];
      Cleanup(sweep);
      result := Some(Created);
    }

    method ResendChallenge(i: Intent, email: Digest, otp: Digest, ip: Digest, t0: int, t1: int, t: ResendTimes, sweep: Sweep)
      returns (result: ResendResult, ghost verdict: Verdict)
      modifies this, limits
      ensures (challenges, result) == Resend(old(challenges), i, email, otp, verdict, t, sweep)
      ensures EarlyRefusal(old(challenges), i, email, t).Some? ==> limits.rows == old(limits.rows)
      ensures EarlyRefusal(old(challenges), i, email, t).None? ==>
        && limits.rows == AfterAll(old(limits.rows), SendLimits(email, ip, t0, t1))
        && (verdict.Allowed? <==> forall k :: 0 <= k < 2 ==> WithinAt(old(limits.rows), SendLimits(email, ip, t0, t1), k))
    {
      verdict := Allowed;
      if !Found(challenges, i, email) { result := ResendNotFound; return; }
      var existing := challenges[i];
      if existing.expiresAt <= t.checkExpiry { result := ResendExpired; return; }
      if !Open(existing) { result := ResendNotFound; return; }
      if existing.sends >= MAX_SENDS { result := SendLimit; return; }
      var wait := CooldownLeft(existing, t.checkCooldown);
      if wait > 0 { result := Cooldown(wait); return; }
      var limited := limits.ApplyRateLimits(SendLimits(email, ip, t0, t1));
      verdict := limited;
      if limited.Limited? {
        Cleanup(sweep);
        result := ResendLimited(limited.retryAfterSeconds);
        return;
      }
      if RenewGuard(challenges[i], t) {
        challenges := challenges[i := Renewed(challenges[i], otp, t)];
        Cleanup(sweep);
        result := Sent;
        return;
      }
      Cleanup(sweep);
      result := if Found(challenges, i, email) && challenges[i].expiresAt <= t.recheck then ResendExpired else ResendNotFound;
    }

    method VerifyChallenge(i: Intent, email: Digest, otp: Digest, token: Digest, ip: Digest, t0: int, t1: int, t: VerifyTimes, sweep: Sweep)
      returns (result: VerifyResult, ghost verdict: Verdict)
      modifies this, limits
      ensures (challenges, result) == Verify(old(challenges), i, email, otp, token, verdict, t, sweep)
      ensures limits.rows == AfterAll(old(limits.rows), VerifyLimits(email, ip, t0, t1))
      ensures verdict.Allowed? <==> forall k :: 0 <= k < 2 ==> WithinAt(old(limits.rows), VerifyLimits(email, ip, t0, t1), k)
    {
      var limited := limits.ApplyRateLimits(VerifyLimits(email, ip, t0, t1));
      verdict := limited;
      if limited.Limited? {
        Cleanup(sweep);
        result := VerifyLimited(limited.retryAfterSeconds);
        return;
      }
      if !MayTry(challenges, i, email, t) {
        result := NoTryResult(challenges, i, email, t);
        Cleanup(sweep);
        return;
      }
      challenges := Tried(challenges, i);
      var row := challenges[i];
      if row.otp != otp {
        Cleanup(sweep);
        result := if row.attempts >= MAX_TRIES then Exhausted else Invalid(MAX_TRIES - row.attempts);
        return;
      }
      if Open(row) && row.expiresAt > t.verifyGuard {
        challenges := Accepted(challenges, i, token, t);
        Cleanup(sweep);
        result := Verified(Max(1, CeilSeconds(row.expiresAt - t.left)));
        return;
      }
      Cleanup(sweep);
      result := if Found(challenges, i, email) && challenges[i].expiresAt <= t.recheck then VerifyExpired else AlreadyVerified;
    }

    method DeleteUndeliveredChallenge(i: Intent, otp: Digest)
      modifies this
      ensures challenges == WithoutUndelivered(old(challenges), i, otp)
    {
      if i in challenges && challenges[i].otp == otp && Open(challenges[i]) { challenges := challenges - {i}; }
    }

    method ConsumeVerification(i: Intent, email: Digest, token: Digest, t: ConsumeTimes) returns (done: bool)
      modifies this
      ensures done == MayConsume(old(challenges), i, email, token, t)
      ensures challenges == if done then Consumed(old(challenges), i, t) else old(challenges)
    {
      if i !in challenges { return false; }
      var row := challenges[i];
      done := row.email == email && row.token == Some(token) && row.verifiedAt.Some? && row.consumedAt.None? && row.expiresAt > t.guard;
      if done { challenges := challenges[i := row.(consumedAt := Some(t.consumedAt))]; }
    }
  }
}
