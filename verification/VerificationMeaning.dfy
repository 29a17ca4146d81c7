/** What the verification store answers, in every reachable state, said through the life of the intent: its sends, its
    comparisons and whether a code was accepted. */
module VerificationMeaning {
  import Limits = VerificationRateLimits
  import opened EmailChallenges
  import opened VerificationRuns
  import opened Options

  const SECOND: int := 1_000_000
  const TEN_MINUTES: int := 600 * SECOND
  const ONE_MINUTE: int := 60 * SECOND

  // ---------- reading a life ----------

  predicate NothingAccepted(l: Life) { forall p :: 0 <= p < |l| ==> !l[p].CodeAccepted? }

  /** The challenge row is there, under this email. */
  predicate Present(sys: Sys, i: Intent, email: Limits.Digest) {
    i in sys.db.challenges && sys.db.challenges[i].email == email
  }

  /** The instant the code of the latest send stops being good. */
  function Deadline(l: Life): int
    requires LatestSend(l).Some?
  {
    LatestSend(l).value.expiryFrom + TEN_MINUTES
  }

  /** The fewest whole seconds, at least one, after which `target` is reached from `now`. */
  predicate WholeSeconds(n: int, now: int, target: int) {
    n >= 1 && target <= now + n * SECOND && (n > 1 ==> now + (n - 1) * SECOND < target)
  }

  lemma {:induction false} CeilIsLeast(n: int, now: int, target: int)
    requires n == Limits.CeilSeconds(target - now)
    ensures target <= now + n * SECOND && now + (n - 1) * SECOND < target
    ensures WholeSeconds(Limits.Max(1, n), now, target)
    ensures n >= 1 <==> now < target
  {
    var d := target - now;
    assert -n == (-d) / SECOND;
    assert (-d) == SECOND * ((-d) / SECOND) + (-d) % SECOND;
  }

  /** What a present row says about the life of its intent. */
  lemma {:induction false} RowSays(run: seq<Event>, i: Intent)
    requires IsRun(run) && i in After(run).db.challenges
    ensures var l, c := LifeOf(After(run).lives, i), After(run).db.challenges[i];
      && LatestSend(l).Some? && c.otp == LatestSend(l).value.otp && c.lastSentAt == LatestSend(l).value.sentAt
      && c.expiresAt == Deadline(l)
      && Sends(l) == c.sends && ComparisonsSince(l) == c.attempts
      && (Open(c) <==> NothingAccepted(l))
      && 0 <= ComparisonsSince(l) <= 5
  {
    RunsKeepInv(run);
    var l, c := LifeOf(After(run).lives, i), After(run).db.challenges[i];
    assert IntentOk(l, RowOf(After(run).db, i), After(run).now);
    assert l[..|l|] == l;
    if c.token.Some? {
      var p :| 0 <= p < |l| && l[p] == CodeAccepted(c.token.value);
      assert !NothingAccepted(l);
    }
  }

  // ---------- verify ----------

  /** The code will be looked at: nothing was accepted, fewer than five codes were compared with the latest one, and that
      one is not ten minutes old. */
  predicate Comparable(sys: Sys, e: Event)
    requires e.EVerify?
  {
    var l := LifeOf(sys.lives, e.i);
    && Present(sys, e.i, e.email) && NothingAccepted(l) && ComparisonsSince(l) < 5
    && LatestSend(l).Some? && e.vt.tryGuard < Deadline(l)
  }

  predicate RightInTime(sys: Sys, e: Event)
    requires e.EVerify?
  {
    var l := LifeOf(sys.lives, e.i);
    Comparable(sys, e) && e.otp == LatestSend(l).value.otp && e.vt.verifyGuard < Deadline(l)
  }

  ghost predicate VerifyAnswer(sys: Sys, e: Event, result: VerifyResult, rowAfter: bool)
    requires e.EVerify?
  {
    var l := LifeOf(sys.lives, e.i);
    if RightInTime(sys, e) then
      result.Verified? && WholeSeconds(result.expiresInSeconds, e.vt.left, Deadline(l))
    else if Comparable(sys, e) && e.otp == LatestSend(l).value.otp then
      result == if rowAfter then VerifyExpired else AlreadyVerified
    else if Comparable(sys, e) then
      var compared := ComparisonsSince(l) + 1;
      result == if compared == 5 then Exhausted else Invalid(5 - compared)
    else if !Present(sys, e.i, e.email) then
      result == VerifyNotFound
    else
      && LatestSend(l).Some?
      && result == (if Deadline(l) <= e.vt.current then VerifyExpired
                    else if !NothingAccepted(l) then AlreadyVerified
                    else Exhausted)
  }

  /** An hour past its end, or an hour past its use. */
  predicate LongOver(c: Challenge, now: int) {
    c.expiresAt < now - 3600 * SECOND || (c.consumedAt.Some? && c.consumedAt.value < now - 3600 * SECOND)
  }

  function RowNow(cs: Challenges, i: Intent, row: Option<Challenge>, j: Intent): Option<Challenge> {
    if j == i && row.Some? then row else if j in cs then Some(cs[j]) else None
  }

  /** The transaction wrote `row`, if any, for `i` and nothing else; a sweep may have taken rows that are long over. */
  ghost predicate Leaves(cs: Challenges, i: Intent, row: Option<Challenge>, sweep: Sweep, cs': Challenges) {
    forall j :: LeavesRow(RowNow(cs, i, row, j), sweep, j, RowIn(cs', j))
  }

  predicate LeavesRow(row: Option<Challenge>, sweep: Sweep, j: Intent, row': Option<Challenge>) {
    row' == row || (row'.None? && j in sweep.chosen && LongOver(row.value, sweep.now))
  }

  lemma {:induction false} SweptLeaves(cs: Challenges, i: Intent, row: Option<Challenge>, sweep: Sweep)
    ensures Leaves(cs, i, row, sweep, Swept(if row.Some? then cs[i := row.value] else cs, sweep.chosen, sweep.now))
  {
    var base := if row.Some? then cs[i := row.value] else cs;
    forall j ensures LeavesRow(RowNow(cs, i, row, j), sweep, j, RowIn(Swept(base, sweep.chosen, sweep.now), j)) {
      assert RowNow(cs, i, row, j) == RowIn(base, j);
    }
  }

  function RowIn(cs: Challenges, j: Intent): Option<Challenge> { if j in cs then Some(cs[j]) else None }

  /** What a verification writes: a counted comparison exactly when the code is looked at, and the token exactly when it was
      right and in time. */
  function VerifiedRow(sys: Sys, e: Event): Option<Challenge>
    requires e.EVerify?
  {
    if !Comparable(sys, e) then None else
    var c := sys.db.challenges[e.i];
    var counted := c.(attempts := ComparisonsSince(LifeOf(sys.lives, e.i)) + 1);
    Some(if RightInTime(sys, e) then counted.(verifiedAt := Some(e.vt.verifiedAt), token := Some(e.token)) else counted)
  }

  ghost predicate VerifyEffect(sys: Sys, e: Event, sys': Sys)
    requires e.EVerify?
  {
    var l := LifeOf(sys.lives, e.i);
    && LifeOf(sys'.lives, e.i) == l
         + (if Comparable(sys, e) then [CodeCompared(e.otp, e.otp == LatestSend(l).value.otp)] else [])
         + (if RightInTime(sys, e) then [CodeAccepted(e.token)] else [])
    && Leaves(sys.db.challenges, e.i, VerifiedRow(sys, e), e.sweep, sys'.db.challenges)
  }

  function VerifyOf(sys: Sys, e: Event): (Challenges, VerifyResult)
    requires e.EVerify?
  {
    Verify(sys.db.challenges, e.i, e.email, e.otp, e.token, e.verdict, e.vt, e.sweep)
  }

  lemma {:induction false} ComparableIff(run: seq<Event>, e: Event)
    requires IsRun(run) && e.EVerify?
    ensures Comparable(After(run), e) <==> MayTry(After(run).db.challenges, e.i, e.email, e.vt)
  {
    if e.i in After(run).db.challenges { RowSays(run, e.i); }
  }

  /** A code is accepted, and its token stored, exactly when the row is there under that email, nothing was accepted before,
      fewer than five codes were compared since the latest send, the code is that of the latest send, and ten minutes have
      not passed at either guard; and in every other case these facts fix the answer. */
  lemma {:induction false} VerifyAnswers(run: seq<Event>, e: Event)
    requires IsRun(run) && e.EVerify? && Enabled(After(run), e) && e.verdict.Allowed?
    ensures VerifyAnswer(After(run), e, VerifyOf(After(run), e).1, Present(Step(After(run), e), e.i, e.email))
    ensures VerifyOf(After(run), e).1.Verified? <==> RightInTime(After(run), e)
  {
    var sys := After(run);
    ComparableIff(run, e);
    if e.i in sys.db.challenges {
      RowSays(run, e.i);
      CeilIsLeast(Limits.CeilSeconds(sys.db.challenges[e.i].expiresAt - e.vt.left), e.vt.left, sys.db.challenges[e.i].expiresAt);
    }
  }

  lemma {:induction false} VerifyWrites(run: seq<Event>, e: Event)
    requires IsRun(run) && e.EVerify? && Enabled(After(run), e) && e.verdict.Allowed?
    ensures var cs, row := After(run).db.challenges, VerifiedRow(After(run), e);
      VerifyOf(After(run), e).0 == Swept(if row.Some? then cs[e.i := row.value] else cs, e.sweep.chosen, e.sweep.now)
  {
    ComparableIff(run, e);
    if e.i in After(run).db.challenges { RowSays(run, e.i); }
  }

  lemma {:induction false} VerifyTable(run: seq<Event>, e: Event)
    requires IsRun(run) && e.EVerify? && Enabled(After(run), e) && e.verdict.Allowed?
    ensures Leaves(After(run).db.challenges, e.i, VerifiedRow(After(run), e), e.sweep, VerifyOf(After(run), e).0)
  {
    VerifyWrites(run, e);
    SweptLeaves(After(run).db.challenges, e.i, VerifiedRow(After(run), e), e.sweep);
  }

  lemma {:induction false} VerifyLife(run: seq<Event>, e: Event)
    requires IsRun(run) && e.EVerify? && Enabled(After(run), e) && e.verdict.Allowed?
    ensures var l := LifeOf(After(run).lives, e.i);
      LifeOf(Step(After(run), e).lives, e.i) == l
        + (if Comparable(After(run), e) then [CodeCompared(e.otp, e.otp == LatestSend(l).value.otp)] else [])
        + (if RightInTime(After(run), e) then [CodeAccepted(e.token)] else [])
  {
    ComparableIff(run, e);
    VerifyAnswers(run, e);
    if e.i in After(run).db.challenges { RowSays(run, e.i); }
  }

  lemma {:induction false} VerifyEffects(run: seq<Event>, e: Event)
    requires IsRun(run) && e.EVerify? && Enabled(After(run), e) && e.verdict.Allowed?
    ensures VerifyEffect(After(run), e, Step(After(run), e))
  {
    VerifyTable(run, e);
    VerifyLife(run, e);
  }

  lemma {:induction false} VerifyOverLimit(sys: Sys, e: Event)
    requires e.EVerify? && e.verdict.Limited?
    ensures VerifyOf(sys, e).1 == VerifyLimited(e.verdict.retryAfterSeconds)
    ensures LifeOf(Step(sys, e).lives, e.i) == LifeOf(sys.lives, e.i)
    ensures Leaves(sys.db.challenges, e.i, None, e.sweep, Step(sys, e).db.challenges)
  {
    SweptLeaves(sys.db.challenges, e.i, None, e.sweep);
  }

  // ---------- create ----------

  function CreatedRow(e: Event): Option<Challenge>
    requires e.ECreate?
  {
    if e.verdict.Limited? then None
    else Some(Challenge(e.email, e.otp, None, 0, 1, e.sentAt, e.expiryFrom + TEN_MINUTES, None, None))
  }

  /** A fresh intent within the limits gets its row, under its email, with its code and ten minutes. */
  lemma {:induction false} CreateAnswers(run: seq<Event>, e: Event)
    requires IsRun(run) && e.ECreate? && Enabled(After(run), e)
    ensures Create(After(run).db.challenges, e.i, e.email, e.otp, e.verdict, e.sentAt, e.expiryFrom, e.sweep).1
      == Some(if e.verdict.Limited? then CreateLimited(e.verdict.retryAfterSeconds) else Created)
    ensures LifeOf(Step(After(run), e).lives, e.i) == if e.verdict.Limited? then [] else [CodeSent(e.otp, e.sentAt, e.expiryFrom)]
    ensures Leaves(After(run).db.challenges, e.i, CreatedRow(e), e.sweep, Step(After(run), e).db.challenges)
  {
    RunsKeepInv(run);
    var sys := After(run);
    assert IntentOk(LifeOf(sys.lives, e.i), RowOf(sys.db, e.i), sys.now);
    assert e.i !in sys.db.challenges;
    SweptLeaves(sys.db.challenges, e.i, CreatedRow(e), e.sweep);
  }

  // ---------- resend ----------

  predicate Resendable(sys: Sys, e: Event)
    requires e.EResend?
  {
    var l := LifeOf(sys.lives, e.i);
    && Present(sys, e.i, e.email) && NothingAccepted(l) && Sends(l) < 3 && LatestSend(l).Some?
    && LatestSend(l).value.sentAt + ONE_MINUTE <= e.rt.checkCooldown && e.rt.guardExpiry < Deadline(l)
  }

  function ResendOf(sys: Sys, e: Event): (Challenges, ResendResult)
    requires e.EResend?
  {
    Resend(sys.db.challenges, e.i, e.email, e.otp, e.verdict, e.rt, e.sweep)
  }

  /** Refusals in the order of their precedence; the limits are only charged when none of them applies. */
  ghost predicate ResendAnswer(sys: Sys, e: Event, result: ResendResult, rowAfter: bool)
    requires e.EResend?
  {
    var l := LifeOf(sys.lives, e.i);
    if !Present(sys, e.i, e.email) then result == ResendNotFound
    else
      && LatestSend(l).Some?
      && if Deadline(l) <= e.rt.checkExpiry then result == ResendExpired
         else if !NothingAccepted(l) then result == ResendNotFound
         else if Sends(l) >= 3 then result == SendLimit
         else if e.rt.checkCooldown < LatestSend(l).value.sentAt + ONE_MINUTE then
           && result.Cooldown?
           && WholeSeconds(result.retryAfterSeconds, e.rt.checkCooldown, LatestSend(l).value.sentAt + ONE_MINUTE)
         else if e.verdict.Limited? then result == ResendLimited(e.verdict.retryAfterSeconds)
         else if e.rt.guardExpiry < Deadline(l) then result == EmailChallenges.Sent
         else result == if rowAfter then ResendExpired else ResendNotFound
  }

  lemma {:induction false} SendableIff(run: seq<Event>, e: Event)
    requires IsRun(run) && e.EResend? && Enabled(After(run), e)
    ensures EarlyRefusal(After(run).db.challenges, e.i, e.email, e.rt).None? && RenewGuard(After(run).db.challenges[e.i], e.rt)
      <==> Resendable(After(run), e)
  {
    if e.i in After(run).db.challenges {
      RowSays(run, e.i);
      var c := After(run).db.challenges[e.i];
      CeilIsLeast(Limits.CeilSeconds(c.lastSentAt + ONE_MINUTE - e.rt.checkCooldown), e.rt.checkCooldown, c.lastSentAt + ONE_MINUTE);
    }
  }

  /** A code is sent again exactly when the row is there under that email, nothing was accepted, fewer than three codes were
      sent, the last one a minute ago and not expired, and the limits allow it. */
  lemma {:induction false} ResendAnswers(run: seq<Event>, e: Event)
    requires IsRun(run) && e.EResend? && Enabled(After(run), e)
    ensures ResendAnswer(After(run), e, ResendOf(After(run), e).1, Present(Step(After(run), e), e.i, e.email))
    ensures ResendOf(After(run), e).1 == EmailChallenges.Sent <==> Resendable(After(run), e) && e.verdict.Allowed?
  {
    SendableIff(run, e);
    if e.i in After(run).db.challenges {
      RowSays(run, e.i);
      var c := After(run).db.challenges[e.i];
      CeilIsLeast(Limits.CeilSeconds(c.lastSentAt + ONE_MINUTE - e.rt.checkCooldown), e.rt.checkCooldown, c.lastSentAt + ONE_MINUTE);
    }
  }

  /** A sent code replaces the old one, with its own ten minutes and five comparisons. */
  function ResentRow(sys: Sys, e: Event): Option<Challenge>
    requires e.EResend?
  {
    if !(Resendable(sys, e) && e.verdict.Allowed?) then None else
    Some(Challenge(e.email, e.otp, None, 0, Sends(LifeOf(sys.lives, e.i)) + 1, e.rt.sentAt, e.rt.expiryFrom + TEN_MINUTES, None, None))
  }

  lemma {:induction false} ResendTable(run: seq<Event>, e: Event)
    requires IsRun(run) && e.EResend? && Enabled(After(run), e)
    ensures Leaves(After(run).db.challenges, e.i, ResentRow(After(run), e), e.sweep, ResendOf(After(run), e).0)
  {
    SweptLeaves(After(run).db.challenges, e.i, ResentRow(After(run), e), e.sweep);
    SendableIff(run, e);
    if e.i in After(run).db.challenges {
      RowSays(run, e.i);
      RunsKeepInv(run);
      assert IntentOk(LifeOf(After(run).lives, e.i), RowOf(After(run).db, e.i), After(run).now);
    }
  }

  lemma {:induction false} ResendEffects(run: seq<Event>, e: Event)
    requires IsRun(run) && e.EResend? && Enabled(After(run), e)
    ensures var sys, sys' := After(run), Step(After(run), e);
      && Leaves(sys.db.challenges, e.i, ResentRow(sys, e), e.sweep, sys'.db.challenges)
      && LifeOf(sys'.lives, e.i) == LifeOf(sys.lives, e.i)
           + if ResentRow(sys, e).Some? then [CodeSent(e.otp, e.rt.sentAt, e.rt.expiryFrom)] else []
  {
    ResendTable(run, e);
    ResendAnswers(run, e);
  }

  // ---------- how long a row is there ----------

  /** The row of the intent may be gone: an hour past the end of its code, or after its token was spent. */
  predicate MayBeGone(sys: Sys, i: Intent) {
    var l := LifeOf(sys.lives, i);
    Spends(l) > 0 || (LatestSend(l).Some? && Deadline(l) + 3600 * SECOND < sys.now)
  }

  lemma {:induction false} SweptIsOver(run: seq<Event>, i: Intent, now: int)
    requires IsRun(run) && i in After(run).db.challenges && Outdated(After(run).db.challenges[i], now)
    ensures var l := LifeOf(After(run).lives, i);
      Spends(l) > 0 || (LatestSend(l).Some? && Deadline(l) + 3600 * SECOND < now)
  {
    RowSays(run, i);
    RunsKeepInv(run);
    assert IntentOk(LifeOf(After(run).lives, i), RowOf(After(run).db, i), After(run).now);
  }

  /** The delivery of the code that counts has failed, and nothing was accepted. */
  predicate Withdraws(sys: Sys, e: Event, i: Intent) {
    && e.EUndelivered? && e.i == i && LatestSend(LifeOf(sys.lives, i)).Some?
    && e.otp == LatestSend(LifeOf(sys.lives, i)).value.otp && NothingAccepted(LifeOf(sys.lives, i))
  }

  lemma {:induction false} SameLatest(l: Life, r: Record)
    ensures LatestSend(l + [r]) == if r.CodeSent? then Some(r) else LatestSend(l)
    ensures Spends(l + [r]) == Spends(l) + if r.TokenSpent? then 1 else 0
  {
    assert (l + [r])[..|l|] == l;
  }

  lemma {:induction false} ResentStays(run: seq<Event>, e: Event)
    requires IsRun(run) && e.EResend? && Enabled(After(run), e) && e.i in After(run).db.challenges
    ensures Stays(After(run), Step(After(run), e), e.i)
  {
    var sys := After(run);
    var l := LifeOf(sys.lives, e.i);
    ResendEffects(run, e);
    TimeAdvances(sys, e);
    if ResentRow(sys, e).Some? {
      SameLatest(l, CodeSent(e.otp, e.rt.sentAt, e.rt.expiryFrom));
    } else {
      assert l + [] == l;
      if Outdated(sys.db.challenges[e.i], e.sweep.now) { SweptIsOver(run, e.i, e.sweep.now); }
    }
  }

  /** A verification sends nothing and spends nothing. */
  lemma {:induction false} VerifiedLatest(run: seq<Event>, e: Event)
    requires IsRun(run) && e.EVerify? && Enabled(After(run), e)
    ensures var l, l' := LifeOf(After(run).lives, e.i), LifeOf(Step(After(run), e).lives, e.i);
      LatestSend(l') == LatestSend(l) && Spends(l') == Spends(l)
  {
    var sys := After(run);
    var l := LifeOf(sys.lives, e.i);
    if e.verdict.Limited? {
      VerifyOverLimit(sys, e);
    } else {
      VerifyLife(run, e);
      if Comparable(sys, e) {
        var r := CodeCompared(e.otp, e.otp == LatestSend(l).value.otp);
        SameLatest(l, r);
        SameLatest(l + [r], CodeAccepted(e.token));
        assert l + [r] + [] == l + [r];
      } else {
        assert l + [] + [] == l;
      }
    }
  }

  lemma {:induction false} VerifiedStays(run: seq<Event>, e: Event)
    requires IsRun(run) && e.EVerify? && Enabled(After(run), e) && e.i in After(run).db.challenges
    ensures Stays(After(run), Step(After(run), e), e.i)
  {
    var sys := After(run);
    var c := sys.db.challenges[e.i];
    TimeAdvances(sys, e);
    VerifiedLatest(run, e);
    if Outdated(c, e.sweep.now) { SweptIsOver(run, e.i, e.sweep.now); }
    VerifiedRowKept(sys.db.challenges, e);
  }

  lemma {:induction false} VerifiedRowKept(cs: Challenges, e: Event)
    requires e.EVerify? && e.i in cs
    ensures var cs' := Verify(cs, e.i, e.email, e.otp, e.token, e.verdict, e.vt, e.sweep).0;
      if e.i in cs' then cs'[e.i].email == cs[e.i].email else Outdated(cs[e.i], e.sweep.now)
  {}

  /** The row is still there under its email, or its time is over. */
  ghost predicate Stays(sys: Sys, sys': Sys, i: Intent)
    requires i in sys.db.challenges
  {
    (i in sys'.db.challenges ==> sys'.db.challenges[i].email == sys.db.challenges[i].email)
    && (i in sys'.db.challenges || MayBeGone(sys', i))
  }

  lemma {:induction false} RowStays(run: seq<Event>, e: Event, i: Intent)
    requires IsRun(run) && Enabled(After(run), e) && i in After(run).db.challenges && !Withdraws(After(run), e, i)
    ensures Stays(After(run), Step(After(run), e), i)
  {
    var sys := After(run);
    RowSays(run, i);
    TimeAdvances(sys, e);
    if Subject(e) != Some(i) {
      OtherStays(run, e, i);
    } else {
      match e
      case EResend(_, _, _, _, _, _) => ResentStays(run, e);
      case EVerify(_, _, _, _, _, _, _) => VerifiedStays(run, e);
      case ESubmit(_, _, _) => SubmitShape(sys.db, e.s, e.t, e.w);
      case _ =>
    }
  }

  lemma {:induction false} OtherStays(run: seq<Event>, e: Event, i: Intent)
    requires IsRun(run) && Enabled(After(run), e) && i in After(run).db.challenges && Subject(e) != Some(i)
    ensures Stays(After(run), Step(After(run), e), i)
  {
    var sys := After(run);
    TimeAdvances(sys, e);
    OtherIntent(sys.db, e, i);
    if i !in NextDb(sys.db, e).challenges { OtherSwept(run, e, i); }
  }

  lemma {:induction false} OtherSwept(run: seq<Event>, e: Event, i: Intent)
    requires IsRun(run) && Enabled(After(run), e) && i in After(run).db.challenges && Subject(e) != Some(i)
    requires i !in NextDb(After(run).db, e).challenges
    ensures MayBeGone(Step(After(run), e), i)
  {
    var sys := After(run);
    TimeAdvances(sys, e);
    var now := match e
      case ECreate(_, _, _, _, _, _, sweep) => sweep.now
      case EResend(_, _, _, _, _, sweep) => sweep.now
      case EVerify(_, _, _, _, _, _, sweep) => sweep.now
      case ESweep(sweep) => sweep.now
      case _ => 0;
    if e.ESubmit? { SubmitShape(sys.db, e.s, e.t, e.w); }
    assert Outdated(sys.db.challenges[i], now);
    SweptIsOver(run, i, now);
  }

  ghost predicate ThereOrOver(sys: Sys, i: Intent, email: Limits.Digest) {
    && LifeOf(sys.lives, i) != []
    && (Present(sys, i, email) || (i !in sys.db.challenges && MayBeGone(sys, i)))
  }

  lemma {:induction false} ThereAtFirst(run: seq<Event>, e: Event)
    requires IsRun(run) && e.ECreate? && Enabled(After(run), e) && e.verdict.Allowed?
    ensures ThereOrOver(Step(After(run), e), e.i, e.email)
  {
    CreateAnswers(run, e);
    SameLatest([], CodeSent(e.otp, e.sentAt, e.expiryFrom));
    assert [] + [CodeSent(e.otp, e.sentAt, e.expiryFrom)] == [CodeSent(e.otp, e.sentAt, e.expiryFrom)];
  }

  lemma {:induction false} ThereNext(run: seq<Event>, e: Event, i: Intent, email: Limits.Digest)
    requires IsRun(run) && Enabled(After(run), e) && ThereOrOver(After(run), i, email) && !Withdraws(After(run), e, i)
    ensures ThereOrOver(Step(After(run), e), i, email)
  {
    LivesGrow(After(run), e, i);
    if i in After(run).db.challenges { RowStays(run, e, i); } else { GoneStays(After(run), e, i); }
  }

  /** No delivery of a counting code failed after the `k`-th event. */
  ghost predicate Delivered(run: seq<Event>, k: nat, i: Intent) {
    forall m :: k < m < |run| ==> !Withdraws(After(run[..m]), run[m], i)
  }

  lemma {:induction false} DeliveredBefore(run: seq<Event>, k: nat, i: Intent)
    requires k < |run| - 1 && Delivered(run, k, i)
    ensures Delivered(run[..|run| - 1], k, i) && !Withdraws(After(run[..|run| - 1]), run[|run| - 1], i)
  {
    var before := run[..|run| - 1];
    forall m | k < m < |before| ensures !Withdraws(After(before[..m]), before[m], i) { assert before[..m] == run[..m]; }
  }

  /** An intent created within the limits keeps its row under that email for an hour past the end of its latest code, as
      long as no delivery of a counting code failed and its token was not spent. */
  lemma {:induction false} StillThere(run: seq<Event>, k: nat)
    requires IsRun(run) && k < |run| && run[k].ECreate? && run[k].verdict.Allowed?
    requires Delivered(run, k, run[k].i)
    ensures ThereOrOver(After(run), run[k].i, run[k].email)
  {
    var n := |run| - 1;
    var before := run[..n];
    if k == n {
      ThereAtFirst(before, run[n]);
    } else {
      DeliveredBefore(run, k, run[k].i);
      StillThere(before, k);
      ThereNext(before, run[n], run[k].i, run[k].email);
    }
  }

  lemma {:induction false} GoneStays(sys: Sys, e: Event, i: Intent)
    requires Enabled(sys, e) && i !in sys.db.challenges && LifeOf(sys.lives, i) != [] && MayBeGone(sys, i)
    ensures i !in Step(sys, e).db.challenges && MayBeGone(Step(sys, e), i)
  {
    TimeAdvances(sys, e);
    AbsentRow(sys.db, e, i);
    LivesGrow(sys, e, i);
    assert Subject(e) == Some(i) ==> Lived(sys.db, e, i) == [];
    assert LifeOf(sys.lives, i) + [] == LifeOf(sys.lives, i);
  }

  /** From the creation to the token: an intent within the limits, none of whose counting deliveries failed, is verified by
      the code of its latest send when fewer than five codes were compared with it and ten minutes have not passed. */
  lemma {:induction false} RightCodeVerifies(run: seq<Event>, k: nat, e: Event)
    requires IsRun(run) && k < |run| && run[k].ECreate? && run[k].verdict.Allowed?
    requires Delivered(run, k, run[k].i)
    requires e.EVerify? && Enabled(After(run), e) && e.verdict.Allowed? && e.i == run[k].i && e.email == run[k].email
    requires var l := LifeOf(After(run).lives, e.i);
      && Spends(l) == 0 && NothingAccepted(l) && ComparisonsSince(l) < 5
      && LatestSend(l).Some? && LatestSend(l).value.otp == e.otp && e.vt.verifyGuard < Deadline(l)
    ensures VerifyOf(After(run), e).1.Verified? && CodeAccepted(e.token) in LifeOf(Step(After(run), e).lives, e.i)
  {
    StillThere(run, k);
    VerifyAnswers(run, e);
    VerifyEffects(run, e);
  }
}
