/** Runs of the verification store and the report store: any interleaving of transactions, with what became
    of each intent, and which transaction consumed or inserted what, kept beside the tables. */
module VerificationRuns {
  import opened VerificationRateLimits
  import opened EmailChallenges
  import opened SubmissionModel
  import opened Options

  /** What happened to one intent, in order. */
  datatype Record = CodeSent(otp: Digest, sentAt: int, expiryFrom: int) | CodeCompared(otp: Digest, matched: bool)
    | CodeAccepted(token: Digest) | TokenSpent(at: int)

  type Life = seq<Record>

  /** What one transaction did: the tokens it consumed and the history rows it inserted. */
  datatype Effect = Effect(consumed: set<Intent>, inserted: set<nat>)

  datatype Sys = Sys(db: Database, lives: map<Intent, Life>, effects: seq<Effect>, now: int)

  datatype Event =
    | ECreate(i: Intent, email: Digest, otp: Digest, verdict: Verdict, sentAt: int, expiryFrom: int, sweep: Sweep)
    | EResend(i: Intent, email: Digest, otp: Digest, verdict: Verdict, rt: ResendTimes, sweep: Sweep)
    | EVerify(i: Intent, email: Digest, otp: Digest, token: Digest, verdict: Verdict, vt: VerifyTimes, sweep: Sweep)
    | EUndelivered(i: Intent, otp: Digest, at: int)
    | ESubmit(s: Submission, t: Times, w: Weather)
    | ESweep(sweep: Sweep)
    | ESweepReceipts(chosen: set<string>, at: int)

  function LifeOf(lives: map<Intent, Life>, i: Intent): Life { if i in lives then lives[i] else [] }

  function RowOf(db: Database, i: Intent): Option<Challenge> {
    if i in db.challenges then Some(db.challenges[i]) else None
  }

  function FirstReading(e: Event): int {
    match e
    case ECreate(_, _, _, _, sentAt, _, _) => sentAt
    case EResend(_, _, _, _, t, _) => t.checkExpiry
    case EVerify(_, _, _, _, _, t, _) => t.tryGuard
    case EUndelivered(_, _, at) => at
    case ESubmit(_, t, _) => t.select
    case ESweep(sweep) => sweep.now
    case ESweepReceipts(_, at) => at
  }

  function LastReading(e: Event): int {
    match e
    case ECreate(_, _, _, _, _, _, sweep) => sweep.now
    case EResend(_, _, _, _, t, _) => t.recheck
    case EVerify(_, _, _, _, _, t, _) => t.recheck
    case EUndelivered(_, _, at) => at
    case ESubmit(_, t, _) => t.receipt
    case ESweep(sweep) => sweep.now
    case ESweepReceipts(_, at) => at
  }

  predicate ReadingsOrdered(e: Event) {
    match e
    case ECreate(_, _, _, _, sentAt, expiryFrom, sweep) => sentAt <= expiryFrom <= sweep.now
    case EResend(_, _, _, _, t, sweep) => ResendOrdered(t) && t.expiryFrom <= sweep.now <= t.recheck
    case EVerify(_, _, _, _, _, t, sweep) => VerifyOrdered(t) && t.tryGuard <= sweep.now <= t.recheck
    case ESubmit(_, t, _) => TimesOrdered(t)
    case _ => true
  }

  /** The clock does not go back, and a created intent id is new. */
  predicate Enabled(sys: Sys, e: Event) {
    ReadingsOrdered(e) && sys.now <= FirstReading(e) && (e.ECreate? ==> LifeOf(sys.lives, e.i) == [])
  }

  function NextDb(db: Database, e: Event): Database {
    match e
    case ECreate(i, email, otp, verdict, sentAt, expiryFrom, sweep) =>
      db.(challenges := Create(db.challenges, i, email, otp, verdict, sentAt, expiryFrom, sweep).0)
    case EResend(i, email, otp, verdict, t, sweep) => db.(challenges := Resend(db.challenges, i, email, otp, verdict, t, sweep).0)
    case EVerify(i, email, otp, token, verdict, t, sweep) =>
      db.(challenges := Verify(db.challenges, i, email, otp, token, verdict, t, sweep).0)
    case EUndelivered(i, otp, _) => db.(challenges := WithoutUndelivered(db.challenges, i, otp))
    case ESubmit(s, t, w) => Submit(db, s, t, w).0
    case ESweep(sweep) => db.(challenges := Swept(db.challenges, sweep.chosen, sweep.now))
    case ESweepReceipts(chosen, at) => db.(receipts := WithoutReceipts(db.receipts, chosen, at))
  }

  /** The intents whose token the step consumed. */
  function Spending(cs: Challenges, cs': Challenges): set<Intent> {
    set i | i in cs' && cs'[i].consumedAt.Some? && (i in cs ==> cs[i].consumedAt.None?)
  }

  /** What the event adds to the life of intent `i`. */
  function Lived(db: Database, e: Event, i: Intent): Life {
    match e
    case ECreate(j, email, otp, verdict, sentAt, expiryFrom, sweep) =>
      if i == j && Create(db.challenges, i, email, otp, verdict, sentAt, expiryFrom, sweep).1 == Some(Created)
      then [CodeSent(otp, sentAt, expiryFrom)] else []
    case EResend(j, email, otp, verdict, t, sweep) =>
      if i == j && Resend(db.challenges, i, email, otp, verdict, t, sweep).1 == EmailChallenges.Sent
      then [CodeSent(otp, t.sentAt, t.expiryFrom)] else []
    case EVerify(j, email, otp, token, verdict, t, sweep) =>
      if i == j && verdict.Allowed? && MayTry(db.challenges, i, email, t) then
        [CodeCompared(otp, db.challenges[i].otp == otp)]
          + if Verify(db.challenges, i, email, otp, token, verdict, t, sweep).1.Verified? then [CodeAccepted(token)] else []
      else []
    case ESubmit(s, t, w) => if i in Spending(db.challenges, NextDb(db, e).challenges) then [TokenSpent(t.consume.guard)] else []
    case _ => []
  }

  /** The intent an event concerns. */
  function Subject(e: Event): Option<Intent> {
    match e
    case ECreate(i, _, _, _, _, _, _) => Some(i)
    case EResend(i, _, _, _, _, _) => Some(i)
    case EVerify(i, _, _, _, _, _, _) => Some(i)
    case EUndelivered(i, _, _) => Some(i)
    case ESubmit(s, _, _) => if s.auth.Claim? then Some(s.auth.intent) else None
    case _ => None
  }

  function Step(sys: Sys, e: Event): Sys {
    var db' := NextDb(sys.db, e);
    Sys(db',
      if Subject(e).Some? then sys.lives[Subject(e).value := LifeOf(sys.lives, Subject(e).value) + Lived(sys.db, e, Subject(e).value)] else sys.lives,
      sys.effects + [Effect(Spending(sys.db.challenges, db'.challenges), db'.history.Keys - sys.db.history.Keys)],
      LastReading(e))
  }

  const INIT: Sys := Sys(Database(map[], map[], map[], 1), map[], [], 0)

  function After(run: seq<Event>): Sys {
    if run == [] then INIT else Step(After(run[..|run| - 1]), run[|run| - 1])
  }

  ghost predicate IsRun(run: seq<Event>) {
    run == [] || (IsRun(run[..|run| - 1]) && Enabled(After(run[..|run| - 1]), run[|run| - 1]))
  }

  // ---------- one life ----------

  function Sends(l: Life): nat {
    if l == [] then 0 else Sends(l[..|l| - 1]) + if l[|l| - 1].CodeSent? then 1 else 0
  }

  function Comparisons(l: Life): nat {
    if l == [] then 0 else Comparisons(l[..|l| - 1]) + if l[|l| - 1].CodeCompared? then 1 else 0
  }

  /** Comparisons since the latest send. */
  function ComparisonsSince(l: Life): nat {
    if l == [] || l[|l| - 1].CodeSent? then 0
    else ComparisonsSince(l[..|l| - 1]) + if l[|l| - 1].CodeCompared? then 1 else 0
  }

  function Spends(l: Life): nat {
    if l == [] then 0 else Spends(l[..|l| - 1]) + if l[|l| - 1].TokenSpent? then 1 else 0
  }

  function LatestSend(l: Life): (r: Option<Record>)
    ensures r.Some? ==> r.value.CodeSent?
  {
    if l == [] then None else if l[|l| - 1].CodeSent? then Some(l[|l| - 1]) else LatestSend(l[..|l| - 1])
  }

  /** The code of the latest send was presented. */
  predicate MatchedSince(l: Life) {
    l != [] && !l[|l| - 1].CodeSent? &&
    (MatchedSince(l[..|l| - 1]) || (l[|l| - 1].CodeCompared? && l[|l| - 1].matched
       && LatestSend(l).Some? && LatestSend(l).value.otp == l[|l| - 1].otp))
  }

  /** A token is spent while the code of the latest send, which was matched, is less than ten minutes old. */
  ghost predicate SpentInTime(l: Life, q: nat)
    requires q < |l|
  {
    l[q].TokenSpent? ==>
      (var sent := LatestSend(l[..q]);
        sent.Some? && MatchedSince(l[..q]) && sent.value.expiryFrom <= l[q].at < sent.value.expiryFrom + TTL)
  }

  ghost predicate LifeOk(l: Life) {
    && Sends(l) <= MAX_SENDS
    && (Sends(l) == 0 ==> Comparisons(l) == 0)
    && (Sends(l) > 0 ==> Comparisons(l) <= MAX_TRIES * (Sends(l) - 1) + ComparisonsSince(l))
    && (forall q :: 0 <= q <= |l| ==> ComparisonsSince(l[..q]) <= MAX_TRIES)
    && Spends(l) <= 1
    && (forall q :: 0 <= q < |l| ==> SpentInTime(l, q))
    && (forall p, q :: 0 <= p < q < |l| && l[p].CodeSent? && l[q].CodeSent? ==> l[p].sentAt + COOLDOWN <= l[q].sentAt)
    && (forall p, q :: 0 <= p < q < |l| && l[p].CodeAccepted? ==> l[q].TokenSpent?)
  }

  ghost predicate RowOk(c: Challenge, l: Life, now: int) {
    && l != []
    && Sends(l) == c.sends && ComparisonsSince(l) == c.attempts
    && LatestSend(l) == Some(CodeSent(c.otp, c.lastSentAt, c.expiresAt - TTL))
    && c.expiresAt - TTL <= now
    && (forall p :: 0 <= p < |l| && l[p].CodeSent? ==> l[p].sentAt <= c.lastSentAt)
    && (c.verifiedAt.Some? <==> c.token.Some?) && (c.consumedAt.Some? ==> c.verifiedAt.Some?)
    && (c.token.None? ==> forall p :: 0 <= p < |l| ==> !l[p].CodeAccepted?)
    && (c.token.Some? ==> MatchedSince(l) && CodeAccepted(c.token.value) in l)
    && Spends(l) == if c.consumedAt.Some? then 1 else 0
  }

  ghost predicate IntentOk(l: Life, row: Option<Challenge>, now: int) {
    LifeOk(l) && (row.Some? ==> RowOk(row.value, l, now))
  }

  lemma {:induction false} Appended(l: Life, r: Record)
    ensures (l + [r])[..|l|] == l
    ensures forall q :: 0 <= q <= |l| ==> (l + [r])[..q] == l[..q]
  {}

  lemma {:induction false} SentKeeps(l: Life, c: Challenge, otp: Digest, sentAt: int, expiryFrom: int, now: int)
    requires LifeOk(l) && RowOk(c, l, now) && c.token.None? && c.consumedAt.None? && c.sends < MAX_SENDS
    requires c.lastSentAt + COOLDOWN <= sentAt && now <= expiryFrom
    ensures IntentOk(l + [CodeSent(otp, sentAt, expiryFrom)],
      Some(c.(otp := otp, attempts := 0, sends := c.sends + 1, lastSentAt := sentAt, expiresAt := expiryFrom + TTL)), expiryFrom)
  {
    var l' := l + [CodeSent(otp, sentAt, expiryFrom)];
    Appended(l, CodeSent(otp, sentAt, expiryFrom));
    assert ComparisonsSince(l[..|l|]) <= MAX_TRIES && l[..|l|] == l && l'[..|l'|] == l';
    forall q | 0 <= q < |l'| ensures SpentInTime(l', q) { if q < |l| { assert SpentInTime(l, q); } }
  }

  lemma {:induction false} FirstSendOk(email: Digest, otp: Digest, sentAt: int, expiryFrom: int)
    ensures IntentOk([CodeSent(otp, sentAt, expiryFrom)], Some(FirstSend(email, otp, sentAt, expiryFrom)), expiryFrom)
  {
    var l: Life := [CodeSent(otp, sentAt, expiryFrom)];
    assert l[..0] == [] && l[..1] == l;
    assert LatestSend(l) == Some(l[0]);
  }

  lemma {:induction false} ComparedKeeps(l: Life, c: Challenge, otp: Digest, now: int)
    requires LifeOk(l) && RowOk(c, l, now) && c.token.None? && c.attempts < MAX_TRIES
    ensures IntentOk(l + [CodeCompared(otp, c.otp == otp)], Some(c.(attempts := c.attempts + 1)), now)
    ensures c.otp == otp ==> MatchedSince(l + [CodeCompared(otp, c.otp == otp)])
  {
    var r := CodeCompared(otp, c.otp == otp);
    var l' := l + [r];
    Appended(l, r);
    assert l'[..|l'|] == l';
    assert LatestSend(l') == LatestSend(l);
    forall q | 0 <= q < |l'| ensures SpentInTime(l', q) { if q < |l| { assert SpentInTime(l, q); } }
  }

  lemma {:induction false} AcceptedKeeps(l: Life, c: Challenge, token: Digest, at: int, now: int)
    requires LifeOk(l) && RowOk(c, l, now) && c.token.None? && c.consumedAt.None? && MatchedSince(l)
    ensures IntentOk(l + [CodeAccepted(token)], Some(c.(verifiedAt := Some(at), token := Some(token))), now)
  {
    var r := CodeAccepted(token);
    var l' := l + [r];
    Appended(l, r);
    assert l'[..|l'|] == l' && l'[|l|] == r;
    assert LatestSend(l') == LatestSend(l);
    forall q | 0 <= q < |l'| ensures SpentInTime(l', q) { if q < |l| { assert SpentInTime(l, q); } }
  }

  lemma {:induction false} SpentKeeps(l: Life, c: Challenge, t: ConsumeTimes, now: int)
    requires LifeOk(l) && RowOk(c, l, now) && c.token.Some? && c.consumedAt.None?
    requires now <= t.guard < c.expiresAt
    ensures IntentOk(l + [TokenSpent(t.guard)], Some(c.(consumedAt := Some(t.consumedAt))), now)
  {
    var r := TokenSpent(t.guard);
    var l' := l + [r];
    Appended(l, r);
    assert l'[..|l'|] == l';
    assert LatestSend(l') == LatestSend(l);
    assert CodeAccepted(c.token.value) in l';
    forall q | 0 <= q < |l'| ensures SpentInTime(l', q) { if q < |l| { assert SpentInTime(l, q); } }
  }

  // ---------- every step keeps every intent in order ----------

  ghost predicate DbOk(db: Database) {
    && (forall id :: id in db.history ==> id < db.nextId)
    && (forall a :: a in db.receipts ==> db.receipts[a].historyId in db.history)
  }

  ghost predicate Inv(sys: Sys) {
    DbOk(sys.db) && forall i :: IntentOk(LifeOf(sys.lives, i), RowOf(sys.db, i), sys.now)
  }

  /** A transaction files the report as a whole or leaves the tables as they were. */
  lemma {:induction false} SubmitShape(db: Database, s: Submission, t: Times, w: Weather)
    ensures var db' := Submit(db, s, t, w).0;
      || (Authorized(db.challenges, s.auth, t.consume) && db' == Filed(db, s, t))
      || (db' == db.(nextId := db'.nextId) && db.nextId <= db'.nextId)
    ensures Submit(db, s, t, w).1.Recorded? ==>
      Authorized(db.challenges, s.auth, t.consume) && Submit(db, s, t, w) == (Filed(db, s, t), Recorded(db.nextId, t.submittedAt))
  {}

  lemma {:induction false} SpendingOf(db: Database, s: Submission, t: Times, w: Weather)
    ensures var db' := Submit(db, s, t, w).0;
      if s.auth.Claim? && Authorized(db.challenges, s.auth, t.consume) && db' == Filed(db, s, t)
      then Spending(db.challenges, db'.challenges) == {s.auth.intent}
      else Spending(db.challenges, db'.challenges) == {}
  {
    SubmitShape(db, s, t, w);
  }

  lemma {:induction false} IntentLater(l: Life, row: Option<Challenge>, row': Option<Challenge>, now: int, later: int)
    requires IntentOk(l, row, now) && now <= later && (row' == row || row'.None?)
    ensures IntentOk(l, row', later)
  {}

  lemma {:induction false} OtherIntent(db: Database, e: Event, i: Intent)
    requires Subject(e) != Some(i)
    ensures Lived(db, e, i) == []
    ensures RowOf(NextDb(db, e), i) == RowOf(db, i) || RowOf(NextDb(db, e), i).None?
  {
    if e.ESubmit? {
      SubmitShape(db, e.s, e.t, e.w);
      SpendingOf(db, e.s, e.t, e.w);
    }
  }

  lemma {:induction false} CreateKeeps(db: Database, e: Event, l: Life, now: int)
    requires e.ECreate? && ReadingsOrdered(e) && now <= FirstReading(e) && l == []
    requires IntentOk(l, RowOf(db, e.i), now)
    ensures IntentOk(l + Lived(db, e, e.i), RowOf(NextDb(db, e), e.i), LastReading(e))
  {
    FirstSendOk(e.email, e.otp, e.sentAt, e.expiryFrom);
    assert l + Lived(db, e, e.i) == Lived(db, e, e.i);
    CreateShape(db, e);
    var row' := RowOf(NextDb(db, e), e.i);
    if Lived(db, e, e.i) == [] {
      IntentLater(l, RowOf(db, e.i), row', now, LastReading(e));
    } else {
      IntentLater([CodeSent(e.otp, e.sentAt, e.expiryFrom)], Some(FirstSend(e.email, e.otp, e.sentAt, e.expiryFrom)), row',
        e.expiryFrom, LastReading(e));
    }
  }

  lemma {:induction false} CreateShape(db: Database, e: Event)
    requires e.ECreate?
    ensures var l := Lived(db, e, e.i); var row' := RowOf(NextDb(db, e), e.i);
      if l == [] then row' == RowOf(db, e.i) || row'.None?
      else
        && l == [CodeSent(e.otp, e.sentAt, e.expiryFrom)]
        && (row'.None? || row'.value == FirstSend(e.email, e.otp, e.sentAt, e.expiryFrom))
  {}

  lemma {:induction false} ResendKeeps(db: Database, e: Event, l: Life, now: int)
    requires e.EResend? && ReadingsOrdered(e) && now <= FirstReading(e)
    requires IntentOk(l, RowOf(db, e.i), now)
    ensures IntentOk(l + Lived(db, e, e.i), RowOf(NextDb(db, e), e.i), LastReading(e))
  {
    if Lived(db, e, e.i) == [] {
      assert l + [] == l;
    } else {
      SentKeeps(l, db.challenges[e.i], e.otp, e.rt.sentAt, e.rt.expiryFrom, now);
    }
  }

  /** An attempt is compared, and then possibly accepted; the row may be swept in the end. */
  lemma {:induction false} VerifyShape(db: Database, e: Event)
    requires e.EVerify?
    ensures var l := Lived(db, e, e.i); var row' := RowOf(NextDb(db, e), e.i);
      if l == [] then row' == RowOf(db, e.i) || row'.None?
      else
        && MayTry(db.challenges, e.i, e.email, e.vt)
        && (var c := db.challenges[e.i]; var r := CodeCompared(e.otp, c.otp == e.otp); var tried := c.(attempts := c.attempts + 1);
            || (l == [r] && (row'.None? || row'.value == tried))
            || (l == [r, CodeAccepted(e.token)] && c.otp == e.otp
                && (row'.None? || row'.value == tried.(verifiedAt := Some(e.vt.verifiedAt), token := Some(e.token)))))
  {}

  lemma {:induction false} VerifyKeeps(db: Database, e: Event, l: Life, now: int)
    requires e.EVerify? && ReadingsOrdered(e) && now <= FirstReading(e)
    requires IntentOk(l, RowOf(db, e.i), now)
    ensures IntentOk(l + Lived(db, e, e.i), RowOf(NextDb(db, e), e.i), LastReading(e))
  {
    VerifyShape(db, e);
    var row' := RowOf(NextDb(db, e), e.i);
    if Lived(db, e, e.i) == [] {
      assert l + [] == l;
      IntentLater(l, RowOf(db, e.i), row', now, LastReading(e));
    } else {
      var c := db.challenges[e.i];
      var tried := c.(attempts := c.attempts + 1);
      var r := CodeCompared(e.otp, c.otp == e.otp);
      ComparedKeeps(l, c, e.otp, now);
      if Lived(db, e, e.i) == [r] {
        IntentLater(l + [r], Some(tried), row', now, LastReading(e));
      } else {
        AcceptedKeeps(l + [r], tried, e.token, e.vt.verifiedAt, now);
        assert l + [r, CodeAccepted(e.token)] == l + [r] + [CodeAccepted(e.token)];
        IntentLater(l + [r, CodeAccepted(e.token)],
          Some(tried.(verifiedAt := Some(e.vt.verifiedAt), token := Some(e.token))), row', now, LastReading(e));
      }
    }
  }

  lemma {:induction false} SubmitKeeps(db: Database, e: Event, i: Intent, l: Life, now: int)
    requires e.ESubmit? && ReadingsOrdered(e) && now <= FirstReading(e) && Subject(e) == Some(i)
    requires IntentOk(l, RowOf(db, i), now)
    ensures IntentOk(l + Lived(db, e, i), RowOf(NextDb(db, e), i), LastReading(e))
  {
    SubmitShape(db, e.s, e.t, e.w);
    SpendingOf(db, e.s, e.t, e.w);
    if i in Spending(db.challenges, NextDb(db, e).challenges) {
      SpentKeeps(l, db.challenges[i], e.t.consume, now);
    } else {
      assert l + [] == l;
    }
  }

  lemma {:induction false} SubjectKeeps(sys: Sys, e: Event, i: Intent)
    requires Inv(sys) && Enabled(sys, e) && Subject(e) == Some(i)
    ensures IntentOk(LifeOf(sys.lives, i) + Lived(sys.db, e, i), RowOf(NextDb(sys.db, e), i), LastReading(e))
  {
    var l := LifeOf(sys.lives, i);
    assert IntentOk(l, RowOf(sys.db, i), sys.now);
    match e
    case ECreate(_, _, _, _, _, _, _) => CreateKeeps(sys.db, e, l, sys.now);
    case EResend(_, _, _, _, _, _) => ResendKeeps(sys.db, e, l, sys.now);
    case EVerify(_, _, _, _, _, _, _) => VerifyKeeps(sys.db, e, l, sys.now);
    case EUndelivered(_, _, _) => assert l + [] == l;
    case ESubmit(_, _, _) => SubmitKeeps(sys.db, e, i, l, sys.now);
    case _ =>
  }

  lemma {:induction false} TimeAdvances(sys: Sys, e: Event)
    requires Enabled(sys, e)
    ensures sys.now <= FirstReading(e) <= LastReading(e) == Step(sys, e).now
  {}

  lemma {:induction false} DbKeeps(db: Database, e: Event)
    requires DbOk(db)
    ensures DbOk(NextDb(db, e))
    ensures forall id :: id in db.history ==> id in NextDb(db, e).history && NextDb(db, e).history[id] == db.history[id]
  {
    if e.ESubmit? { SubmitShape(db, e.s, e.t, e.w); }
  }

  lemma {:induction false} StepKeeps(sys: Sys, e: Event)
    requires Inv(sys) && Enabled(sys, e)
    ensures Inv(Step(sys, e))
  {
    TimeAdvances(sys, e);
    DbKeeps(sys.db, e);
    var sys' := Step(sys, e);
    forall i ensures IntentOk(LifeOf(sys'.lives, i), RowOf(sys'.db, i), sys'.now) {
      if Subject(e) == Some(i) {
        SubjectKeeps(sys, e, i);
      } else {
        OtherIntent(sys.db, e, i);
        assert IntentOk(LifeOf(sys.lives, i), RowOf(sys.db, i), sys.now);
        IntentLater(LifeOf(sys.lives, i), RowOf(sys.db, i), RowOf(sys'.db, i), sys.now, sys'.now);
      }
    }
  }

  lemma {:induction false} RunsKeepInv(run: seq<Event>)
    requires IsRun(run)
    ensures Inv(After(run))
  {
    if run != [] {
      RunsKeepInv(run[..|run| - 1]);
      StepKeeps(After(run[..|run| - 1]), run[|run| - 1]);
    }
  }

  // ---------- the life of an intent ----------

  /** Three sends, five comparisons for each of them, fifteen in all, and a minute between sends. */
  lemma {:induction false} SendsAndComparisons(run: seq<Event>, i: Intent)
    requires IsRun(run)
    ensures var l := LifeOf(After(run).lives, i);
      && Sends(l) <= 3 && Comparisons(l) <= 15
      && (forall q :: 0 <= q <= |l| ==> ComparisonsSince(l[..q]) <= 5)
      && (forall p, q :: 0 <= p < q < |l| && l[p].CodeSent? && l[q].CodeSent? ==> l[p].sentAt + COOLDOWN <= l[q].sentAt)
  {
    RunsKeepInv(run);
    var l := LifeOf(After(run).lives, i);
    assert IntentOk(l, RowOf(After(run).db, i), After(run).now);
    assert l[..|l|] == l;
  }

  /** A token is spent at most once, less than ten minutes after the latest send, whose code was matched; nothing
      is sent or compared once a code was accepted. */
  lemma {:induction false} SpentOnceInTime(run: seq<Event>, i: Intent)
    requires IsRun(run)
    ensures var l := LifeOf(After(run).lives, i);
      && Spends(l) <= 1
      && (forall q :: 0 <= q < |l| ==> SpentInTime(l, q))
      && (forall p, q :: 0 <= p < q < |l| && l[p].CodeAccepted? ==> l[q].TokenSpent?)
  {
    RunsKeepInv(run);
    assert IntentOk(LifeOf(After(run).lives, i), RowOf(After(run).db, i), After(run).now);
  }

  /** A claim consumes the token in exactly these cases: the row is there under that email, the life of the intent
      shows that very token accepted and none spent, and the latest send is less than ten minutes old. */
  lemma {:induction false} ConsumeSucceedsIff(run: seq<Event>, i: Intent, email: Digest, token: Digest, t: ConsumeTimes)
    requires IsRun(run)
    ensures var sys := After(run); var l := LifeOf(sys.lives, i); var latest := LatestSend(l);
      MayConsume(sys.db.challenges, i, email, token, t) <==>
        && Found(sys.db.challenges, i, email) && CodeAccepted(token) in l && Spends(l) == 0
        && latest.Some? && t.guard < latest.value.expiryFrom + TTL
  {
    RunsKeepInv(run);
    var sys := After(run);
    var l := LifeOf(sys.lives, i);
    assert IntentOk(l, RowOf(sys.db, i), sys.now);
    if Found(sys.db.challenges, i, email) && CodeAccepted(token) in l {
      var c := sys.db.challenges[i];
      var p :| 0 <= p < |l| && l[p] == CodeAccepted(token);
      var q :| 0 <= q < |l| && l[q] == CodeAccepted(c.token.value);
      assert !(p < q) && !(q < p);
    }
  }

  /** The row is gone, or only its consumption, which happens once, is new. */
  ghost predicate Frozen(c: Challenge, row: Option<Challenge>) {
    row.Some? ==> row.value == c.(consumedAt := row.value.consumedAt) && (c.consumedAt.Some? ==> row.value == c)
  }

  lemma {:induction false} FrozenRow(db: Database, e: Event, i: Intent)
    requires i in db.challenges && db.challenges[i].verifiedAt.Some?
    ensures Frozen(db.challenges[i], RowOf(NextDb(db, e), i))
  {
    if e.ESubmit? { SubmitShape(db, e.s, e.t, e.w); }
  }

  lemma {:induction false} AbsentRow(db: Database, e: Event, i: Intent)
    requires i !in db.challenges && !(e.ECreate? && e.i == i)
    ensures i !in NextDb(db, e).challenges
  {
    if e.ESubmit? { SubmitShape(db, e.s, e.t, e.w); }
  }

  lemma {:induction false} LivesGrow(sys: Sys, e: Event, i: Intent)
    ensures LifeOf(Step(sys, e).lives, i) == LifeOf(sys.lives, i) + if Subject(e) == Some(i) then Lived(sys.db, e, i) else []
  {}

  lemma {:induction false} FrozenStep(sys: Sys, e: Event, i: Intent)
    requires Enabled(sys, e) && LifeOf(sys.lives, i) != []
    requires i in sys.db.challenges ==> sys.db.challenges[i].verifiedAt.Some?
    ensures LifeOf(Step(sys, e).lives, i) != []
    ensures if i in sys.db.challenges then Frozen(sys.db.challenges[i], RowOf(Step(sys, e).db, i)) else i !in Step(sys, e).db.challenges
  {
    LivesGrow(sys, e, i);
    if i in sys.db.challenges { FrozenRow(sys.db, e, i); } else { AbsentRow(sys.db, e, i); }
  }

  /** A verified challenge never changes its code, token, counters or expiry again, and never comes back. */
  lemma {:induction false} VerifiedIsFrozen(run: seq<Event>, more: seq<Event>, i: Intent)
    requires IsRun(run + more) && i in After(run).db.challenges && After(run).db.challenges[i].verifiedAt.Some? && IsRun(run)
    ensures LifeOf(After(run + more).lives, i) != []
    ensures Frozen(After(run).db.challenges[i], RowOf(After(run + more).db, i))
  {
    if more == [] {
      assert run + more == run;
      RunsKeepInv(run);
      assert IntentOk(LifeOf(After(run).lives, i), RowOf(After(run).db, i), After(run).now);
    } else {
      var n := |more| - 1;
      var all := run + more;
      assert all[..|all| - 1] == run + more[..n];
      VerifiedIsFrozen(run, more[..n], i);
      FrozenStep(After(run + more[..n]), more[n], i);
    }
  }

  /** A failed delivery removes a challenge exactly when its code is that of the latest send and nothing was
      verified; so the failure of an older code removes a newer challenge only when both codes are the same. */
  lemma {:induction false} UndeliveredRemovesIff(run: seq<Event>, i: Intent, otp: Digest, at: int)
    requires IsRun(run) && i in After(run).db.challenges
    ensures var sys := After(run); var latest := LatestSend(LifeOf(sys.lives, i));
      latest.Some? && (i !in NextDb(sys.db, EUndelivered(i, otp, at)).challenges <==>
        latest.value.otp == otp && sys.db.challenges[i].verifiedAt.None?)
  {
    RunsKeepInv(run);
    assert IntentOk(LifeOf(After(run).lives, i), RowOf(After(run).db, i), After(run).now);
  }

  /** After the run the intent has been sent two codes, and the failed delivery of `otp` removes its challenge. */
  ghost predicate RemovedBySecond(run: seq<Event>, i: Intent, otp: Digest) {
    var sys := After(run);
    && IsRun(run) && Sends(LifeOf(sys.lives, i)) == 2 && i in sys.db.challenges
    && i !in NextDb(sys.db, EUndelivered(i, otp, sys.now)).challenges
  }

  lemma {:induction false} RunGrows(run: seq<Event>, e: Event)
    requires IsRun(run) && Enabled(After(run), e)
    ensures IsRun(run + [e]) && After(run + [e]) == Step(After(run), e)
  {
    assert (run + [e])[..|run|] == run;
  }

  /** A first send, and the same code again after the cooldown. */
  ghost predicate FirstSendEvent(e: Event, i: Intent, otp: Digest) {
    e.ECreate? && e.i == i && e.otp == otp && e.verdict == Allowed && e.sentAt == e.expiryFrom == e.sweep.now == 0
  }

  ghost predicate SecondSendEvent(e: Event, i: Intent, email: Digest, otp: Digest) {
    && e.EResend? && e.i == i && e.email == email && e.otp == otp && e.verdict == Allowed
    && ResendOrdered(e.rt) && e.rt.recheck == e.rt.checkExpiry == e.sweep.now == 2 * COOLDOWN
  }

  lemma {:induction false} AfterFirst(i: Intent, otp: Digest, e: Event)
    requires FirstSendEvent(e, i, otp)
    ensures Enabled(INIT, e)
    ensures var sys := Step(INIT, e);
      i in sys.db.challenges && sys.db.challenges[i] == FirstSend(e.email, otp, 0, 0) && sys.now == 0
  {}

  lemma {:induction false} AfterSecond(sys: Sys, i: Intent, email: Digest, otp: Digest, e: Event)
    requires i in sys.db.challenges && sys.db.challenges[i] == FirstSend(email, otp, 0, 0) && sys.now == 0
    requires SecondSendEvent(e, i, email, otp)
    ensures Enabled(sys, e)
    ensures i in Step(sys, e).db.challenges
    ensures var c := Step(sys, e).db.challenges[i]; c.sends == 2 && c.otp == otp && Open(c)
  {
    assert EarlyRefusal(sys.db.challenges, i, email, e.rt).None? && RenewGuard(sys.db.challenges[i], e.rt);
  }

  lemma {:induction false} TwoSends(i: Intent, otp: Digest, first: Event, second: Event)
    requires FirstSendEvent(first, i, otp) && SecondSendEvent(second, i, first.email, otp)
    ensures RemovedBySecond([] + [first] + [second], i, otp)
  {
    AfterFirst(i, otp, first);
    RunGrows([], first);
    AfterSecond(After([] + [first]), i, first.email, otp, second);
    RunGrows([] + [first], second);
    SecondSendLost([] + [first] + [second], i, otp);
  }

  lemma {:induction false} SecondSendLost(run: seq<Event>, i: Intent, otp: Digest)
    requires IsRun(run) && i in After(run).db.challenges
    requires var c := After(run).db.challenges[i]; c.sends == 2 && c.otp == otp && Open(c)
    ensures RemovedBySecond(run, i, otp)
  {
    RunsKeepInv(run);
    assert IntentOk(LifeOf(After(run).lives, i), RowOf(After(run).db, i), After(run).now);
  }

  /** The exception does occur: the same code drawn twice, the first delivery fails late. */
  lemma {:induction false} SameCodeRemoved(i: Intent, email: Digest, otp: Digest)
    ensures exists run :: RemovedBySecond(run, i, otp)
  {
    var t := 2 * COOLDOWN;
    var first := ECreate(i, email, otp, Allowed, 0, 0, Sweep({}, 0));
    var second := EResend(i, email, otp, Allowed, ResendTimes(t, t, t, t, t, t, t), Sweep({}, t));
    TwoSends(i, otp, first, second);
  }
}
