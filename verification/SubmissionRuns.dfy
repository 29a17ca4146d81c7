/** Over whole runs: a token is consumed exactly by the transaction that inserts its report, and a retry of a
    recorded attempt finds that report. */
module SubmissionRuns {
  import opened EmailChallenges
  import opened SubmissionModel
  import opened VerificationRuns
  import opened Options
  import Text = AddressText

  /** Verification is on: every submission has to be authorised. */
  predicate Verifying(run: seq<Event>) { forall k :: 0 <= k < |run| && run[k].ESubmit? ==> !run[k].s.auth.NotRequired? }

  // ---------- one token, one report ----------

  ghost predicate ConsumedBefore(effects: seq<Effect>, i: Intent) { exists n :: 0 <= n < |effects| && i in effects[n].consumed }

  ghost predicate InsertedBefore(effects: seq<Effect>, id: nat) { exists n :: 0 <= n < |effects| && id in effects[n].inserted }

  ghost predicate Paired(f: Effect) {
    f == Effect({}, {}) || exists i, id :: f == Effect({i}, {id})
  }

  function Total(effects: seq<Effect>): nat {
    if effects == [] then 0 else Total(effects[..|effects| - 1]) + |effects[|effects| - 1].consumed|
  }

  /** Each transaction pairs a token with a report, and no token or report occurs in two of them. */
  ghost predicate EffectsOk(effects: seq<Effect>) {
    && (forall n :: 0 <= n < |effects| ==> Paired(effects[n]))
    && (forall m, n :: 0 <= m < n < |effects| ==>
          effects[m].consumed !! effects[n].consumed && effects[m].inserted !! effects[n].inserted)
  }

  ghost predicate PairOk(sys: Sys) {
    && EffectsOk(sys.effects)
    && (forall i :: i in sys.db.challenges ==> (sys.db.challenges[i].consumedAt.Some? <==> ConsumedBefore(sys.effects, i)))
    && (forall id :: id in sys.db.history <==> InsertedBefore(sys.effects, id))
    && (forall i :: ConsumedBefore(sys.effects, i) ==> LifeOf(sys.lives, i) != [])
    && |sys.db.history| == Total(sys.effects)
  }

  function EffectOf(db: Database, e: Event): Effect {
    Effect(Spending(db.challenges, NextDb(db, e).challenges), NextDb(db, e).history.Keys - db.history.Keys)
  }

  /** The step either consumes one token and inserts one new row, or does neither. */
  ghost predicate FilesOne(db: Database, e: Event, i: Intent) {
    && EffectOf(db, e) == Effect({i}, {db.nextId}) && db.nextId !in db.history && Subject(e) == Some(i)
    && i in db.challenges && db.challenges[i].consumedAt.None?
    && i in NextDb(db, e).challenges && NextDb(db, e).challenges[i].consumedAt.Some?
    && NextDb(db, e).history.Keys == db.history.Keys + {db.nextId}
  }

  lemma {:induction false} OtherEffect(db: Database, e: Event)
    requires !e.ESubmit?
    ensures EffectOf(db, e) == Effect({}, {}) && NextDb(db, e).history == db.history
  {}

  lemma {:induction false} SubmitEffect(db: Database, e: Event)
    requires DbOk(db) && e.ESubmit? && !e.s.auth.NotRequired?
    ensures (e.s.auth.Claim? && FilesOne(db, e, e.s.auth.intent)) || (EffectOf(db, e) == Effect({}, {}) && NextDb(db, e).history == db.history)
  {
    SubmitShape(db, e.s, e.t, e.w);
    SpendingOf(db, e.s, e.t, e.w);
    var db' := Submit(db, e.s, e.t, e.w).0;
    if e.s.auth.Claim? && Authorized(db.challenges, e.s.auth, e.t.consume) && db' == Filed(db, e.s, e.t) {
      assert db'.history.Keys - db.history.Keys == {db.nextId};
    }
  }

  /** Rows that neither change their consumption nor appear anew keep it. */
  lemma {:induction false} ConsumptionFrame(db: Database, e: Event, i: Intent)
    requires i in NextDb(db, e).challenges && i !in EffectOf(db, e).consumed
    ensures (i in db.challenges && NextDb(db, e).challenges[i].consumedAt == db.challenges[i].consumedAt)
      || (e.ECreate? && e.i == i && NextDb(db, e).challenges[i].consumedAt.None?)
  {
    if e.ESubmit? {
      SubmitShape(db, e.s, e.t, e.w);
      SpendingOf(db, e.s, e.t, e.w);
    }
  }

  lemma {:induction false} EffectsGrow(effects: seq<Effect>, f: Effect)
    ensures forall i :: ConsumedBefore(effects + [f], i) <==> ConsumedBefore(effects, i) || i in f.consumed
    ensures forall id :: InsertedBefore(effects + [f], id) <==> InsertedBefore(effects, id) || id in f.inserted
    ensures Total(effects + [f]) == Total(effects) + |f.consumed|
  {
    var all := effects + [f];
    assert all[..|effects|] == effects && all[|effects|] == f;
    forall i ensures ConsumedBefore(all, i) <==> ConsumedBefore(effects, i) || i in f.consumed {
      if ConsumedBefore(effects, i) {
        var n :| 0 <= n < |effects| && i in effects[n].consumed;
        assert i in all[n].consumed;
      }
    }
    forall id ensures InsertedBefore(all, id) <==> InsertedBefore(effects, id) || id in f.inserted {
      if InsertedBefore(effects, id) {
        var n :| 0 <= n < |effects| && id in effects[n].inserted;
        assert id in all[n].inserted;
      }
    }
  }

  lemma {:induction false} EffectsStayOk(effects: seq<Effect>, f: Effect)
    requires EffectsOk(effects) && Paired(f)
    requires forall i :: i in f.consumed ==> !ConsumedBefore(effects, i)
    requires forall id :: id in f.inserted ==> !InsertedBefore(effects, id)
    ensures EffectsOk(effects + [f])
  {
    forall n | 0 <= n < |effects| ensures effects[n].consumed !! f.consumed && effects[n].inserted !! f.inserted {
      assert forall i :: i in effects[n].consumed ==> ConsumedBefore(effects, i);
      assert forall id :: id in effects[n].inserted ==> InsertedBefore(effects, id);
    }
  }

  lemma {:induction false} QuietStepKeepsPairs(sys: Sys, e: Event)
    requires PairOk(sys) && Enabled(sys, e)
    requires EffectOf(sys.db, e) == Effect({}, {}) && NextDb(sys.db, e).history == sys.db.history
    ensures PairOk(Step(sys, e))
  {
    var sys' := Step(sys, e);
    var f := EffectOf(sys.db, e);
    assert sys'.effects == sys.effects + [f];
    EffectsGrow(sys.effects, f);
    EffectsStayOk(sys.effects, f);
    forall i | i in sys'.db.challenges
      ensures sys'.db.challenges[i].consumedAt.Some? <==> ConsumedBefore(sys'.effects, i)
    {
      ConsumptionFrame(sys.db, e, i);
    }
    forall i | ConsumedBefore(sys'.effects, i) ensures LifeOf(sys'.lives, i) != [] { LivesGrow(sys, e, i); }
  }

  lemma {:induction false} FilingStepKeepsPairs(sys: Sys, e: Event, j: Intent)
    requires PairOk(sys) && Enabled(sys, e) && FilesOne(sys.db, e, j) && e.ESubmit?
    ensures PairOk(Step(sys, e))
  {
    var sys' := Step(sys, e);
    var f := EffectOf(sys.db, e);
    assert sys'.effects == sys.effects + [f];
    EffectsGrow(sys.effects, f);
    EffectsStayOk(sys.effects, f);
    forall i | i in sys'.db.challenges
      ensures sys'.db.challenges[i].consumedAt.Some? <==> ConsumedBefore(sys'.effects, i)
    {
      if i != j { ConsumptionFrame(sys.db, e, i); }
    }
    forall i | ConsumedBefore(sys'.effects, i) ensures LifeOf(sys'.lives, i) != [] {
      LivesGrow(sys, e, i);
      assert i == j ==> Lived(sys.db, e, i) != [];
    }
    assert |sys'.db.history.Keys| == |sys.db.history.Keys| + 1;
  }

  /** In every reachable state: each transaction consumed one token and inserted one report, or neither; a
      challenge is marked consumed exactly when one transaction consumed it, no token or row occurs twice, and
      there are as many reports as consumed tokens. */
  lemma {:induction false} ConsumedIffFiled(run: seq<Event>)
    requires IsRun(run) && Verifying(run)
    ensures PairOk(After(run))
  {
    if run == [] {
      assert |INIT.db.history| == 0;
    } else {
      var n := |run| - 1;
      ConsumedIffFiled(run[..n]);
      RunsKeepInv(run[..n]);
      var sys, e := After(run[..n]), run[n];
      if e.ESubmit? {
        SubmitEffect(sys.db, e);
        if e.s.auth.Claim? && FilesOne(sys.db, e, e.s.auth.intent) {
          FilingStepKeepsPairs(sys, e, e.s.auth.intent);
        } else {
          QuietStepKeepsPairs(sys, e);
        }
      } else {
        OtherEffect(sys.db, e);
        QuietStepKeepsPairs(sys, e);
      }
    }
  }

  // ---------- receipts ----------

  lemma {:induction false} ReceiptStep(db: Database, e: Event, a: string)
    requires DbOk(db) && ReadingsOrdered(e) && a in db.receipts && LastReading(e) < db.receipts[a].expiresAt
    ensures var db' := NextDb(db, e); a in db'.receipts && db'.receipts[a] == db.receipts[a]
  {
    if e.ESubmit? {
      SubmitShape(db, e.s, e.t, e.w);
      if LowerAttempt(e.s) == Some(a) { RetryAnswer(db, e.s, e.t, e.w, a); }
    }
  }

  /** A submission whose attempt id, in any letter case, has an unexpired receipt changes nothing; it is answered
      with the recorded report unless a query fails. */
  lemma {:induction false} RetryAnswer(db: Database, s: Submission, t: Times, w: Weather, a: string)
    requires DbOk(db) && LowerAttempt(s) == Some(a) && a in db.receipts && t.select < db.receipts[a].expiresAt
    ensures Submit(db, s, t, w).0 == db
    ensures s.inputOk && AttemptIdOk(s.attempt.value) && w.fails == {} ==>
      Submit(db, s, t, w).1 == Duplicate(db.receipts[a].historyId, db.history[db.receipts[a].historyId].submittedAt)
    ensures !Submit(db, s, t, w).1.Recorded?
  {}

  lemma {:induction false} RunPrefix(run: seq<Event>, more: seq<Event>)
    requires IsRun(run + more)
    ensures IsRun(run) && After(run).now <= After(run + more).now
  {
    if more == [] {
      assert run + more == run;
    } else {
      var all, n := run + more, |more| - 1;
      assert all[..|all| - 1] == run + more[..n];
      RunPrefix(run, more[..n]);
      TimeAdvances(After(run + more[..n]), more[n]);
    }
  }

  lemma {:induction false} ReceiptKept(run: seq<Event>, more: seq<Event>, a: string)
    requires IsRun(run + more) && a in After(run).db.receipts && After(run + more).now < After(run).db.receipts[a].expiresAt
    ensures IsRun(run) && DbOk(After(run).db)
    ensures var db, db' := After(run).db, After(run + more).db; var id := db.receipts[a].historyId;
      a in db'.receipts && db'.receipts[a] == db.receipts[a] && id in db'.history && db'.history[id] == db.history[id]
  {
    RunPrefix(run, more);
    RunsKeepInv(run);
    if more == [] {
      assert run + more == run;
    } else {
      var all, n := run + more, |more| - 1;
      assert all[..|all| - 1] == run + more[..n];
      var sys := After(run + more[..n]);
      TimeAdvances(sys, more[n]);
      ReceiptKept(run, more[..n], a);
      RunsKeepInv(run + more[..n]);
      ReceiptStep(sys.db, more[n], a);
      DbKeeps(sys.db, more[n]);
    }
  }

  /** For thirty days after a report was recorded under an attempt id, whatever happens in between, a retry in any
      letter case adds no row and consumes no token, and is answered with the same id unless a query fails. */
  lemma {:induction false} RetryFindsReport(run: seq<Event>, first: Event, more: seq<Event>, s: Submission, t: Times, w: Weather)
    requires first.ESubmit? && Submit(After(run).db, first.s, first.t, first.w).1.Recorded?
    requires IsRun(run + [first] + more) && Enabled(After(run + [first] + more), ESubmit(s, t, w))
    requires first.s.attempt.Some? && s.attempt.Some? && Text.Lower(s.attempt.value) == Text.Lower(first.s.attempt.value)
    requires t.select < first.t.receipt + RECEIPT_TTL
    ensures var db := After(run + [first] + more).db; var recorded := Submit(After(run).db, first.s, first.t, first.w).1;
      && Submit(db, s, t, w).0 == db
      && !Submit(db, s, t, w).1.Recorded?
      && (s.inputOk && w.fails == {} ==> Submit(db, s, t, w).1 == Duplicate(recorded.id, recorded.submittedAt))
  {
    var start := run + [first];
    assert start[..|start| - 1] == run;
    RunPrefix(start, more);
    var a := Text.Lower(first.s.attempt.value);
    SubmitShape(After(run).db, first.s, first.t, first.w);
    assert After(start).db == Filed(After(run).db, first.s, first.t);
    ReceiptKept(start, more, a);
    RunsKeepInv(start + more);
    RetryAnswer(After(start + more).db, s, t, w, a);
    LowerKeepsAttemptId(first.s.attempt.value);
    LowerKeepsAttemptId(s.attempt.value);
  }

  lemma {:induction false} UnauthorizedChangesNothing(db: Database, s: Submission, t: Times, w: Weather)
    requires !Authorized(db.challenges, s.auth, t.consume)
    ensures Submit(db, s, t, w).0 == db && !Submit(db, s, t, w).1.Recorded?
  {}

  /** A consumed token files nothing again, not even after its challenge row or its receipt is gone. */
  lemma {:induction false} SpentTokenRefused(run: seq<Event>, s: Submission, t: Times, w: Weather)
    requires IsRun(run) && Verifying(run) && Enabled(After(run), ESubmit(s, t, w))
    requires s.auth.Claim? && ConsumedBefore(After(run).effects, s.auth.intent)
    ensures var db := After(run).db; Submit(db, s, t, w).0 == db && !Submit(db, s, t, w).1.Recorded?
  {
    ConsumedIffFiled(run);
    UnauthorizedChangesNothing(After(run).db, s, t, w);
  }
}
