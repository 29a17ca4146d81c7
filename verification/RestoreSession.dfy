/** Deadline-bound queries of the controlled restore, and the disposal of its fresh target. What each query does
    in time, late or not at all is an input. */
module RestoreSession {
  import opened Options

  /** Refused because the deadline has passed; answered in time; failed in time; or cut off by the deadline or an
      abort, which destroys the connection. `applied`: the statement took effect all the same. */
  datatype Outcome = NotIssued | Completes | Errors(applied: bool) | Expires(applied: bool)

  predicate TookEffect(o: Outcome) {
    match o
    case NotIssued => false
    case Completes => true
    case Errors(applied) => applied
    case Expires(applied) => applied
  }

  datatype Release = CheckedOut | Healthy | Discarded

  /** The queries around one statement: reading the settings, changing them, the statement, and two resets. */
  datatype Exchange = Exchange(read: Outcome, rowPresent: bool, change: Outcome, main: Outcome, resetStatement: Outcome, resetLock: Outcome)

  predicate Reaches(q: Exchange) { q.read.Completes? && q.rowPresent && q.change.Completes? }

  predicate Smooth(q: Exchange) { Reaches(q) && q.main.Completes? && q.resetStatement.Completes? && q.resetLock.Completes? }

  predicate Took(q: Exchange) { Reaches(q) && TookEffect(q.main) }

  /** The exchanges after which the session can no longer be trusted. */
  predicate Distrusts(q: Exchange) {
    || q.read.Expires?
    || (q.read.Completes? && !q.rowPresent)
    || (q.read.Completes? && (q.change.Expires? || (q.change.Completes? && q.main.Expires?)
          || !q.resetStatement.Completes? || !q.resetLock.Completes?))
  }

  /** A client that answered is still trusted. */
  lemma {:induction false} SmoothIsTrusted(q: Exchange)
    ensures Smooth(q) ==> !Distrusts(q) && Took(q)
  {}

  class RestoreClient {
    var statementTimeout: string
    var lockTimeout: string
    var untrusted: bool
    var release: Release

    method RawQuery(o: Outcome, newStatement: Option<string>, newLock: Option<string>) returns (ok: bool)
      modifies this
      ensures ok <==> o.Completes?
      ensures untrusted == (old(untrusted) || o.Expires?) && release == old(release)
      ensures statementTimeout == if TookEffect(o) && newStatement.Some? then newStatement.value else old(statementTimeout)
      ensures lockTimeout == if TookEffect(o) && newLock.Some? then newLock.value else old(lockTimeout)
    {
      if o.NotIssued? { return false; }
      if TookEffect(o) {
        if newStatement.Some? { statementTimeout := newStatement.value; }
        if newLock.Some? { lockTimeout := newLock.value; }
      }
      if o.Expires? { untrusted := true; }
      return o.Completes?;
    }

    /** On every exit both settings are back or the client is marked untrusted. */
    method QueryWithSessionTimeouts(timeout: string, q: Exchange) returns (ok: bool, took: bool)
      modifies this
      ensures untrusted || (statementTimeout == old(statementTimeout) && lockTimeout == old(lockTimeout))
      ensures !old(untrusted) ==> (ok <==> Smooth(q)) && (untrusted <==> Distrusts(q))
      ensures old(untrusted) ==> untrusted
      ensures took == Took(q) && (ok ==> took)
      ensures release == old(release)
    {
      took := false;
      var read := RawQuery(q.read, None, None);
      if !read { return false, false; }
      var previousStatement, previousLock := statementTimeout, lockTimeout;
      if !q.rowPresent {
        untrusted := true;
        return false, false;
      }
      var result := RawQuery(q.change, Some(timeout), Some(timeout));
      if result {
        result := RawQuery(q.main, None, None);
        took := TookEffect(q.main);
      }
      if !untrusted {
        var resetFailed := false;
        var first := RawQuery(q.resetStatement, Some(previousStatement), None);
        if !first { resetFailed := true; }
        if first || !untrusted {
          var second := RawQuery(q.resetLock, None, Some(previousLock));
          if !second { resetFailed := true; }
        }
        if resetFailed {
          untrusted := true;
          return false, took;
        }
      }
      return result, took;
    }

    /** A client is handed back as healthy only without a discard reason. */
    method ReleaseWith(discard: bool)
      requires release == CheckedOut
      modifies this
      ensures release == (if discard then Discarded else Healthy)
      ensures untrusted == old(untrusted) && statementTimeout == old(statementTimeout) && lockTimeout == old(lockTimeout)
    {
      release := if discard then Discarded else Healthy;
    }

    /** A pool query: connect, ask, release. */
    method QueryPoolWithinDeadline(timeout: string, late: bool, q: Exchange) returns (ok: bool)
      requires release == CheckedOut && !untrusted
      modifies this
      ensures release == Healthy ==> !untrusted && statementTimeout == old(statementTimeout) && lockTimeout == old(lockTimeout)
      ensures release != CheckedOut
      ensures ok ==> Smooth(q) && release == Healthy
    {
      var answered, _ := QueryWithSessionTimeouts(timeout, q);
      ok := answered && !late;
      ReleaseWith(!ok && untrusted);
    }
  }

  // ---------- the target database ----------

  /** `abandoned`: a CREATE DATABASE whose client is gone may still be running on the server. */
  datatype Target = Target(present: bool, abandoned: bool)

  /** An abandoned CREATE may finish between any two statements. */
  function Meanwhile(t: Target, lands: bool): Target {
    if t.abandoned && lands then Target(true, false) else t
  }

  /** One poll of the sessions of the target: the exchange and the count it reads. */
  datatype Poll = Poll(q: Exchange, sessions: nat)

  datatype Disposal = Disposal(drain: seq<Poll>, landsBeforeDrop: bool, drop: Exchange, landsBeforeCheck: bool, check: Exchange,
                               landsAfterCheck: bool, last: Poll)

  /** Polls are answered until one counts no sessions. */
  predicate Drains(polls: seq<Poll>) {
    |polls| > 0 && Smooth(polls[0].q) && (polls[0].sessions == 0 || Drains(polls[1..]))
  }

  /** What a disposal leaves, whether it returned normally, and whether it saw the target absent. */
  datatype Disposed = Disposed(target: Target, ok: bool, seenAbsent: bool)

  function Dispose(t: Target, d: Disposal): Disposed {
    if !Drains(d.drain) then Disposed(t, false, false) else
    var t1 := Meanwhile(t, d.landsBeforeDrop);
    var t2 := if Took(d.drop) then t1.(present := false) else t1;
    if !Smooth(d.drop) then Disposed(t2, false, false) else
    var t3 := Meanwhile(t2, d.landsBeforeCheck);
    if !Smooth(d.check) || t3.present then Disposed(t3, false, false) else
    Disposed(Meanwhile(t3, d.landsAfterCheck), Smooth(d.last.q) && d.last.sessions == 0, true)
  }

  method WaitForSessionsClosed(c: RestoreClient, polls: seq<Poll>) returns (ok: bool)
    requires !c.untrusted
    modifies c
    ensures c.untrusted || (c.statementTimeout == old(c.statementTimeout) && c.lockTimeout == old(c.lockTimeout))
    ensures (ok <==> Drains(polls)) && (ok ==> !c.untrusted) && c.release == old(c.release)
  {
    var k := 0;
    while k < |polls|
      invariant 0 <= k <= |polls|
      invariant !c.untrusted && c.statementTimeout == old(c.statementTimeout) && c.lockTimeout == old(c.lockTimeout)
      invariant c.release == old(c.release)
      invariant Drains(polls) <==> Drains(polls[k..])
    {
      assert polls[k..][1..] == polls[k + 1..];
      SmoothIsTrusted(polls[k].q);
      var answered, _ := c.QueryWithSessionTimeouts("1000ms", polls[k].q);
      if !answered { return false; }
      if polls[k].sessions == 0 { return true; }
      k := k + 1;
    }
    return false;
  }

  class RestoreServer {
    var target: Target

    method DropTargetAfterDrain(c: RestoreClient, d: Disposal) returns (ok: bool, ghost seenAbsent: bool)
      requires !c.untrusted
      modifies c, this
      ensures c.untrusted || (c.statementTimeout == old(c.statementTimeout) && c.lockTimeout == old(c.lockTimeout))
      ensures (ok ==> !c.untrusted) && c.release == old(c.release)
      ensures Disposed(target, ok, seenAbsent) == Dispose(old(target), d)
    {
      seenAbsent := false;
      SmoothIsTrusted(d.drop);
      SmoothIsTrusted(d.check);
      SmoothIsTrusted(d.last.q);
      ok := WaitForSessionsClosed(c, d.drain);
      if !ok { return; }
      target := Meanwhile(target, d.landsBeforeDrop);
      var took;
      ok, took := c.QueryWithSessionTimeouts("10000ms", d.drop);
      if took { target := target.(present := false); }
      if !ok { return; }
      target := Meanwhile(target, d.landsBeforeCheck);
      ok, took := c.QueryWithSessionTimeouts("1000ms", d.check);
      if !ok || target.present { return false, false; }
      seenAbsent := true;
      target := Meanwhile(target, d.landsAfterCheck);
      ok, took := c.QueryWithSessionTimeouts("1000ms", d.last.q);
      ok := ok && d.last.sessions == 0;
    }
  }

  // ---------- the restore ----------

  datatype Report = Complete | PreflightFailed | FreshTargetDiscarded | CleanupUnconfirmed

  /** What happens during one restore. `stages`: everything between creating and verifying the target succeeds. */
  datatype Script = Script(
    connects: bool, lookup: Exchange, lateAfterLookup: bool, create: Exchange, lingers: bool, lateAfterCreate: bool,
    stages: bool, drain: seq<Poll>, verify: Exchange, lateAfterVerify: bool, poolsEnd: bool, reconnects: bool,
    disposal: Disposal, pgpassRemoved: bool)

  /** CREATE is sent only after the name was seen to be free. */
  predicate SendsCreate(t: Target, s: Script) { s.connects && Smooth(s.lookup) && !s.lateAfterLookup && !t.present }

  predicate AbandonsCreate(s: Script) { Reaches(s.create) && s.create.main == Expires(false) && s.lingers }

  function AfterCreate(t: Target, s: Script): Target {
    if Took(s.create) then t.(present := true) else if AbandonsCreate(s) then t.(abandoned := true) else t
  }

  predicate Verifies(t: Target, s: Script) {
    && Smooth(s.create) && !s.lateAfterCreate && s.stages && Drains(s.drain) && Smooth(s.verify)
    && AfterCreate(t, s).present && !s.lateAfterVerify
  }

  datatype Restored = Restored(report: Report, target: Target, seenAbsent: bool)

  /** `usable`: the first admin client is still trusted when the cleanup begins; otherwise another is needed. */
  function Restore(t: Target, s: Script, usable: bool): Restored {
    var sent := SendsCreate(t, s);
    var t1 := if sent then AfterCreate(t, s) else t;
    if sent && Verifies(t, s) then Restored(Complete, t1, false) else
    var disposed := if sent && (usable || s.reconnects) then Dispose(t1, s.disposal) else Disposed(t1, !sent, false);
    var confirmed := s.poolsEnd && disposed.ok && s.pgpassRemoved;
    Restored(
      if !confirmed then CleanupUnconfirmed else if sent then FreshTargetDiscarded else PreflightFailed,
      disposed.target, disposed.seenAbsent)
  }

  /** The target part of the restore: at most two admin clients, none of them handed back as healthy once it is
      untrusted or its settings differ. */
  method RestoreToFreshTarget(first: RestoreClient, second: RestoreClient, server: RestoreServer, s: Script)
    returns (report: Report, ghost seenAbsent: bool, ghost usable: bool)
    requires first != second && first.release == CheckedOut && second.release == CheckedOut && !first.untrusted && !second.untrusted
    modifies first, second, server
    ensures Restored(report, server.target, seenAbsent) == Restore(old(server.target), s, usable)
    ensures first.release == Healthy ==>
      !first.untrusted && first.statementTimeout == old(first.statementTimeout) && first.lockTimeout == old(first.lockTimeout)
    ensures second.release == Healthy ==>
      !second.untrusted && second.statementTimeout == old(second.statementTimeout) && second.lockTimeout == old(second.lockTimeout)
    ensures s.connects ==> first.release != CheckedOut
  {
    var targetMayExist := false;
    seenAbsent, usable := false, false;
    if s.connects {
      var looked, took := first.QueryWithSessionTimeouts("remaining", s.lookup);
      SmoothIsTrusted(s.lookup);
      if looked && !s.lateAfterLookup && !server.target.present {
        targetMayExist := true;
        var verified := CreateAndVerify(first, server, s);
        if verified {
          first.ReleaseWith(false);
          return Complete, false, true;
        }
      }
    }
    var cleanupConfirmed := s.poolsEnd;
    var admin: RestoreClient? := if s.connects then first else null;
    if admin != null && admin.untrusted {
      admin.ReleaseWith(true);
      admin := null;
    }
    usable := admin != null;
    if targetMayExist {
      if admin == null {
        if s.reconnects { admin := second; } else { cleanupConfirmed := false; }
      }
      if admin != null {
        var dropped;
        dropped, seenAbsent := server.DropTargetAfterDrain(admin, s.disposal);
        if !dropped { cleanupConfirmed := false; }
      }
    }
    if !s.pgpassRemoved { cleanupConfirmed := false; }
    if admin != null { admin.ReleaseWith(!cleanupConfirmed || admin.untrusted); }
    report := if !cleanupConfirmed then CleanupUnconfirmed else if targetMayExist then FreshTargetDiscarded else PreflightFailed;
  }

  method CreateAndVerify(c: RestoreClient, server: RestoreServer, s: Script) returns (verified: bool)
    requires !c.untrusted
    modifies c, server
    ensures server.target == AfterCreate(old(server.target), s)
    ensures verified <==> Verifies(old(server.target), s)
    ensures verified ==> !c.untrusted
    ensures c.untrusted || (c.statementTimeout == old(c.statementTimeout) && c.lockTimeout == old(c.lockTimeout))
    ensures c.release == old(c.release)
  {
    SmoothIsTrusted(s.create);
    SmoothIsTrusted(s.verify);
    var created, took := c.QueryWithSessionTimeouts("remaining", s.create);
    if took {
      server.target := server.target.(present := true);
    } else if AbandonsCreate(s) {
      server.target := server.target.(abandoned := true);
    }
    if !created || s.lateAfterCreate || !s.stages { return false; }
    var drained := WaitForSessionsClosed(c, s.drain);
    if !drained { return false; }
    var answered, _ := c.QueryWithSessionTimeouts("1000ms", s.verify);
    return answered && server.target.present && !s.lateAfterVerify;
  }

  // ---------- what the reports mean ----------

  /** A report that the fresh target was discarded: it was seen to be absent, with no sessions left, and it stays
      absent exactly unless CREATE DATABASE was abandoned and had not finished before the drop. */
  lemma {:induction false} DiscardedMeansAbsentIff(t: Target, s: Script, usable: bool)
    requires !t.abandoned && Restore(t, s, usable).report == FreshTargetDiscarded
    ensures Restore(t, s, usable).seenAbsent && s.disposal.last.sessions == 0
    ensures var t' := Restore(t, s, usable).target;
      (t'.present || t'.abandoned) <==> AbandonsCreate(s) && !s.disposal.landsBeforeDrop
  {}

  /** The other reports: complete means present, and a failed preflight, or a name already taken, changes nothing. */
  lemma {:induction false} OtherReports(t: Target, s: Script, usable: bool)
    ensures var r := Restore(t, s, usable);
      && (r.report == Complete ==> r.target.present && !t.present)
      && (r.report == PreflightFailed ==> r.target == t)
      && (t.present ==> r.target == t)
  {}

  /** Every query of the exchange was answered in time, and the settings were read. */
  predicate Answered(q: Exchange) {
    q.rowPresent && forall o :: o in [q.read, q.change, q.main, q.resetStatement, q.resetLock] ==> o == Completes
  }

  /** Some poll counts no sessions, and it and all before it were answered. */
  predicate SessionsGone(polls: seq<Poll>) {
    exists k :: 0 <= k < |polls| && polls[k].sessions == 0 && forall i :: 0 <= i <= k ==> Answered(polls[i].q)
  }

  lemma {:induction false} AnsweredIff(q: Exchange)
    ensures Answered(q) <==> Smooth(q)
  {
    if Answered(q) {
      var all := [q.read, q.change, q.main, q.resetStatement, q.resetLock];
      assert all[0] in all && all[1] in all && all[2] in all && all[3] in all && all[4] in all;
    }
  }

  lemma {:induction false} DrainsIff(polls: seq<Poll>)
    ensures Drains(polls) <==> SessionsGone(polls)
  {
    if polls == [] { return; }
    AnsweredIff(polls[0].q);
    DrainsIff(polls[1..]);
    if SessionsGone(polls[1..]) && Answered(polls[0].q) {
      var k :| 0 <= k < |polls| - 1 && polls[1..][k].sessions == 0 && forall i :: 0 <= i <= k ==> Answered(polls[1..][i].q);
      forall i | 0 <= i <= k + 1 ensures Answered(polls[i].q) { if i > 0 { assert polls[i] == polls[1..][i - 1]; } }
      assert polls[k + 1].sessions == 0;
    }
    if SessionsGone(polls) && polls[0].sessions != 0 {
      var k :| 0 <= k < |polls| && polls[k].sessions == 0 && forall i :: 0 <= i <= k ==> Answered(polls[i].q);
      forall i | 0 <= i <= k - 1 ensures Answered(polls[1..][i].q) { assert polls[1..][i] == polls[i + 1]; }
      assert polls[1..][k - 1].sessions == 0;
    }
  }

  /** The name was seen to be free in time, so CREATE was sent. */
  predicate Sent(t: Target, s: Script) { s.connects && Answered(s.lookup) && !s.lateAfterLookup && !t.present }

  /** CREATE, every stage after it, the closing of the sessions and the last look at the target succeeded in time. */
  predicate Succeeded(s: Script) {
    && Answered(s.create) && !s.lateAfterCreate
    && s.stages && SessionsGone(s.drain)
    && Answered(s.verify) && !s.lateAfterVerify
  }

  /** A restore is complete if and only if CREATE was sent and everything from it to the last look at the target succeeded;
      and then the target is present. */
  lemma {:induction false} CompleteIff(t: Target, s: Script, usable: bool)
    ensures var r := Restore(t, s, usable);
      && (r.report == Complete <==> Sent(t, s) && Succeeded(s))
      && (r.report == Complete ==> r.target.present)
  {
    AnsweredIff(s.lookup);
    AnsweredIff(s.create);
    AnsweredIff(s.verify);
    DrainsIff(s.drain);
  }

  /** The sessions were gone, the drop was answered, the target was then seen absent, and still without sessions. */
  predicate DisposedOf(t: Target, d: Disposal) {
    && SessionsGone(d.drain) && Answered(d.drop) && Answered(d.check) && Answered(d.last.q) && d.last.sessions == 0
    && (t.abandoned && !d.landsBeforeDrop ==> !d.landsBeforeCheck)
  }

  lemma {:induction false} DisposeIff(t: Target, d: Disposal)
    requires t.abandoned ==> !t.present
    ensures Dispose(t, d).ok <==> DisposedOf(t, d)
  {
    AnsweredIff(d.drop);
    AnsweredIff(d.check);
    AnsweredIff(d.last.q);
    DrainsIff(d.drain);
  }

  /** A restore that is not complete reports a discarded target, or a failed preflight when CREATE was never sent, exactly when
      its pools ended, the password file is gone and a fresh target was disposed of; anything else is unconfirmed. */
  lemma {:induction false} FailureReports(t: Target, s: Script, usable: bool)
    requires !t.abandoned && !(Sent(t, s) && Succeeded(s))
    ensures var report := Restore(t, s, usable).report; var tidy := s.poolsEnd && s.pgpassRemoved;
      && (report == PreflightFailed <==> !Sent(t, s) && tidy)
      && (report == FreshTargetDiscarded <==>
            Sent(t, s) && tidy && (usable || s.reconnects) && DisposedOf(AfterCreate(t, s), s.disposal))
      && report != Complete
  {
    CompleteIff(t, s, usable);
    AnsweredIff(s.lookup);
    if Sent(t, s) { DisposeIff(AfterCreate(t, s), s.disposal); }
  }

  const FINE: Exchange := Exchange(Completes, true, Completes, Completes, Completes, Completes)

  /** The exception does occur: CREATE runs into the deadline, the cleanup finds nothing to drop, and the database
      appears afterwards. */
  lemma {:induction false} AbandonedCreateAppears()
    ensures exists s: Script :: var r := Restore(Target(false, false), s, false); r.report == FreshTargetDiscarded && r.target.present
  {
    var cut := FINE.(main := Expires(false));
    var d := Disposal([Poll(FINE, 0)], false, FINE, false, FINE, true, Poll(FINE, 0));
    var s := Script(true, FINE, false, cut, true, false, true, [], FINE, false, true, true, d, true);
    assert Drains(d.drain);
    var r := Restore(Target(false, false), s, false);
    assert r.report == FreshTargetDiscarded && r.target.present;
  }
}
