/** What a submission is answered and what it leaves in the tables: the report that was handed in, under the id and the
    instant of the answer, from then on. */
module SubmissionMeaning {
  import opened EmailChallenges
  import opened SubmissionModel
  import opened VerificationRuns
  import opened SubmissionRuns
  import opened Options
  import Text = AddressText

  const THIRTY_DAYS: int := 30 * 24 * 3600 * 1_000_000

  // ---------- attempt ids ----------

  predicate HexGroup(g: string, n: nat) {
    |g| == n && forall i :: 0 <= i < n ==> ('0' <= g[i] <= '9' || 'a' <= g[i] <= 'f' || 'A' <= g[i] <= 'F')
  }

  /** Groups of 8, 4, 4, 4 and 12 hexadecimal digits; the version is 4 and the variant one of 8, 9, a and b. */
  predicate Groups(gs: seq<string>) {
    && |gs| == 5 && HexGroup(gs[0], 8) && HexGroup(gs[1], 4) && HexGroup(gs[2], 4) && HexGroup(gs[3], 4) && HexGroup(gs[4], 12)
    && gs[2][0] == '4' && gs[3][0] in {'8', '9', 'a', 'b', 'A', 'B'}
  }

  function Dashed(gs: seq<string>): string
    requires |gs| == 5
  {
    gs[0] + "-" + gs[1] + "-" + gs[2] + "-" + gs[3] + "-" + gs[4]
  }

  /** An attempt id is a version 4 UUID. */
  lemma {:induction false} AttemptIdIff(s: string)
    ensures AttemptIdOk(s) <==> exists gs :: Groups(gs) && Dashed(gs) == s
  {
    if AttemptIdOk(s) {
      var gs := [s[..8], s[9..13], s[14..18], s[19..23], s[24..]];
      assert s == s[..8] + [s[8]] + s[9..13] + [s[13]] + s[14..18] + [s[18]] + s[19..23] + [s[23]] + s[24..];
      assert Groups(gs) && Dashed(gs) == s;
    }
    forall gs | Groups(gs) && Dashed(gs) == s ensures AttemptIdOk(s) { GroupsAreId(gs); }
  }

  lemma {:induction false} GroupsAreId(gs: seq<string>)
    requires Groups(gs)
    ensures AttemptIdOk(Dashed(gs))
  {
    var s := Dashed(gs);
    assert s[..8] == gs[0] && s[9..13] == gs[1] && s[14..18] == gs[2] && s[19..23] == gs[3] && s[24..] == gs[4];
    forall i | 0 <= i < 36 ensures if i in {8, 13, 18, 23} then s[i] == '-' else HexDigit(s[i]) {
      if i < 8 { assert s[i] == gs[0][i]; }
      else if 9 <= i < 13 { assert s[i] == gs[1][i - 9]; }
      else if 14 <= i < 18 { assert s[i] == gs[2][i - 14]; }
      else if 19 <= i < 23 { assert s[i] == gs[3][i - 19]; }
      else if 24 <= i { assert s[i] == gs[4][i - 24]; }
    }
  }

  // ---------- when a report is recorded ----------

  predicate WellFormed(s: Submission) { s.inputOk && (s.attempt.Some? ==> AttemptIdOk(s.attempt.value)) }

  /** The queries the transaction of this submission makes on its way to a report. */
  function Needed(s: Submission): set<Query> {
    {Begin, Resolve, Timestamp, Summary, InsertHistory, Commit}
      + (if s.attempt.Some? then {Lock, SelectReceipt, DeleteReceipt, InsertReceipt} else {})
      + (if s.auth.Claim? then {Authorize} else {})
  }

  /** The attempt, in any letter case, has a receipt that has not expired. */
  predicate HasReceipt(db: Database, s: Submission, now: int) {
    s.attempt.Some? && Text.Lower(s.attempt.value) in db.receipts && now < db.receipts[Text.Lower(s.attempt.value)].expiresAt
  }

  /** Nothing is required, or the claim names an intent that was verified with this email and token in time, not yet used. */
  predicate MayFile(cs: Challenges, auth: Authorization, now: int) {
    match auth
    case NotRequired => true
    case NoClaim => false
    case Claim(i, email, token) =>
      && i in cs && cs[i].email == email && cs[i].token == Some(token)
      && cs[i].verifiedAt.Some? && cs[i].consumedAt.None? && now < cs[i].expiresAt
  }

  predicate Fileable(db: Database, s: Submission, t: Times) {
    WellFormed(s) && !HasReceipt(db, s, t.select) && s.targetOk && MayFile(db.challenges, s.auth, t.consume.guard)
  }

  // ---------- what is written ----------

  /** One new row, under the next id, with this report and instant; a receipt for the attempt; the claim's token used up;
      and everything else as it was. */
  ghost predicate Writes(db: Database, s: Submission, t: Times, db': Database) {
    && db'.nextId == db.nextId + 1
    && db'.history.Keys == db.history.Keys + {db.nextId}
    && db'.history[db.nextId] == HistoryRow(t.submittedAt, s.report)
    && (forall id :: id in db.history && id != db.nextId ==> db'.history[id] == db.history[id])
    && ReceiptWritten(db, s, t, db')
    && TokenUsed(db.challenges, s.auth, t, db'.challenges)
  }

  ghost predicate ReceiptWritten(db: Database, s: Submission, t: Times, db': Database) {
    if s.attempt.None? then db'.receipts == db.receipts
    else
      var a := Text.Lower(s.attempt.value);
      && db'.receipts.Keys == db.receipts.Keys + {a}
      && db'.receipts[a] == Receipt(db.nextId, t.receipt + THIRTY_DAYS)
      && forall b :: b in db.receipts && b != a ==> db'.receipts[b] == db.receipts[b]
  }

  ghost predicate TokenUsed(cs: Challenges, auth: Authorization, t: Times, cs': Challenges) {
    if !auth.Claim? then cs' == cs
    else
      && cs'.Keys == cs.Keys && auth.intent in cs
      && cs'[auth.intent] == cs[auth.intent].(consumedAt := Some(t.consume.consumedAt))
      && forall j :: j in cs && j != auth.intent ==> cs'[j] == cs[j]
  }

  lemma {:induction false} FiledWrites(db: Database, s: Submission, t: Times)
    requires Authorized(db.challenges, s.auth, t.consume)
    ensures Writes(db, s, t, Filed(db, s, t))
  {
    var db' := Filed(db, s, t);
    assert db'.history.Keys == db.history.Keys + {db.nextId};
    if s.attempt.Some? {
      assert db'.receipts.Keys == db.receipts.Keys + {Text.Lower(s.attempt.value)};
    }
    if s.auth.Claim? { assert db'.challenges.Keys == db.challenges.Keys; }
  }

  lemma {:induction false} AuthorizedIff(cs: Challenges, auth: Authorization, t: ConsumeTimes)
    ensures Authorized(cs, auth, t) <==> MayFile(cs, auth, t.guard)
  {}

  /** A submission is recorded exactly when it is well-formed, its attempt has no live receipt, its target resolves, it may
      file and no query it needs fails; then the tables hold its report. */
  lemma {:induction false} RecordedIff(db: Database, s: Submission, t: Times, w: Weather)
    requires DbOk(db) && TimesOrdered(t)
    ensures var (db', outcome) := Submit(db, s, t, w);
      && (outcome.Recorded? <==> Fileable(db, s, t) && Needed(s) !! w.fails)
      && (outcome.Recorded? ==> outcome == Recorded(db.nextId, t.submittedAt) && Writes(db, s, t, db'))
  {
    AuthorizedIff(db.challenges, s.auth, t.consume);
    if Authorized(db.challenges, s.auth, t.consume) { FiledWrites(db, s, t); }
    if Fileable(db, s, t) && Needed(s) !! w.fails { NoneFails(s, w); }
  }

  lemma {:induction false} NoneFails(s: Submission, w: Weather)
    requires Needed(s) !! w.fails
    ensures forall q :: q in Needed(s) ==> q !in w.fails
  {}

  /** A live receipt is answered with its own row, unless the query that looks for it, or the end of the transaction, fails. */
  lemma {:induction false} DuplicateIff(db: Database, s: Submission, t: Times, w: Weather)
    requires DbOk(db)
    ensures var (db', outcome) := Submit(db, s, t, w); var a := if s.attempt.Some? then Text.Lower(s.attempt.value) else "";
      && (outcome.Duplicate? <==> WellFormed(s) && HasReceipt(db, s, t.select) && {Begin, Lock, SelectReceipt, Commit} !! w.fails)
      && (outcome.Duplicate? ==> db' == db && outcome == Duplicate(db.receipts[a].historyId, db.history[db.receipts[a].historyId].submittedAt))
  {}

  /** Any other answer leaves the tables as they were, but for ids drawn and not used, or the whole report written by a commit
      whose failure was reported in error. Refused input and a refused claim have answers of their own. */
  lemma {:induction false} OtherAnswers(db: Database, s: Submission, t: Times, w: Weather)
    requires DbOk(db) && TimesOrdered(t)
    ensures var (db', outcome) := Submit(db, s, t, w);
      && (outcome == Rejected <==> !WellFormed(s))
      && (outcome == Unauthorized ==> !MayFile(db.challenges, s.auth, t.consume.guard) && db' == db)
      && (WellFormed(s) && w.fails == {} && !HasReceipt(db, s, t.select) && s.targetOk ==>
            (outcome == Unauthorized <==> !MayFile(db.challenges, s.auth, t.consume.guard)))
      && (!outcome.Recorded? ==>
            || db' == db || db' == db.(nextId := db.nextId + 1)
            || (outcome == Thrown && Commit in w.fails && w.appliedAnyway && Fileable(db, s, t) && Writes(db, s, t, db')))
  {
    AuthorizedIff(db.challenges, s.auth, t.consume);
    if Authorized(db.challenges, s.auth, t.consume) { FiledWrites(db, s, t); }
  }

  // ---------- over runs ----------

  /** The event, taken in this database, wrote the report with this id. */
  ghost predicate WroteReport(db: Database, e: Event, id: nat) {
    e.ESubmit? && id == db.nextId && Writes(db, e.s, e.t, NextDb(db, e))
  }

  lemma {:induction false} SubmitWrites(sys: Sys, e: Event)
    requires Inv(sys) && Enabled(sys, e) && e.ESubmit?
    ensures || WroteReport(sys.db, e, sys.db.nextId)
            || (NextDb(sys.db, e).history == sys.db.history && NextDb(sys.db, e).receipts == sys.db.receipts)
    ensures Submit(sys.db, e.s, e.t, e.w).1.Recorded? ==> WroteReport(sys.db, e, sys.db.nextId)
  {
    RecordedIff(sys.db, e.s, e.t, e.w);
    OtherAnswers(sys.db, e.s, e.t, e.w);
  }

  /** Every row of the history is the report of the event that wrote it, at the instant that event read. */
  ghost predicate RowExplained(run: seq<Event>, id: nat, row: HistoryRow) {
    exists k :: 0 <= k < |run| && WroteReport(After(run[..k]).db, run[k], id) && row == HistoryRow(run[k].t.submittedAt, run[k].s.report)
  }

  /** Every receipt is that of the event which wrote its report under this attempt, good for thirty days. */
  ghost predicate ReceiptExplained(run: seq<Event>, a: string, r: Receipt, history: History) {
    exists k :: 0 <= k < |run| && WroteReport(After(run[..k]).db, run[k], r.historyId)
      && LowerAttempt(run[k].s) == Some(a) && r.expiresAt == run[k].t.receipt + THIRTY_DAYS
      && r.historyId in history && history[r.historyId] == HistoryRow(run[k].t.submittedAt, run[k].s.report)
  }

  lemma {:induction false} RowStillExplained(run: seq<Event>, e: Event, id: nat, row: HistoryRow)
    requires RowExplained(run, id, row)
    ensures RowExplained(run + [e], id, row)
  {
    var k :| 0 <= k < |run| && WroteReport(After(run[..k]).db, run[k], id) && row == HistoryRow(run[k].t.submittedAt, run[k].s.report);
    assert (run + [e])[..k] == run[..k] && (run + [e])[k] == run[k];
  }

  lemma {:induction false} ReceiptStillExplained(run: seq<Event>, e: Event, a: string, r: Receipt, history: History, history': History)
    requires ReceiptExplained(run, a, r, history)
    requires forall id :: id in history ==> id in history' && history'[id] == history[id]
    ensures ReceiptExplained(run + [e], a, r, history')
  {
    var k :| 0 <= k < |run| && WroteReport(After(run[..k]).db, run[k], r.historyId)
      && LowerAttempt(run[k].s) == Some(a) && r.expiresAt == run[k].t.receipt + THIRTY_DAYS
      && r.historyId in history && history[r.historyId] == HistoryRow(run[k].t.submittedAt, run[k].s.report);
    assert (run + [e])[..k] == run[..k] && (run + [e])[k] == run[k];
  }

  /** All rows and receipts of a database. */
  ghost predicate Explained(run: seq<Event>, db: Database) {
    && (forall id :: id in db.history ==> RowExplained(run, id, db.history[id]))
    && (forall a :: a in db.receipts ==> ReceiptExplained(run, a, db.receipts[a], db.history))
  }

  lemma {:induction false} NewReportExplained(run: seq<Event>, e: Event)
    requires WroteReport(After(run).db, e, After(run).db.nextId)
    ensures var db, db' := After(run).db, NextDb(After(run).db, e);
      && RowExplained(run + [e], db.nextId, db'.history[db.nextId])
      && (LowerAttempt(e.s).Some? ==>
            && LowerAttempt(e.s).value in db'.receipts
            && ReceiptExplained(run + [e], LowerAttempt(e.s).value, db'.receipts[LowerAttempt(e.s).value], db'.history))
  {
    assert (run + [e])[..|run|] == run && (run + [e])[|run|] == e;
  }

  lemma {:induction false} RowsStep(run: seq<Event>, e: Event, id: nat)
    requires IsRun(run) && Enabled(After(run), e) && Explained(run, After(run).db) && id in NextDb(After(run).db, e).history
    ensures RowExplained(run + [e], id, NextDb(After(run).db, e).history[id])
  {
    var sys := After(run);
    RunsKeepInv(run);
    DbKeeps(sys.db, e);
    if id in sys.db.history {
      RowStillExplained(run, e, id, sys.db.history[id]);
    } else if e.ESubmit? {
      SubmitWrites(sys, e);
      NewReportExplained(run, e);
    } else {
      OtherEffect(sys.db, e);
    }
  }

  /** A receipt that is new or changed was written with the report of this event. */
  lemma {:induction false} NewReceipt(sys: Sys, e: Event, a: string)
    requires Inv(sys) && Enabled(sys, e) && a in NextDb(sys.db, e).receipts
    ensures (a in sys.db.receipts && NextDb(sys.db, e).receipts[a] == sys.db.receipts[a])
         || (WroteReport(sys.db, e, sys.db.nextId) && LowerAttempt(e.s) == Some(a))
  {
    if e.ESubmit? { SubmitWrites(sys, e); }
  }

  lemma {:induction false} ReceiptsStep(run: seq<Event>, e: Event, a: string)
    requires IsRun(run) && Enabled(After(run), e) && Explained(run, After(run).db) && a in NextDb(After(run).db, e).receipts
    ensures ReceiptExplained(run + [e], a, NextDb(After(run).db, e).receipts[a], NextDb(After(run).db, e).history)
  {
    var sys := After(run);
    var db' := NextDb(sys.db, e);
    RunsKeepInv(run);
    DbKeeps(sys.db, e);
    NewReceipt(sys, e, a);
    if a in sys.db.receipts && db'.receipts[a] == sys.db.receipts[a] {
      ReceiptStillExplained(run, e, a, sys.db.receipts[a], sys.db.history, db'.history);
    } else {
      NewReportExplained(run, e);
    }
  }

  /** In every reachable state every row holds the report of the submission that wrote it, and every receipt leads to the row
      of the submission that was made under its attempt. */
  lemma {:induction false} RowsAreReports(run: seq<Event>)
    requires IsRun(run)
    ensures Explained(run, After(run).db)
  {
    if run != [] {
      var before, e := run[..|run| - 1], run[|run| - 1];
      RowsAreReports(before);
      assert before + [e] == run;
      forall id | id in After(run).db.history ensures RowExplained(run, id, After(run).db.history[id]) { RowsStep(before, e, id); }
      forall a | a in After(run).db.receipts ensures ReceiptExplained(run, a, After(run).db.receipts[a], After(run).db.history) {
        ReceiptsStep(before, e, a);
      }
    }
  }

  lemma {:induction false} HistoryKept(run: seq<Event>, more: seq<Event>, id: nat)
    requires IsRun(run + more) && id in After(run).db.history
    ensures id in After(run + more).db.history && After(run + more).db.history[id] == After(run).db.history[id]
  {
    if more == [] {
      assert run + more == run;
    } else {
      var n := |more| - 1;
      assert (run + more)[..|run + more| - 1] == run + more[..n];
      HistoryKept(run, more[..n], id);
      RunsKeepInv(run + more[..n]);
      DbKeeps(After(run + more[..n]).db, more[n]);
    }
  }

  /** A recorded submission is in the history, whole and under the answered id and instant, then and whatever follows. */
  lemma {:induction false} RecordedStays(run: seq<Event>, first: Event, more: seq<Event>)
    requires IsRun(run + [first] + more) && first.ESubmit? && Submit(After(run).db, first.s, first.t, first.w).1.Recorded?
    ensures var recorded := Submit(After(run).db, first.s, first.t, first.w).1; var db := After(run + [first] + more).db;
      recorded.id in db.history && db.history[recorded.id] == HistoryRow(recorded.submittedAt, first.s.report)
  {
    var start := run + [first];
    assert start[..|start| - 1] == run;
    RunPrefix(start, more);
    RunsKeepInv(run);
    RecordedIff(After(run).db, first.s, first.t, first.w);
    HistoryKept(start, more, After(run).db.nextId);
  }

  /** The `k`-th event filed its report under the attempt of `s`; the answer has its id and instant, the row its report. */
  ghost predicate FiledUnder(run: seq<Event>, k: nat, s: Submission, t: Times, answer: Outcome, row: HistoryRow)
    requires k < |run| && answer.Duplicate?
  {
    && WroteReport(After(run[..k]).db, run[k], answer.id) && LowerAttempt(run[k].s) == LowerAttempt(s)
    && t.select < run[k].t.receipt + THIRTY_DAYS
    && answer.submittedAt == run[k].t.submittedAt && row == HistoryRow(run[k].t.submittedAt, run[k].s.report)
  }

  /** A duplicate answer names the row of an earlier submission under the same attempt, less than thirty days old, with the
      instant at which that one was filed and with its report. */
  lemma {:induction false} DuplicateIsFirst(run: seq<Event>, s: Submission, t: Times, w: Weather)
    requires IsRun(run) && Submit(After(run).db, s, t, w).1.Duplicate?
    ensures var db := After(run).db; var answer := Submit(db, s, t, w).1;
      answer.id in db.history && exists k :: 0 <= k < |run| && FiledUnder(run, k, s, t, answer, db.history[answer.id])
  {
    var db := After(run).db;
    RowsAreReports(run);
    RunsKeepInv(run);
    DuplicateIff(db, s, t, w);
    var r := db.receipts[LowerAttempt(s).value];
    assert ReceiptExplained(run, LowerAttempt(s).value, r, db.history);
    var k :| 0 <= k < |run| && WroteReport(After(run[..k]).db, run[k], r.historyId)
      && LowerAttempt(run[k].s) == LowerAttempt(s) && r.expiresAt == run[k].t.receipt + THIRTY_DAYS
      && db.history[r.historyId] == HistoryRow(run[k].t.submittedAt, run[k].s.report);
    assert FiledUnder(run, k, s, t, Submit(db, s, t, w).1, db.history[r.historyId]);
  }
}
