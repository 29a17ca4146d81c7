/** Recording a fault report: one transaction over the challenge, history and receipt tables. Every query may
    fail; a failed commit may or may not have taken effect. */
module SubmissionModel {
  import opened VerificationRateLimits
  import opened EmailChallenges
  import opened Options
  import Text = AddressText

  const RECEIPT_TTL: int := 30 * 24 * HOUR

  type Report = string

  datatype HistoryRow = HistoryRow(submittedAt: int, report: Report)

  datatype Receipt = Receipt(historyId: nat, expiresAt: int)

  type History = map<nat, HistoryRow>
  type Receipts = map<string, Receipt>

  /** `nextId` is the identity sequence of the history table; a rollback does not give ids back. */
  datatype Database = Database(challenges: Challenges, history: History, receipts: Receipts, nextId: nat)

  // ---------- attempt ids ----------

  predicate HexDigit(c: char) { Text.LowerHex(Text.LowerChar(c)) }

  /** A version 4 UUID in any letter case. */
  predicate AttemptIdOk(s: string) {
    && |s| == 36
    && s[14] == '4' && s[19] in {'8', '9', 'a', 'b', 'A', 'B'}
    && forall i :: 0 <= i < 36 ==> if i in {8, 13, 18, 23} then s[i] == '-' else HexDigit(s[i])
  }

  lemma {:induction false} LowerKeepsAttemptId(s: string)
    ensures AttemptIdOk(s) <==> AttemptIdOk(Text.Lower(s))
    ensures Text.Lower(Text.Lower(s)) == Text.Lower(s)
  {
    var l := Text.Lower(s);
    if |s| == 36 {
      forall i | 0 <= i < 36
        ensures HexDigit(s[i]) <==> HexDigit(l[i])
        ensures s[i] == '-' <==> l[i] == '-'
      {}
    }
  }

  // ---------- the transaction ----------

  /** What authorises a submission when verification is on; a claim with malformed fields is no claim. */
  datatype Authorization = NotRequired | NoClaim | Claim(intent: Intent, email: Digest, token: Digest)

  /** `inputOk`: the checks before the transaction. `targetOk`: target resolution and address proof inside it. */
  datatype Submission = Submission(attempt: Option<string>, report: Report, inputOk: bool, targetOk: bool, auth: Authorization)

  datatype Query = Begin | Lock | SelectReceipt | DeleteReceipt | Resolve | Authorize | Rollback | Timestamp | Summary
    | InsertHistory | InsertReceipt | Commit

  datatype Times = Times(select: int, delete: int, consume: ConsumeTimes, submittedAt: int, receipt: int)

  predicate TimesOrdered(t: Times) {
    t.select <= t.delete <= t.consume.guard <= t.consume.consumedAt <= t.submittedAt <= t.receipt
  }

  /** Which queries fail, and whether a failed commit took effect all the same. */
  datatype Weather = Weather(fails: set<Query>, appliedAnyway: bool)

  datatype Outcome = Rejected | Thrown | Unauthorized
    | Duplicate(id: nat, submittedAt: int) | Recorded(id: nat, submittedAt: int)

  predicate LiveReceipt(db: Database, attempt: string, now: int) {
    attempt in db.receipts && db.receipts[attempt].historyId in db.history && db.receipts[attempt].expiresAt > now
  }

  function LowerAttempt(s: Submission): Option<string> {
    if s.attempt.Some? then Some(Text.Lower(s.attempt.value)) else None
  }

  predicate Authorized(cs: Challenges, auth: Authorization, t: ConsumeTimes) {
    auth.NotRequired? || (auth.Claim? && MayConsume(cs, auth.intent, auth.email, auth.token, t))
  }

  function AfterAuthorize(cs: Challenges, auth: Authorization, t: ConsumeTimes): Challenges
    requires Authorized(cs, auth, t)
  {
    if auth.Claim? then Consumed(cs, auth.intent, t) else cs
  }

  function WithoutExpired(receipts: Receipts, attempt: Option<string>, now: int): Receipts {
    if attempt.Some? && attempt.value in receipts && receipts[attempt.value].expiresAt <= now then receipts - {attempt.value} else receipts
  }

  /** The tables when the transaction commits a new report. */
  function Filed(db: Database, s: Submission, t: Times): Database
    requires Authorized(db.challenges, s.auth, t.consume)
  {
    var attempt := LowerAttempt(s);
    var receipts := WithoutExpired(db.receipts, attempt, t.delete);
    Database(
      AfterAuthorize(db.challenges, s.auth, t.consume),
      db.history[db.nextId := HistoryRow(t.submittedAt, s.report)],
      if attempt.Some? then receipts[attempt.value := Receipt(db.nextId, t.receipt + RECEIPT_TTL)] else receipts,
      db.nextId + 1)
  }

  function Submit(db: Database, s: Submission, t: Times, w: Weather): (Database, Outcome) {
    var attempt := LowerAttempt(s);
    if !s.inputOk || (s.attempt.Some? && !AttemptIdOk(s.attempt.value)) then (db, Rejected)
    else if Begin in w.fails then (db, Thrown)
    else if attempt.Some? && (Lock in w.fails || SelectReceipt in w.fails) then (db, Thrown)
    else if attempt.Some? && LiveReceipt(db, attempt.value, t.select) then
      var receipt := db.receipts[attempt.value];
      (db, if Commit in w.fails then Thrown else Duplicate(receipt.historyId, db.history[receipt.historyId].submittedAt))
    else if (attempt.Some? && DeleteReceipt in w.fails) || Resolve in w.fails || !s.targetOk then (db, Thrown)
    else if s.auth.Claim? && Authorize in w.fails then (db, Thrown)
    else if !Authorized(db.challenges, s.auth, t.consume) then (db, if Rollback in w.fails then Thrown else Unauthorized)
    else if Timestamp in w.fails || Summary in w.fails || InsertHistory in w.fails then (db, Thrown)
    else if attempt.Some? && (InsertReceipt in w.fails || attempt.value in WithoutExpired(db.receipts, attempt, t.delete)) then
      (db.(nextId := db.nextId + 1), Thrown)
    else if Commit !in w.fails then (Filed(db, s, t), Recorded(db.nextId, t.submittedAt))
    else (if w.appliedAnyway then Filed(db, s, t) else db.(nextId := db.nextId + 1), Thrown)
  }

  function WithoutReceipts(receipts: Receipts, chosen: set<string>, now: int): Receipts {
    receipts - set a | a in receipts && a in chosen && receipts[a].expiresAt <= now
  }

  class FaultHistoryStore {
    var db: Database

    constructor () ensures db == Database(map[], map[], map[], 1) { db := Database(map[], map[], map[], 1); }

    /** Undo everything of the open transaction; the identity sequence stays where it is. */
    method RollBack(saved: Database)
      modifies this
      ensures db == saved.(nextId := old(db.nextId))
    {
      db := saved.(nextId := db.nextId);
    }

    /** The queries of the transaction; `None` means that the error left it open. */
    method Transaction(s: Submission, t: Times, w: Weather, saved: Database) returns (outcome: Option<Outcome>, applied: bool)
      requires s.inputOk && (s.attempt.Some? ==> AttemptIdOk(s.attempt.value)) && saved == db && Begin !in w.fails
      modifies this
      ensures applied ==> outcome.None?
      ensures outcome.Some? || applied ==> (db, if outcome.Some? then outcome.value else Thrown) == Submit(old(db), s, t, w)
      ensures outcome.None? && !applied ==> (old(db).(nextId := db.nextId), Thrown) == Submit(old(db), s, t, w)
    {
      applied := false;
      var attempt := LowerAttempt(s);
      if attempt.Some? {
        if Lock in w.fails || SelectReceipt in w.fails { return None, false; }
        if LiveReceipt(db, attempt.value, t.select) {
          if Commit in w.fails { return None, false; }
          var receipt := db.receipts[attempt.value];
          return Some(Duplicate(receipt.historyId, db.history[receipt.historyId].submittedAt)), false;
        }
        if DeleteReceipt in w.fails { return None, false; }
        db := db.(receipts := WithoutExpired(db.receipts, attempt, t.delete));
      }
      if Resolve in w.fails || !s.targetOk { return None, false; }
      if !s.auth.NotRequired? {
        if s.auth.Claim? && Authorize in w.fails { return None, false; }
        if !Authorized(db.challenges, s.auth, t.consume) {
          if Rollback in w.fails { return None, false; }
          RollBack(saved);
          return Some(Unauthorized), false;
        }
        db := db.(challenges := AfterAuthorize(db.challenges, s.auth, t.consume));
      }
      if Timestamp in w.fails || Summary in w.fails || InsertHistory in w.fails { return None, false; }
      var id := db.nextId;
      db := db.(history := db.history[id := HistoryRow(t.submittedAt, s.report)], nextId := id + 1);
      if attempt.Some? {
        if InsertReceipt in w.fails || attempt.value in db.receipts { return None, false; }
        db := db.(receipts := db.receipts[attempt.value := Receipt(id, t.receipt + RECEIPT_TTL)]);
      }
      if Commit in w.fails { return None, w.appliedAnyway; }
      return Some(Recorded(id, t.submittedAt)), false;
    }

    method RecordSubmission(s: Submission, t: Times, w: Weather) returns (outcome: Outcome)
      modifies this
      ensures (db, outcome) == Submit(old(db), s, t, w)
    {
      if !s.inputOk || (s.attempt.Some? && !AttemptIdOk(s.attempt.value)) { return Rejected; }
      var saved := db;
      if Begin in w.fails { return Thrown; }
      var result, applied := Transaction(s, t, w, saved);
      if result.Some? { return result.value; }
      if !applied { RollBack(saved); }
      return Thrown;
    }

    method CleanupExpiredSubmissionAttempts(chosen: set<string>, now: int)
      modifies this
      ensures db == old(db).(receipts := WithoutReceipts(old(db.receipts), chosen, now))
    {
      var todo := db.receipts.Keys * chosen;
      while todo != {}
        invariant todo <= db.receipts.Keys <= old(db.receipts).Keys
        invariant db == old(db).(receipts := db.receipts)
        invariant forall a :: a in db.receipts ==> db.receipts[a] == old(db.receipts)[a]
        invariant forall a :: a in old(db.receipts) && a !in todo ==>
          (a in db.receipts <==> !(a in chosen && old(db.receipts)[a].expiresAt <= now))
        decreases todo
      {
        var a :| a in todo;
        todo := todo - {a};
        if db.receipts[a].expiresAt <= now { db := db.(receipts := db.receipts - {a}); }
      }
    }
  }
}
