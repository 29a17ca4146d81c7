/** The fixed-window counters of the email verification store. Times are microseconds of the database clock. */
module VerificationRateLimits {

  const SECOND: int := 1_000_000
  const HOUR: int := 3600 * SECOND
  const MAX_COUNT: int := 2147483647

  datatype Scope = SendEmail | SendIp | VerifyEmail | VerifyIp

  type Digest = seq<int>

  datatype Key = Key(scope: Scope, digest: Digest)

  datatype Row = Row(windowStart: int, count: int, updatedAt: int)

  type Table = map<Key, Row>

  function MaxAttempts(scope: Scope): int {
    match scope
    case SendEmail => 3
    case SendIp => 15
    case VerifyEmail => 15
    case VerifyIp => 30
  }

  function Max(a: int, b: int): int { if a < b then b else a }
  function Min(a: int, b: int): int { if a < b then a else b }

  function CeilSeconds(duration: int): int { -((-duration) / SECOND) }

  /** The upsert: a new row, a new window, or one more attempt in the window. */
  function Bumped(t: Table, key: Key, now: int): Row {
    if key !in t then Row(now, 1, now)
    else if t[key].windowStart <= now - HOUR then Row(now, 1, now)
    else Row(t[key].windowStart, Min(t[key].count + 1, MAX_COUNT), now)
  }

  predicate Within(key: Key, row: Row) { row.count <= MaxAttempts(key.scope) }

  function RetryAfter(row: Row, now: int): int { Max(1, CeilSeconds(row.windowStart + HOUR - now)) }

  predicate Stale(row: Row, now: int) { row.updatedAt < now - 48 * HOUR }

  datatype Verdict = Allowed | Limited(retryAfterSeconds: int)

  datatype Attempt = Attempt(key: Key, now: int)

  /** The counters after a row of upserts. */
  function AfterAll(t: Table, attempts: seq<Attempt>): Table
  {
    if attempts == [] then t else
    var n := |attempts| - 1;
    var before := AfterAll(t, attempts[..n]);
    before[attempts[n].key := Bumped(before, attempts[n].key, attempts[n].now)]
  }

  /** The row that the `i`-th upsert of the sequence returns. */
  function RowAt(t: Table, attempts: seq<Attempt>, i: nat): Row
    requires i < |attempts|
  {
    Bumped(AfterAll(t, attempts[..i]), attempts[i].key, attempts[i].now)
  }

  predicate WithinAt(t: Table, attempts: seq<Attempt>, i: nat)
    requires i < |attempts|
  {
    Within(attempts[i].key, RowAt(t, attempts, i))
  }

  /** The wait that the `i`-th limit asks for: none when the attempt is within it. */
  function Wait(t: Table, attempts: seq<Attempt>, i: nat): (w: int)
    requires i < |attempts|
    ensures 0 <= w && (w == 0 <==> WithinAt(t, attempts, i))
  {
    if WithinAt(t, attempts, i) then 0 else RetryAfter(RowAt(t, attempts, i), attempts[i].now)
  }

  ghost predicate LongestWait(t: Table, attempts: seq<Attempt>, n: nat, w: int)
    requires n <= |attempts|
  {
    && (forall i :: 0 <= i < n ==> Wait(t, attempts, i) <= w)
    && (w == 0 || exists i :: 0 <= i < n && Wait(t, attempts, i) == w)
  }

  lemma {:induction false} LongestWaitNext(t: Table, attempts: seq<Attempt>, n: nat, w: int)
    requires n < |attempts| && LongestWait(t, attempts, n, w)
    ensures LongestWait(t, attempts, n + 1, Max(w, Wait(t, attempts, n)))
  {
    if Wait(t, attempts, n) <= w && w != 0 {
      var i :| 0 <= i < n && Wait(t, attempts, i) == w;
      assert 0 <= i < n + 1 && Wait(t, attempts, i) == w;
    }
  }

  lemma {:induction false} NoWaitIff(t: Table, attempts: seq<Attempt>, w: int)
    requires LongestWait(t, attempts, |attempts|, w) && 0 <= w
    ensures w == 0 <==> forall i :: 0 <= i < |attempts| ==> WithinAt(t, attempts, i)
  {
    forall i | 0 <= i < |attempts| ensures w == 0 ==> WithinAt(t, attempts, i) {
      assert Wait(t, attempts, i) <= w;
    }
  }

  class RateLimitTable {
    var rows: Table

    constructor () ensures rows == map[] { rows := map[]; }

    /** Every limit is charged, also after one is exceeded; the answer is the longest wait of those exceeded. */
    method ApplyRateLimits(limits: seq<Attempt>) returns (verdict: Verdict)
      modifies this
      ensures rows == AfterAll(old(rows), limits)
      ensures verdict.Allowed? <==> forall i :: 0 <= i < |limits| ==> WithinAt(old(rows), limits, i)
      ensures verdict.Limited? ==> LongestWait(old(rows), limits, |limits|, verdict.retryAfterSeconds)
    {
      var retryAfterSeconds := 0;
      var i := 0;
      assert limits[..0] == [];
      while i < |limits|
        invariant 0 <= i <= |limits|
        invariant rows == AfterAll(old(rows), limits[..i])
        invariant retryAfterSeconds >= 0 && LongestWait(old(rows), limits, i, retryAfterSeconds)
      {
        var limit := limits[i];
        var row := Bumped(rows, limit.key, limit.now);
        LongestWaitNext(old(rows), limits, i, retryAfterSeconds);
        assert limits[..i + 1][..i] == limits[..i];
        rows := rows[limit.key := row];
        if !Within(limit.key, row) {
          retryAfterSeconds := Max(retryAfterSeconds, RetryAfter(row, limit.now));
        }
        i := i + 1;
      }
      assert limits[..i] == limits;
      NoWaitIff(old(rows), limits, retryAfterSeconds);
      return if retryAfterSeconds > 0 then Limited(retryAfterSeconds) else Allowed;
    }
  }

  // ---------- runs ----------

  /** Attempts of any keys, and cleanups that delete any of the rows idle for 48 hours. */
  datatype Event = Try(attempt: Attempt) | Clean(now: int, removed: set<Key>)

  function At(e: Event): int { if e.Try? then e.attempt.now else e.now }

  predicate Enabled(t: Table, e: Event) {
    e.Clean? ==> forall k :: k in e.removed ==> k in t && Stale(t[k], e.now)
  }

  function Apply(t: Table, e: Event): Table {
    match e
    case Try(a) => t[a.key := Bumped(t, a.key, a.now)]
    case Clean(_, removed) => t - removed
  }

  ghost predicate IsRun(t: Table, run: seq<Event>) {
    run == [] ||
    (var n := |run| - 1;
      IsRun(t, run[..n]) && Enabled(After(t, run[..n]), run[n]) && (n > 0 ==> At(run[n - 1]) <= At(run[n])))
  }

  function After(t: Table, run: seq<Event>): Table {
    if run == [] then t else Apply(After(t, run[..|run| - 1]), run[|run| - 1])
  }

  /** The attempts of a run, in order. */
  function Tries(run: seq<Event>): seq<Attempt> {
    if run == [] then [] else
    var n := |run| - 1;
    Tries(run[..n]) + if run[n].Try? then [run[n].attempt] else []
  }

  /** The rows the attempts of a run were answered from: both the decision and the wait. */
  function Answers(t: Table, run: seq<Event>): seq<Row> {
    if run == [] then [] else
    var n := |run| - 1;
    Answers(t, run[..n]) + if run[n].Try? then [Bumped(After(t, run[..n]), run[n].attempt.key, run[n].attempt.now)] else []
  }

  /** The answers of counters that are never deleted. */
  function NeverCleaned(attempts: seq<Attempt>): seq<Row> {
    seq(|attempts|, i requires 0 <= i < |attempts| => RowAt(map[], attempts, i))
  }

  ghost predicate Sane(t: Table, now: int) {
    forall k :: k in t ==> t[k].windowStart <= t[k].updatedAt <= now
  }

  /** A row missing from the cleaned table has a window that is over. */
  ghost predicate Cleaned(cleaned: Table, full: Table, now: int) {
    && Sane(full, now)
    && (forall k :: k in cleaned ==> k in full && cleaned[k] == full[k])
    && (forall k :: k in full && k !in cleaned ==> full[k].windowStart <= now - HOUR)
  }

  lemma {:induction false} CleanedStep(cleaned: Table, full: Table, before: int, e: Event)
    requires Cleaned(cleaned, full, before) && before <= At(e) && Enabled(cleaned, e)
    ensures e.Clean? ==> Cleaned(Apply(cleaned, e), full, At(e))
    ensures e.Try? ==> Cleaned(Apply(cleaned, e), Apply(full, e), At(e))
    ensures e.Try? ==> Bumped(cleaned, e.attempt.key, e.attempt.now) == Bumped(full, e.attempt.key, e.attempt.now)
  {}

  /** Deleting rows idle for 48 hours never changes an answer: every attempt gets the count, the decision and
      the wait it would get from counters that are never deleted. */
  lemma {:induction false} CleanupInvisible(run: seq<Event>)
    requires IsRun(map[], run)
    ensures Answers(map[], run) == NeverCleaned(Tries(run))
    ensures run != [] ==> Cleaned(After(map[], run), AfterAll(map[], Tries(run)), At(run[|run| - 1]))
  {
    if run != [] {
      var n := |run| - 1;
      CleanupInvisible(run[..n]);
      var cleaned, full := After(map[], run[..n]), AfterAll(map[], Tries(run[..n]));
      CleanedStep(cleaned, full, if n > 0 then At(run[n - 1]) else At(run[n]), run[n]);
      var tries := Tries(run);
      assert run[n].Clean? ==> tries == Tries(run[..n]);
      if run[n].Try? {
        assert tries[..|tries| - 1] == Tries(run[..n]);
        forall i | 0 <= i < |tries| - 1 ensures RowAt(map[], tries, i) == RowAt(map[], Tries(run[..n]), i) {
          assert tries[..i] == Tries(run[..n])[..i];
        }
      }
    }
  }

  // ---------- at most twice the limit in any hour ----------

  predicate Ordered(attempts: seq<Attempt>) {
    forall i, j :: 0 <= i < j < |attempts| ==> attempts[i].now <= attempts[j].now
  }

  /** Attempts of `key` within the limit whose time is in the closed hour from `start`. */
  function AdmittedInHour(attempts: seq<Attempt>, key: Key, start: int): (c: nat)
  {
    if attempts == [] then 0 else
    var n := |attempts| - 1;
    AdmittedInHour(attempts[..n], key, start)
      + if attempts[n].key == key && start <= attempts[n].now <= start + HOUR && WithinAt(map[], attempts, n) then 1 else 0
  }

  /** Where the hour's admissions were counted: all in the current window, or at most one full window before it,
      or the window now open began after the hour. */
  ghost predicate Counted(t: Table, key: Key, start: int, c: int) {
    var m := MaxAttempts(key.scope);
    if key !in t then c == 0
    else
      var row := t[key];
      && row.count >= 1
      && (row.windowStart <= start ==> c <= Min(row.count, m))
      && (start < row.windowStart <= start + HOUR ==> c <= m + Min(row.count, m))
      && c <= 2 * m
      && (c > 0 ==> start < row.windowStart + HOUR)
  }

  lemma {:induction false} CountedStep(t: Table, key: Key, start: int, c: int, a: Attempt)
    requires Counted(t, key, start, c)
    requires key in t ==> t[key].updatedAt <= a.now && t[key].windowStart <= t[key].updatedAt
    ensures var hit := a.key == key && start <= a.now <= start + HOUR && Within(key, Bumped(t, key, a.now));
      Counted(t[a.key := Bumped(t, a.key, a.now)], key, start, if hit then c + 1 else c)
  {}

  lemma {:induction false} HourCounted(attempts: seq<Attempt>, key: Key, start: int)
    requires Ordered(attempts)
    ensures Counted(AfterAll(map[], attempts), key, start, AdmittedInHour(attempts, key, start))
    ensures attempts != [] ==> Sane(AfterAll(map[], attempts), attempts[|attempts| - 1].now)
  {
    if attempts != [] {
      var n := |attempts| - 1;
      HourCounted(attempts[..n], key, start);
      assert n > 0 ==> attempts[n - 1].now <= attempts[n].now;
      CountedStep(AfterAll(map[], attempts[..n]), key, start, AdmittedInHour(attempts[..n], key, start), attempts[n]);
    }
  }

  lemma {:induction false} TriesOrdered(run: seq<Event>)
    requires IsRun(map[], run)
    ensures Ordered(Tries(run))
    ensures forall i :: 0 <= i < |Tries(run)| ==> run != [] && Tries(run)[i].now <= At(run[|run| - 1])
  {
    if run != [] { TriesOrdered(run[..|run| - 1]); }
  }

  /** Any key, any run with any cleanups, any closed hour: at most twice the limit is admitted. */
  lemma {:induction false} AtMostTwiceTheLimit(run: seq<Event>, key: Key, start: int)
    requires IsRun(map[], run)
    ensures AdmittedInHour(Tries(run), key, start) <= 2 * MaxAttempts(key.scope)
    ensures Answers(map[], run) == NeverCleaned(Tries(run))
  {
    TriesOrdered(run);
    HourCounted(Tries(run), key, start);
    CleanupInvisible(run);
  }
}
