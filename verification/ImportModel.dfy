/** One confirmed import batch: the bounded SQL statement of the queue worker, its one-row replay, and the
    lease protocol around them. SQL tables are values, and each statement is one atomic step. */
module ImportModel {
  import opened Options

  datatype Field = ExternalId | Address | District | LampType | Status

  datatype Payload = Payload(
    number: string, longitude: real, latitude: real, present: set<Field>,
    externalId: Option<string>, address: Option<string>, district: Option<string>,
    lampType: Option<string>, status: Option<string>)

  datatype Point = Point(
    number: string, longitude: real, latitude: real,
    externalId: Option<string>, address: Option<string>, district: Option<string>,
    lampType: Option<string>, status: Option<string>)

  type Inventory = map<string, Point>

  datatype Audit = AuditCreate(point: Point) | AuditUpdate(before: Point, after: Point)

  /** The tables the worker writes besides the batch itself. Audit events inside one statement have no
      promised order, so they are a multiset. */
  datatype World = World(inventory: Inventory, audit: multiset<Audit>)

  datatype Outcome = Created | Updated | Unchanged | Skipped | Failed

  /** The table constraint ties the payload to the pending outcome. */
  datatype RowState = Pending(payload: Payload) | Done(outcome: Outcome, reason: string)
  datatype Row = Row(source: nat, state: RowState)

  datatype SqlError = UniqueViolation | NotNull | CheckViolation | NumericRange | InvalidText | OtherError

  /** The error codes the worker turns into a failed row; any other error is thrown on. */
  function SafeFailure(e: SqlError): Option<string> {
    match e
    case UniqueViolation => Some("inventory_identity_conflict")
    case OtherError => None
    case _ => Some("invalid_row")
  }

  /** What is fixed for a batch: the confirmed update choice, and the column constraints as a verdict on
      the point a row would write. */
  datatype Rules = Rules(updateExisting: bool, check: Point -> Option<SqlError>)

  // ---------- one row ----------

  datatype Plan = Create(point: Point) | Update(before: Point, after: Point) | Keep | Skip

  function NewPoint(p: Payload): Point {
    Point(p.number, p.longitude, p.latitude, p.externalId, p.address, p.district, p.lampType,
          if p.status.Some? then p.status else Some("active"))
  }

  function Merge(p: Payload, existing: Point): Point {
    Point(p.number, p.longitude, p.latitude,
          if ExternalId in p.present then p.externalId else existing.externalId,
          if Address in p.present then p.address else existing.address,
          if District in p.present then p.district else existing.district,
          if LampType in p.present then p.lampType else existing.lampType,
          if Status in p.present then p.status else existing.status)
  }

  function PlanRow(rules: Rules, inventory: Inventory, p: Payload): Plan {
    if p.number !in inventory then Create(NewPoint(p))
    else if !rules.updateExisting then Skip
    else
      var existing := inventory[p.number];
      if Merge(p, existing) == existing then Keep else Update(existing, Merge(p, existing))
  }

  function Rejection(rules: Rules, plan: Plan): Option<SqlError> {
    match plan
    case Create(point) => rules.check(point)
    case Update(_, after) => rules.check(after)
    case _ => None
  }

  function Writes(plan: Plan): Inventory {
    match plan
    case Create(point) => map[point.number := point]
    case Update(_, after) => map[after.number := after]
    case _ => map[]
  }

  function Audits(plan: Plan): multiset<Audit> {
    match plan
    case Create(point) => multiset{AuditCreate(point)}
    case Update(before, after) => multiset{AuditUpdate(before, after)}
    case _ => multiset{}
  }

  function PlanState(plan: Plan): RowState {
    match plan
    case Create(_) => Done(Created, "")
    case Update(_, _) => Done(Updated, "")
    case Keep => Done(Unchanged, "")
    case Skip => Done(Skipped, "existing_update_disabled")
  }

  // ---------- reference: one row at a time, in source order ----------

  /** The plain meaning of one row. A row whose error the worker does not recognise has no outcome. */
  function ApplyOne(rules: Rules, w: World, r: Row): (World, Row) {
    if r.state.Done? then (w, r) else
    var plan := PlanRow(rules, w.inventory, r.state.payload);
    match Rejection(rules, plan)
    case None => (World(w.inventory + Writes(plan), w.audit + Audits(plan)), r.(state := PlanState(plan)))
    case Some(e) =>
      match SafeFailure(e)
      case Some(code) => (w, r.(state := Done(Failed, code)))
      case None => (w, r)
  }

  function Fold(rules: Rules, w: World, rows: seq<Row>): (r: (World, seq<Row>))
    ensures |r.1| == |rows|
    decreases rows
  {
    if rows == [] then (w, []) else
    var (w1, r1) := ApplyOne(rules, w, rows[0]);
    var (w2, rest) := Fold(rules, w1, rows[1..]);
    (w2, [r1] + rest)
  }

  // ---------- the bounded statement ----------

  /** How many leading rows hold the first `limit` pending ones. */
  function Cut(rows: seq<Row>, limit: nat): (n: nat)
    ensures n <= |rows|
  {
    if rows == [] || limit == 0 then 0
    else if rows[0].state.Pending? then 1 + Cut(rows[1..], limit - 1)
    else 1 + Cut(rows[1..], limit)
  }

  /** Everything below reads the inventory as it was when the statement began. */
  function MarkRow(rules: Rules, snapshot: Inventory, r: Row): Row {
    if r.state.Pending? then r.(state := PlanState(PlanRow(rules, snapshot, r.state.payload))) else r
  }

  function SnapshotRows(rules: Rules, snapshot: Inventory, rows: seq<Row>): (r: seq<Row>)
    ensures |r| == |rows|
    ensures forall i :: 0 <= i < |rows| ==> r[i] == MarkRow(rules, snapshot, rows[i])
  {
    if rows == [] then [] else [MarkRow(rules, snapshot, rows[0])] + SnapshotRows(rules, snapshot, rows[1..])
  }

  function SnapshotWrites(rules: Rules, snapshot: Inventory, rows: seq<Row>): Inventory {
    if rows == [] then map[] else
    (if rows[0].state.Pending? then Writes(PlanRow(rules, snapshot, rows[0].state.payload)) else map[])
      + SnapshotWrites(rules, snapshot, rows[1..])
  }

  function SnapshotAudits(rules: Rules, snapshot: Inventory, rows: seq<Row>): multiset<Audit> {
    if rows == [] then multiset{} else
    (if rows[0].state.Pending? then Audits(PlanRow(rules, snapshot, rows[0].state.payload)) else multiset{})
      + SnapshotAudits(rules, snapshot, rows[1..])
  }

  predicate SameNumberPending(rows: seq<Row>, i: nat, j: nat)
    requires i < |rows| && j < |rows|
  {
    i != j && rows[i].state.Pending? && rows[j].state.Pending? &&
    rows[i].state.payload.number == rows[j].state.payload.number
  }

  /** The errors the statement may stop with: a rejected point, or two selected rows creating one number. */
  function SnapshotErrors(rules: Rules, snapshot: Inventory, rows: seq<Row>): set<SqlError> {
    (set i | 0 <= i < |rows| && rows[i].state.Pending? &&
             Rejection(rules, PlanRow(rules, snapshot, rows[i].state.payload)).Some?
             :: Rejection(rules, PlanRow(rules, snapshot, rows[i].state.payload)).value)
    + (if exists i, j :: 0 <= i < |rows| && 0 <= j < |rows| && SameNumberPending(rows, i, j) &&
                         rows[i].state.payload.number !in snapshot
       then {UniqueViolation} else {})
  }

  /** The outcomes of the selected rows, as the statement returns them. */
  function Marked(rules: Rules, snapshot: Inventory, rows: seq<Row>): seq<Outcome> {
    if rows == [] then [] else
    (if rows[0].state.Pending? then [PlanState(PlanRow(rules, snapshot, rows[0].state.payload)).outcome] else [])
      + Marked(rules, snapshot, rows[1..])
  }

  function CountOf(outcomes: seq<Outcome>, o: Outcome): nat {
    if outcomes == [] then 0 else (if outcomes[0] == o then 1 else 0) + CountOf(outcomes[1..], o)
  }

  // ---------- the batch ----------

  datatype BatchStatus = Preview | Queued | Processing | Completed | CompletedWithErrors

  datatype Counters = Counters(
    created: nat, updated: nat, kept: nat, skipped: nat, failed: nat, applied: nat, successful: nat)

  datatype Batch = Batch(status: BatchStatus, token: Option<nat>, totalRows: nat, counters: Counters, rows: seq<Row>)

  datatype Db = Db(world: World, batch: Batch)

  predicate Owned(b: Batch, token: nat) { b.status == Processing && b.token == Some(token) }

  datatype StatementResult = Returned(outcomes: seq<Outcome>) | Raised(error: SqlError)

  function AddCounts(c: Counters, m: seq<Outcome>): Counters {
    var created, updated, kept := CountOf(m, Created), CountOf(m, Updated), CountOf(m, Unchanged);
    c.(created := c.created + created, updated := c.updated + updated, kept := c.kept + kept,
       skipped := c.skipped + CountOf(m, Skipped), applied := c.applied + created + updated,
       successful := c.successful + created + updated + kept)
  }

  /** The statement on the rows a worker may touch. `blocked`: the batch row was locked by another
      statement and skipped, so nothing was selected. */
  ghost predicate Statement(rules: Rules, db: Db, token: nat, limit: nat, blocked: bool, db': Db, result: StatementResult) {
    if blocked || !Owned(db.batch, token) then db' == db && result == Returned([]) else
    var n := Cut(db.batch.rows, limit);
    var selected := db.batch.rows[..n];
    var snapshot := db.world.inventory;
    if SnapshotErrors(rules, snapshot, selected) != {} then
      db' == db && result.Raised? && result.error in SnapshotErrors(rules, snapshot, selected)
    else
      db' == AfterStatement(rules, db, n) && result == Returned(Marked(rules, snapshot, selected))
  }

  function AfterStatement(rules: Rules, db: Db, n: nat): Db
    requires n <= |db.batch.rows|
  {
    var selected := db.batch.rows[..n];
    var snapshot := db.world.inventory;
    var marked := Marked(rules, snapshot, selected);
    Db(World(snapshot + SnapshotWrites(rules, snapshot, selected), db.world.audit + SnapshotAudits(rules, snapshot, selected)),
       db.batch.(rows := SnapshotRows(rules, snapshot, selected) + db.batch.rows[n..],
                 counters := AddCounts(db.batch.counters, marked)))
  }

  /** `failNextPendingRow`. */
  function FailNext(db: Db, token: nat, code: string): Db {
    if !Owned(db.batch, token) then db else
    var n := Cut(db.batch.rows, 1);
    if n == 0 || !db.batch.rows[n - 1].state.Pending? then db else
    var c := db.batch.counters;
    db.(batch := db.batch.(rows := db.batch.rows[n - 1 := db.batch.rows[n - 1].(state := Done(Failed, code))],
                           counters := c.(failed := c.failed + 1)))
  }

  predicate AnyPending(rows: seq<Row>) { exists i :: 0 <= i < |rows| && rows[i].state.Pending? }

  function Complete(db: Db, token: nat): Db {
    if !Owned(db.batch, token) || AnyPending(db.batch.rows) then db else
    db.(batch := db.batch.(status := if db.batch.counters.failed > 0 then CompletedWithErrors else Completed, token := None))
  }

  function CountRows(rows: seq<Row>, o: Outcome): nat {
    if rows == [] then 0 else
    (if rows[0].state.Done? && rows[0].state.outcome == o then 1 else 0) + CountRows(rows[1..], o)
  }

  function CountPending(rows: seq<Row>): nat {
    if rows == [] then 0 else (if rows[0].state.Pending? then 1 else 0) + CountPending(rows[1..])
  }

  /** `confirmImport` on an unexpired preview: queued, and the counters recomputed from the rows. */
  function Confirm(b: Batch): Batch {
    b.(status := Queued, counters := Counters(0, 0, 0, CountRows(b.rows, Skipped), CountRows(b.rows, Failed), 0, 0))
  }

  // ---------- workers ----------

  const ROWS_PER_QUERY: nat := 100

  /** Where a worker's `processBatch` stands between two database calls. */
  datatype Pc = AtBulk | AtComplete | Replaying(index: nat) | MustFail(index: nat, code: string) | Stopped

  datatype Sys = Sys(db: Db, workers: map<nat, Pc>)

  datatype Event =
    | Claim(token: nat)               // fresh worker token
    | Release                         // the lease of the processing worker ran out
    | Bulk(token: nat, blocked: bool)
    | One(token: nat, blocked: bool)
    | Fail(token: nat)
    | Finish(token: nat)
    | Crash(token: nat)               // the worker stops for good, at any point

  function AfterReplay(index: nat): Pc {
    if index + 1 == ROWS_PER_QUERY then AtBulk else Replaying(index + 1)
  }

  ghost predicate Next(rules: Rules, s: Sys, ev: Event, s': Sys) {
    match ev
    case Claim(token) =>
      && token !in s.workers && s.db.batch.status == Queued
      && s' == Sys(s.db.(batch := s.db.batch.(status := Processing, token := Some(token))), s.workers[token := AtBulk])
    case Release =>
      && s.db.batch.status == Processing
      && s' == s.(db := s.db.(batch := s.db.batch.(status := Queued, token := None)))
    case Bulk(token, blocked) =>
      && token in s.workers && s.workers[token] == AtBulk
      && exists result: StatementResult ::
           && Statement(rules, s.db, token, ROWS_PER_QUERY, blocked, s'.db, result)
           && s'.workers == s.workers[token := AfterBulk(result)]
    case One(token, blocked) =>
      && token in s.workers && s.workers[token].Replaying?
      && exists result: StatementResult ::
           && Statement(rules, s.db, token, 1, blocked, s'.db, result)
           && s'.workers == s.workers[token := AfterOne(result, s.workers[token].index)]
    case Fail(token) =>
      && token in s.workers && s.workers[token].MustFail?
      && s' == Sys(FailNext(s.db, token, s.workers[token].code), s.workers[token := AfterReplay(s.workers[token].index)])
    case Finish(token) =>
      && token in s.workers && s.workers[token] == AtComplete
      && s' == Sys(Complete(s.db, token), s.workers[token := Stopped])
    case Crash(token) =>
      && token in s.workers && s' == s.(workers := s.workers[token := Stopped])
  }

  function AfterBulk(result: StatementResult): Pc {
    match result
    case Returned(outcomes) => if outcomes == [] then AtComplete else AtBulk
    case Raised(e) => if SafeFailure(e).Some? then Replaying(0) else Stopped
  }

  function AfterOne(result: StatementResult, index: nat): Pc {
    match result
    case Returned(outcomes) => if outcomes == [] then AtBulk else AfterReplay(index)
    case Raised(e) => if SafeFailure(e).Some? then MustFail(index, SafeFailure(e).value) else Stopped
  }
}
