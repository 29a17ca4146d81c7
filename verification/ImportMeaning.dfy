/** What an import does to the inventory, said through the payload of a row, the point that was there before and the
    confirmed update choice. */
module ImportMeaning {
  import opened ImportModel
  import opened ImportProofs
  import opened ImportRuns
  import opened ImportPreview
  import opened Options

  // ---------- what a row is for ----------

  function Given(p: Payload, f: Field): Option<string> {
    match f
    case ExternalId => p.externalId
    case Address => p.address
    case District => p.district
    case LampType => p.lampType
    case Status => p.status
  }

  function Held(q: Point, f: Field): Option<string> {
    match f
    case ExternalId => q.externalId
    case Address => q.address
    case District => q.district
    case LampType => q.lampType
    case Status => q.status
  }

  /** The point has the payload's number and coordinates. */
  predicate Located(p: Payload, q: Point) {
    q.number == p.number && q.longitude == p.longitude && q.latitude == p.latitude
  }

  /** A new point takes every field of the payload; without a status it is active. */
  ghost predicate TakesAll(p: Payload, q: Point) {
    && Located(p, q)
    && (forall f :: f != Status ==> Held(q, f) == Given(p, f))
    && Held(q, Status) == (if Given(p, Status) == None then Some("active") else Given(p, Status))
  }

  /** A known point takes the fields its row has a column for and keeps the others. */
  ghost predicate TakesPresent(p: Payload, before: Point, q: Point) {
    && Located(p, q)
    && (forall f :: f in p.present ==> Held(q, f) == Given(p, f))
    && (forall f :: f !in p.present ==> Held(q, f) == Held(before, f))
  }

  /** What becomes of a row whose write the database refuses. */
  predicate RefusedAs(p: Payload, e: SqlError, state: RowState) {
    && (e == UniqueViolation ==> state == Done(Failed, "inventory_identity_conflict"))
    && (e == OtherError ==> state == Pending(p))
    && (e != UniqueViolation && e != OtherError ==> state == Done(Failed, "invalid_row"))
  }

  ghost predicate NewNumberOk(rules: Rules, p: Payload, after: Inventory, state: RowState, q: Point) {
    && TakesAll(p, q)
    && match rules.check(q)
       case None => state == Done(Created, "") && p.number in after && after[p.number] == q
       case Some(e) => RefusedAs(p, e, state) && p.number !in after
  }

  ghost predicate KnownNumberOk(rules: Rules, p: Payload, before: Point, after: Inventory, state: RowState, q: Point)
    requires p.number in after
  {
    && TakesPresent(p, before, q)
    && (q == before ==> state == Done(Unchanged, "") && after[p.number] == before)
    && (q != before ==>
          match rules.check(q)
          case None => state == Done(Updated, "") && after[p.number] == q
          case Some(e) => RefusedAs(p, e, state) && after[p.number] == before)
  }

  /** What the row with this payload did to its number between the two inventories, and how it ended. */
  ghost predicate RowMeans(rules: Rules, before: Inventory, p: Payload, after: Inventory, state: RowState) {
    if p.number !in before then
      exists q :: NewNumberOk(rules, p, after, state, q)
    else
      && p.number in after
      && if rules.updateExisting then
           exists q :: KnownNumberOk(rules, p, before[p.number], after, state, q)
         else
           state == Done(Skipped, "existing_update_disabled") && after[p.number] == before[p.number]
  }

  /** A point is fixed by its number, its coordinates and its fields, so `RowMeans` leaves no choice. */
  lemma {:induction false} OnePoint(p: Payload, before: Point, a: Point, b: Point)
    requires (TakesAll(p, a) && TakesAll(p, b)) || (TakesPresent(p, before, a) && TakesPresent(p, before, b))
    ensures a == b
  {
    forall f ensures Held(a, f) == Held(b, f) {
      if f in p.present {} else {}
    }
    SameFields(a, b);
  }

  lemma {:induction false} SameFields(a: Point, b: Point)
    requires a.number == b.number && a.longitude == b.longitude && a.latitude == b.latitude
    requires forall f :: Held(a, f) == Held(b, f)
    ensures a == b
  {
    assert Held(a, ExternalId) == Held(b, ExternalId) && Held(a, Address) == Held(b, Address);
    assert Held(a, District) == Held(b, District) && Held(a, LampType) == Held(b, LampType);
    assert Held(a, Status) == Held(b, Status);
  }

  /** The event says what happened to its number: it was not there, or its point became another one. */
  predicate Describes(before: Inventory, after: Inventory, e: Audit) {
    match e
    case AuditCreate(q) => q.number !in before && q.number in after && after[q.number] == q
    case AuditUpdate(b, a) =>
      && a.number in before && a.number in after
      && before[a.number] == b && after[a.number] == a && a != b
  }

  /** The audit grew by one event for each number whose point is new or changed, and by nothing else. */
  ghost predicate AuditIsDifference(w: World, w': World) {
    forall e :: w'.audit[e] == w.audit[e] + (if Describes(w.inventory, w'.inventory, e) then 1 else 0)
  }

  predicate PendingNumber(rows: seq<Row>, number: string) {
    exists i :: 0 <= i < |rows| && rows[i].state.Pending? && rows[i].state.payload.number == number
  }

  /** Every pending row has been given its meaning, and nothing else happened. */
  ghost predicate Imported(rules: Rules, w: World, rows: seq<Row>, w': World, rows': seq<Row>)
  {
    && |rows'| == |rows|
    && (forall i :: 0 <= i < |rows| ==> rows'[i].source == rows[i].source)
    && (forall i :: 0 <= i < |rows| && rows[i].state.Done? ==> rows'[i] == rows[i])
    && (forall i :: 0 <= i < |rows| && rows[i].state.Pending? ==>
          RowMeans(rules, w.inventory, rows[i].state.payload, w'.inventory, rows'[i].state))
    && (forall n :: PendingNumber(rows, n) || Agree(w.inventory, w'.inventory, n))
    && AuditIsDifference(w, w')
  }

  // ---------- one row ----------

  lemma {:induction false} NewRowMeans(rules: Rules, w: World, r: Row)
    requires r.state.Pending? && r.state.payload.number !in w.inventory
    ensures var (w', r') := ApplyOne(rules, w, r);
      RowMeans(rules, w.inventory, r.state.payload, w'.inventory, r'.state)
  {
    var (w', r') := ApplyOne(rules, w, r);
    assert NewNumberOk(rules, r.state.payload, w'.inventory, r'.state, NewPoint(r.state.payload));
  }

  lemma {:induction false} KnownRowMeans(rules: Rules, w: World, r: Row)
    requires r.state.Pending? && r.state.payload.number in w.inventory
    ensures var (w', r') := ApplyOne(rules, w, r);
      RowMeans(rules, w.inventory, r.state.payload, w'.inventory, r'.state)
  {
    var p := r.state.payload;
    var before := w.inventory[p.number];
    var (w', r') := ApplyOne(rules, w, r);
    if rules.updateExisting {
      assert KnownNumberOk(rules, p, before, w'.inventory, r'.state, Merge(p, before));
    }
  }

  lemma {:induction false} OthersAgree(rules: Rules, w: World, r: Row, n: string)
    requires r.state.Pending? ==> n != r.state.payload.number
    ensures Agree(w.inventory, ApplyOne(rules, w, r).0.inventory, n)
  {}

  lemma {:induction false} OneAudit(rules: Rules, w: World, r: Row)
    ensures AuditIsDifference(w, ApplyOne(rules, w, r).0)
  {
    var w' := ApplyOne(rules, w, r).0;
    forall e ensures w'.audit[e] == w.audit[e] + (if Describes(w.inventory, w'.inventory, e) then 1 else 0) {
      if r.state.Pending? {
        var n := match e case AuditCreate(q) => q.number case AuditUpdate(_, a) => a.number;
        if n != r.state.payload.number { OthersAgree(rules, w, r, n); }
      }
    }
  }

  // ---------- the fold ----------

  /** What a row does depends on the inventory at its own number only. */
  lemma {:induction false} MeansLocal(rules: Rules, a: Inventory, a': Inventory, p: Payload, b: Inventory, b': Inventory, state: RowState)
    requires RowMeans(rules, a, p, b, state) && Agree(a, a', p.number) && Agree(b, b', p.number)
    ensures RowMeans(rules, a', p, b', state)
  {
    if p.number !in a {
      var q :| NewNumberOk(rules, p, b, state, q);
      assert NewNumberOk(rules, p, b', state, q);
    } else if rules.updateExisting {
      var q :| KnownNumberOk(rules, p, a[p.number], b, state, q);
      assert KnownNumberOk(rules, p, a'[p.number], b', state, q);
    }
  }

  lemma {:induction false} OneImported(rules: Rules, w: World, r: Row)
    ensures var (w', r') := ApplyOne(rules, w, r); Imported(rules, w, [r], w', [r'])
  {
    OneAudit(rules, w, r);
    forall n | !PendingNumber([r], n) ensures Agree(w.inventory, ApplyOne(rules, w, r).0.inventory, n) {
      if r.state.Pending? { assert [r][0].state.payload.number != n; }
      OthersAgree(rules, w, r, n);
    }
    if r.state.Pending? {
      if r.state.payload.number in w.inventory { KnownRowMeans(rules, w, r); } else { NewRowMeans(rules, w, r); }
    }
  }

  lemma {:induction false} AuditsAdd(w: World, w1: World, w2: World)
    requires AuditIsDifference(w, w1) && AuditIsDifference(w1, w2)
    requires forall n :: Agree(w.inventory, w1.inventory, n) || Agree(w1.inventory, w2.inventory, n)
    ensures AuditIsDifference(w, w2)
  {
    forall e ensures w2.audit[e] == w.audit[e] + (if Describes(w.inventory, w2.inventory, e) then 1 else 0) {
      var n := match e case AuditCreate(q) => q.number case AuditUpdate(_, a) => a.number;
      assert Agree(w.inventory, w1.inventory, n) || Agree(w1.inventory, w2.inventory, n);
    }
  }

  /** Two parts of a batch that share no pending number. */
  ghost predicate Apart(a: seq<Row>, b: seq<Row>) {
    forall n :: !(PendingNumber(a, n) && PendingNumber(b, n))
  }

  lemma {:induction false} FirstPartMeans(rules: Rules, w: World, a: seq<Row>, w1: World, a1: seq<Row>, b: seq<Row>, w2: World, b1: seq<Row>, i: nat)
    requires Imported(rules, w, a, w1, a1) && Imported(rules, w1, b, w2, b1) && Apart(a, b)
    requires i < |a| && a[i].state.Pending?
    ensures RowMeans(rules, w.inventory, a[i].state.payload, w2.inventory, a1[i].state)
  {
    var p := a[i].state.payload;
    assert PendingNumber(a, p.number);
    MeansLocal(rules, w.inventory, w.inventory, p, w1.inventory, w2.inventory, a1[i].state);
  }

  lemma {:induction false} SecondPartMeans(rules: Rules, w: World, a: seq<Row>, w1: World, a1: seq<Row>, b: seq<Row>, w2: World, b1: seq<Row>, i: nat)
    requires Imported(rules, w, a, w1, a1) && Imported(rules, w1, b, w2, b1) && Apart(a, b)
    requires i < |b| && b[i].state.Pending?
    ensures RowMeans(rules, w.inventory, b[i].state.payload, w2.inventory, b1[i].state)
  {
    var p := b[i].state.payload;
    assert PendingNumber(b, p.number);
    MeansLocal(rules, w1.inventory, w.inventory, p, w2.inventory, w2.inventory, b1[i].state);
  }

  lemma {:induction false} NumbersOfParts(a: seq<Row>, b: seq<Row>, n: string)
    ensures PendingNumber(a + b, n) <==> PendingNumber(a, n) || PendingNumber(b, n)
  {
    if PendingNumber(a, n) {
      var i :| 0 <= i < |a| && a[i].state.Pending? && a[i].state.payload.number == n;
      assert (a + b)[i] == a[i];
    }
    if PendingNumber(b, n) {
      var i :| 0 <= i < |b| && b[i].state.Pending? && b[i].state.payload.number == n;
      assert (a + b)[|a| + i] == b[i];
    }
  }

  /** One part after the other is the whole. */
  lemma {:induction false} ImportedInParts(rules: Rules, w: World, a: seq<Row>, w1: World, a1: seq<Row>, b: seq<Row>, w2: World, b1: seq<Row>)
    requires Imported(rules, w, a, w1, a1) && Imported(rules, w1, b, w2, b1) && Apart(a, b)
    ensures Imported(rules, w, a + b, w2, a1 + b1)
  {
    forall i | 0 <= i < |a + b| && (a + b)[i].state.Pending?
      ensures RowMeans(rules, w.inventory, (a + b)[i].state.payload, w2.inventory, (a1 + b1)[i].state)
    {
      if i < |a| {
        FirstPartMeans(rules, w, a, w1, a1, b, w2, b1, i);
      } else {
        SecondPartMeans(rules, w, a, w1, a1, b, w2, b1, i - |a|);
      }
    }
    forall n | !PendingNumber(a + b, n) ensures Agree(w.inventory, w2.inventory, n) { NumbersOfParts(a, b, n); }
    forall n ensures Agree(w.inventory, w1.inventory, n) || Agree(w1.inventory, w2.inventory, n) {
      assert PendingNumber(a, n) || Agree(w.inventory, w1.inventory, n);
      assert PendingNumber(b, n) || Agree(w1.inventory, w2.inventory, n);
    }
    AuditsAdd(w, w1, w2);
  }

  lemma {:induction false} DistinctParts(rows: seq<Row>)
    requires rows != [] && Distinct(rows)
    ensures Distinct(rows[1..]) && Apart([rows[0]], rows[1..])
  {
    forall i, j | 0 <= i < |rows| - 1 && 0 <= j < |rows| - 1 ensures !SameNumberPending(rows[1..], i, j) {
      assert !SameNumberPending(rows, i + 1, j + 1);
    }
    forall n | PendingNumber([rows[0]], n) ensures !PendingNumber(rows[1..], n) {
      forall j | 0 <= j < |rows| - 1 && rows[1..][j].state.Pending? ensures rows[1..][j].state.payload.number != n {
        assert !SameNumberPending(rows, 0, j + 1);
      }
    }
  }

  /** Taking the rows of a batch one by one gives every row its meaning, read from the inventory before the batch. */
  lemma {:induction false} FoldImports(rules: Rules, w: World, rows: seq<Row>)
    requires Distinct(rows)
    ensures Imported(rules, w, rows, Fold(rules, w, rows).0, Fold(rules, w, rows).1)
    decreases rows
  {
    if rows != [] {
      var (w1, r1) := ApplyOne(rules, w, rows[0]);
      var (w2, rest) := Fold(rules, w1, rows[1..]);
      DistinctParts(rows);
      OneImported(rules, w, rows[0]);
      FoldImports(rules, w1, rows[1..]);
      ImportedInParts(rules, w, [rows[0]], w1, [r1], rows[1..], w2, rest);
      assert rows == [rows[0]] + rows[1..];
    }
  }

  // ---------- one statement, a whole batch, a whole file ----------

  /** A statement that returns has imported the first `n` rows and left the rest; those rows hold the next `limit`
      pending ones, or all that are left. A stale or locked-out worker changes nothing. */
  lemma {:induction false} StatementImports(rules: Rules, db: Db, token: nat, limit: nat, db': Db, result: StatementResult) returns (n: nat)
    requires Distinct(db.batch.rows) && Owned(db.batch, token)
    requires Statement(rules, db, token, limit, false, db', result) && result.Returned?
    ensures n <= |db.batch.rows| == |db'.batch.rows|
    ensures CountPending(db.batch.rows[..n]) == |result.outcomes| <= limit
    ensures |result.outcomes| < limit ==> n == |db.batch.rows|
    ensures Imported(rules, db.world, db.batch.rows[..n], db'.world, db'.batch.rows[..n])
    ensures AllDone(db'.batch.rows[..n]) && db'.batch.rows[n..] == db.batch.rows[n..]
  {
    n := Cut(db.batch.rows, limit);
    var selected := db.batch.rows[..n];
    CutFacts(db.batch.rows, limit);
    forall i, j | 0 <= i < n && 0 <= j < n ensures !SameNumberPending(selected, i, j) {
      assert !SameNumberPending(db.batch.rows, i, j);
    }
    NoErrorsClean(rules, db.world.inventory, selected);
    SnapshotIsFold(rules, db.world.inventory, db.world, selected);
    FoldImports(rules, db.world, selected);
    MarkedLength(rules, db.world.inventory, selected);
    var done := SnapshotRows(rules, db.world.inventory, selected);
    assert db'.batch.rows[..n] == done && db'.batch.rows[n..] == db.batch.rows[n..];
  }

  // ---------- every state of every run ----------

  /** Every row that left `pending` has its meaning, the numbers of the waiting rows are as they were, and the audit
      says what changed. */
  ghost predicate ImportedSoFar(rules: Rules, w: World, rows: seq<Row>, w': World, rows': seq<Row>) {
    && |rows'| == |rows|
    && (forall i :: 0 <= i < |rows| ==> SoFar(rules, w.inventory, rows[i], w'.inventory, rows'[i]))
    && (forall n :: PendingNumber(rows, n) || Agree(w.inventory, w'.inventory, n))
    && AuditIsDifference(w, w')
  }

  ghost predicate SoFar(rules: Rules, before: Inventory, r: Row, after: Inventory, r': Row) {
    && r'.source == r.source
    && (r.state.Done? ==> r' == r)
    && (r'.state.Pending? ==> r' == r && Agree(before, after, r.state.payload.number))
    && (r.state.Pending? && r'.state.Done? ==> RowMeans(rules, before, r.state.payload, after, r'.state))
  }

  /** What one step did from one state to the next: some waiting rows were given their meaning. */
  ghost predicate StepImports(rules: Rules, w: World, rows: seq<Row>, w': World, rows': seq<Row>) {
    && |rows'| == |rows|
    && (forall i :: 0 <= i < |rows| ==> SoFar(rules, w.inventory, rows[i], w'.inventory, rows'[i]))
    && (forall n :: Agree(w.inventory, w'.inventory, n) || exists i :: TakenOut(rows, rows', i, n))
    && AuditIsDifference(w, w')
  }

  predicate TakenOut(rows: seq<Row>, rows': seq<Row>, i: int, n: string) {
    && 0 <= i < |rows| == |rows'|
    && rows[i].state.Pending? && rows'[i].state.Done? && rows[i].state.payload.number == n
  }

  lemma {:induction false} RowSoFar(rules: Rules, w: World, rows: seq<Row>, w1: World, rows1: seq<Row>, w2: World, rows2: seq<Row>, i: nat)
    requires Distinct(rows) && i < |rows|
    requires ImportedSoFar(rules, w, rows, w1, rows1) && StepImports(rules, w1, rows1, w2, rows2)
    ensures SoFar(rules, w.inventory, rows[i], w2.inventory, rows2[i])
  {
    assert SoFar(rules, w.inventory, rows[i], w1.inventory, rows1[i]);
    assert SoFar(rules, w1.inventory, rows1[i], w2.inventory, rows2[i]);
    if rows[i].state.Pending? {
      var p := rows[i].state.payload;
      if rows1[i].state.Pending? {
        if rows2[i].state.Done? {
          MeansLocal(rules, w1.inventory, w.inventory, p, w2.inventory, w2.inventory, rows2[i].state);
        }
      } else {
        OtherRowsOnly(rules, w, rows, w1, rows1, rows2, i);
        MeansLocal(rules, w.inventory, w.inventory, p, w1.inventory, w2.inventory, rows1[i].state);
      }
    }
  }

  /** The number of a finished row is not the number of a row that a later step takes out. */
  lemma {:induction false} OtherRowsOnly(rules: Rules, w: World, rows: seq<Row>, w1: World, rows1: seq<Row>, rows2: seq<Row>, i: nat)
    requires Distinct(rows) && ImportedSoFar(rules, w, rows, w1, rows1)
    requires i < |rows| && rows[i].state.Pending? && rows1[i].state.Done?
    ensures forall j :: !TakenOut(rows1, rows2, j, rows[i].state.payload.number)
  {
    forall j | 0 <= j < |rows| && rows1[j].state.Pending? ensures rows1[j].state.payload.number != rows[i].state.payload.number {
      assert SoFar(rules, w.inventory, rows[j], w1.inventory, rows1[j]);
      assert !SameNumberPending(rows, i, j);
    }
  }

  lemma {:induction false} SoFarGrows(rules: Rules, w: World, rows: seq<Row>, w1: World, rows1: seq<Row>, w2: World, rows2: seq<Row>)
    requires Distinct(rows)
    requires ImportedSoFar(rules, w, rows, w1, rows1) && StepImports(rules, w1, rows1, w2, rows2)
    ensures ImportedSoFar(rules, w, rows, w2, rows2)
  {
    forall i | 0 <= i < |rows| ensures SoFar(rules, w.inventory, rows[i], w2.inventory, rows2[i]) {
      RowSoFar(rules, w, rows, w1, rows1, w2, rows2, i);
    }
    forall n ensures Agree(w1.inventory, w2.inventory, n) || (PendingNumber(rows, n) && Agree(w.inventory, w1.inventory, n)) {
      if !Agree(w1.inventory, w2.inventory, n) {
        var i :| TakenOut(rows1, rows2, i, n);
        assert SoFar(rules, w.inventory, rows[i], w1.inventory, rows1[i]);
      }
    }
    AuditsAdd(w, w1, w2);
  }

  lemma {:induction false} StatementStep(rules: Rules, db: Db, token: nat, limit: nat, blocked: bool, db': Db, result: StatementResult)
    requires Distinct(db.batch.rows) && Statement(rules, db, token, limit, blocked, db', result)
    ensures StepImports(rules, db.world, db.batch.rows, db'.world, db'.batch.rows)
  {
    if !blocked && Owned(db.batch, token) && result.Returned? {
      var n := StatementImports(rules, db, token, limit, db', result);
      ImportedIsStep(rules, db.world, db.batch.rows, db'.world, db'.batch.rows, n);
    }
  }

  lemma {:induction false} ImportedIsStep(rules: Rules, w: World, rows: seq<Row>, w': World, rows': seq<Row>, n: nat)
    requires Distinct(rows) && n <= |rows| == |rows'|
    requires Imported(rules, w, rows[..n], w', rows'[..n]) && AllDone(rows'[..n]) && rows'[n..] == rows[n..]
    ensures StepImports(rules, w, rows, w', rows')
  {
    forall m ensures Agree(w.inventory, w'.inventory, m) || exists i :: TakenOut(rows, rows', i, m) {
      if PendingNumber(rows[..n], m) {
        var i :| 0 <= i < n && rows[..n][i].state.Pending? && rows[..n][i].state.payload.number == m;
        assert rows'[..n][i].state.Done?;
        assert TakenOut(rows, rows', i, m);
      }
    }
    forall i | 0 <= i < |rows| ensures SoFar(rules, w.inventory, rows[i], w'.inventory, rows'[i]) {
      if i < n {
        assert rows[..n][i] == rows[i] && rows'[..n][i] == rows'[i];
      } else {
        assert rows[n..][i - n] == rows'[n..][i - n];
        if rows[i].state.Pending? { LaterNumber(rows, n, i); }
      }
    }
  }

  lemma {:induction false} LaterNumber(rows: seq<Row>, n: nat, i: nat)
    requires Distinct(rows) && n <= i < |rows| && rows[i].state.Pending?
    ensures !PendingNumber(rows[..n], rows[i].state.payload.number)
  {
    forall j | 0 <= j < n && rows[..n][j].state.Pending? ensures rows[..n][j].state.payload.number != rows[i].state.payload.number {
      assert !SameNumberPending(rows, i, j);
    }
  }

  lemma {:induction false} FailStep(rules: Rules, db: Db, token: nat, code: string)
    requires Owned(db.batch, token) ==> NextFails(rules, db, code)
    ensures var db' := FailNext(db, token, code); StepImports(rules, db.world, db.batch.rows, db'.world, db'.batch.rows)
  {
    if Owned(db.batch, token) {
      OneImported(rules, db.world, db.batch.rows[Cut(db.batch.rows, 1) - 1]);
      var r := db.batch.rows[Cut(db.batch.rows, 1) - 1];
      assert [r][0].state.Pending?;
    }
  }

  lemma {:induction false} EventStep(rules: Rules, start: Db, s: Sys, ev: Event, s': Sys)
    requires Inv(rules, start, s) && Next(rules, s, ev, s')
    ensures StepImports(rules, s.db.world, s.db.batch.rows, s'.db.world, s'.db.batch.rows)
  {
    match ev
    case Bulk(token, blocked) =>
      var result: StatementResult :| Statement(rules, s.db, token, ROWS_PER_QUERY, blocked, s'.db, result);
      StatementStep(rules, s.db, token, ROWS_PER_QUERY, blocked, s'.db, result);
    case One(token, blocked) =>
      var result: StatementResult :| Statement(rules, s.db, token, 1, blocked, s'.db, result);
      StatementStep(rules, s.db, token, 1, blocked, s'.db, result);
    case Fail(token) =>
      FailStep(rules, s.db, token, s.workers[token].code);
    case _ =>
  }

  /** At every moment of every run, under errors, crashes, stale workers and new leases, the finished rows have done to
      their numbers what they are for, and nothing else has changed. */
  lemma {:induction false} EveryStateImported(rules: Rules, start: Db, preview: Batch, states: seq<Sys>, evs: seq<Event>, i: nat)
    requires JustConfirmed(start, preview) && IsRun(rules, start, states, evs) && i < |states|
    ensures ImportedSoFar(rules, start.world, preview.rows, states[i].db.world, states[i].db.batch.rows)
  {
    if i > 0 {
      EveryStateImported(rules, start, preview, states, evs, i - 1);
      RunKeeps(rules, start, preview, states, evs, i - 1);
      EventStep(rules, start, states[i - 1], evs[i - 1], states[i]);
      var a, b := states[i - 1].db, states[i].db;
      SoFarGrows(rules, start.world, preview.rows, a.world, a.batch.rows, b.world, b.batch.rows);
    }
  }

  /** A completed batch did to every number exactly what the row with that number is for, whoever worked on it. */
  lemma {:induction false} CompletedMeansImported(rules: Rules, start: Db, preview: Batch, states: seq<Sys>, evs: seq<Event>, i: nat)
    requires JustConfirmed(start, preview) && IsRun(rules, start, states, evs) && i < |states|
    requires states[i].db.batch.status == Completed || states[i].db.batch.status == CompletedWithErrors
    ensures Imported(rules, start.world, preview.rows, states[i].db.world, states[i].db.batch.rows)
    ensures AllDone(states[i].db.batch.rows)
  {
    CompletedMeansFolded(rules, start, preview, states, evs, i);
    FoldImports(rules, start.world, preview.rows);
  }

  // ---------- from the file ----------

  /** Every row of the file with this row's number is valid and says the same. */
  predicate AllAlike(rows: seq<ParsedRow>, i: nat)
    requires i < |rows|
  {
    rows[i].payload.Some? &&
    forall j :: 0 <= j < |rows| && rows[j].number == rows[i].number ==> rows[j].payload == rows[i].payload
  }

  predicate NumberedAgain(rows: seq<ParsedRow>, i: nat, from: nat, to: nat)
    requires i < |rows| && from <= to <= |rows|
  {
    rows[i].number != "" && exists j :: from <= j < to && j != i && rows[j].number == rows[i].number
  }

  /** Of rows that say the same the first stays and the later ones are duplicates; rows that disagree all fail; a row
      on its own number fails with its own error or stays. */
  ghost predicate PreviewFair(rows: seq<ParsedRow>, i: nat, state: RowState)
    requires i < |rows| && Parsed(rows[i])
  {
    if AllAlike(rows, i) then
      state == if NumberedAgain(rows, i, 0, i) then Done(Skipped, "duplicate_in_same_import") else Pending(rows[i].payload.value)
    else if NumberedAgain(rows, i, 0, |rows|) then
      state == Done(Failed, "conflicting_duplicate_inventory_number")
    else
      rows[i].errorCode.Some? && state == Done(Failed, rows[i].errorCode.value)
  }

  lemma {:induction false} PreviewDecides(rows: seq<ParsedRow>, i: nat)
    requires i < |rows| && forall k :: 0 <= k < |rows| ==> Parsed(rows[k])
    ensures PreviewRows(rows)[i].source == rows[i].rowIndex
    ensures PreviewFair(rows, i, PreviewRows(rows)[i].state)
  {
    assert Parsed(rows[i]);
    assert AllAlike(rows, i) <==> Agreed(rows, rows[i].number, |rows|);
    if exists j :: 0 <= j < |rows| && j != i && SameGroup(rows, i, j) {
      var j :| 0 <= j < |rows| && j != i && SameGroup(rows, i, j);
      assert NumberedAgain(rows, i, 0, |rows|);
    }
    if NumberedAgain(rows, i, 0, |rows|) {
      var j :| 0 <= j < |rows| && j != i && rows[j].number == rows[i].number;
      assert SameGroup(rows, i, j);
    }
    if NumberedAgain(rows, i, 0, i) {
      var j :| 0 <= j < i && rows[j].number == rows[i].number;
      assert SameGroup(rows, i, j);
    }
  }

  /** From the parsed file to the completed batch: the first of agreeing rows did what its payload is for, the other
      rows ended as the preview decided, and no number without such a row was touched. */
  lemma {:induction false} ImportedFileMeans(rules: Rules, world: World, rows: seq<ParsedRow>, states: seq<Sys>, evs: seq<Event>, i: nat)
    requires forall k :: 0 <= k < |rows| ==> Parsed(rows[k])
    requires IsRun(rules, Db(world, Confirm(PreviewBatch(rows))), states, evs) && i < |states|
    requires states[i].db.batch.status == Completed || states[i].db.batch.status == CompletedWithErrors
    ensures var end := states[i].db; |end.batch.rows| == |rows| && AuditIsDifference(world, end.world)
    ensures forall k :: 0 <= k < |rows| ==> FileRowMeans(rules, world, rows, k, states[i].db)
    ensures forall n :: Agree(world.inventory, states[i].db.world.inventory, n) || FileHolds(rows, n)
  {
    var start := Db(world, Confirm(PreviewBatch(rows)));
    PendingNumbersDistinct(rows);
    ConfirmedPreview(rows);
    var end := states[i].db;
    CompletedMeansImported(rules, start, PreviewBatch(rows), states, evs, i);
    forall k | 0 <= k < |rows| ensures FileRowMeans(rules, world, rows, k, end) { PreviewDecides(rows, k); }
    forall n ensures Agree(world.inventory, end.world.inventory, n) || FileHolds(rows, n) {
      if PendingNumber(PreviewRows(rows), n) { PendingIsHeld(rows, n); }
    }
  }

  predicate FileHolds(rows: seq<ParsedRow>, n: string) {
    exists k :: 0 <= k < |rows| && rows[k].number == n && AllAlike(rows, k)
  }

  ghost predicate FileRowMeans(rules: Rules, world: World, rows: seq<ParsedRow>, k: nat, end: Db)
    requires k < |rows| == |end.batch.rows| && Parsed(rows[k])
  {
    if AllAlike(rows, k) && !NumberedAgain(rows, k, 0, k) then
      RowMeans(rules, world.inventory, rows[k].payload.value, end.world.inventory, end.batch.rows[k].state)
    else
      PreviewFair(rows, k, end.batch.rows[k].state)
  }

  lemma {:induction false} PendingIsHeld(rows: seq<ParsedRow>, n: string)
    requires (forall k :: 0 <= k < |rows| ==> Parsed(rows[k])) && PendingNumber(PreviewRows(rows), n)
    ensures FileHolds(rows, n)
  {
    var out := PreviewRows(rows);
    var k :| 0 <= k < |out| && out[k].state.Pending? && out[k].state.payload.number == n;
    PreviewDecides(rows, k);
    assert Parsed(rows[k]);
  }
}
