/** The migration runner and its ledger: each migration and its ledger row commit in one transaction, any query
    may fail, and the process may stop between any two of them. */
module Migrations {

  datatype Migration = Migration(version: int, name: string, checksum: string, sql: string)

  datatype Row = Row(version: int, name: string, checksum: string)

  /** What was in the database before the first ledger row. */
  datatype Origin = NoTables | RecognizedPreP3 | OtherTables

  /** `executed` are the migrations whose SQL was committed, in order. */
  datatype Database = Database(origin: Origin, ledgerExists: bool, ledger: map<int, Row>, executed: seq<Migration>)

  type Chain = seq<Migration>

  function RowFor(m: Migration): Row { Row(m.version, m.name, m.checksum) }

  // ---------- the packaged chain ----------

  predicate ChainOk(c: Chain) { |c| > 0 && forall k :: 0 <= k < |c| ==> c[k].version == k + 1 }

  /** `files` are the migration files sorted by name, so by version. The chain is accepted exactly when it
      numbers its migrations from one without gap or repetition. */
  method LoadMigrations(files: Chain) returns (ok: bool)
    ensures ok <==> ChainOk(files)
  {
    if |files| == 0 || files[0].version != 1 { return false; }
    var i := 1;
    while i < |files|
      invariant 1 <= i <= |files|
      invariant forall k :: 0 <= k < i ==> files[k].version == k + 1
    {
      if files[i].version != files[i - 1].version + 1 { return false; }
      i := i + 1;
    }
    return true;
  }

  // ---------- applying what is missing ----------

  /** How the transaction of one migration ends. A lost commit took effect, but the runner sees an error. */
  datatype Fate = Commits | Fails | CommitLost

  predicate Matches(ledger: map<int, Row>, c: Chain) {
    forall v :: v in ledger ==> exists k :: 0 <= k < |c| && c[k].version == v && ledger[v] == RowFor(c[k])
  }

  function Applied(db: Database, m: Migration): Database {
    db.(ledger := db.ledger[m.version := RowFor(m)], executed := db.executed + [m])
  }

  /** The loop over the chain from position `k`, for the versions that were in the ledger when it began. */
  function ApplyFrom(db: Database, c: Chain, k: nat, before: set<int>, fates: int -> Fate): (Database, bool)
    requires k <= |c|
    decreases |c| - k
  {
    if k == |c| then (db, true)
    else if c[k].version in before then ApplyFrom(db, c, k + 1, before, fates)
    else
      match fates(c[k].version)
      case Commits => ApplyFrom(Applied(db, c[k]), c, k + 1, before, fates)
      case Fails => (db, false)
      case CommitLost => (Applied(db, c[k]), false)
  }

  ghost function ApplyRemaining(db: Database, c: Chain, fates: int -> Fate): (Database, bool) {
    var db1 := db.(ledgerExists := true);
    if !Matches(db.ledger, c) || (db.ledger != map[] && 1 !in db.ledger) then (db1, false)
    else ApplyFrom(db1, c, 0, db.ledger.Keys, fates)
  }

  /** `stops`: the runner stops before it changes anything. */
  ghost function Run(db: Database, c: Chain, stops: bool, fates: int -> Fate): (Database, bool) {
    if !ChainOk(c) || stops || (!db.ledgerExists && db.origin != NoTables) then (db, false)
    else ApplyRemaining(db, c, fates)
  }

  ghost function Adopt(db: Database, c: Chain, stops: bool, fate: Fate, fates: int -> Fate): (Database, bool) {
    if !ChainOk(c) || stops || db.ledgerExists || db.origin != RecognizedPreP3 then (db, false)
    else
      var db1 := db.(ledgerExists := true, ledger := db.ledger[1 := RowFor(c[0])]);
      match fate
      case Commits => ApplyRemaining(db1, c, fates)
      case Fails => (db, false)
      case CommitLost => (db1, false)
  }

  lemma {:induction false} NonEmpty(s: set<int>)
    requires |s| != 0
    ensures exists v :: v in s
  {
    assert (forall v :: v !in s) ==> s == {};
  }

  lemma {:induction false} NoRows(ledger: map<int, Row>, versions: set<int>)
    requires versions == ledger.Keys && forall v :: v !in versions
    ensures ledger == map[]
  {
    if |versions| != 0 {
      NonEmpty(versions);
      assert false;
    }
  }

  class MigrationRunner {
    var db: Database

    constructor (db: Database) ensures this.db == db { this.db := db; }

    method FindMigration(c: Chain, row: Row, v: int) returns (found: bool)
      requires ChainOk(c)
      ensures found <==> exists k :: 0 <= k < |c| && c[k].version == v && row == RowFor(c[k])
    {
      var k := 0;
      while k < |c|
        invariant 0 <= k <= |c| && forall j :: 0 <= j < k ==> c[j].version != v
      {
        if c[k].version == v { return row.version == v && row.name == c[k].name && row.checksum == c[k].checksum; }
        k := k + 1;
      }
      return false;
    }

    method CheckApplied(c: Chain) returns (ok: bool)
      requires ChainOk(c)
      ensures ok <==> Matches(db.ledger, c) && (db.ledger != map[] ==> 1 in db.ledger)
    {
      var todo := db.ledger.Keys;
      while todo != {}
        invariant todo <= db.ledger.Keys
        invariant forall v :: v in db.ledger && v !in todo ==>
          exists k :: 0 <= k < |c| && c[k].version == v && db.ledger[v] == RowFor(c[k])
        decreases todo
      {
        NonEmpty(todo);
        var v :| v in todo;
        var found := FindMigration(c, db.ledger[v], v);
        if !found { return false; }
        todo := todo - {v};
      }
      return db.ledger == map[] || 1 in db.ledger;
    }

    method ApplyMissing(c: Chain, fates: int -> Fate) returns (ok: bool)
      requires ChainOk(c)
      modifies this
      ensures (db, ok) == ApplyRemaining(old(db), c, fates)
    {
      db := db.(ledgerExists := true);
      var before := db.ledger.Keys;
      var matching := CheckApplied(c);
      if !matching { return false; }
      var k := 0;
      while k < |c|
        invariant 0 <= k <= |c|
        invariant ApplyFrom(db, c, k, before, fates) == ApplyFrom(old(db).(ledgerExists := true), c, 0, before, fates)
      {
        if c[k].version !in before {
          match fates(c[k].version)
          case Commits => db := Applied(db, c[k]);
          case Fails => return false;
          case CommitLost => db := Applied(db, c[k]); return false;
        }
        k := k + 1;
      }
      return true;
    }

    method RunMigrations(c: Chain, stops: bool, fates: int -> Fate) returns (ok: bool)
      modifies this
      ensures (db, ok) == Run(old(db), c, stops, fates)
    {
      var chainOk := LoadMigrations(c);
      if !chainOk || stops { return false; }
      if !db.ledgerExists {
        if db.origin != NoTables { return false; }
        db := db.(ledgerExists := true);
      }
      ok := ApplyMissing(c, fates);
    }

    method AdoptRecognizedPreP3Database(c: Chain, stops: bool, fate: Fate, fates: int -> Fate) returns (ok: bool)
      modifies this
      ensures (db, ok) == Adopt(old(db), c, stops, fate, fates)
    {
      var chainOk := LoadMigrations(c);
      if !chainOk || stops || db.ledgerExists || db.origin != RecognizedPreP3 || fate == Fails { return false; }
      db := db.(ledgerExists := true, ledger := db.ledger[1 := RowFor(c[0])]);
      if fate == CommitLost { return false; }
      ok := ApplyMissing(c, fates);
    }
  }

  // ---------- the runtime check ----------

  /** The rows of the ledger ordered by version. */
  ghost predicate IsListing(rows: seq<Row>, ledger: map<int, Row>) {
    && (forall i, j :: 0 <= i < j < |rows| ==> rows[i].version < rows[j].version)
    && (forall i :: 0 <= i < |rows| ==> rows[i].version in ledger && ledger[rows[i].version] == rows[i])
    && (forall v :: v in ledger ==> exists i :: 0 <= i < |rows| && rows[i].version == v)
  }

  method AssertMigrationsCurrent(rows: seq<Row>, expected: Chain) returns (ok: bool)
    ensures ok <==> |rows| == |expected| && forall k :: 0 <= k < |rows| ==> rows[k] == RowFor(expected[k])
  {
    if |rows| != |expected| { return false; }
    var k := 0;
    while k < |rows|
      invariant 0 <= k <= |rows| && forall j :: 0 <= j < k ==> rows[j] == RowFor(expected[j])
    {
      if rows[k] != RowFor(expected[k]) { return false; }
      k := k + 1;
    }
    return true;
  }

  /** The ledger holds exactly the rows of the first `k` migrations. */
  ghost predicate Holds(ledger: map<int, Row>, c: Chain, k: nat)
    requires k <= |c|
  {
    && (forall v :: v in ledger <==> 1 <= v <= k)
    && (forall v :: 1 <= v <= k ==> v in ledger && ledger[v] == RowFor(c[v - 1]))
  }

  /** What the runtime check accepts is the whole chain and nothing else. */
  lemma {:induction false} CurrentIff(rows: seq<Row>, ledger: map<int, Row>, c: Chain)
    requires ChainOk(c) && IsListing(rows, ledger)
    ensures (|rows| == |c| && forall k :: 0 <= k < |rows| ==> rows[k] == RowFor(c[k])) <==> Holds(ledger, c, |c|)
  {
    if Holds(ledger, c, |c|) { ListingFrom(rows, ledger, c, |c|); }
    if |rows| == |c| && forall k :: 0 <= k < |rows| ==> rows[k] == RowFor(c[k]) { ListingHolds(rows, ledger, c); }
  }

  lemma {:induction false} ListingHolds(rows: seq<Row>, ledger: map<int, Row>, c: Chain)
    requires ChainOk(c) && IsListing(rows, ledger) && |rows| == |c| && forall k :: 0 <= k < |rows| ==> rows[k] == RowFor(c[k])
    ensures Holds(ledger, c, |c|)
  {
    forall v ensures 1 <= v <= |c| ==> v in ledger && ledger[v] == RowFor(c[v - 1]) {
      assert 1 <= v <= |c| ==> rows[v - 1].version == v;
    }
  }

  lemma {:induction false} ListingFrom(rows: seq<Row>, ledger: map<int, Row>, c: Chain, k: nat)
    requires ChainOk(c) && k <= |c| && IsListing(rows, ledger) && Holds(ledger, c, k)
    ensures |rows| == k && forall j :: 0 <= j < k ==> rows[j] == RowFor(c[j])
  {
    ListedInPlace(rows, ledger, c, k, |rows|);
    assert rows != [] ==> rows[|rows| - 1].version in ledger;
    assert |rows| < k ==> |rows| + 1 in ledger;
  }

  lemma {:induction false} ListedInPlace(rows: seq<Row>, ledger: map<int, Row>, c: Chain, k: nat, n: nat)
    requires ChainOk(c) && k <= |c| && IsListing(rows, ledger) && Holds(ledger, c, k) && n <= |rows|
    ensures forall j :: 0 <= j < n ==> rows[j].version == j + 1
  {
    if n > 0 {
      var j := n - 1;
      ListedInPlace(rows, ledger, c, k, j);
      assert rows[j].version in ledger && (j > 0 ==> rows[j - 1].version < rows[j].version);
      assert j + 1 <= rows[j].version <= k;
      assert j + 1 in ledger;
      var i :| 0 <= i < |rows| && rows[i].version == j + 1;
    }
  }

  // ---------- runs ----------

  datatype Event = RunEvent(chain: Chain, stops: bool, fates: int -> Fate)
    | AdoptEvent(chain: Chain, stops: bool, fate: Fate, fates: int -> Fate)

  ghost function Next(db: Database, e: Event): (Database, bool) {
    match e
    case RunEvent(c, stops, fates) => Run(db, c, stops, fates)
    case AdoptEvent(c, stops, fate, fates) => Adopt(db, c, stops, fate, fates)
  }

  ghost function After(origin: Origin, run: seq<Event>): Database {
    if run == [] then Database(origin, false, map[], []) else Next(After(origin, run[..|run| - 1]), run[|run| - 1]).0
  }

  /** Every packaged chain is the beginning of one growing chain; older packages may run again. */
  ghost predicate Grows(run: seq<Event>, full: Chain) {
    ChainOk(full) && forall j :: 0 <= j < |run| ==> run[j].chain <= full
  }

  /** The ledger is a prefix of the chain, and the SQL of exactly those migrations was committed, once each and in
      order; only an adopted baseline was never executed. */
  ghost predicate PrefixApplied(db: Database, full: Chain, k: nat) {
    && k <= |full| && Holds(db.ledger, full, k)
    && (db.origin == NoTables ==> db.executed == full[..k])
    && (db.origin == RecognizedPreP3 ==> (db.ledgerExists ==> k >= 1) && db.executed == if k == 0 then [] else full[1..k])
    && (db.origin == OtherTables ==> !db.ledgerExists && db.executed == [])
    && (!db.ledgerExists ==> k == 0)
  }

  ghost predicate Good(db: Database, full: Chain) { exists k: nat :: PrefixApplied(db, full, k) }

  lemma {:induction false} AppliedKeeps(db: Database, full: Chain, k: nat)
    requires ChainOk(full) && PrefixApplied(db, full, k) && k < |full| && db.ledgerExists
    ensures PrefixApplied(Applied(db, full[k]), full, k + 1)
  {
    assert full[..k + 1] == full[..k] + [full[k]];
    assert k >= 1 ==> full[1..k + 1] == full[1..k] + [full[k]];
  }

  lemma {:induction false} ApplyFromKeeps(db: Database, c: Chain, full: Chain, j: nat, before: set<int>, fates: int -> Fate, k: nat)
    requires ChainOk(full) && c <= full && j <= |c| && db.ledgerExists && PrefixApplied(db, full, k)
    requires if j < k then forall v :: v in before <==> 1 <= v <= k else k == j && forall v :: v in before ==> v <= k
    requires k <= |c|
    ensures var (db', ok) := ApplyFrom(db, c, j, before, fates);
      Good(db', full) && db.executed <= db'.executed && (ok ==> PrefixApplied(db', full, |c|))
    decreases |c| - j
  {
    if j < |c| {
      assert c[j] == full[j];
      if j < k {
        ApplyFromKeeps(db, c, full, j + 1, before, fates, k);
      } else {
        AppliedKeeps(db, full, k);
        if fates(c[j].version).Commits? { ApplyFromKeeps(Applied(db, c[j]), c, full, j + 1, before, fates, k + 1); }
      }
    }
  }

  lemma {:induction false} MatchesBounds(ledger: map<int, Row>, c: Chain, full: Chain, k: nat)
    requires ChainOk(full) && c <= full && k <= |full| && Holds(ledger, full, k)
    ensures Matches(ledger, c) <==> k <= |c|
  {
    assert k in ledger || k == 0;
    if k <= |c| {
      forall v | v in ledger ensures exists i :: 0 <= i < |c| && c[i].version == v && ledger[v] == RowFor(c[i]) {
        assert c[v - 1] == full[v - 1];
      }
    }
  }

  lemma {:induction false} ApplyRemainingKeeps(db: Database, c: Chain, full: Chain, fates: int -> Fate, k: nat)
    requires ChainOk(full) && c <= full && PrefixApplied(db.(ledgerExists := true), full, k)
    ensures var (db', ok) := ApplyRemaining(db, c, fates);
      Good(db', full) && db.executed <= db'.executed && (ok ==> PrefixApplied(db', full, |c|))
  {
    MatchesBounds(db.ledger, c, full, k);
    if k <= |c| { ApplyFromKeeps(db.(ledgerExists := true), c, full, 0, db.ledger.Keys, fates, k); }
  }

  lemma {:induction false} AdoptedBaseline(db: Database, full: Chain)
    requires ChainOk(full) && Good(db, full) && !db.ledgerExists && db.origin == RecognizedPreP3
    ensures PrefixApplied(db.(ledgerExists := true, ledger := db.ledger[1 := RowFor(full[0])]), full, 1)
  {
    assert full[1..1] == [];
  }

  lemma {:induction false} NextKeeps(db: Database, e: Event, full: Chain)
    requires ChainOk(full) && e.chain <= full && Good(db, full)
    ensures var (db', ok) := Next(db, e);
      && Good(db', full) && db.executed <= db'.executed && db'.origin == db.origin
      && (ok ==> PrefixApplied(db', full, |e.chain|) && ChainOk(e.chain))
  {
    var k :| PrefixApplied(db, full, k);
    if e.AdoptEvent? {
      if ChainOk(e.chain) && !db.ledgerExists && db.origin == RecognizedPreP3 {
        AdoptedBaseline(db, full);
        var db1 := db.(ledgerExists := true, ledger := db.ledger[1 := RowFor(full[0])]);
        ApplyRemainingKeeps(db1, e.chain, full, e.fates, 1);
        OriginKept(db1, e.chain, e.fates);
      }
    } else if db.ledgerExists || db.origin == NoTables {
      ApplyRemainingKeeps(db, e.chain, full, e.fates, k);
      OriginKept(db, e.chain, e.fates);
    }
  }

  lemma {:induction false} ApplyFromOrigin(db: Database, c: Chain, j: nat, before: set<int>, fates: int -> Fate)
    requires j <= |c|
    ensures ApplyFrom(db, c, j, before, fates).0.origin == db.origin
    decreases |c| - j
  {
    if j < |c| {
      ApplyFromOrigin(db, c, j + 1, before, fates);
      ApplyFromOrigin(Applied(db, c[j]), c, j + 1, before, fates);
    }
  }

  lemma {:induction false} OriginKept(db: Database, c: Chain, fates: int -> Fate)
    ensures ApplyRemaining(db, c, fates).0.origin == db.origin
  {
    ApplyFromOrigin(db.(ledgerExists := true), c, 0, db.ledger.Keys, fates);
  }

  /** Through any sequence of completed, failed and interrupted runs and adoptions, whatever the database held
      before: the ledger is a prefix of the chain, and its migrations were committed once each, in order. */
  lemma {:induction false} LedgerIsPrefix(origin: Origin, run: seq<Event>, full: Chain)
    requires Grows(run, full)
    ensures Good(After(origin, run), full) && After(origin, run).origin == origin
  {
    if run == [] {
      assert full[..0] == [];
      assert PrefixApplied(After(origin, run), full, 0);
    } else {
      LedgerIsPrefix(origin, run[..|run| - 1], full);
      NextKeeps(After(origin, run[..|run| - 1]), run[|run| - 1], full);
    }
  }

  /** What was committed stays committed. */
  lemma {:induction false} CommittedStays(origin: Origin, run: seq<Event>, more: seq<Event>, full: Chain)
    requires Grows(run + more, full)
    ensures After(origin, run).executed <= After(origin, run + more).executed
  {
    if more == [] {
      assert run + more == run;
    } else {
      var n := |more| - 1;
      GrowsSplit(run, more, full);
      CommittedStays(origin, run, more[..n], full);
      LedgerIsPrefix(origin, run + more[..n], full);
      NextKeeps(After(origin, run + more[..n]), more[n], full);
    }
  }

  lemma {:induction false} GrowsSplit(run: seq<Event>, more: seq<Event>, full: Chain)
    requires Grows(run + more, full) && more != []
    ensures var n := |more| - 1; Grows(run + more[..n], full) && more[n].chain <= full
    ensures (run + more)[..|run + more| - 1] == run + more[..|more| - 1]
  {
    var all, part := run + more, run + more[..|more| - 1];
    forall j | 0 <= j < |part| ensures part[j].chain <= full { assert part[j] == all[j]; }
    assert all[|all| - 1] == more[|more| - 1];
  }

  /** A run that returns normally leaves the runtime check satisfied for its chain. */
  lemma {:induction false} NormalReturnIsCurrent(origin: Origin, run: seq<Event>, e: Event, full: Chain, rows: seq<Row>)
    requires Grows(run + [e], full) && Next(After(origin, run), e).1
    requires IsListing(rows, Next(After(origin, run), e).0.ledger)
    ensures |rows| == |e.chain| && forall k :: 0 <= k < |rows| ==> rows[k] == RowFor(e.chain[k])
  {
    assert (run + [e])[|run|] == e && forall j :: 0 <= j < |run| ==> (run + [e])[j] == run[j];
    LedgerIsPrefix(origin, run, full);
    NextKeeps(After(origin, run), e, full);
    ListingFrom(rows, Next(After(origin, run), e).0.ledger, full, |e.chain|);
  }

  lemma {:induction false} AllCommit(db: Database, c: Chain, j: nat, before: set<int>, fates: int -> Fate)
    requires j <= |c| && forall v :: fates(v) == Commits
    ensures ApplyFrom(db, c, j, before, fates).1
    decreases |c| - j
  {
    if j < |c| {
      AllCommit(db, c, j + 1, before, fates);
      AllCommit(Applied(db, c[j]), c, j + 1, before, fates);
    }
  }

  /** A run without failures returns normally exactly when its chain reaches the ledger and the database is empty
      or has a ledger. */
  lemma {:induction false} ReturnsIff(origin: Origin, run: seq<Event>, c: Chain, fates: int -> Fate, full: Chain)
    requires Grows(run, full) && ChainOk(c) && c <= full && forall v :: fates(v) == Commits
    ensures var db := After(origin, run);
      Run(db, c, false, fates).1 <==> (db.ledgerExists || origin == NoTables) && forall v :: v in db.ledger ==> v <= |c|
  {
    LedgerIsPrefix(origin, run, full);
    var db := After(origin, run);
    var k :| PrefixApplied(db, full, k);
    if k == 0 { NoRows(db.ledger, db.ledger.Keys); }
    assert k > 0 ==> 1 in db.ledger && k in db.ledger;
    MatchesBounds(db.ledger, c, full, k);
    AllCommit(db.(ledgerExists := true), c, 0, db.ledger.Keys, fates);
  }
}
