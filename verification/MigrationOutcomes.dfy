/** Exactly how far a run of the migrations gets, and which ledgers it refuses. */
module MigrationOutcomes {
  import opened Migrations

  // ---------- refused ledgers ----------

  /** Some ledger row is not that of the packaged migration with its version. */
  predicate Differs(ledger: map<int, Row>, c: Chain) {
    exists v :: v in ledger && RowDiffers(ledger[v], v, c)
  }

  predicate RowDiffers(row: Row, v: int, c: Chain) {
    forall k :: 0 <= k < |c| && c[k].version == v ==>
      row.version != v || row.name != c[k].name || row.checksum != c[k].checksum
  }

  /** A ledger that names another version, name or checksum than the package, or has rows but not the first, stops every run
      before any SQL. */
  lemma {:induction false} TamperedRefused(db: Database, e: Event)
    requires db.ledgerExists && (Differs(db.ledger, e.chain) || (db.ledger.Keys != {} && 1 !in db.ledger))
    ensures var (db', ok) := Next(db, e); !ok && db' == db
  {
    if !Differs(db.ledger, e.chain) { return; }
    var v :| v in db.ledger && RowDiffers(db.ledger[v], v, e.chain);
    forall k | 0 <= k < |e.chain| && e.chain[k].version == v ensures db.ledger[v] != RowFor(e.chain[k]) {}
  }

  /** So does a chain with a gap, and an existing database without a ledger unless it is recognised and adopted. */
  lemma {:induction false} NothingToRun(db: Database, e: Event)
    requires !ChainOk(e.chain) || e.stops || (!db.ledgerExists && db.origin != NoTables && !(e.AdoptEvent? && db.origin == RecognizedPreP3))
      || (db.ledgerExists && e.AdoptEvent?)
    ensures Next(db, e) == (db, false)
  {}

  // ---------- how far a run gets ----------

  /** From position `k` on the transactions commit up to position `j`, and the one there does not, if it exists. */
  predicate CommitsUpTo(c: Chain, k: nat, j: nat, fates: int -> Fate) {
    k <= j <= |c| && (forall i :: k <= i < j ==> fates(c[i].version) == Commits) && (j < |c| ==> fates(c[j].version) != Commits)
  }

  function Reached(c: Chain, j: nat, fates: int -> Fate): nat
    requires j <= |c|
  {
    if j < |c| && fates(c[j].version) == CommitLost then j + 1 else j
  }

  /** The loop skips the `k` versions of the ledger and then commits one after the other. */
  lemma {:induction false} LoopReaches(db: Database, c: Chain, full: Chain, at: nat, before: set<int>, fates: int -> Fate, k: nat, j: nat)
    requires ChainOk(full) && c <= full && at <= |c| && db.ledgerExists && PrefixApplied(db, full, k) && k <= |c|
    requires if at < k then forall v :: v in before <==> 1 <= v <= k else k == at && forall v :: v in before ==> v <= k
    requires CommitsUpTo(c, k, j, fates)
    ensures var (db', ok) := ApplyFrom(db, c, at, before, fates); ok == (j == |c|) && PrefixApplied(db', full, Reached(c, j, fates))
    decreases |c| - at
  {
    if at < |c| {
      assert c[at] == full[at];
      if at < k {
        LoopReaches(db, c, full, at + 1, before, fates, k, j);
      } else {
        AppliedKeeps(db, full, k);
        if at < j { LoopReaches(Applied(db, c[at]), c, full, at + 1, before, fates, k + 1, j); }
      }
    }
  }

  lemma {:induction false} RemainingReaches(db: Database, c: Chain, full: Chain, fates: int -> Fate, k: nat, j: nat)
    requires ChainOk(full) && c <= full && k <= |c| && PrefixApplied(db.(ledgerExists := true), full, k) && CommitsUpTo(c, k, j, fates)
    ensures var (db', ok) := ApplyRemaining(db, c, fates); ok == (j == |c|) && PrefixApplied(db', full, Reached(c, j, fates))
  {
    MatchesBounds(db.ledger, c, full, k);
    if k == 0 { NoRows(db.ledger, db.ledger.Keys); }
    assert k > 0 ==> 1 in db.ledger;
    LoopReaches(db.(ledgerExists := true), c, full, 0, db.ledger.Keys, fates, k, j);
  }

  /** After any history, a run commits the missing migrations in order up to the first whose transaction fails, which leaves
      nothing, or whose commit is reported lost, which leaves that one too; it returns normally exactly when there is none. */
  lemma {:induction false} RunReaches(origin: Origin, run: seq<Event>, c: Chain, fates: int -> Fate, full: Chain, k: nat, j: nat)
    requires Grows(run, full) && ChainOk(c) && c <= full && k <= |c| && PrefixApplied(After(origin, run), full, k)
    requires After(origin, run).ledgerExists || origin == NoTables
    requires CommitsUpTo(c, k, j, fates)
    ensures var (db', ok) := Run(After(origin, run), c, false, fates); ok == (j == |c|) && PrefixApplied(db', full, Reached(c, j, fates))
  {
    LedgerIsPrefix(origin, run, full);
    RemainingReaches(After(origin, run), c, full, fates, k, j);
  }

  /** Adopting a recognised database without a ledger records the first migration without executing it; if that commits, the
      others are applied as by a run. */
  lemma {:induction false} AdoptReaches(run: seq<Event>, c: Chain, fate: Fate, fates: int -> Fate, full: Chain, j: nat)
    requires Grows(run, full) && ChainOk(c) && c <= full && !After(RecognizedPreP3, run).ledgerExists
    requires CommitsUpTo(c, 1, j, fates)
    ensures var db := After(RecognizedPreP3, run); var (db', ok) := Adopt(db, c, false, fate, fates);
      && (fate == Fails ==> !ok && db' == db)
      && (fate == CommitLost ==> !ok && PrefixApplied(db', full, 1) && db'.executed == [])
      && (fate == Commits ==> ok == (j == |c|) && PrefixApplied(db', full, Reached(c, j, fates)))
  {
    var db := After(RecognizedPreP3, run);
    LedgerIsPrefix(RecognizedPreP3, run, full);
    AdoptedBaseline(db, full);
    var db1 := db.(ledgerExists := true, ledger := db.ledger[1 := RowFor(full[0])]);
    assert full[1..1] == [];
    if fate == Commits { RemainingReaches(db1, c, full, fates, 1, j); }
  }
}
