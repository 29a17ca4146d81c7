/** Every journal the scheduler can leave behind, over any number of complete and crashed invocations. */
module SchedulerRuns {
  import opened SchedulerModel
  import opened Options

  // ---------- the shape of a journal ----------

  predicate Matches(start: Event, finish: Event) {
    start.Started? && finish.Finished? &&
    finish.slot == start.slot && finish.attempt == start.attempt && finish.runId == start.runId
  }

  predicate InPlace(j: Journal, i: nat)
    requires i < |j|
  {
    if i % 2 == 0 then j[i].Started? else Matches(j[i - 1], j[i])
  }

  /** Starts and finishes alternate, each finish closing the start before it; run ids are not reused. */
  ghost predicate Paired(j: Journal) {
    && (forall i :: 0 <= i < |j| ==> InPlace(j, i))
    && (forall i, k :: 0 <= i < k < |j| && j[i].Started? && j[k].Started? ==> j[i].runId != j[k].runId)
  }

  lemma {:induction false} AfterStart(j: Journal, i: nat)
    requires Paired(j) && i < |j| && j[i].Started? && i + 1 < |j|
    ensures Matches(j[i], j[i + 1])
  {
    assert InPlace(j, i) && InPlace(j, i + 1);
  }

  lemma {:induction false} BeforeFinish(j: Journal, i: nat)
    requires Paired(j) && i < |j| && j[i].Finished?
    ensures i % 2 == 1 && Matches(j[i - 1], j[i])
  {
    assert InPlace(j, i);
  }

  /** A slot has a first attempt numbered 1 and at most a second one numbered 2, which follows a
      result that was not final and keeps the retry delay. */
  ghost predicate Attempts(j: Journal) {
    && (forall i :: 0 <= i < |j| && j[i].Started? ==> j[i].attempt == 1 || j[i].attempt == 2)
    && (forall i, k :: 0 <= i < k < |j| && j[i].Started? && j[k].Started? && j[i].slot == j[k].slot ==>
          && j[i].attempt == 1 && j[k].attempt == 2
          && j[i].at + RETRY_DELAY_MS <= j[k].at)
    && (forall k :: 0 <= k < |j| && j[k].Started? && j[k].attempt == 2 ==> HasFirst(j, k))
    && (forall i, k :: 0 <= i < k < |j| && j[i].Finished? && j[k].Started? && j[i].slot == j[k].slot ==> !Final(j[i]))
  }

  ghost predicate HasFirst(j: Journal, k: nat)
    requires k < |j|
  {
    exists i :: 0 <= i < k && j[i].Started? && j[i].slot == j[k].slot && j[i].attempt == 1
  }

  /** A retry is never offered sooner than the delay after the attempt it repeats began. */
  ghost predicate Delays(j: Journal) {
    forall i :: 0 < i < |j| && j[i].Finished? && !Final(j[i]) && j[i - 1].Started? ==>
      j[i - 1].at + RETRY_DELAY_MS <= EffectiveRetry(j[i])
  }

  ghost predicate Inv(j: Journal) { Paired(j) && Attempts(j) && Delays(j) }

  predicate Fresh(j: Journal, runId: RunId) { forall i :: 0 <= i < |j| ==> j[i].runId != runId }

  // ---------- reading the journal back ----------

  lemma {:induction false} NoOpenStarts(some: Journal, all: Journal)
    requires forall i :: 0 <= i < |some| && some[i].Started? ==> HasFinish(all, some[i].runId)
    ensures StartsWithoutFinish(some, all) == []
  {
    if some != [] { NoOpenStarts(some[..|some| - 1], all); }
  }

  /** What `startedWithoutFinish` finds: nothing, or the one start the journal ends with. */
  lemma {:induction false} UnfinishedIsLast(j: Journal)
    requires Paired(j)
    ensures Unfinished(j) == if |j| % 2 == 0 then [] else [j[|j| - 1]]
  {
    if j == [] { return; }
    var n := |j| - 1;
    assert InPlace(j, n);
    forall i | 0 <= i < n && j[i].Started? ensures HasFinish(j, j[i].runId) { AfterStart(j, i); }
    if |j| % 2 == 0 {
      NoOpenStarts(j, j);
    } else {
      NoOpenStarts(j[..n], j);
      forall k | 0 <= k < |j| && j[k].Finished? ensures j[k].runId != j[n].runId { BeforeFinish(j, k); }
      assert !HasFinish(j, j[n].runId);
    }
  }

  lemma {:induction false} LastFinishIndex(j: Journal, slot: int) returns (k: int)
    ensures LastFinish(j, slot).None? ==> k == -1 && forall i :: 0 <= i < |j| && j[i].Finished? ==> j[i].slot != slot
    ensures LastFinish(j, slot).Some? ==> 0 <= k < |j| && j[k] == LastFinish(j, slot).value
    ensures LastFinish(j, slot).Some? ==> forall i :: k < i < |j| && j[i].Finished? ==> j[i].slot != slot
  {
    if j == [] { return -1; }
    var e := j[|j| - 1];
    if e.Finished? && e.slot == slot { return |j| - 1; }
    k := LastFinishIndex(j[..|j| - 1], slot);
  }

  // ---------- each append keeps the invariant ----------

  lemma {:induction false} FirstStays(j: Journal, e: Event, k: nat)
    requires k < |j| && HasFirst(j, k)
    ensures HasFirst(j + [e], k)
  {
    var i :| 0 <= i < k && j[i].Started? && j[i].slot == j[k].slot && j[i].attempt == 1;
    assert (j + [e])[i] == j[i];
  }

  lemma {:induction false} PairedGrows(j: Journal, e: Event)
    requires Paired(j)
    requires if |j| % 2 == 0 then e.Started? && Fresh(j, e.runId) else Matches(j[|j| - 1], e)
    ensures Paired(j + [e])
  {
    forall i | 0 <= i < |j| + 1 ensures InPlace(j + [e], i) {
      if i < |j| { assert InPlace(j, i); }
    }
  }

  lemma {:induction false} FinishKeeps(j: Journal, f: Event)
    requires Inv(j) && |j| % 2 == 1 && Matches(j[|j| - 1], f)
    requires !Final(f) ==> j[|j| - 1].at + RETRY_DELAY_MS <= EffectiveRetry(f)
    ensures Inv(j + [f])
  {
    var j' := j + [f];
    PairedGrows(j, f);
    forall k | 0 <= k < |j'| && j'[k].Started? && j'[k].attempt == 2 ensures HasFirst(j', k) { FirstStays(j, f, k); }
    forall i | 0 < i < |j'| && j'[i].Finished? && !Final(j'[i]) && j'[i - 1].Started?
      ensures j'[i - 1].at + RETRY_DELAY_MS <= EffectiveRetry(j'[i])
    {
      if i < |j| { assert j'[i] == j[i] && j'[i - 1] == j[i - 1]; }
    }
  }

  /** What the due slot's last finish says about all earlier attempts at it. */
  lemma {:induction false} SlotHistory(j: Journal, slot: int) returns (k: int)
    requires Inv(j) && |j| % 2 == 0
    ensures k == -1 ==> LastFinish(j, slot).None? && forall i :: 0 <= i < |j| ==> j[i].slot != slot
    ensures k != -1 ==> 0 < k < |j| && LastFinish(j, slot) == Some(j[k]) && Matches(j[k - 1], j[k]) && j[k].slot == slot
    ensures k != -1 && j[k].attempt == 1 ==> forall i :: 0 <= i < |j| && j[i].slot == slot ==> i == k - 1 || i == k
  {
    k := LastFinishIndex(j, slot);
    if k == -1 {
      forall i | 0 <= i < |j| ensures j[i].slot != slot {
        assert InPlace(j, i);
        if j[i].Started? { AfterStart(j, i); }
      }
    } else {
      BeforeFinish(j, k);
      if j[k].attempt == 1 {
        forall i | 0 <= i < |j| && j[i].slot == slot ensures i == k - 1 || i == k {
          assert InPlace(j, i);
          if j[i].Started? { AfterStart(j, i); } else { BeforeFinish(j, i); }
        }
      }
    }
  }

  lemma {:induction false} StartKeeps(j: Journal, slot: int, dueNow: int, runId: RunId, at: int)
    requires Inv(j) && |j| % 2 == 0 && Fresh(j, runId) && dueNow <= at
    requires Decide(j, slot, dueNow).Attempt?
    ensures Inv(j + [Started(slot, Decide(j, slot, dueNow).number, runId, at)])
  {
    var s := Started(slot, Decide(j, slot, dueNow).number, runId, at);
    PairedGrows(j, s);
    var k := SlotHistory(j, slot);
    if k == -1 {
      FirstAttemptKeeps(j, s);
    } else {
      assert j[k - 1].attempt in {1, 2};
      assert j[k - 1].at + RETRY_DELAY_MS <= EffectiveRetry(j[k]) <= dueNow;
      SecondAttemptKeeps(j, s, k);
    }
  }

  lemma {:induction false} DelaysGrow(j: Journal, s: Event)
    requires Delays(j) && s.Started?
    ensures Delays(j + [s])
  {
    var j' := j + [s];
    forall i | 0 < i < |j'| && j'[i].Finished? && !Final(j'[i]) && j'[i - 1].Started?
      ensures j'[i - 1].at + RETRY_DELAY_MS <= EffectiveRetry(j'[i])
    {
      assert j'[i] == j[i] && j'[i - 1] == j[i - 1];
    }
  }

  lemma {:induction false} FirstAttemptKeeps(j: Journal, s: Event)
    requires Inv(j) && s.Started? && s.attempt == 1 && forall i :: 0 <= i < |j| ==> j[i].slot != s.slot
    ensures Attempts(j + [s]) && Delays(j + [s])
  {
    var j' := j + [s];
    DelaysGrow(j, s);
    forall m | 0 <= m < |j'| && j'[m].Started? && j'[m].attempt == 2 ensures HasFirst(j', m) { FirstStays(j, s, m); }
  }

  lemma {:induction false} SecondAttemptKeeps(j: Journal, s: Event, k: nat)
    requires Inv(j) && s.Started? && s.attempt == 2 && 0 < k < |j| && Matches(j[k - 1], j[k]) && j[k].slot == s.slot
    requires j[k - 1].attempt == 1 && !Final(j[k]) && j[k - 1].at + RETRY_DELAY_MS <= s.at
    requires forall i :: 0 <= i < |j| && j[i].slot == s.slot ==> i == k - 1 || i == k
    ensures Attempts(j + [s]) && Delays(j + [s])
  {
    var j' := j + [s];
    DelaysGrow(j, s);
    FirstsStay(j, s, k - 1);
  }

  lemma {:induction false} FirstsStay(j: Journal, s: Event, first: nat)
    requires Attempts(j) && s.Started? && first < |j| && j[first].Started? && j[first].slot == s.slot && j[first].attempt == 1
    ensures forall m :: 0 <= m < |j + [s]| && (j + [s])[m].Started? && (j + [s])[m].attempt == 2 ==> HasFirst(j + [s], m)
  {
    var j' := j + [s];
    forall m | 0 <= m < |j'| && j'[m].Started? && j'[m].attempt == 2 ensures HasFirst(j', m) {
      if m < |j| { FirstStays(j, s, m); } else { assert j'[first] == j[first]; }
    }
  }

  /** The readings of one invocation do not go back. */
  predicate Ordered(inp: Inputs) { inp.dueNow <= inp.startedAt <= inp.finishedAt }

  /** What is appended for an abandoned start is its finish, and nothing when there is none. */
  lemma {:induction false} ClosingShape(j: Journal, inp: Inputs)
    requires Inv(j)
    ensures |j| % 2 == 0 ==> Reconciliation(j, inp) == []
    ensures |j| % 2 == 1 ==> j[|j| - 1].Started? && Reconciliation(j, inp) == [ReconcileOne(j[|j| - 1], inp.reconcileAt(0))]
  {
    UnfinishedIsLast(j);
    if |j| % 2 == 1 { assert InPlace(j, |j| - 1); }
  }

  lemma {:induction false} ClosingMatches(j: Journal, at: int)
    requires |j| > 0 && j[|j| - 1].Started?
    ensures var f := ReconcileOne(j[|j| - 1], at);
      Matches(j[|j| - 1], f) && (!Final(f) ==> j[|j| - 1].at + RETRY_DELAY_MS <= EffectiveRetry(f))
  {}

  lemma {:induction false} FreshAfter(j: Journal, f: Event, runId: RunId)
    requires |j| > 0 && Matches(j[|j| - 1], f) && Fresh(j, runId)
    ensures Fresh(j + [f], runId)
  {}

  /** Closing an abandoned start keeps the journal good and leaves nothing open. */
  lemma {:induction false} ReconciliationKeeps(j: Journal, inp: Inputs)
    requires Inv(j)
    ensures |Reconciliation(j, inp)| == |j| % 2
    ensures Inv(j + Reconciliation(j, inp))
    ensures Fresh(j, inp.runId) ==> Fresh(j + Reconciliation(j, inp), inp.runId)
  {
    ClosingShape(j, inp);
    if |j| % 2 == 1 {
      var f := ReconcileOne(j[|j| - 1], inp.reconcileAt(0));
      ClosingMatches(j, inp.reconcileAt(0));
      FinishKeeps(j, f);
      if Fresh(j, inp.runId) { FreshAfter(j, f, inp.runId); }
    } else {
      assert j + [] == j;
    }
  }

  lemma {:induction false} AttemptKeeps(j: Journal, slot: int, inp: Inputs)
    requires Inv(j) && |j| % 2 == 0 && Ordered(inp) && Fresh(j, inp.runId)
    requires Decide(j, slot, inp.dueNow).Attempt?
    ensures var events := AttemptEvents(slot, Decide(j, slot, inp.dueNow).number, inp);
      Inv(j + [events[0]]) && Inv(j + [events[0]] + [events[1]])
  {
    var events := AttemptEvents(slot, Decide(j, slot, inp.dueNow).number, inp);
    StartKeeps(j, slot, inp.dueNow, inp.runId, inp.startedAt);
    FinishKeeps(j + [events[0]], events[1]);
  }

  lemma {:induction false} PrefixKeeps(j: Journal, closing: seq<Event>, e0: Event, e1: Event, cut: nat)
    requires |closing| <= 1 && cut <= |closing| + 2
    requires Inv(j) && Inv(j + closing) && Inv(j + closing + [e0]) && Inv(j + closing + [e0] + [e1])
    ensures Inv(j + (closing + [e0, e1])[..cut])
  {
    var all := closing + [e0, e1];
    if cut == 0 {
      assert j + all[..cut] == j;
    } else if cut == |closing| {
      assert all[..cut] == closing;
    } else if cut == |closing| + 1 {
      assert j + all[..cut] == j + closing + [e0];
    } else {
      assert j + all[..cut] == j + closing + [e0] + [e1];
    }
  }

  lemma {:induction false} ShortPrefixKeeps(j: Journal, closing: seq<Event>, cut: nat)
    requires |closing| <= 1 && cut <= |closing| && Inv(j) && Inv(j + closing)
    ensures Inv(j + closing[..cut])
  {
    if cut == 0 { assert j + closing[..cut] == j; } else { assert closing[..cut] == closing; }
  }

  /** What is appended is the closing of an abandoned start, then possibly a start and its finish. */
  lemma {:induction false} AppendedShape(j: Journal, slot: int, inp: Inputs) returns (closing: seq<Event>, attempted: bool, e0: Event, e1: Event)
    requires Inv(j) && Ordered(inp) && Fresh(j, inp.runId)
    ensures |closing| <= 1 && Inv(j + closing)
    ensures AppendedFor(j, slot, inp) == if attempted then closing + [e0, e1] else closing
    ensures attempted ==> Inv(j + closing + [e0]) && Inv(j + closing + [e0] + [e1])
  {
    closing := Reconciliation(j, inp);
    ReconciliationKeeps(j, inp);
    var decision := Decide(j + closing, slot, inp.dueNow);
    attempted := decision.Attempt? && inp.runIdValid;
    e0, e1 := Started(0, 0, "", 0), Started(0, 0, "", 0);
    if attempted {
      var events := AttemptEvents(slot, decision.number, inp);
      e0, e1 := events[0], events[1];
      AttemptKeeps(j + closing, slot, inp);
    }
  }

  /** An invocation that dies after any number of its appends leaves a good journal. */
  lemma {:induction false} InvocationKeeps(j: Journal, inp: Inputs, cut: nat)
    requires Inv(j) && Ordered(inp) && Fresh(j, inp.runId) && cut <= |Appended(j, inp)|
    ensures Inv(j + Appended(j, inp)[..cut])
  {
    var closing, attempted, e0, e1 := AppendedShape(j, LatestDueSlot(inp.dueNow), inp);
    if attempted { PrefixKeeps(j, closing, e0, e1, cut); } else { ShortPrefixKeeps(j, closing, cut); }
  }

  // ---------- histories ----------

  /** Invocations one after another (the advisory lock lets only one run at a time), each cut off anywhere. */
  ghost predicate IsHistory(js: seq<Journal>, inputs: seq<Inputs>, cuts: seq<nat>) {
    && |js| == |inputs| + 1 == |cuts| + 1 && js[0] == []
    && forall i :: 0 <= i < |inputs| ==>
         && Ordered(inputs[i]) && Fresh(js[i], inputs[i].runId)
         && cuts[i] <= |Appended(js[i], inputs[i])|
         && js[i + 1] == js[i] + Appended(js[i], inputs[i])[..cuts[i]]
  }

  lemma {:induction false} HistoryKeeps(js: seq<Journal>, inputs: seq<Inputs>, cuts: seq<nat>, n: nat)
    requires IsHistory(js, inputs, cuts) && n < |js|
    ensures Inv(js[n])
  {
    if n > 0 {
      HistoryKeeps(js, inputs, cuts, n - 1);
      InvocationKeeps(js[n - 1], inputs[n - 1], cuts[n - 1]);
    }
  }

  /** In every journal: at most one start is unfinished, and it is the last entry. */
  lemma {:induction false} AtMostOneUnfinished(js: seq<Journal>, inputs: seq<Inputs>, cuts: seq<nat>, n: nat)
    requires IsHistory(js, inputs, cuts) && n < |js|
    ensures |Unfinished(js[n])| <= 1
    ensures Unfinished(js[n]) != [] ==> Unfinished(js[n])[0] == js[n][|js[n]| - 1]
    ensures forall i :: 0 <= i < |js[n]| && js[n][i].Finished? ==> i > 0 && Matches(js[n][i - 1], js[n][i])
  {
    HistoryKeeps(js, inputs, cuts, n);
    UnfinishedIsLast(js[n]);
    forall i | 0 <= i < |js[n]| && js[n][i].Finished? ensures i > 0 && Matches(js[n][i - 1], js[n][i]) {
      BeforeFinish(js[n], i);
    }
  }

  /** In every journal a slot has one attempt numbered 1 and at most one more, numbered 2, that begins at
      least the retry delay after the first began; none begins after a final result. */
  lemma {:induction false} AttemptDiscipline(js: seq<Journal>, inputs: seq<Inputs>, cuts: seq<nat>, n: nat)
    requires IsHistory(js, inputs, cuts) && n < |js|
    ensures var j := js[n];
      && (forall i, k :: 0 <= i < k < |j| && j[i].Started? && j[k].Started? && j[i].slot == j[k].slot ==>
            j[i].attempt == 1 && j[k].attempt == 2 && j[i].at + RETRY_DELAY_MS <= j[k].at)
      && (forall i, k, m :: 0 <= i < k < m < |j| && j[i].Started? && j[k].Started? && j[m].Started? ==>
            !(j[i].slot == j[k].slot == j[m].slot))
      && (forall k :: 0 <= k < |j| && j[k].Started? ==> j[k].attempt == 1 || HasFirst(j, k))
      && (forall i, k :: 0 <= i < k < |j| && j[i].Finished? && j[k].Started? && j[i].slot == j[k].slot ==> !Final(j[i]))
  {
    HistoryKeeps(js, inputs, cuts, n);
  }
}
