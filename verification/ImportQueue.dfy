/** The queue of confirmed batches: one is processed at a time, always the one confirmed first. */
module ImportQueue {
  import opened ImportModel
  import opened ImportProofs
  import opened ImportRuns
  import opened ImportWorker
  import opened ImportCompletion
  import opened Options

  /** A confirmed batch with its update choice and the workers that ever claimed it. */
  datatype Job = Job(rules: Rules, batch: Batch, workers: map<nat, Pc>)

  /** Jobs in the order of their confirmation, over one inventory. */
  datatype Queue = Queue(world: World, jobs: seq<Job>)

  datatype Step = Confirmed(job: Job) | Act(i: nat, ev: Event)

  function View(q: Queue, i: nat): Sys
    requires i < |q.jobs|
  {
    Sys(Db(q.world, q.jobs[i].batch), q.jobs[i].workers)
  }

  function Put(q: Queue, i: nat, s: Sys): Queue
    requires i < |q.jobs|
  {
    Queue(s.db.world, q.jobs[i := q.jobs[i].(batch := s.db.batch, workers := s.workers)])
  }

  /** The claim takes the oldest queued batch, and none while another is being processed. */
  predicate MayClaim(q: Queue, i: nat)
    requires i < |q.jobs|
  {
    && (forall j :: 0 <= j < |q.jobs| ==> q.jobs[j].batch.status != Processing)
    && (forall j :: 0 <= j < i ==> q.jobs[j].batch.status != Queued)
  }

  predicate Fresh(job: Job) { job.batch.status == Queued && job.workers == map[] }

  ghost predicate QueueNext(q: Queue, step: Step, q': Queue) {
    match step
    case Confirmed(job) => Fresh(job) && q' == q.(jobs := q.jobs + [job])
    case Act(i, ev) =>
      && i < |q.jobs| && (ev.Claim? ==> MayClaim(q, i)) && i < |q'.jobs|
      && Next(q.jobs[i].rules, View(q, i), ev, View(q', i)) && q' == Put(q, i, View(q', i))
  }

  ghost predicate QueueRun(states: seq<Queue>, steps: seq<Step>) {
    && |states| == |steps| + 1
    && forall k :: 0 <= k < |steps| ==> QueueNext(states[k], steps[k], states[k + 1])
  }

  /** The first job that has not ended was confirmed unprocessed, and a row of it blocks it; those after it wait. */
  ghost predicate Blocking(q: Queue, f: nat, preview: Batch) {
    && f < |q.jobs| && (forall j :: 0 <= j < f ==> Ended(q.jobs[j].batch))
    && JustConfirmed(View(q, f).db, preview) && q.jobs[f].workers == map[] && Blocked(q.jobs[f].rules, View(q, f).db)
    && forall j :: f < j < |q.jobs| ==> Fresh(q.jobs[j])
  }

  /** What every later state still looks like: the blocking job goes round, everything else stands still. */
  ghost predicate Starving(q0: Queue, f: nat, q: Queue) {
    && f < |q0.jobs| <= |q.jobs| && q.jobs[f].rules == q0.jobs[f].rules
    && (forall j :: 0 <= j < f ==> Ended(q.jobs[j].batch) && q.jobs[j].batch == q0.jobs[j].batch)
    && Inv(q0.jobs[f].rules, View(q0, f).db, View(q, f)) && !Ended(q.jobs[f].batch)
    && (forall j :: f < j < |q.jobs| ==> Fresh(q.jobs[j]))
    && (forall j :: f < j < |q0.jobs| ==> q.jobs[j] == q0.jobs[j])
  }

  lemma {:induction false} EndedStandsStill(rules: Rules, s: Sys, ev: Event, s': Sys)
    requires Ended(s.db.batch) && Next(rules, s, ev, s')
    ensures s'.db == s.db
  {}

  lemma {:induction false} FreshStandsStill(rules: Rules, s: Sys, ev: Event, s': Sys)
    requires s.db.batch.status == Queued && s.workers == map[] && Next(rules, s, ev, s')
    ensures ev.Claim?
  {}

  lemma {:induction false} NotYetEnded(rules: Rules, start: Db, s: Sys)
    requires Inv(rules, start, s) && Distinct(start.batch.rows) && Blocked(rules, start)
    ensures !Ended(s.db.batch)
  {
    BlockedMeansStuck(rules, start);
    if Ended(s.db.batch) { FoldDone(rules, s.db.world, s.db.batch.rows); }
  }

  lemma {:induction false} StarvingStep(q0: Queue, f: nat, preview: Batch, q: Queue, step: Step, q': Queue)
    requires Blocking(q0, f, preview) && Starving(q0, f, q) && QueueNext(q, step, q')
    ensures Starving(q0, f, q')
  {
    var rules, start := q0.jobs[f].rules, View(q0, f).db;
    match step
    case Confirmed(job) =>
      assert View(q', f) == View(q, f);
    case Act(i, ev) =>
      if i < f {
        EndedStandsStill(q.jobs[i].rules, View(q, i), ev, View(q', i));
        assert View(q', f) == View(q, f);
      } else if i == f {
        NextKeeps(rules, start, View(q, f), ev, View(q', f));
        NotYetEnded(rules, start, View(q', f));
      } else {
        FreshStandsStill(q.jobs[i].rules, View(q, i), ev, View(q', i));
      }
  }

  /** A batch blocked by one row starves every batch confirmed after it: in no run is any of them ever claimed. */
  lemma {:induction false} BlockedStarvesQueue(states: seq<Queue>, steps: seq<Step>, f: nat, preview: Batch, k: nat)
    requires QueueRun(states, steps) && Blocking(states[0], f, preview) && k < |states|
    ensures Starving(states[0], f, states[k])
  {
    var q0 := states[0];
    if k == 0 {
      var rules, start := q0.jobs[f].rules, View(q0, f).db;
      RunKeeps(rules, start, preview, [Sys(start, map[])], [], 0);
      NotYetEnded(rules, start, View(q0, f));
    } else {
      BlockedStarvesQueue(states, steps, f, preview, k - 1);
      StarvingStep(q0, f, preview, states[k - 1], steps[k - 1], states[k]);
    }
  }
}
