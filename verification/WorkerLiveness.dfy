/**
 Which jobs get finished without any reclaim (worker.py): exactly those that no crash has stranded.

 Handlers may do what they like: `policy` says of every claim whether its handler and its `complete` raise.
 */
module WorkerLiveness {
  import opened Common
  import opened JobQueue
  import opened WorkerProtocol
  import opened WorkerRuns
  import opened WorkerTiming
  import opened WorkerProcess

  type Policy = Job -> Outcome

  /** The steps of workers that claim the way `process_one` does - any kind, nothing locked - and never crash, with
      handlers that behave as `policy` says. */
  predicate Fair(w: World, s: Step, policy: Policy) {
    match s
    case Take(_, _, kinds, locked, _) => kinds == [] && locked == {}
    case HandlerCommits(k) => Busy(w, k) && policy(w.workers[k].job).handlerError.None?
    case HandlerRaises(k, error) => Busy(w, k) && HandlerError(w.workers[k].job, policy) == Some(error)
    case CompleteCommits(k) => Busy(w, k) && policy(w.workers[k].job).completeError.None?
    case CompleteRaises(k, error) => Busy(w, k) && policy(w.workers[k].job).completeError == Some(error)
    case FailCommits(_, _) => true
    case _ => false
  }

  function HandlerError(job: Job, policy: Policy): Option<string> {
    if job.kind !in HANDLED_KINDS then Some(NOT_IMPLEMENTED) else policy(job).handlerError
  }

  ghost predicate FairRun(w: World, steps: seq<Step>, policy: Policy)
    decreases |steps|
  {
    steps == [] ||
    (Enabled(w, steps[0]) && Fair(w, steps[0], policy) && FairRun(Apply(w, steps[0]), steps[1..], policy))
  }

  lemma {:induction false} FairRunIsQuiet(w: World, steps: seq<Step>, policy: Policy)
    requires FairRun(w, steps, policy)
    ensures QuietRun(w, steps) && Run(w, steps)
    decreases |steps|
  {
    if steps != [] { FairRunIsQuiet(Apply(w, steps[0]), steps[1..], policy); }
  }

  /** A running job whose holder has crashed. */
  ghost predicate Stranded(w: World, id: JobId)
    requires id in w.jobs
  {
    w.jobs[id].state == Running && forall k :: !Holds(w, k, id)
  }

  /** What every quiet run from the beginning leads to, once there is a worker. */
  ghost predicate Ready(w: World) {
    Orderly(w) && (forall id :: id in w.jobs ==> InBudget(w, id)) && w.workers != map[]
  }

  // ---------------------------------------------------------------- a measure of the work ahead

  function Rank(phase: Phase): nat {
    match phase case Free => 0 case Raising(_, _) => 1 case Finishing(_) => 2 case Handling(_) => 3
  }

  function HolderRank(w: World, id: JobId): nat
    requires id in w.jobs
  {
    var r := w.jobs[id];
    if r.lockedBy.Some? && Holds(w, r.lockedBy.value, id) then Rank(w.workers[r.lockedBy.value]) else 0
  }

  /** Three steps at most for every unit of fuel. */
  function Ahead(w: World, id: JobId): nat
    requires id in w.jobs
  {
    var r := w.jobs[id];
    if Finished(r) then 0
    else if r.state == Queued then Max(0, 3 * Fuel(r))
    else Max(0, 3 * Fuel(r) - 3 + HolderRank(w, id))
  }

  function AheadOf(w: World): JobId -> nat {
    (id: JobId) => if id in w.jobs then Ahead(w, id) else 0
  }

  function FuelOf(w: World): JobId -> nat {
    (id: JobId) => if id in w.jobs then Max(0, Fuel(w.jobs[id])) else 0
  }

  ghost function TotalAhead(w: World): nat {
    Sum(w.jobs.Keys, AheadOf(w))
  }

  ghost function TotalFuel(w: World): nat {
    Sum(w.jobs.Keys, FuelOf(w))
  }

  lemma AheadWithinFuel(w: World)
    ensures TotalAhead(w) <= 3 * TotalFuel(w)
  {
    SumScales(w.jobs.Keys, FuelOf(w), AheadOf(w), 3);
  }

  // ---------------------------------------------------------------- a fair step

  /** A claim, or a step of a worker with a job in hand. */
  predicate IsWork(w: World, s: Step) {
    s.Take? || ((s.HandlerCommits? || s.HandlerRaises? || s.CompleteCommits? || s.CompleteRaises? || s.FailCommits?)
                && Busy(w, s.worker))
  }

  /** The job that such a step is about. */
  function Subject(w: World, s: Step): JobId
    requires IsWork(w, s)
  {
    if s.Take? then s.id else w.workers[s.worker].job.id
  }

  lemma TakeDrops(w: World, s: Step)
    requires Exclusive(w) && Enabled(w, s) && s.Take? && InBudget(w, s.id)
    ensures s.id in Apply(w, s).jobs && Ahead(Apply(w, s), s.id) < Ahead(w, s.id)
  {
    TakenJob(w, s);
  }

  /** The row stays as it is while its holder gets from one phase to the next. */
  lemma PhaseDrops(w: World, s: Step)
    requires Exclusive(w) && Enabled(w, s) && (s.HandlerCommits? || s.HandlerRaises? || s.CompleteRaises?)
    requires InBudget(w, w.workers[s.worker].job.id)
    ensures var id := w.workers[s.worker].job.id;
            Apply(w, s).jobs == w.jobs && Ahead(Apply(w, s), id) < Ahead(w, id)
  {
    assert Owns(w.jobs, s.worker, w.workers[s.worker].job);
  }

  lemma EndDrops(w: World, s: Step)
    requires Exclusive(w) && HoldersKnown(w) && Enabled(w, s) && (s.CompleteCommits? || s.FailCommits?)
    requires InBudget(w, w.workers[s.worker].job.id)
    ensures var id := w.workers[s.worker].job.id;
            id in Apply(w, s).jobs && Ahead(Apply(w, s), id) < Ahead(w, id)
  {
    var id := w.workers[s.worker].job.id;
    assert Owns(w.jobs, s.worker, w.workers[s.worker].job);
    RowStep(w, s, id);
    FuelSpent(w.jobs[id], Apply(w, s).jobs[id]);
  }

  /** Leaving the running state costs fuel. */
  lemma FuelSpent(r: Row, r': Row)
    requires r.state == Running && WithinBudget(r) && r'.attempts == r.attempts && r'.maxAttempts == r.maxAttempts
    requires r'.state != Running
    ensures Fuel(r') < Fuel(r)
  {
  }

  lemma SubjectDrops(w: World, s: Step)
    requires Ready(w) && Enabled(w, s) && IsWork(w, s)
    ensures Subject(w, s) in w.jobs && Subject(w, s) in Apply(w, s).jobs
    ensures Ahead(Apply(w, s), Subject(w, s)) < Ahead(w, Subject(w, s))
  {
    if s.Take? {
      assert s.id in [s.id] && [s.id][0] == s.id;
      assert InBudget(w, s.id);
      TakeDrops(w, s);
    } else {
      assert Owns(w.jobs, s.worker, w.workers[s.worker].job);
      assert InBudget(w, w.workers[s.worker].job.id);
      if s.CompleteCommits? || s.FailCommits? { EndDrops(w, s); } else { PhaseDrops(w, s); }
    }
  }

  lemma OthersKeepHolder(w: World, s: Step, id: JobId, k: WorkerName)
    requires Enabled(w, s) && IsWork(w, s) && id != Subject(w, s)
    ensures Holds(Apply(w, s), k, id) <==> Holds(w, k, id)
    ensures Holds(w, k, id) ==> Apply(w, s).workers[k] == w.workers[k]
  {
    if s.Take? { TakenJob(w, s); }
  }

  lemma OthersKeep(w: World, s: Step, id: JobId)
    requires Exclusive(w) && HoldersKnown(w) && Enabled(w, s) && IsWork(w, s) && id in w.jobs && id != Subject(w, s)
    ensures id in Apply(w, s).jobs && Apply(w, s).jobs[id] == w.jobs[id]
    ensures Ahead(Apply(w, s), id) == Ahead(w, id)
  {
    RowStep(w, s, id);
    if w.jobs[id].lockedBy.Some? { OthersKeepHolder(w, s, id, w.jobs[id].lockedBy.value); }
  }

  lemma WorkKeepsJobs(w: World, s: Step)
    requires HoldersKnown(w) && Enabled(w, s) && IsWork(w, s)
    ensures Apply(w, s).jobs.Keys == w.jobs.Keys && s.worker in Apply(w, s).workers
  {
  }

  lemma WorkStaysReady(w: World, s: Step)
    requires Ready(w) && Enabled(w, s) && IsWork(w, s)
    ensures Ready(Apply(w, s)) && Apply(w, s).jobs.Keys == w.jobs.Keys
  {
    WorkKeepsJobs(w, s);
    StepKeepsOrderly(w, s);
    forall id | id in w.jobs ensures InBudget(Apply(w, s), id) {
      assert InBudget(w, id);
      StepSpends(w, s, id);
    }
  }

  lemma WorkGetsDone(w: World, s: Step)
    requires Ready(w) && Enabled(w, s) && IsWork(w, s)
    ensures TotalAhead(Apply(w, s)) < TotalAhead(w)
  {
    var f, g, keys := AheadOf(w), AheadOf(Apply(w, s)), w.jobs.Keys;
    WorkKeepsJobs(w, s);
    SubjectDrops(w, s);
    forall id | id in keys && id != Subject(w, s) ensures g(id) <= f(id) {
      OthersKeep(w, s, id);
    }
    SumDrops(keys, f, g, Subject(w, s));
  }

  /** A step of a live worker neither strands a job nor rescues one. */
  lemma WorkStrandsNothing(w: World, s: Step, id: JobId)
    requires Ready(w) && Enabled(w, s) && IsWork(w, s) && id in w.jobs
    ensures id in Apply(w, s).jobs && (Stranded(Apply(w, s), id) <==> Stranded(w, id))
  {
    var w' := Apply(w, s);
    if id != Subject(w, s) {
      OthersKeep(w, s, id);
      forall k ensures Holds(w', k, id) <==> Holds(w, k, id) { OthersKeepHolder(w, s, id, k); }
    } else {
      if s.Take? { TakenJob(w, s); } else { assert Holds(w, s.worker, id); }
      WorkStaysReady(w, s);
      RowStep(w, s, id);
      if w'.jobs[id].state == Running { assert Holds(w', s.worker, id); }
    }
  }

  // ---------------------------------------------------------------- there is always a fair step

  lemma {:induction false} EarliestOf(t: Table, ids: set<JobId>) returns (first: JobId)
    requires ids != {} && ids <= t.Keys
    ensures first in ids && forall i :: i in ids ==> t[first].runAt <= t[i].runAt
    decreases ids
  {
    var x :| x in ids;
    if ids == {x} {
      first := x;
    } else {
      var y := EarliestOf(t, ids - {x});
      first := if t[x].runAt <= t[y].runAt then x else y;
    }
  }

  /** A free worker can take the job that is first in line, as soon as its time has come. */
  lemma FirstInLineIsTaken(w: World, k: WorkerName, some: JobId) returns (s: Step)
    requires k in w.workers && w.workers[k].Free? && some in w.jobs && w.jobs[some].state == Queued
    ensures s.Take? && s.kinds == [] && s.locked == {} && Enabled(w, s)
  {
    var queued := set id | id in w.jobs && w.jobs[id].state == Queued;
    assert some in queued;
    var first := EarliestOf(w.jobs, queued);
    var now := Max(w.clock, w.jobs[first].runAt);
    s := Take(k, first, [], {}, now);
    assert [first][0] == first && first in [first];
    assert Eligible(w.jobs, first, now, [], {});
    assert forall i :: Eligible(w.jobs, i, now, [], {}) ==> i in queued;
  }

  lemma HolderMovesOn(w: World, k: WorkerName, policy: Policy) returns (s: Step)
    requires Ready(w) && Busy(w, k)
    ensures Enabled(w, s) && Fair(w, s, policy) && IsWork(w, s)
  {
    var job := w.workers[k].job;
    assert Known(w.jobs, w.history.retried, job);
    match w.workers[k]
    case Handling(_) =>
      var error := HandlerError(job, policy);
      s := if error.Some? then HandlerRaises(k, error.value) else HandlerCommits(k);
    case Finishing(_) =>
      var error := policy(job).completeError;
      s := if error.Some? then CompleteRaises(k, error.value) else CompleteCommits(k);
    case Raising(_, _) =>
      s := FailCommits(k, w.clock);
  }

  lemma SomethingMovesOn(w: World, id: JobId, policy: Policy) returns (s: Step)
    requires Ready(w) && id in w.jobs && !Finished(w.jobs[id]) && !Stranded(w, id)
    ensures Enabled(w, s) && Fair(w, s, policy) && IsWork(w, s)
  {
    var k :| k in w.workers && (Busy(w, k) || forall l :: !Busy(w, l));
    if Busy(w, k) {
      s := HolderMovesOn(w, k, policy);
    } else {
      assert w.jobs[id].state == Queued;
      s := FirstInLineIsTaken(w, k, id);
    }
  }

  // ---------------------------------------------------------------- every job that is not stranded finishes

  lemma NothingUnfinished(w: World, id: JobId)
    requires id in w.jobs && (Finished(w.jobs[id]) || Stranded(w, id))
    ensures Finished(w.jobs[id]) <==> !Stranded(w, id)
  {
  }

  /** Whatever handlers do, the workers can finish every job that no crash has stranded, and only those, within three
      steps for each unit of fuel - claiming whatever is first in line, with nothing locked and nobody crashing. */
  lemma EveryUnstrandedJobFinishes(w: World, policy: Policy) returns (steps: seq<Step>)
    requires Ready(w)
    ensures FairRun(w, steps, policy) && Run(w, steps) && |steps| <= 3 * TotalFuel(w)
    ensures Final(w, steps).jobs.Keys == w.jobs.Keys
    ensures forall id :: id in w.jobs ==> (Finished(Final(w, steps).jobs[id]) <==> !Stranded(w, id))
  {
    steps := WorkToTheEnd(w, policy);
    AheadWithinFuel(w);
  }

  lemma {:induction false} WorkToTheEnd(w: World, policy: Policy) returns (steps: seq<Step>)
    requires Ready(w)
    ensures FairRun(w, steps, policy) && Run(w, steps) && |steps| <= TotalAhead(w)
    ensures Final(w, steps).jobs.Keys == w.jobs.Keys
    ensures forall id :: id in w.jobs ==> (Finished(Final(w, steps).jobs[id]) <==> !Stranded(w, id))
    decreases TotalAhead(w)
  {
    if id :| id in w.jobs && !Finished(w.jobs[id]) && !Stranded(w, id) {
      var s := SomethingMovesOn(w, id, policy);
      WorkStaysReady(w, s);
      WorkGetsDone(w, s);
      var w' := Apply(w, s);
      var rest := WorkToTheEnd(w', policy);
      steps := [s] + rest;
      assert steps[1..] == rest;
      forall i | i in w.jobs ensures Finished(Final(w, steps).jobs[i]) <==> !Stranded(w, i) {
        WorkStrandsNothing(w, s, i);
      }
    } else {
      steps := [];
      forall i | i in w.jobs ensures Finished(w.jobs[i]) <==> !Stranded(w, i) { NothingUnfinished(w, i); }
    }
  }

  /** If every running job is held by a live worker, all jobs can be brought to done or dead. */
  lemma EveryJobFinishes(w: World, policy: Policy) returns (steps: seq<Step>)
    requires Ready(w)
    requires forall id :: id in w.jobs && w.jobs[id].state == Running ==> exists k :: Holds(w, k, id)
    ensures FairRun(w, steps, policy) && Run(w, steps) && |steps| <= 3 * TotalFuel(w)
    ensures forall id :: id in w.jobs ==> id in Final(w, steps).jobs && Finished(Final(w, steps).jobs[id])
  {
    steps := EveryUnstrandedJobFinishes(w, policy);
  }

  /** Every step of such workers is work. */
  lemma FairIsWork(w: World, s: Step, policy: Policy)
    requires Enabled(w, s) && Fair(w, s, policy)
    ensures IsWork(w, s)
  {
  }

  lemma {:induction false} FairRunWorks(w: World, steps: seq<Step>, policy: Policy)
    requires Ready(w) && FairRun(w, steps, policy) && Run(w, steps)
    ensures |steps| + TotalAhead(Final(w, steps)) <= TotalAhead(w)
    ensures Ready(Final(w, steps)) && Final(w, steps).jobs.Keys == w.jobs.Keys
    ensures forall id :: id in w.jobs ==> (Stranded(Final(w, steps), id) <==> Stranded(w, id))
    decreases |steps|
  {
    if steps != [] {
      var s := steps[0];
      FairIsWork(w, s, policy);
      WorkStaysReady(w, s);
      WorkGetsDone(w, s);
      FairRunWorks(Apply(w, s), steps[1..], policy);
      forall id | id in w.jobs ensures Stranded(Final(w, steps), id) <==> Stranded(w, id) {
        WorkStrandsNothing(w, s, id);
      }
    }
  }

  /** The workers cannot go on. */
  ghost predicate AtRest(w: World, policy: Policy) {
    forall s :: !(Enabled(w, s) && Fair(w, s, policy))
  }

  /** So however such workers are scheduled, they come to rest within three steps for each unit of fuel, and are at
      rest exactly when they have finished every job that no crash has stranded, and only those. */
  lemma EveryFairRunEnds(w: World, steps: seq<Step>, policy: Policy)
    requires Ready(w) && FairRun(w, steps, policy) && Run(w, steps)
    ensures |steps| <= 3 * TotalFuel(w) && Final(w, steps).jobs.Keys == w.jobs.Keys
    ensures AtRest(Final(w, steps), policy) <==>
            forall id :: id in w.jobs ==> (Finished(Final(w, steps).jobs[id]) <==> !Stranded(w, id))
  {
    var w' := Final(w, steps);
    FairRunWorks(w, steps, policy);
    AheadWithinFuel(w);
    if AtRest(w', policy) {
      forall id | id in w.jobs ensures Finished(w'.jobs[id]) <==> !Stranded(w, id) {
        if !Finished(w'.jobs[id]) && !Stranded(w', id) {
          var s := SomethingMovesOn(w', id, policy);
          assert false;
        }
        NothingUnfinished(w', id);
      }
    }
    if forall id :: id in w.jobs ==> (Finished(w'.jobs[id]) <==> !Stranded(w, id)) {
      forall s ensures !(Enabled(w', s) && Fair(w', s, policy)) {
        if Enabled(w', s) && Fair(w', s, policy) { NoWorkLeft(w', s, policy); }
      }
    }
  }

  lemma NoWorkLeft(w: World, s: Step, policy: Policy)
    requires Ready(w) && Enabled(w, s) && Fair(w, s, policy)
    ensures exists id :: id in w.jobs && !Finished(w.jobs[id]) && !Stranded(w, id)
  {
    FairIsWork(w, s, policy);
    SubjectDrops(w, s);
    if !s.Take? {
      assert Holds(w, s.worker, Subject(w, s)) && Owns(w.jobs, s.worker, w.workers[s.worker].job);
    }
  }

  // ---------------------------------------------------------------- a stranded job stays stranded

  lemma StaysStranded(w: World, s: Step, id: JobId)
    requires Orderly(w) && Enabled(w, s) && !s.Sweep? && id in w.jobs && Stranded(w, id)
    ensures id in Apply(w, s).jobs && Apply(w, s).jobs[id] == w.jobs[id] && Stranded(Apply(w, s), id)
  {
    RowStep(w, s, id);
    if s.Take? { TakenJob(w, s); }
    forall k ensures !Holds(Apply(w, s), k, id) {
      assert !Holds(w, k, id);
    }
  }

  /** Without a reclaim, nothing that any worker does ever touches a stranded job again. */
  lemma {:induction false} StrandedForEver(w: World, steps: seq<Step>, id: JobId)
    requires Orderly(w) && QuietRun(w, steps) && Run(w, steps) && id in w.jobs && Stranded(w, id)
    ensures id in Final(w, steps).jobs && Final(w, steps).jobs[id] == w.jobs[id] && Stranded(Final(w, steps), id)
    decreases |steps|
  {
    if steps != [] {
      StaysStranded(w, steps[0], id);
      StepKeepsOrderly(w, steps[0]);
      StrandedForEver(Apply(w, steps[0]), steps[1..], id);
    }
  }

  ghost predicate CanFinish(w: World, id: JobId) {
    exists steps ::
      QuietRun(w, steps) && Run(w, steps) && id in Final(w, steps).jobs && Finished(Final(w, steps).jobs[id])
  }

  /** A job can reach done or dead without a reclaim exactly if it is not stranded. */
  lemma FinishesExact(w: World, id: JobId)
    requires Ready(w) && id in w.jobs
    ensures CanFinish(w, id) <==> !Stranded(w, id)
  {
    if Stranded(w, id) {
      forall steps | QuietRun(w, steps) && Run(w, steps)
        ensures id in Final(w, steps).jobs && !Finished(Final(w, steps).jobs[id])
      {
        StrandedForEver(w, steps, id);
      }
    } else {
      var policy: Policy := (job: Job) => Outcome(None, None);
      var steps := EveryUnstrandedJobFinishes(w, policy);
      FairRunIsQuiet(w, steps, policy);
    }
  }

  /** A crash strands exactly the job in hand. */
  lemma CrashStrands(w: World, k: WorkerName, id: JobId)
    requires Orderly(w) && k in w.workers && id in w.jobs
    ensures Enabled(w, Crash(k)) && id in Apply(w, Crash(k)).jobs
    ensures Stranded(Apply(w, Crash(k)), id) <==> Stranded(w, id) || Holds(w, k, id)
  {
    var w' := Apply(w, Crash(k));
    assert forall l :: Holds(w', l, id) <==> Holds(w, l, id) && l != k;
    forall l | Holds(w, l, id) ensures Owns(w.jobs, l, w.workers[l].job) {}
  }

  // ---------------------------------------------------------------- every quiet run leads here

  lemma {:induction false} QuietRunsStayInBudget(w: World, steps: seq<Step>)
    requires Orderly(w) && QuietRun(w, steps) && Run(w, steps) && forall id :: id in w.jobs ==> InBudget(w, id)
    ensures Orderly(Final(w, steps)) && forall id :: id in Final(w, steps).jobs ==> InBudget(Final(w, steps), id)
    decreases |steps|
  {
    if steps != [] {
      var w' := Apply(w, steps[0]);
      StepKeepsOrderly(w, steps[0]);
      forall id | id in w'.jobs ensures InBudget(w', id) {
        if id in w.jobs { StepSpends(w, steps[0], id); }
      }
      QuietRunsStayInBudget(w', steps[1..]);
    }
  }

  lemma QuietRunsLeadToReady(clock: int, steps: seq<Step>)
    requires QuietRun(Begin(clock), steps) && Run(Begin(clock), steps) && Final(Begin(clock), steps).workers != map[]
    ensures Ready(Final(Begin(clock), steps))
  {
    BeginInv(clock);
    QuietRunsStayInBudget(Begin(clock), steps);
  }
}
