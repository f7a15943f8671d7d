/** `process_one` as one worker executes it, tied to the steps of the protocol it performs. */
module WorkerProcess {
  import opened Common
  import opened JobQueue
  import opened WorkerProtocol
  import opened WorkerTiming
  import Pipeline
  import Scheduler

  /** What the outside world decides: whether the handler and the `complete` transaction raise. */
  datatype Outcome = Outcome(handlerError: Option<string>, completeError: Option<string>)

  const NOT_IMPLEMENTED := "NotImplementedError: this stage is not implemented yet; see docs/STATUS.md"

  /** The exception `process_one` catches, if any. */
  function Caught(job: Job, outcome: Outcome): Option<string> {
    if job.kind !in HANDLED_KINDS then Some(NOT_IMPLEMENTED)
    else if outcome.handlerError.Some? then outcome.handlerError
    else outcome.completeError
  }

  /** The row of a job after one pass. */
  function RowAfter(r: Row, job: Job, outcome: Outcome, later: int): Row
    requires job.attempts >= 0
  {
    match Caught(job, outcome)
    case None => r.(state := Done, lockedBy := None)
    case Some(error) => FailRow(r, job, error, later)
  }

  /** Steps after the claim, in the order `process_one` performs them. */
  function StepsAfterClaim(name: WorkerName, job: Job, outcome: Outcome, later: int): seq<Step> {
    if job.kind !in HANDLED_KINDS then [HandlerRaises(name, NOT_IMPLEMENTED), FailCommits(name, later)]
    else match outcome
      case Outcome(Some(error), _) => [HandlerRaises(name, error), FailCommits(name, later)]
      case Outcome(None, Some(error)) => [HandlerCommits(name), CompleteRaises(name, error), FailCommits(name, later)]
      case Outcome(None, None) => [HandlerCommits(name), CompleteCommits(name)]
  }

  lemma {:induction false} StepsRun(w: World, name: WorkerName, job: Job, outcome: Outcome, later: int)
    requires Busy(w, name) && w.workers[name] == Handling(job) && job.attempts >= 0 && w.clock <= later
    requires job.id in w.jobs
    ensures var steps := StepsAfterClaim(name, job, outcome, later);
            && Run(w, steps)
            && Final(w, steps).jobs == w.jobs[job.id := RowAfter(w.jobs[job.id], job, outcome, later)]
            && Final(w, steps).workers == w.workers[name := Free]
            && Final(w, steps).history.lostSources ==
                 w.history.lostSources +
                 if job.kind == "source.fetch" && Caught(job, outcome).Some? && OutOfAttempts(job)
                 then multiset{job.id} else multiset{}
  {
    var error := Caught(job, outcome);
    if job.kind in HANDLED_KINDS && outcome.handlerError.None? {
      var w1 := Apply(w, HandlerCommits(name));
      if error.None? {
        TwoSteps(w, HandlerCommits(name), CompleteCommits(name));
      } else {
        var w2 := Apply(w1, CompleteRaises(name, error.value));
        TwoSteps(w1, CompleteRaises(name, error.value), FailCommits(name, later));
        var rest := [CompleteRaises(name, error.value), FailCommits(name, later)];
        FirstStep(w, HandlerCommits(name), rest);
        assert StepsAfterClaim(name, job, outcome, later) == [HandlerCommits(name)] + rest;
      }
    } else {
      var w1 := Apply(w, HandlerRaises(name, error.value));
      TwoSteps(w, HandlerRaises(name, error.value), FailCommits(name, later));
    }
  }

  lemma TwoSteps(w: World, s1: Step, s2: Step)
    requires Enabled(w, s1) && Enabled(Apply(w, s1), s2)
    ensures Run(w, [s1, s2]) && Final(w, [s1, s2]) == Apply(Apply(w, s1), s2)
  {
    var w1, none: seq<Step> := Apply(w, s1), [];
    var w2 := Apply(w1, s2);
    assert Run(w2, none) && Final(w2, none) == w2;
    FirstStep(w1, s2, none);
    FirstStep(w, s1, [s2]);
    assert [s1, s2] == [s1] + [s2] && [s2] == [s2] + none;
  }

  lemma FirstStep(w: World, s: Step, rest: seq<Step>)
    requires Enabled(w, s) && Run(Apply(w, s), rest)
    ensures Run(w, [s] + rest) && Final(w, [s] + rest) == Final(Apply(w, s), rest)
  {
  }

  /** A row once a worker has been through with it: done if its kind has a handler and neither the handler nor the
      completion raised; otherwise the first error is on record and it is dead, or due again after a delay. */
  function Settled(r: Row, name: WorkerName, outcome: Outcome, now: int, later: int): Row {
    var run := r.(lockedBy := None, lockedAt := Some(now), attempts := r.attempts + 1);
    if r.kind in HANDLED_KINDS && outcome == Outcome(None, None) then run.(state := Done)
    else
      var error :=
        if r.kind !in HANDLED_KINDS then "NotImplementedError: this stage is not implemented yet; see docs/STATUS.md"
        else match outcome
          case Outcome(Some(first), _) => first
          case Outcome(None, Some(second)) => second
          case Outcome(None, None) => "";
      var cut := run.(lastError := Some(error[..Min(2000, |error|)]));
      if r.attempts + 1 >= r.maxAttempts then cut.(state := Dead)
      else cut.(state := Queued, runAt := later + DelayAfter(r.attempts))
  }

  lemma SettledExact(id: JobId, r: Row, name: WorkerName, outcome: Outcome, now: int, later: int)
    ensures var claimed := ClaimRow(r, name, now);
            && RowAfter(claimed, Snapshot(id, claimed), outcome, later) == Settled(r, name, outcome, now, later)
            && (Caught(Snapshot(id, claimed), outcome).Some? <==>
                  r.kind !in HANDLED_KINDS || outcome.handlerError != None || outcome.completeError != None)
  {
    var claimed := ClaimRow(r, name, now);
    BackoffExact(r.attempts);
    var caught := Caught(Snapshot(id, claimed), outcome);
    if caught.Some? { assert caught.value[..|caught.value|] == caught.value; }
  }

  /** The claim and what follows it are a run of the protocol. */
  lemma PassRuns(w: World, name: WorkerName, id: JobId, kinds: seq<string>, locked: set<JobId>, outcome: Outcome,
                 now: int, later: int) returns (take: Step)
    requires name in w.workers && w.workers[name].Free? && w.clock <= now <= later
    requires IsSelection(w.jobs, now, kinds, locked, 1, [id])
    ensures id in w.jobs
    ensures var claimed := ClaimRow(w.jobs[id], name, now);
            var job := Snapshot(id, claimed);
            var steps := [take] + StepsAfterClaim(name, job, outcome, later);
            && job == Job(id, claimed.kind, claimed.payload, w.jobs[id].attempts, claimed.maxAttempts, claimed.key)
            && RowAfter(claimed, job, outcome, later) == Settled(w.jobs[id], name, outcome, now, later)
            && Run(w, steps) && Final(w, steps).workers == w.workers
            && Final(w, steps).jobs == w.jobs[id := Settled(w.jobs[id], name, outcome, now, later)]
            && Final(w, steps).history.lostSources ==
                 w.history.lostSources +
                 if job.kind == "source.fetch" && Caught(job, outcome).Some? && OutOfAttempts(job)
                 then multiset{id} else multiset{}
  {
    take := Take(name, id, kinds, locked, now);
    assert [id][0] == id && Eligible(w.jobs, id, now, kinds, locked);
    var w1 := Apply(w, take);
    var job := w1.workers[name].job;
    TakenJob(w, take);
    StepsRun(w1, name, job, outcome, later);
    FirstStep(w, take, StepsAfterClaim(name, job, outcome, later));
    SettledExact(id, w.jobs[id], name, outcome, now, later);
  }

  predicate IsScheduled(kind: string) {
    || kind == "source.fetch"
    || exists i :: 0 <= i < |Scheduler.PLATFORM_SCHEDULE| && Scheduler.PLATFORM_SCHEDULE[i].kind == kind
  }

  /** Every kind that the scheduler or the pipeline enqueues is declared and has a handler; besides these only matching
      and inbound mail do. */
  lemma EnqueuedKindsAreHandled(kind: string)
    ensures kind in HANDLED_KINDS <==>
            || IsScheduled(kind) || kind in {Pipeline.NORMALIZE, Pipeline.DEDUPE, Pipeline.NOTIFY}
            || kind == "notice.match" || kind == "email.inbound"
    ensures kind in HANDLED_KINDS ==> kind in JOB_KINDS
  {
    var s := Scheduler.PLATFORM_SCHEDULE;
    assert s[0].kind == "source.health" && s[1].kind == "notify.deadlines" && s[2].kind == "vault.freshness";
    assert s[3].kind == "notify.send" && s[4].kind == "digest.daily";
    if IsScheduled(kind) && kind != "source.fetch" {
      var i :| 0 <= i < |s| && s[i].kind == kind;
      assert i == 0 || i == 1 || i == 2 || i == 3 || i == 4;
    }
  }

  /** The `try` block: complete the job, or record what was raised. */
  method Settle(queue: Queue, job: Job, outcome: Outcome, later: int) returns (sourceLost: bool)
    requires job.attempts >= 0 && job.id in queue.rows
    modifies queue
    ensures queue.rows == old(queue.rows)[job.id := RowAfter(old(queue.rows)[job.id], job, outcome, later)]
    ensures sourceLost <==> job.kind == "source.fetch" && Caught(job, outcome).Some? && OutOfAttempts(job)
  {
    sourceLost := false;
    var caught := Caught(job, outcome);
    if caught.None? {
      queue.Complete(job.id);
    } else {
      var state := queue.Fail(job, caught.value, later);
      sourceLost := job.kind == "source.fetch" && state == Dead;
    }
  }

  /** Claim and run a single job; `None` when nothing was runnable. */
  method ProcessOne(queue: Queue, name: WorkerName, kinds: seq<string>, locked: set<JobId>, outcome: Outcome, now: int,
                    later: int, ghost w: World)
    returns (job: Option<Job>, sourceLost: bool, ghost steps: seq<Step>)
    requires w.jobs == queue.rows && name in w.workers && w.workers[name].Free? && w.clock <= now <= later
    modifies queue
    ensures job.None? <==> forall id :: !MayTake(old(queue.rows), id, now, kinds, locked)
    ensures job.None? ==> queue.rows == old(queue.rows)
    ensures job.Some? ==>
              var t, id := old(queue.rows), job.value.id;
              && IsSelection(t, now, kinds, locked, 1, [id]) && id in t
              && (kinds != [] ==> t[id].kind in kinds)
              && job.value == Job(id, t[id].kind, t[id].payload, t[id].attempts, t[id].maxAttempts, t[id].key)
              && queue.rows == t[id := Settled(t[id], name, outcome, now, later)]
              && (sourceLost <==>
                    && t[id].kind == "source.fetch" && t[id].attempts + 1 >= t[id].maxAttempts
                    && (outcome.handlerError != None || outcome.completeError != None))
    ensures Run(w, steps) && Final(w, steps).jobs == queue.rows && Final(w, steps).workers == w.workers
    ensures Final(w, steps).history.lostSources ==
              w.history.lostSources + if sourceLost && job.Some? then multiset{job.value.id} else multiset{}
  {
    var jobs := queue.Claim(name, now, kinds, locked, 1);
    SelectionExact(old(queue.rows), now, kinds, locked, 1, IdsOf(jobs));
    sourceLost, steps := false, [];
    if jobs == [] {
      job := None;
      assert IdsOf(jobs) == [];
      assert queue.rows == old(queue.rows);
      return;
    }
    var claimed := jobs[0];
    job := Some(claimed);
    assert IdsOf(jobs) == [claimed.id] && IdsOf(jobs)[0] == claimed.id;
    ghost var take := PassRuns(w, name, claimed.id, kinds, locked, outcome, now, later);
    steps := [take] + StepsAfterClaim(name, claimed, outcome, later);
    sourceLost := Settle(queue, claimed, outcome, later);
  }
}
