/**
 What the worker protocol guarantees over whole runs.

 Some guarantees hold in every run.  Exclusive ownership needs one assumption the code cannot check:
 the stale sweep only ever takes back jobs whose holder is dead.  `SweepExact` shows the assumption
 is exactly what is needed, and `FinalityExact` says when a finished job can come back without it.
 */
module WorkerRuns {
  import opened Common
  import opened JobQueue
  import opened WorkerProtocol

  // ---------------------------------------------------------------- every run

  lemma {:induction false} RunKeepsInv(w: World, steps: seq<Step>)
    requires Inv(w) && Run(w, steps)
    ensures Inv(Final(w, steps))
    decreases |steps|
  {
    if steps != [] {
      StepKeepsInv(w, steps[0]);
      RunKeepsInv(Apply(w, steps[0]), steps[1..]);
    }
  }

  lemma BeginInv(clock: int)
    ensures Inv(Begin(clock))
  {
  }

  lemma {:induction false} RetriesBounded(retried: set<int>, bound: int)
    requires forall a :: a in retried ==> 0 <= a < bound
    ensures |retried| <= Max(0, bound)
  {
    if bound <= 0 {
      assert retried == {};
    } else {
      var rest := retried - {bound - 1};
      RetriesBounded(rest, bound - 1);
      if bound - 1 in retried { assert retried == rest + {bound - 1}; } else { assert retried == rest; }
    }
  }

  lemma ClaimsBounded(w: World, id: JobId)
    requires Inv(w) && id in w.jobs
    ensures w.history.claims[id] <= Max(1, w.jobs[id].maxAttempts) + w.history.reclaims[id]
  {
    assert Counted(w.jobs, w.history, id);
    forall a | a in RetriedOf(w.history, id) ensures 0 <= a < w.jobs[id].maxAttempts - 1 {
      assert WasRetried(w.jobs, id, a) by { assert (id, a) in w.history.retried; }
    }
    RetriesBounded(RetriedOf(w.history, id), w.jobs[id].maxAttempts - 1);
  }

  /** In every run a job is claimed at most `max_attempts` times, plus once for each time it was reclaimed. */
  lemma ClaimBudget(clock: int, steps: seq<Step>, id: JobId)
    requires Run(Begin(clock), steps) && id in Final(Begin(clock), steps).jobs
    ensures var w := Final(Begin(clock), steps);
            w.history.claims[id] <= Max(1, w.jobs[id].maxAttempts) + w.history.reclaims[id]
  {
    BeginInv(clock);
    RunKeepsInv(Begin(clock), steps);
    ClaimsBounded(Final(Begin(clock), steps), id);
  }

  /** In every run no key has two jobs, and a job is done only after a handler transaction for it committed;
      so a job of a kind without a handler is never done. */
  lemma DoneMeansHandled(clock: int, steps: seq<Step>)
    requires Run(Begin(clock), steps)
    ensures var w := Final(Begin(clock), steps);
            && KeysUnique(w.jobs)
            && forall id :: id in w.jobs && w.jobs[id].state == Done ==>
                 id in w.history.commits && w.jobs[id].kind in HANDLED_KINDS
  {
    BeginInv(clock);
    RunKeepsInv(Begin(clock), steps);
  }

  /** In every run no row is lost and no row changes identity. */
  lemma {:induction false} JobsAreNeverLost(w: World, steps: seq<Step>)
    requires Run(w, steps)
    ensures TableGrows(w.jobs, Final(w, steps).jobs)
    decreases |steps|
  {
    if steps != [] {
      StepGrowsTable(w, steps[0]);
      JobsAreNeverLost(Apply(w, steps[0]), steps[1..]);
    }
  }

  // ---------------------------------------------------------------- exclusive ownership

  /** A live holder's row is running, locked by that holder, and counts exactly this claim. */
  predicate Owns(t: Table, k: WorkerName, job: Job) {
    job.id in t && t[job.id].state == Running && t[job.id].lockedBy == Some(k) && t[job.id].attempts == job.attempts + 1
  }

  ghost predicate Exclusive(w: World) {
    && (forall k :: Busy(w, k) ==> Owns(w.jobs, k, w.workers[k].job))
    && (forall id :: id in w.jobs ==> (w.jobs[id].state == Running <==> w.jobs[id].lockedBy.Some?))
  }

  /** The assumption: a sweep takes back no job that a live worker holds. */
  ghost predicate OnlyDeadReclaimed(w: World, s: Step) {
    s.Sweep? ==> forall k :: Busy(w, k) ==> w.workers[k].job.id !in StaleIds(w.jobs, s.now, s.olderThan)
  }

  ghost predicate SafeRun(w: World, steps: seq<Step>)
    decreases |steps|
  {
    steps == [] ||
    (Enabled(w, steps[0]) && OnlyDeadReclaimed(w, steps[0]) && SafeRun(Apply(w, steps[0]), steps[1..]))
  }

  lemma {:induction false} SafeRunIsRun(w: World, steps: seq<Step>)
    requires SafeRun(w, steps)
    ensures Run(w, steps)
    decreases |steps|
  {
    if steps != [] { SafeRunIsRun(Apply(w, steps[0]), steps[1..]); }
  }

  lemma OwnerStaysOwner(w: World, s: Step, k: WorkerName)
    requires Exclusive(w) && Enabled(w, s) && OnlyDeadReclaimed(w, s) && Busy(Apply(w, s), k)
    ensures Owns(Apply(w, s).jobs, k, Apply(w, s).workers[k].job)
  {
    if s.Take? { TakenJob(w, s); }
    if !(s.Take? && s.worker == k) {
      JobFromBefore(w, s, k);
      assert Owns(w.jobs, k, w.workers[k].job);
      if s.CompleteCommits? || s.FailCommits? {
        assert Owns(w.jobs, s.worker, w.workers[s.worker].job);
      }
    }
  }

  lemma LockedIffRunning(w: World, s: Step, id: JobId)
    requires Exclusive(w) && Enabled(w, s) && id in Apply(w, s).jobs
    ensures Apply(w, s).jobs[id].state == Running <==> Apply(w, s).jobs[id].lockedBy.Some?
  {
  }

  lemma StepKeepsExclusive(w: World, s: Step)
    requires Exclusive(w) && Enabled(w, s) && OnlyDeadReclaimed(w, s)
    ensures Exclusive(Apply(w, s))
  {
    var w' := Apply(w, s);
    forall k | Busy(w', k) ensures Owns(w'.jobs, k, w'.workers[k].job) {
      OwnerStaysOwner(w, s, k);
    }
    forall id | id in w'.jobs ensures w'.jobs[id].state == Running <==> w'.jobs[id].lockedBy.Some? {
      LockedIffRunning(w, s, id);
    }
  }

  /** The assumption is exact: a sweep keeps exclusive ownership iff it reclaims no live holder's job. */
  lemma SweepExact(w: World, s: Step)
    requires Exclusive(w) && s.Sweep? && Enabled(w, s)
    ensures Exclusive(Apply(w, s)) <==> OnlyDeadReclaimed(w, s)
  {
    if OnlyDeadReclaimed(w, s) {
      StepKeepsExclusive(w, s);
    } else {
      var k :| Busy(w, k) && w.workers[k].job.id in StaleIds(w.jobs, s.now, s.olderThan);
      var w' := Apply(w, s);
      assert Busy(w', k) && !Owns(w'.jobs, k, w'.workers[k].job);
    }
  }

  lemma {:induction false} SafeRunKeepsExclusive(w: World, steps: seq<Step>)
    requires Exclusive(w) && SafeRun(w, steps) && Run(w, steps)
    ensures Exclusive(Final(w, steps))
    decreases |steps|
  {
    if steps != [] {
      StepKeepsExclusive(w, steps[0]);
      SafeRunKeepsExclusive(Apply(w, steps[0]), steps[1..]);
    }
  }

  /** A locked row's worker is still at work on this claim, or crashed while it was. */
  predicate HeldOrAbandoned(w: World, id: JobId)
    requires id in w.jobs
  {
    w.jobs[id].state == Running && w.jobs[id].lockedBy.Some? ==>
      var k := w.jobs[id].lockedBy.value;
      || (Holds(w, k, id) && w.workers[k].job.attempts + 1 == w.jobs[id].attempts)
      || (k, id, w.jobs[id].attempts - 1) in w.history.abandoned
  }

  ghost predicate AllAccountedFor(w: World) {
    forall id :: id in w.jobs ==> HeldOrAbandoned(w, id)
  }

  lemma StepKeepsAccount(w: World, s: Step, id: JobId)
    requires Exclusive(w) && Enabled(w, s) && AllAccountedFor(w) && id in Apply(w, s).jobs
    ensures HeldOrAbandoned(Apply(w, s), id)
  {
    if id in w.jobs { assert HeldOrAbandoned(w, id); }
    if s.Take? { TakenJob(w, s); }
  }

  lemma {:induction false} SafeRunKeepsAccount(w: World, steps: seq<Step>)
    requires Exclusive(w) && AllAccountedFor(w) && SafeRun(w, steps) && Run(w, steps)
    ensures AllAccountedFor(Final(w, steps))
    decreases |steps|
  {
    if steps != [] {
      forall id | id in Apply(w, steps[0]).jobs ensures HeldOrAbandoned(Apply(w, steps[0]), id) {
        StepKeepsAccount(w, steps[0], id);
      }
      StepKeepsExclusive(w, steps[0]);
      SafeRunKeepsAccount(Apply(w, steps[0]), steps[1..]);
    }
  }

  /** No worker but the one a running job's row names holds it, and that one holds it unless it crashed since it
      claimed the job; no worker holds a job that is queued, done or dead. */
  lemma ExclusiveOwnership(clock: int, steps: seq<Step>, id: JobId)
    requires Run(Begin(clock), steps) && SafeRun(Begin(clock), steps)
    requires id in Final(Begin(clock), steps).jobs
    ensures var w := Final(Begin(clock), steps);
            if w.jobs[id].state == Running then
              && w.jobs[id].lockedBy.Some?
              && var owner := w.jobs[id].lockedBy.value;
              && (forall k :: Holds(w, k, id) ==> k == owner)
              && (Holds(w, owner, id) || (owner, id, w.jobs[id].attempts - 1) in w.history.abandoned)
            else w.jobs[id].lockedBy.None? && forall k :: !Holds(w, k, id)
  {
    SafeRunKeepsExclusive(Begin(clock), steps);
    SafeRunKeepsAccount(Begin(clock), steps);
    var w := Final(Begin(clock), steps);
    assert HeldOrAbandoned(w, id);
    forall k | Holds(w, k, id) ensures Owns(w.jobs, k, w.workers[k].job) {}
  }

  /** What a step other than a sweep does to one row: a claim, the owner's complete or fail, or nothing. */
  lemma RowStep(w: World, s: Step, id: JobId)
    requires Exclusive(w) && HoldersKnown(w) && Enabled(w, s) && !s.Sweep? && id in w.jobs
    ensures id in Apply(w, s).jobs
    ensures var r, r' := w.jobs[id], Apply(w, s).jobs[id];
            if s.Take? && s.id == id then
              r.state == Queued && r.runAt <= s.now && r' == ClaimRow(r, s.worker, s.now)
            else if s.CompleteCommits? && Holds(w, s.worker, id) then
              r.state == Running && r' == r.(state := Done, lockedBy := None)
            else if s.FailCommits? && Holds(w, s.worker, id) then
              var job := w.workers[s.worker].job;
              && r.state == Running && job.attempts + 1 == r.attempts && job.attempts >= 0
              && job.maxAttempts == r.maxAttempts && job.kind == r.kind
              && r' == FailRow(r, job, w.workers[s.worker].error, s.now)
            else r' == r
  {
  }

  predicate Finished(r: Row) {
    r.state == Done || r.state == Dead
  }

  ghost predicate Unheld(w: World, id: JobId) {
    forall k :: !Holds(w, k, id)
  }

  lemma StepKeepsFinished(w: World, s: Step, id: JobId)
    requires Enabled(w, s) && id in w.jobs && Finished(w.jobs[id]) && Unheld(w, id)
    ensures id in Apply(w, s).jobs && Apply(w, s).jobs[id] == w.jobs[id] && Unheld(Apply(w, s), id)
  {
    if s.Take? { TakenJob(w, s); }
    if s.CompleteCommits? || s.FailCommits? { assert !Holds(w, s.worker, id); }
    forall k ensures !Holds(Apply(w, s), k, id) { assert !Holds(w, k, id); }
  }

  /** Done and dead are absorbing once no worker is at work on the job: whatever is reclaimed, its row is frozen. */
  lemma {:induction false} FinishedIsFrozen(w: World, steps: seq<Step>, id: JobId)
    requires Run(w, steps) && id in w.jobs && Finished(w.jobs[id]) && Unheld(w, id)
    ensures id in Final(w, steps).jobs && Final(w, steps).jobs[id] == w.jobs[id] && Unheld(Final(w, steps), id)
    decreases |steps|
  {
    if steps != [] {
      StepKeepsFinished(w, steps[0], id);
      FinishedIsFrozen(Apply(w, steps[0]), steps[1..], id);
    }
  }

  /** So wherever ownership is exclusive a finished job stays as it is for ever, whatever later sweeps reclaim. */
  lemma FinishedIsFinal(w: World, steps: seq<Step>, id: JobId)
    requires Exclusive(w) && Run(w, steps) && id in w.jobs && Finished(w.jobs[id])
    ensures id in Final(w, steps).jobs && Final(w, steps).jobs[id] == w.jobs[id]
  {
    forall k ensures !Holds(w, k, id) {
      assert Busy(w, k) ==> Owns(w.jobs, k, w.workers[k].job);
    }
    FinishedIsFrozen(w, steps, id);
  }

  // ---------------------------------------------------------------- when a finished job comes back

  /** A worker in this phase can take a job of its own out of the given state. */
  predicate Undoes(phase: Phase, state: JobState)
    requires !phase.Free?
  {
    || state == Done || phase.Finishing? || (phase.Handling? && phase.job.kind in HANDLED_KINDS)
    || !OutOfAttempts(phase.job)
  }

  predicate IsUndoer(w: World, k: WorkerName, id: JobId)
    requires id in w.jobs
  {
    Holds(w, k, id) && Undoes(w.workers[k], w.jobs[id].state)
  }

  ghost predicate CanComeBack(w: World, id: JobId)
    requires id in w.jobs
  {
    exists steps :: Run(w, steps) && id in Final(w, steps).jobs && Final(w, steps).jobs[id].state != w.jobs[id].state
  }

  lemma StepKeepsState(w: World, s: Step, id: JobId)
    requires Enabled(w, s) && id in w.jobs && Finished(w.jobs[id]) && forall k :: !IsUndoer(w, k, id)
    ensures id in Apply(w, s).jobs && Apply(w, s).jobs[id].state == w.jobs[id].state
    ensures forall k :: !IsUndoer(Apply(w, s), k, id)
  {
    if s.Take? { TakenJob(w, s); }
    if s.CompleteCommits? || s.FailCommits? { assert !IsUndoer(w, s.worker, id); }
    forall k ensures !IsUndoer(Apply(w, s), k, id) { assert !IsUndoer(w, k, id); }
  }

  lemma {:induction false} RunKeepsState(w: World, steps: seq<Step>, id: JobId)
    requires Run(w, steps) && id in w.jobs && Finished(w.jobs[id]) && forall k :: !IsUndoer(w, k, id)
    ensures id in Final(w, steps).jobs && Final(w, steps).jobs[id].state == w.jobs[id].state
    decreases |steps|
  {
    if steps != [] {
      StepKeepsState(w, steps[0], id);
      RunKeepsState(Apply(w, steps[0]), steps[1..], id);
    }
  }

  lemma OneStepRun(w: World, s: Step)
    requires Enabled(w, s)
    ensures Run(w, [s]) && Final(w, [s]) == Apply(w, s)
  {
    assert [s][1..] == [] && Run(Apply(w, s), []);
  }

  lemma TwoStepRun(w: World, s: Step, t: Step)
    requires Enabled(w, s) && Enabled(Apply(w, s), t)
    ensures Run(w, [s, t]) && Final(w, [s, t]) == Apply(Apply(w, s), t)
  {
    OneStepRun(Apply(w, s), t);
    assert [s, t][1..] == [t];
  }

  /** The holder's `fail` takes a job out of done, and out of dead unless it has used up the attempts it knows of. */
  lemma FailUndoes(w: World, k: WorkerName, id: JobId)
    requires id in w.jobs && Holds(w, k, id) && w.workers[k].Raising? && w.workers[k].job.attempts >= 0
    requires Finished(w.jobs[id]) && (w.jobs[id].state == Done || !OutOfAttempts(w.workers[k].job))
    ensures var s := FailCommits(k, w.clock);
            Enabled(w, s) && id in Apply(w, s).jobs && Apply(w, s).jobs[id].state != w.jobs[id].state
  {
  }

  lemma UndoerUndoes(w: World, k: WorkerName, id: JobId)
    requires Inv(w) && id in w.jobs && Finished(w.jobs[id]) && IsUndoer(w, k, id)
    ensures CanComeBack(w, id)
  {
    var job, state := w.workers[k].job, w.jobs[id].state;
    assert Known(w.jobs, w.history.retried, job);
    var fail := FailCommits(k, w.clock);
    if state == Dead && !w.workers[k].Raising? && (w.workers[k].Finishing? || job.kind in HANDLED_KINDS) {
      if w.workers[k].Finishing? {
        OneStepRun(w, CompleteCommits(k));
      } else {
        TwoStepRun(w, HandlerCommits(k), CompleteCommits(k));
      }
    } else if w.workers[k].Raising? {
      FailUndoes(w, k, id);
      OneStepRun(w, fail);
    } else {
      var raise := if w.workers[k].Handling? then HandlerRaises(k, "late") else CompleteRaises(k, "late");
      FailUndoes(Apply(w, raise), k, id);
      TwoStepRun(w, raise, fail);
    }
  }

  /** A done job can come back exactly if some live worker still holds a claim of it; a dead one exactly if that worker
      may yet complete it or still counts an attempt left.  Two steps are enough. */
  lemma FinalityExact(w: World, id: JobId)
    requires Inv(w) && id in w.jobs && Finished(w.jobs[id])
    ensures CanComeBack(w, id) <==> exists k :: IsUndoer(w, k, id)
    ensures w.jobs[id].state == Done ==> (CanComeBack(w, id) <==> exists k :: Holds(w, k, id))
  {
    if k :| IsUndoer(w, k, id) {
      UndoerUndoes(w, k, id);
    } else {
      forall steps | Run(w, steps)
        ensures id in Final(w, steps).jobs && Final(w, steps).jobs[id].state == w.jobs[id].state
      {
        RunKeepsState(w, steps, id);
      }
    }
    if w.jobs[id].state == Done {
      forall k ensures IsUndoer(w, k, id) <==> Holds(w, k, id) {}
    }
  }

  // ---------------------------------------------------------------- lost sources

  predicate LossRecorded(t: Table, h: History, id: JobId)
    requires id in t
  {
    h.lostSources[id] == if t[id].kind == "source.fetch" && t[id].state == Dead then 1 else 0
  }

  ghost predicate LossesRecorded(w: World) {
    && (forall id :: id in w.history.lostSources ==> id in w.jobs)
    && (forall id :: id in w.jobs ==> LossRecorded(w.jobs, w.history, id))
  }

  lemma StepLoss(w: World, s: Step, id: JobId)
    requires HoldersKnown(w) && Exclusive(w) && Enabled(w, s) && OnlyDeadReclaimed(w, s)
    requires id in w.jobs && LossRecorded(w.jobs, w.history, id)
    ensures id in Apply(w, s).jobs && LossRecorded(Apply(w, s).jobs, Apply(w, s).history, id)
  {
  }

  lemma NewJobIsNotLost(w: World, s: Step, id: JobId)
    requires LossesRecorded(w) && Enabled(w, s) && id in Apply(w, s).jobs && id !in w.jobs
    ensures LossRecorded(Apply(w, s).jobs, Apply(w, s).history, id)
  {
    assert s.Insert? && w.history.lostSources[id] == 0;
  }

  lemma LossesAreOfJobs(w: World, s: Step)
    requires HoldersKnown(w) && LossesRecorded(w) && Enabled(w, s)
    ensures forall id :: id in Apply(w, s).history.lostSources ==> id in Apply(w, s).jobs
  {
    if s.FailCommits? {
      assert Known(w.jobs, w.history.retried, w.workers[s.worker].job);
    }
    StepGrowsTable(w, s);
  }

  lemma StepKeepsLosses(w: World, s: Step)
    requires HoldersKnown(w) && Exclusive(w) && LossesRecorded(w) && Enabled(w, s) && OnlyDeadReclaimed(w, s)
    ensures LossesRecorded(Apply(w, s))
  {
    var w' := Apply(w, s);
    forall id | id in w'.jobs ensures LossRecorded(w'.jobs, w'.history, id) {
      if id in w.jobs {
        StepLoss(w, s, id);
      } else {
        NewJobIsNotLost(w, s, id);
      }
    }
    LossesAreOfJobs(w, s);
  }

  lemma {:induction false} RunKeepsLosses(w: World, steps: seq<Step>)
    requires Inv(w) && Exclusive(w) && LossesRecorded(w) && Run(w, steps) && SafeRun(w, steps)
    ensures LossesRecorded(Final(w, steps))
    decreases |steps|
  {
    if steps != [] {
      StepKeepsInv(w, steps[0]);
      StepKeepsExclusive(w, steps[0]);
      StepKeepsLosses(w, steps[0]);
      RunKeepsLosses(Apply(w, steps[0]), steps[1..]);
    }
  }

  /** In every run that reclaims from dead holders only, a source fetch that dies is recorded as lost exactly once, and
      nothing else is ever recorded. */
  lemma LostSourcesAreVisible(clock: int, steps: seq<Step>)
    requires Run(Begin(clock), steps) && SafeRun(Begin(clock), steps)
    ensures LossesRecorded(Final(Begin(clock), steps))
  {
    BeginInv(clock);
    RunKeepsLosses(Begin(clock), steps);
  }
}
