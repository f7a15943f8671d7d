/**
 Retry budgets and delays of runs in which nothing is reclaimed, and a run that shows why the sweep must
 spare live holders.
 */
module WorkerTiming {
  import opened Common
  import opened JobQueue
  import opened WorkerProtocol
  import opened WorkerRuns

  ghost predicate QuietRun(w: World, steps: seq<Step>)
    decreases |steps|
  {
    steps == [] || (Enabled(w, steps[0]) && !steps[0].Sweep? && QuietRun(Apply(w, steps[0]), steps[1..]))
  }

  lemma {:induction false} QuietRunIsRun(w: World, steps: seq<Step>)
    requires QuietRun(w, steps)
    ensures Run(w, steps)
    decreases |steps|
  {
    if steps != [] { QuietRunIsRun(Apply(w, steps[0]), steps[1..]); }
  }

  // ---------------------------------------------------------------- delays

  function At(times: map<JobId, int>, id: JobId): Option<int> {
    if id in times then Some(times[id]) else None
  }

  /** `first` is when the job first failed, `died` when it was given up. */
  predicate Timed(r: Row, first: Option<int>, died: Option<int>, clock: int) {
    && (first.Some? ==> r.attempts >= 1 && first.value <= clock)
    && (r.state == Queued && r.attempts >= 1 ==> first.Some? && first.value + TotalBackoff(r.attempts) <= r.runAt)
    && (r.state == Running ==> r.attempts >= 1)
    && (r.state == Running && r.attempts >= 2 ==>
          first.Some? && first.value + TotalBackoff(r.attempts - 1) <= clock)
    && (r.state == Dead ==>
          && first.Some? && died.Some? && r.attempts >= Max(1, r.maxAttempts)
          && first.value + TotalBackoff(r.attempts - 1) <= died.value)
  }

  predicate TimedIn(w: World, id: JobId)
    requires id in w.jobs
  {
    Timed(w.jobs[id], At(w.history.firstFailed, id), At(w.history.died, id), w.clock)
  }

  ghost predicate AllTimed(w: World) {
    && (forall id :: id in w.jobs ==> TimedIn(w, id))
    && (forall id :: id in w.history.firstFailed ==> id in w.jobs)
  }

  lemma FailTimed(r: Row, first: Option<int>, died: Option<int>, clock: int, job: Job, error: string, now: int)
    requires Timed(r, first, died, clock) && r.state == Running && clock <= now
    requires job.attempts >= 0 && job.attempts + 1 == r.attempts && job.maxAttempts == r.maxAttempts
    ensures Timed(FailRow(r, job, error, now), if first.None? then Some(now) else first,
                  if OutOfAttempts(job) then Some(now) else died, now)
  {
  }

  /** What a step other than a sweep does to the record of a job's first failure and death. */
  lemma TimesAfter(w: World, s: Step, id: JobId)
    requires Enabled(w, s) && !s.Sweep?
    ensures var first, died := At(w.history.firstFailed, id), At(w.history.died, id);
            var first', died' := At(Apply(w, s).history.firstFailed, id), At(Apply(w, s).history.died, id);
            && w.clock <= Apply(w, s).clock
            && (s.Take? ==> Apply(w, s).clock == s.now)
            && if s.FailCommits? && Holds(w, s.worker, id) then
                 && Apply(w, s).clock == s.now
                 && first' == (if first.None? then Some(s.now) else first)
                 && died' == (if OutOfAttempts(w.workers[s.worker].job) then Some(s.now) else died)
               else first' == first && died' == died
  {
  }

  lemma StepTimed(w: World, s: Step, id: JobId)
    requires Exclusive(w) && HoldersKnown(w) && Enabled(w, s) && !s.Sweep?
    requires id in w.jobs && TimedIn(w, id)
    ensures id in Apply(w, s).jobs && TimedIn(Apply(w, s), id)
  {
    RowStep(w, s, id);
    TimesAfter(w, s, id);
    if s.FailCommits? && Holds(w, s.worker, id) {
      FailTimed(w.jobs[id], At(w.history.firstFailed, id), At(w.history.died, id), w.clock,
                w.workers[s.worker].job, w.workers[s.worker].error, s.now);
    }
  }

  lemma StepKeepsTimed(w: World, s: Step)
    requires Exclusive(w) && HoldersKnown(w) && AllTimed(w) && Enabled(w, s) && !s.Sweep?
    ensures AllTimed(Apply(w, s))
  {
    var w' := Apply(w, s);
    forall id | id in w'.jobs ensures TimedIn(w', id) {
      if id in w.jobs { StepTimed(w, s, id); } else { assert id !in w.history.firstFailed; }
    }
    if s.FailCommits? {
      assert Known(w.jobs, w.history.retried, w.workers[s.worker].job);
    }
    StepGrowsTable(w, s);
  }

  lemma {:induction false} QuietRunTimed(w: World, steps: seq<Step>)
    requires Inv(w) && Exclusive(w) && AllTimed(w) && QuietRun(w, steps) && Run(w, steps)
    ensures AllTimed(Final(w, steps)) && Inv(Final(w, steps))
    ensures Final(w, steps).history.reclaims == w.history.reclaims
    decreases |steps|
  {
    if steps != [] {
      StepKeepsInv(w, steps[0]);
      StepKeepsExclusive(w, steps[0]);
      StepKeepsTimed(w, steps[0]);
      QuietRunTimed(Apply(w, steps[0]), steps[1..]);
    }
  }

  lemma {:induction false} TotalBackoffGrows(a: nat, b: nat)
    requires a <= b
    ensures TotalBackoff(a) <= TotalBackoff(b)
  {
    if a < b {
      TotalBackoffGrows(a, b - 1);
      BackoffNeverShrinks(b, b);
    }
  }

  lemma DeadAfterBackoff(r: Row, first: Option<int>, died: Option<int>, clock: int)
    requires Timed(r, first, died, clock) && r.state == Dead && r.attempts <= Max(1, r.maxAttempts)
    ensures r.attempts == Max(1, r.maxAttempts) && first.Some? && died.Some?
    ensures first.value + TotalBackoff(Max(1, r.maxAttempts) - 1) <= died.value
    ensures r.maxAttempts == DEFAULT_MAX_ATTEMPTS ==> died.value - first.value >= 2550
  {
    BackoffNeverShrinks(1, 1);
  }

  lemma DeadInTime(w: World, id: JobId)
    requires Inv(w) && AllTimed(w) && w.history.reclaims == multiset{}
    requires id in w.jobs && w.jobs[id].state == Dead
    ensures w.jobs[id].attempts == Max(1, w.jobs[id].maxAttempts)
    ensures id in w.history.firstFailed && id in w.history.died
    ensures w.history.firstFailed[id] + TotalBackoff(Max(1, w.jobs[id].maxAttempts) - 1) <= w.history.died[id]
    ensures w.jobs[id].maxAttempts == DEFAULT_MAX_ATTEMPTS ==> w.history.died[id] - w.history.firstFailed[id] >= 2550
  {
    ClaimsBounded(w, id);
    assert TimedIn(w, id) && Counted(w.jobs, w.history, id);
    DeadAfterBackoff(w.jobs[id], At(w.history.firstFailed, id), At(w.history.died, id), w.clock);
  }

  /** Without reclaims, a job that dies used up exactly its attempts and does so no sooner than the sum of
      the delays after its first failure: 2550 seconds for the default budget. */
  lemma DeathTakesTheWholeBackoff(clock: int, steps: seq<Step>, id: JobId)
    requires QuietRun(Begin(clock), steps) && Run(Begin(clock), steps)
    requires id in Final(Begin(clock), steps).jobs && Final(Begin(clock), steps).jobs[id].state == Dead
    ensures var w := Final(Begin(clock), steps);
            && w.jobs[id].attempts == Max(1, w.jobs[id].maxAttempts)
            && id in w.history.firstFailed && id in w.history.died
            && w.history.firstFailed[id] + TotalBackoff(Max(1, w.jobs[id].maxAttempts) - 1) <= w.history.died[id]
            && (w.jobs[id].maxAttempts == DEFAULT_MAX_ATTEMPTS ==>
                  w.history.died[id] - w.history.firstFailed[id] >= 2550)
  {
    BeginInv(clock);
    QuietRunTimed(Begin(clock), steps);
    DeadInTime(Final(Begin(clock), steps), id);
  }

  // ---------------------------------------------------------------- termination

  /** What a job still has ahead of it: two table changes for each attempt left, one more while it runs. */
  function Fuel(r: Row): int {
    if Finished(r) then 0
    else 2 * (Max(1, r.maxAttempts) - r.attempts) + if r.state == Running then 1 else 0
  }

  predicate WithinBudget(r: Row) {
    r.attempts + (if r.state == Queued then 1 else 0) <= Max(1, r.maxAttempts)
  }

  /** Each change to a job's row burns fuel, which is positive exactly while the job is unfinished. */
  lemma StepBurnsFuel(w: World, s: Step, id: JobId)
    requires Exclusive(w) && HoldersKnown(w) && Enabled(w, s) && !s.Sweep?
    requires id in w.jobs && WithinBudget(w.jobs[id])
    ensures id in Apply(w, s).jobs && WithinBudget(Apply(w, s).jobs[id])
    ensures Fuel(w.jobs[id]) >= 0 && (Fuel(w.jobs[id]) == 0 <==> Finished(w.jobs[id]))
    ensures Apply(w, s).jobs[id].maxAttempts == w.jobs[id].maxAttempts
    ensures Apply(w, s).jobs[id] != w.jobs[id] ==> Fuel(Apply(w, s).jobs[id]) < Fuel(w.jobs[id])
  {
    RowStep(w, s, id);
  }

  /** How many steps of a run change the row of `id`. */
  function Changes(w: World, steps: seq<Step>, id: JobId): nat
    requires Run(w, steps)
    decreases |steps|
  {
    if steps == [] then 0
    else
      var w' := Apply(w, steps[0]);
      (if id in w.jobs && id in w'.jobs && w.jobs[id] != w'.jobs[id] then 1 else 0) + Changes(w', steps[1..], id)
  }

  /** Everything the steps of a quiet run need to know about the world they start from. */
  ghost predicate Orderly(w: World) {
    Inv(w) && Exclusive(w)
  }

  lemma StepKeepsOrderly(w: World, s: Step)
    requires Orderly(w) && Enabled(w, s) && !s.Sweep?
    ensures Orderly(Apply(w, s))
  {
    StepKeepsInv(w, s);
    StepKeepsExclusive(w, s);
  }

  predicate InBudget(w: World, id: JobId) {
    id in w.jobs && WithinBudget(w.jobs[id])
  }

  lemma StepSpends(w: World, s: Step, id: JobId)
    requires Orderly(w) && Enabled(w, s) && !s.Sweep? && InBudget(w, id)
    ensures InBudget(Apply(w, s), id)
    ensures Fuel(Apply(w, s).jobs[id]) + (if Apply(w, s).jobs[id] == w.jobs[id] then 0 else 1) <= Fuel(w.jobs[id])
  {
    StepBurnsFuel(w, s, id);
  }

  /** Without reclaims no job changes for ever: its row changes at most twice per attempt left. */
  lemma {:induction false} ChangesAreBounded(w: World, steps: seq<Step>, id: JobId)
    requires Orderly(w) && QuietRun(w, steps) && Run(w, steps) && InBudget(w, id)
    ensures InBudget(Final(w, steps), id)
    ensures Changes(w, steps, id) + Fuel(Final(w, steps).jobs[id]) <= Fuel(w.jobs[id])
    decreases |steps|
  {
    if steps != [] {
      StepSpends(w, steps[0], id);
      StepKeepsOrderly(w, steps[0]);
      ChangesAreBounded(Apply(w, steps[0]), steps[1..], id);
    }
  }

  // ---------------------------------------------------------------- why the sweep must spare live holders

  lemma {:induction false} RunsCompose(w: World, a: seq<Step>, b: seq<Step>)
    requires Run(w, a) && Run(Final(w, a), b)
    ensures Run(w, a + b) && Final(w, a + b) == Final(Final(w, a), b)
    decreases |a|
  {
    if a == [] {
      assert a + b == b;
    } else {
      RunsCompose(Apply(w, a[0]), a[1..], b);
      assert (a + b)[1..] == a[1..] + b;
    }
  }

  lemma ExtendRun(w: World, steps: seq<Step>, s: Step)
    requires Run(w, steps) && Enabled(Final(w, steps), s)
    ensures Run(w, steps + [s]) && Final(w, steps + [s]) == Apply(Final(w, steps), s)
  {
    assert Run(Final(w, steps), [s]);
    RunsCompose(w, steps, [s]);
  }

  predicate StateIs(w: World, id: JobId, state: JobState) {
    id in w.jobs && w.jobs[id].state == state
  }

  predicate SweepsAfterHalfAnHour(steps: seq<Step>) {
    forall i :: 0 <= i < |steps| && steps[i].Sweep? ==> steps[i].olderThan == 1800
  }

  /** A job claimed by `a`, reclaimed while `a` is alive, and claimed again by `b`. */
  lemma LiveReclaim(id: JobId) returns (steps: seq<Step>, w: World)
    ensures Run(Begin(0), steps) && w == Final(Begin(0), steps) && SweepsAfterHalfAnHour(steps)
    ensures Holds(w, "a", id) && w.workers["a"].Handling? && w.workers["a"].job.kind in HANDLED_KINDS
    ensures Holds(w, "b", id) && w.workers["b"].Handling? && !OutOfAttempts(w.workers["b"].job)
    ensures w.workers["b"].job.attempts >= 0 && StateIs(w, id, Running)
  {
    steps, w := [], Begin(0);
    var insert := Insert(id, "notify.send", "", "tender", "1", 0, 5);
    steps, w := Advance(steps, w, Start("a"));
    steps, w := Advance(steps, w, Start("b"));
    steps, w := Advance(steps, w, insert);
    assert w.jobs == map[id := NewRow("notify.send", "", IdempotencyKey("notify.send", "tender", "1"), 0, 5)];
    steps, w := TakeOnly(steps, w, "a", id);
    steps, w := Advance(steps, w, Sweep(w.clock + STALE_RUNNING_AFTER + 1, STALE_RUNNING_AFTER));
    steps, w := TakeOnly(steps, w, "b", id);
  }

  lemma Advance(steps: seq<Step>, w: World, s: Step) returns (steps': seq<Step>, w': World)
    requires Run(Begin(0), steps) && w == Final(Begin(0), steps) && Enabled(w, s)
    ensures Run(Begin(0), steps') && w' == Final(Begin(0), steps') && w' == Apply(w, s) && steps' == steps + [s]
  {
    ExtendRun(Begin(0), steps, s);
    steps', w' := steps + [s], Apply(w, s);
  }

  lemma TakeOnly(steps: seq<Step>, w: World, k: WorkerName, id: JobId) returns (steps': seq<Step>, w': World)
    requires Run(Begin(0), steps) && w == Final(Begin(0), steps)
    requires k in w.workers && w.workers[k].Free? && w.jobs.Keys == {id}
    requires w.jobs[id].state == Queued && w.jobs[id].runAt <= w.clock
    ensures Run(Begin(0), steps') && w' == Final(Begin(0), steps')
    ensures w'.jobs == w.jobs[id := ClaimRow(w.jobs[id], k, w.clock)] && w'.clock == w.clock
    ensures w'.workers == w.workers[k := Handling(Snapshot(id, w'.jobs[id]))]
    ensures SweepsAfterHalfAnHour(steps) ==> SweepsAfterHalfAnHour(steps')
  {
    var take := Take(k, id, [], {}, w.clock);
    assert [id][0] == id && id in [id];
    assert Eligible(w.jobs, id, w.clock, [], {});
    TakenJob(w, take);
    steps', w' := Advance(steps, w, take);
  }

  /** If a live holder's job is reclaimed, as the sweep does after half an hour, the job can become done and then go
      back to the queue. */
  lemma LiveReclaimUndoesDone(id: JobId)
    ensures exists steps, more ::
              && SweepsAfterHalfAnHour(steps) && SweepsAfterHalfAnHour(more)
              && Run(Begin(0), steps) && StateIs(Final(Begin(0), steps), id, Done)
              && Run(Final(Begin(0), steps), more) && StateIs(Final(Final(Begin(0), steps), more), id, Queued)
  {
    var steps, w := LiveReclaim(id);
    steps, w := Advance(steps, w, HandlerCommits("a"));
    steps, w := Advance(steps, w, CompleteCommits("a"));
    var none: seq<Step> := [];
    ExtendRun(w, none, HandlerRaises("b", "late"));
    var raised := none + [HandlerRaises("b", "late")];
    ExtendRun(w, raised, FailCommits("b", w.clock));
    var more := raised + [FailCommits("b", w.clock)];
    assert SweepsAfterHalfAnHour(steps) && SweepsAfterHalfAnHour(more);
    assert StateIs(Final(w, more), id, Queued);
  }
}
