/**
 Many workers over one `jobs` table (worker.py).

 `process_one` is three separate transactions - claim, handler, then complete or fail - so anything
 may happen in between.  One committed transaction, one raised exception, one crash or one reclaim
 sweep is one step; a run is any interleaving of steps of any number of workers.
 */
module WorkerProtocol {
  import opened Common
  import opened JobQueue

  /** Where a worker process stands inside `process_one`. */
  datatype Phase =
    | Free
    | Handling(job: Job)                  // claim committed, handler transaction open
    | Finishing(job: Job)                 // handler committed, `complete` not yet
    | Raising(job: Job, error: string)    // an exception was caught, `fail` not yet

  /** What happened so far; no step reads it. */
  datatype History = History(
    claims: multiset<JobId>,
    reclaims: multiset<JobId>,
    commits: set<JobId>,                  // jobs with a committed handler transaction
    retried: set<(JobId, int)>,           // claims, by job and snapshot attempts, that `fail` sent back to the queue
    firstFailed: map<JobId, int>,
    died: map<JobId, int>,
    lostSources: multiset<JobId>,         // `record_fetch_failure` calls
    abandoned: set<(WorkerName, JobId, int)>)   // claims, by worker, job and attempts, whose worker crashed

  datatype World = World(jobs: Table, workers: map<WorkerName, Phase>, clock: int, history: History)

  datatype Step =
    | Start(worker: WorkerName)
    | Insert(id: JobId, kind: string, payload: string, entity: string, version: string, runAt: int, maxAttempts: int)
    | Take(worker: WorkerName, id: JobId, kinds: seq<string>, locked: set<JobId>, now: int)
    | HandlerCommits(worker: WorkerName)
    | HandlerRaises(worker: WorkerName, error: string)
    | CompleteCommits(worker: WorkerName)
    | CompleteRaises(worker: WorkerName, error: string)
    | FailCommits(worker: WorkerName, now: int)
    | Crash(worker: WorkerName)
    | Sweep(now: int, olderThan: int)

  /** The kinds `HANDLERS` has an entry for; every other kind raises `NotImplementedError`. */
  const HANDLED_KINDS: set<string> := {
    "source.fetch", "notice.normalize", "notice.dedupe", "notice.match", "source.health",
    "notify.deadlines", "vault.freshness", "notify.send", "digest.daily", "email.inbound" }

  predicate Busy(w: World, worker: WorkerName) {
    worker in w.workers && !w.workers[worker].Free?
  }

  predicate Holds(w: World, worker: WorkerName, id: JobId) {
    Busy(w, worker) && w.workers[worker].job.id == id
  }

  ghost predicate Enabled(w: World, s: Step) {
    match s
    case Start(k) => k !in w.workers
    case Insert(_, _, _, _, _, _, _) => true
    case Take(k, id, kinds, locked, now) =>
      && k in w.workers && w.workers[k].Free? && w.clock <= now
      && IsSelection(w.jobs, now, kinds, locked, 1, [id])
    case HandlerCommits(k) => Busy(w, k) && w.workers[k].Handling? && w.workers[k].job.kind in HANDLED_KINDS
    case HandlerRaises(k, _) => Busy(w, k) && w.workers[k].Handling?
    case CompleteCommits(k) => Busy(w, k) && w.workers[k].Finishing?
    case CompleteRaises(k, _) => Busy(w, k) && w.workers[k].Finishing?
    case FailCommits(k, now) =>
      Busy(w, k) && w.workers[k].Raising? && w.workers[k].job.attempts >= 0 && w.clock <= now
    case Crash(k) => k in w.workers
    case Sweep(now, _) => w.clock <= now
  }

  function Moved(w: World, worker: WorkerName, phase: Phase): World {
    w.(workers := w.workers[worker := phase])
  }

  /** `fail` and, in the same transaction, `record_fetch_failure` when a source fetch dies. */
  function AfterFail(w: World, k: WorkerName, now: int): World
    requires Busy(w, k) && w.workers[k].Raising? && w.workers[k].job.attempts >= 0
  {
    var job, h := w.workers[k].job, w.history;
    var first := if job.id in h.firstFailed then h.firstFailed else h.firstFailed[job.id := now];
    var h' := if OutOfAttempts(job) then
                h.(firstFailed := first, died := h.died[job.id := now],
                   lostSources := h.lostSources + if job.kind == "source.fetch" then multiset{job.id} else multiset{})
              else h.(firstFailed := first, retried := h.retried + {(job.id, job.attempts)});
    World(Failed(w.jobs, job, w.workers[k].error, now), w.workers[k := Free], now, h')
  }

  /** The claim a crashing worker leaves behind. */
  function Abandons(w: World, k: WorkerName): set<(WorkerName, JobId, int)> {
    if Busy(w, k) then {(k, w.workers[k].job.id, w.workers[k].job.attempts)} else {}
  }

  function Apply(w: World, s: Step): World
    requires Enabled(w, s)
  {
    match s
    case Start(k) => Moved(w, k, Free)
    case Insert(id, kind, payload, entity, version, runAt, maxAttempts) =>
      (match Enqueued(w.jobs, id, kind, payload, entity, version, runAt, maxAttempts)
       case Ok((t, _)) => w.(jobs := t)
       case Err(_) => w)
    case Take(k, id, kinds, locked, now) =>
      var t := Claimed(w.jobs, [id], k, now);
      assert [id][0] == id;
      World(t, w.workers[k := Handling(Snapshot(id, t[id]))], now,
            w.history.(claims := w.history.claims + multiset{id}))
    case HandlerCommits(k) =>
      var w' := w.(history := w.history.(commits := w.history.commits + {w.workers[k].job.id}));
      Moved(w', k, Finishing(w.workers[k].job))
    case HandlerRaises(k, error) => Moved(w, k, Raising(w.workers[k].job, error))
    case CompleteCommits(k) => Moved(w.(jobs := Completed(w.jobs, w.workers[k].job.id)), k, Free)
    case CompleteRaises(k, error) => Moved(w, k, Raising(w.workers[k].job, error))
    case FailCommits(k, now) => AfterFail(w, k, now)
    case Crash(k) => Moved(w.(history := w.history.(abandoned := w.history.abandoned + Abandons(w, k))), k, Free)
    case Sweep(now, olderThan) =>
      w.(jobs := Reclaimed(w.jobs, now, olderThan), clock := now,
         history := w.history.(reclaims := w.history.reclaims + multiset(StaleIds(w.jobs, now, olderThan))))
  }

  ghost predicate Run(w: World, steps: seq<Step>)
    decreases |steps|
  {
    steps == [] || (Enabled(w, steps[0]) && Run(Apply(w, steps[0]), steps[1..]))
  }

  function Final(w: World, steps: seq<Step>): World
    requires Run(w, steps)
    decreases |steps|
  {
    if steps == [] then w else Final(Apply(w, steps[0]), steps[1..])
  }

  const NO_HISTORY := History(multiset{}, multiset{}, {}, {}, map[], map[], multiset{}, {})

  function Begin(clock: int): World {
    World(map[], map[], clock, NO_HISTORY)
  }

  // ---------------------------------------------------------------- what every run keeps

  function RetriedOf(h: History, id: JobId): set<int> {
    set p | p in h.retried && p.0 == id :: p.1
  }

  /** A live claim is of a known row, counted in its attempts, and has not been sent back yet. */
  predicate Known(t: Table, retried: set<(JobId, int)>, job: Job) {
    && job.id in t && 0 <= job.attempts < t[job.id].attempts
    && job.maxAttempts == t[job.id].maxAttempts && job.kind == t[job.id].kind
    && (job.id, job.attempts) !in retried
  }

  ghost predicate HoldersKnown(w: World) {
    forall k :: Busy(w, k) ==> Known(w.jobs, w.history.retried, w.workers[k].job)
  }

  predicate SameClaim(w: World, k: WorkerName, l: WorkerName)
    requires Busy(w, k) && Busy(w, l)
  {
    w.workers[k].job.id == w.workers[l].job.id && w.workers[k].job.attempts == w.workers[l].job.attempts
  }

  /** Two live claims of one job are different claims: their snapshots differ. */
  ghost predicate ClaimsDiffer(w: World) {
    forall k, l :: Busy(w, k) && Busy(w, l) && k != l ==> !SameClaim(w, k, l)
  }

  predicate WasRetried(t: Table, id: JobId, attempts: int) {
    id in t && 0 <= attempts < t[id].attempts && attempts + 1 < t[id].maxAttempts
  }

  ghost predicate RetriesKnown(w: World) {
    forall p :: p in w.history.retried ==> WasRetried(w.jobs, p.0, p.1)
  }

  /** Every claim used up one entry into the queue: the insert, a retry or a reclaim. */
  predicate Counted(t: Table, h: History, id: JobId)
    requires id in t
  {
    && t[id].attempts == h.claims[id]
    && t[id].attempts + (if t[id].state == Queued then 1 else 0) <= 1 + h.reclaims[id] + |RetriedOf(h, id)|
  }

  ghost predicate ClaimsCounted(w: World) {
    && (forall id :: id in w.history.claims ==> id in w.jobs)
    && (forall id :: id in w.jobs ==> Counted(w.jobs, w.history, id))
  }

  ghost predicate CommitsFirst(w: World) {
    && (forall id :: id in w.jobs ==> w.jobs[id].state == Done ==> id in w.history.commits)
    && (forall k :: Busy(w, k) ==> w.workers[k].Finishing? ==> w.workers[k].job.id in w.history.commits)
    && (forall id :: id in w.history.commits ==> id in w.jobs && w.jobs[id].kind in HANDLED_KINDS)
  }

  ghost predicate Inv(w: World) {
    && KeysUnique(w.jobs)
    && HoldersKnown(w) && ClaimsDiffer(w) && RetriesKnown(w) && ClaimsCounted(w) && CommitsFirst(w)
  }

  // ---------------------------------------------------------------- one step

  /** A row keeps its identity for ever, and its attempts only grow. */
  predicate SameJobRow(r: Row, r': Row) {
    r'.kind == r.kind && r'.payload == r.payload && r'.key == r.key && r'.maxAttempts == r.maxAttempts
    && r.attempts <= r'.attempts
  }

  ghost predicate TableGrows(t: Table, t': Table) {
    forall id :: id in t ==> id in t' && SameJobRow(t[id], t'[id])
  }

  lemma StepGrowsTable(w: World, s: Step)
    requires Enabled(w, s)
    ensures TableGrows(w.jobs, Apply(w, s).jobs)
  {
  }

  /** Only a claim gives a worker a job it did not have. */
  lemma JobFromBefore(w: World, s: Step, k: WorkerName)
    requires Enabled(w, s) && Busy(Apply(w, s), k) && !(s.Take? && s.worker == k)
    ensures Busy(w, k) && Apply(w, s).workers[k].job == w.workers[k].job
    ensures s.FailCommits? ==> s.worker != k
  {
  }

  lemma TakenJob(w: World, s: Step)
    requires s.Take? && Enabled(w, s)
    ensures var t := Apply(w, s).jobs;
            && s.id in w.jobs && w.jobs[s.id].state == Queued
            && t == w.jobs[s.id := ClaimRow(w.jobs[s.id], s.worker, s.now)]
            && Apply(w, s).workers == w.workers[s.worker := Handling(Snapshot(s.id, t[s.id]))]
  {
  }

  lemma StepKeepsKeys(w: World, s: Step)
    requires KeysUnique(w.jobs) && Enabled(w, s)
    ensures KeysUnique(Apply(w, s).jobs)
  {
  }

  lemma StepKeepsHolders(w: World, s: Step)
    requires HoldersKnown(w) && ClaimsDiffer(w) && RetriesKnown(w) && Enabled(w, s)
    ensures HoldersKnown(Apply(w, s))
  {
    var w' := Apply(w, s);
    StepGrowsTable(w, s);
    forall k | Busy(w', k) ensures Known(w'.jobs, w'.history.retried, w'.workers[k].job) {
      if s.Take? && s.worker == k {
        TakenJob(w, s);
        assert forall p :: p in w.history.retried ==> WasRetried(w.jobs, p.0, p.1);
      } else {
        JobFromBefore(w, s, k);
        var job := w.workers[k].job;
        assert Known(w.jobs, w.history.retried, job);
        if s.FailCommits? {
          assert !SameClaim(w, k, s.worker);
        }
      }
    }
  }

  lemma StepKeepsClaimsDiffer(w: World, s: Step)
    requires HoldersKnown(w) && ClaimsDiffer(w) && Enabled(w, s)
    ensures ClaimsDiffer(Apply(w, s))
  {
    var w' := Apply(w, s);
    forall k, l | Busy(w', k) && Busy(w', l) && k != l ensures !SameClaim(w', k, l) {
      if s.Take? && s.worker == k {
        TakenJob(w, s);
        JobFromBefore(w, s, l);
        assert Known(w.jobs, w.history.retried, w.workers[l].job);
      } else if s.Take? && s.worker == l {
        TakenJob(w, s);
        JobFromBefore(w, s, k);
        assert Known(w.jobs, w.history.retried, w.workers[k].job);
      } else {
        JobFromBefore(w, s, k);
        JobFromBefore(w, s, l);
        assert !SameClaim(w, k, l);
      }
    }
  }

  lemma StepKeepsRetries(w: World, s: Step)
    requires HoldersKnown(w) && RetriesKnown(w) && Enabled(w, s)
    ensures RetriesKnown(Apply(w, s))
  {
  }

  lemma RetriedAfter(w: World, s: Step, id: JobId)
    requires HoldersKnown(w) && Enabled(w, s)
    ensures |RetriedOf(Apply(w, s).history, id)| == |RetriedOf(w.history, id)| +
            if s.FailCommits? && id == w.workers[s.worker].job.id && !OutOfAttempts(w.workers[s.worker].job)
            then 1 else 0
  {
    var h, h' := w.history, Apply(w, s).history;
    if s.FailCommits? && id == w.workers[s.worker].job.id && !OutOfAttempts(w.workers[s.worker].job) {
      var job := w.workers[s.worker].job;
      assert Known(w.jobs, h.retried, job);
      assert RetriedOf(h', id) == RetriedOf(h, id) + {job.attempts};
    } else {
      assert RetriedOf(h', id) == RetriedOf(h, id);
    }
  }

  lemma StepCounts(w: World, s: Step, id: JobId)
    requires HoldersKnown(w) && ClaimsCounted(w) && Enabled(w, s) && id in w.jobs
    ensures id in Apply(w, s).jobs && Counted(Apply(w, s).jobs, Apply(w, s).history, id)
  {
    assert Counted(w.jobs, w.history, id);
    RetriedAfter(w, s, id);
    if s.Take? { TakenJob(w, s); }
  }

  lemma StepKeepsCounts(w: World, s: Step)
    requires HoldersKnown(w) && ClaimsCounted(w) && Enabled(w, s)
    ensures ClaimsCounted(Apply(w, s))
  {
    var w' := Apply(w, s);
    StepGrowsTable(w, s);
    forall id | id in w'.jobs ensures Counted(w'.jobs, w'.history, id) {
      if id in w.jobs {
        StepCounts(w, s, id);
      } else {
        assert s.Insert? && w.history.claims[id] == 0;
      }
    }
    if s.Take? { TakenJob(w, s); }
  }

  /** Only a job whose handler committed is done. */
  lemma DoneWasCommitted(w: World, s: Step, id: JobId)
    requires CommitsFirst(w) && Enabled(w, s)
    requires id in Apply(w, s).jobs && Apply(w, s).jobs[id].state == Done
    ensures id in Apply(w, s).history.commits
  {
  }

  lemma FinishingWasCommitted(w: World, s: Step, k: WorkerName)
    requires CommitsFirst(w) && Enabled(w, s) && Busy(Apply(w, s), k) && Apply(w, s).workers[k].Finishing?
    ensures Apply(w, s).workers[k].job.id in Apply(w, s).history.commits
  {
  }

  lemma StepKeepsCommits(w: World, s: Step)
    requires HoldersKnown(w) && CommitsFirst(w) && Enabled(w, s)
    ensures CommitsFirst(Apply(w, s))
  {
    var w' := Apply(w, s);
    forall k | Busy(w', k) && w'.workers[k].Finishing? ensures w'.workers[k].job.id in w'.history.commits {
      FinishingWasCommitted(w, s, k);
    }
    forall id | id in w'.jobs && w'.jobs[id].state == Done ensures id in w'.history.commits {
      DoneWasCommitted(w, s, id);
    }
    CommitsAreKnown(w, s);
  }

  lemma CommitsAreKnown(w: World, s: Step)
    requires HoldersKnown(w) && CommitsFirst(w) && Enabled(w, s)
    ensures var w' := Apply(w, s);
            forall id :: id in w'.history.commits ==> id in w'.jobs && w'.jobs[id].kind in HANDLED_KINDS
  {
  }

  lemma StepKeepsInv(w: World, s: Step)
    requires Inv(w) && Enabled(w, s)
    ensures Inv(Apply(w, s))
  {
    StepKeepsKeys(w, s);
    StepKeepsHolders(w, s);
    StepKeepsClaimsDiffer(w, s);
    StepKeepsRetries(w, s);
    StepKeepsCounts(w, s);
    StepKeepsCommits(w, s);
  }
}
