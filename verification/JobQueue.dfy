/**
 The `jobs` table and the five statements that touch it (queue.py).

 A table is a map from job id to row.  Each statement is a function on tables, so that the worker
 protocol can reason about runs; class `Queue` holds a table and updates it in place.
 */
module JobQueue {
  import opened Common

  type JobId = string
  type WorkerName = string

  datatype JobState = Queued | Running | Done | Dead

  datatype Row = Row(
    kind: string,
    payload: string,
    state: JobState,
    runAt: int,
    attempts: nat,
    maxAttempts: int,
    lockedBy: Option<WorkerName>,
    lockedAt: Option<int>,
    lastError: Option<string>,
    key: string)

  type Table = map<JobId, Row>

  /** What a worker keeps in memory after a claim: `attempts` does not count the run in progress. */
  datatype Job = Job(id: JobId, kind: string, payload: string, attempts: int, maxAttempts: int, key: string)

  datatype QueueError = UnknownKind(kind: string) | DuplicateId(id: JobId)

  const JOB_KINDS: set<string> := {
    "source.fetch", "notice.normalize", "notice.dedupe", "notice.enrich", "notice.match",
    "docs.fetch", "docs.extract", "analysis.admin", "analysis.requirements", "analysis.redflags",
    "gonogo.compute", "gen.outline", "gen.section", "gen.deck", "gen.forms", "notify.send",
    "digest.daily", "vault.freshness", "awards.ingest", "renewals.compute", "source.health",
    "notify.deadlines", "email.inbound" }

  const RETRY_BACKOFF_SECONDS: seq<int> := [30, 120, 600, 1800, 3600]

  const DEFAULT_MAX_ATTEMPTS: int := 5

  const STALE_RUNNING_AFTER: int := 30 * 60

  const MAX_ERROR_LENGTH: nat := 2000

  function IdempotencyKey(kind: string, entity: string, version: string): string {
    kind + ":" + entity + ":" + version
  }

  ghost predicate KeysUnique(t: Table) {
    forall i, j :: i in t && j in t && t[i].key == t[j].key ==> i == j
  }

  predicate KeyTaken(t: Table, key: string) {
    exists i :: i in t && t[i].key == key
  }

  // ---------------------------------------------------------------- enqueue

  function NewRow(kind: string, payload: string, key: string, runAt: int, maxAttempts: int): Row {
    Row(kind, payload, Queued, runAt, 0, maxAttempts, None, None, None, key)
  }

  /** `INSERT ... ON CONFLICT (idempotency_key) DO NOTHING`: the new table and the id inserted, if any. */
  function Enqueued(t: Table, id: JobId, kind: string, payload: string, entity: string, version: string, runAt: int,
                    maxAttempts: int): (r: Result<(Table, Option<JobId>), QueueError>)
    ensures r.Ok? && KeysUnique(t) ==> KeysUnique(r.value.0)
    ensures r.Ok? ==> KeyTaken(r.value.0, IdempotencyKey(kind, entity, version))
    ensures r.Ok? ==> t.Keys <= r.value.0.Keys && forall i :: i in t ==> r.value.0[i] == t[i]
  {
    var key := IdempotencyKey(kind, entity, version);
    if kind !in JOB_KINDS then Err(UnknownKind(kind))
    else if KeyTaken(t, key) then Ok((t, None))
    else if id in t then Err(DuplicateId(id))
    else
      var t' := t[id := NewRow(kind, payload, key, runAt, maxAttempts)];
      assert t'[id].key == key;
      Ok((t', Some(id)))
  }

  // ---------------------------------------------------------------- claim

  /** `if kinds` in the source: no list and an empty list both mean every kind. */
  predicate KindAllowed(kinds: seq<string>, kind: string) {
    kinds == [] || kind in kinds
  }

  /** Runnable now, of an admitted kind, and not locked by a concurrent claim (`SKIP LOCKED`). */
  predicate Eligible(t: Table, id: JobId, now: int, kinds: seq<string>, locked: set<JobId>) {
    id in t && t[id].state == Queued && t[id].runAt <= now && KindAllowed(kinds, t[id].kind) && id !in locked
  }

  /** What `ORDER BY run_at ... LIMIT` may return; rows with equal `run_at` come in any order. */
  ghost predicate IsSelection(t: Table, now: int, kinds: seq<string>, locked: set<JobId>, limit: nat, ids: seq<JobId>)
  {
    && (forall k :: 0 <= k < |ids| ==> Eligible(t, ids[k], now, kinds, locked))
    && (forall k, l :: 0 <= k < l < |ids| ==> ids[k] != ids[l] && t[ids[k]].runAt <= t[ids[l]].runAt)
    && (forall i, k :: Eligible(t, i, now, kinds, locked) && i !in ids && 0 <= k < |ids| ==>
          t[ids[k]].runAt <= t[i].runAt)
    && |ids| <= limit
    && (|ids| < limit ==> forall i :: Eligible(t, i, now, kinds, locked) ==> i in ids)
  }

  function ClaimRow(r: Row, worker: WorkerName, now: int): Row {
    r.(state := Running, lockedBy := Some(worker), lockedAt := Some(now), attempts := r.attempts + 1)
  }

  function Claimed(t: Table, ids: seq<JobId>, worker: WorkerName, now: int): Table {
    map i | i in t :: if i in ids then ClaimRow(t[i], worker, now) else t[i]
  }

  /** The job a worker is handed for a row it has just claimed. */
  function Snapshot(id: JobId, r: Row): Job {
    Job(id, r.kind, r.payload, r.attempts - 1, r.maxAttempts, r.key)
  }

  /** A row that a claim may take: its kind is one of those asked for, or none were asked for. */
  predicate MayTake(t: Table, id: JobId, now: int, kinds: seq<string>, locked: set<JobId>) {
    && id in t && id !in locked && t[id].state == Queued && t[id].runAt <= now
    && (|kinds| > 0 ==> exists k :: 0 <= k < |kinds| && kinds[k] == t[id].kind)
  }

  /** What a claim takes: rows it may take, at most `limit`, each once and the longest due first; and a row that it may
      take is left only if the limit is used up by rows due no later. */
  lemma SelectionExact(t: Table, now: int, kinds: seq<string>, locked: set<JobId>, limit: nat, ids: seq<JobId>)
    ensures IsSelection(t, now, kinds, locked, limit, ids) <==>
            && |ids| <= limit
            && (forall k :: 0 <= k < |ids| ==> MayTake(t, ids[k], now, kinds, locked))
            && (forall k, l :: 0 <= k < l < |ids| ==> ids[k] != ids[l] && t[ids[k]].runAt <= t[ids[l]].runAt)
            && (forall i :: MayTake(t, i, now, kinds, locked) && i !in ids ==>
                  |ids| == limit && forall k :: 0 <= k < |ids| ==> t[ids[k]].runAt <= t[i].runAt)
  {
    forall i ensures Eligible(t, i, now, kinds, locked) <==> MayTake(t, i, now, kinds, locked) {
      if MayTake(t, i, now, kinds, locked) && |kinds| > 0 {
        var k :| 0 <= k < |kinds| && kinds[k] == t[i].kind;
      }
    }
  }

  /** A worker restricted to some kinds is handed those only; one that is not restricted passes over no kind. */
  lemma ClaimsRespectKinds(t: Table, now: int, kinds: seq<string>, locked: set<JobId>, limit: nat, ids: seq<JobId>)
    requires IsSelection(t, now, kinds, locked, limit, ids)
    ensures kinds != [] ==> forall k :: 0 <= k < |ids| ==> ids[k] in t && t[ids[k]].kind in kinds
    ensures |ids| < limit ==>
              forall i :: i in t && t[i].state == Queued && t[i].runAt <= now && i !in locked ==>
                            (kinds == [] || t[i].kind in kinds ==> i in ids)
  {
    SelectionExact(t, now, kinds, locked, limit, ids);
    forall i | i in t && t[i].state == Queued && t[i].runAt <= now && i !in locked
               && (kinds == [] || t[i].kind in kinds)
      ensures MayTake(t, i, now, kinds, locked)
    {
      if kinds != [] { var k :| 0 <= k < |kinds| && kinds[k] == t[i].kind; }
    }
  }

  function IdsOf(jobs: seq<Job>): seq<JobId> {
    seq(|jobs|, k requires 0 <= k < |jobs| => jobs[k].id)
  }

  // ---------------------------------------------------------------- complete, fail, reclaim

  function Completed(t: Table, id: JobId): Table {
    if id in t then t[id := t[id].(state := Done, lockedBy := None)] else t
  }

  /** The delay after failed attempt number `attempts`, counted from 1. */
  function Backoff(attempts: int): int
    requires attempts >= 1
  {
    RETRY_BACKOFF_SECONDS[Min(attempts - 1, |RETRY_BACKOFF_SECONDS| - 1)]
  }

  /** The delays in full: half a minute, two, ten and thirty minutes, then an hour each time. */
  function DelayAfter(earlierFailures: nat): int {
    match earlierFailures
    case 0 => 30
    case 1 => 120
    case 2 => 600
    case 3 => 1800
    case _ => 3600
  }

  lemma BackoffExact(earlierFailures: nat)
    ensures Backoff(earlierFailures + 1) == DelayAfter(earlierFailures)
  {
  }

  predicate OutOfAttempts(job: Job) {
    job.attempts + 1 >= job.maxAttempts
  }

  /** Python's `a[i]` with a negative `i` is out of the picture: claimed jobs have `attempts >= 0`. */
  function FailRow(r: Row, job: Job, error: string, now: int): Row
    requires job.attempts >= 0
  {
    var r' := r.(lockedBy := None,
                 lastError := Some(if |error| > MAX_ERROR_LENGTH then error[..MAX_ERROR_LENGTH] else error));
    if OutOfAttempts(job) then r'.(state := Dead)
    else r'.(state := Queued, runAt := now + Backoff(job.attempts + 1))
  }

  function Failed(t: Table, job: Job, error: string, now: int): Table
    requires job.attempts >= 0
  {
    if job.id in t then t[job.id := FailRow(t[job.id], job, error, now)] else t
  }

  /** `state = 'running' AND locked_at < now() - interval`; a null `locked_at` never compares. */
  predicate Stale(r: Row, now: int, olderThan: int) {
    r.state == Running && r.lockedAt.Some? && r.lockedAt.value < now - olderThan
  }

  function StaleIds(t: Table, now: int, olderThan: int): set<JobId> {
    set i | i in t && Stale(t[i], now, olderThan)
  }

  function ReclaimRow(r: Row): Row {
    r.(state := Queued, lockedBy := None,
       lastError := if r.lastError.None? then Some("reclaimed after worker timeout") else r.lastError)
  }

  function Reclaimed(t: Table, now: int, olderThan: int): Table {
    map i | i in t :: if Stale(t[i], now, olderThan) then ReclaimRow(t[i]) else t[i]
  }

  // ---------------------------------------------------------------- backoff

  /** Seconds a job must have waited, over its first `n` failures, before it can run again. */
  function TotalBackoff(n: nat): int {
    if n == 0 then 0 else TotalBackoff(n - 1) + Backoff(n)
  }

  /** Retry delays never shrink, and the default budget of five attempts spreads over 2550 seconds. */
  lemma BackoffNeverShrinks(a: int, b: int)
    requires 1 <= a <= b
    ensures 30 <= Backoff(a) <= Backoff(b) <= 3600
    ensures TotalBackoff(DEFAULT_MAX_ATTEMPTS - 1) == 2550
  {
    assert TotalBackoff(4) == TotalBackoff(3) + Backoff(4);
    assert TotalBackoff(2) == TotalBackoff(1) + Backoff(2);
  }

  // ---------------------------------------------------------------- the table updated in place

  class Queue {
    var rows: Table

    constructor ()
      ensures rows == map[]
    {
      rows := map[];
    }

    method Enqueue(id: JobId, kind: string, payload: string, entity: string, version: string, runAt: int,
                   maxAttempts: int) returns (r: Result<Option<JobId>, QueueError>)
      modifies this
      ensures var spec := Enqueued(old(rows), id, kind, payload, entity, version, runAt, maxAttempts);
              match spec
              case Ok((t, inserted)) => rows == t && r == Ok(inserted)
              case Err(e) => rows == old(rows) && r == Err(e)
      ensures forall i :: i in old(rows) ==> i in rows && rows[i] == old(rows)[i]
      ensures rows.Keys == old(rows).Keys + (if r == Ok(Some(id)) then {id} else {})
      ensures r == Ok(Some(id)) ==>
                && id !in old(rows)
                && rows[id] == Row(kind, payload, Queued, runAt, 0, maxAttempts, None, None, None,
                                   kind + ":" + entity + ":" + version)
      ensures r == Err(UnknownKind(kind)) <==> kind !in JOB_KINDS
      ensures r == Ok(None) <==>
              kind in JOB_KINDS && exists i :: i in old(rows) && old(rows)[i].key == kind + ":" + entity + ":" + version
    {
      if kind !in JOB_KINDS {
        return Err(UnknownKind(kind));
      }
      var key := IdempotencyKey(kind, entity, version);
      if KeyTaken(rows, key) {
        return Ok(None);
      }
      if id in rows {
        return Err(DuplicateId(id));
      }
      rows := rows[id := Row(kind, payload, Queued, runAt, 0, maxAttempts, None, None, None, key)];
      r := Ok(Some(id));
    }

    /** The next row `ORDER BY run_at` yields among `candidates`. */
    method Earliest(candidates: set<JobId>) returns (id: JobId)
      requires candidates != {} && candidates <= rows.Keys
      ensures id in candidates && forall i :: i in candidates ==> rows[id].runAt <= rows[i].runAt
    {
      id :| id in candidates;
      var rest := candidates - {id};
      while rest != {}
        invariant rest <= candidates && id in candidates
        invariant forall i :: i in candidates - rest ==> rows[id].runAt <= rows[i].runAt
        decreases rest
      {
        var next :| next in rest;
        if rows[next].runAt < rows[id].runAt {
          id := next;
        }
        rest := rest - {next};
      }
    }

    /** The inner `SELECT` of a claim. */
    method Select(now: int, kinds: seq<string>, locked: set<JobId>, limit: nat) returns (ids: seq<JobId>)
      ensures IsSelection(rows, now, kinds, locked, limit, ids)
    {
      ids := [];
      var t := rows;
      var candidates := set i | i in t && Eligible(t, i, now, kinds, locked);
      while |ids| < limit && candidates != {}
        invariant |ids| <= limit && t == rows
        invariant forall k :: 0 <= k < |ids| ==> Eligible(t, ids[k], now, kinds, locked)
        invariant forall i :: Eligible(t, i, now, kinds, locked) ==> i in candidates || i in ids
        invariant forall i :: i in candidates ==> Eligible(t, i, now, kinds, locked)
        invariant forall i :: i in ids ==> i !in candidates
        invariant forall k, l :: 0 <= k < l < |ids| ==> ids[k] != ids[l] && t[ids[k]].runAt <= t[ids[l]].runAt
        invariant forall i, k :: i in candidates && 0 <= k < |ids| ==> t[ids[k]].runAt <= t[i].runAt
        decreases candidates
      {
        var id := Earliest(candidates);
        ids, candidates := ids + [id], candidates - {id};
      }
    }

    method Claim(worker: WorkerName, now: int, kinds: seq<string>, locked: set<JobId>, limit: nat)
      returns (jobs: seq<Job>)
      modifies this
      ensures IsSelection(old(rows), now, kinds, locked, limit, IdsOf(jobs))
      ensures rows == Claimed(old(rows), IdsOf(jobs), worker, now)
      ensures forall k :: 0 <= k < |jobs| ==> jobs[k].id in rows && jobs[k] == Snapshot(jobs[k].id, rows[jobs[k].id])
      ensures forall k :: 0 <= k < |jobs| ==>
                && jobs[k].id in old(rows)
                && var r := old(rows)[jobs[k].id];
                && jobs[k] == Job(jobs[k].id, r.kind, r.payload, r.attempts, r.maxAttempts, r.key)
                && r.state == Queued && r.runAt <= now && jobs[k].id !in locked
                && (kinds != [] ==> jobs[k].kind in kinds)
      ensures rows.Keys == old(rows).Keys
      ensures forall i :: i in rows && i !in IdsOf(jobs) ==> rows[i] == old(rows)[i]
      ensures forall i :: i in rows && kinds != [] && old(rows)[i].kind !in kinds ==> rows[i] == old(rows)[i]
      ensures forall i :: i in IdsOf(jobs) ==>
                && i in rows && i in old(rows)
                && var r := old(rows)[i];
                rows[i] == Row(r.kind, r.payload, Running, r.runAt, r.attempts + 1, r.maxAttempts, Some(worker),
                               Some(now), r.lastError, r.key)
      ensures |jobs| < limit ==>
                forall i :: i in old(rows) && old(rows)[i].state == Queued && old(rows)[i].runAt <= now ==>
                              (i !in locked && (kinds == [] || old(rows)[i].kind in kinds) ==> i in IdsOf(jobs))
    {
      var ids := Select(now, kinds, locked, limit);
      var after := Claimed(rows, ids, worker, now);
      jobs := seq(|ids|, k requires 0 <= k < |ids| && ids[k] in after => Snapshot(ids[k], after[ids[k]]));
      assert IdsOf(jobs) == ids;
      ClaimsRespectKinds(rows, now, kinds, locked, limit, ids);
      SelectionExact(rows, now, kinds, locked, limit, ids);
      rows := after;
    }

    method Complete(id: JobId)
      modifies this
      ensures rows == Completed(old(rows), id)
      ensures rows.Keys == old(rows).Keys && forall i :: i in rows && i != id ==> rows[i] == old(rows)[i]
      ensures id in rows ==>
                var r := old(rows)[id];
                rows[id] == Row(r.kind, r.payload, Done, r.runAt, r.attempts, r.maxAttempts, None, r.lockedAt,
                                r.lastError, r.key)
    {
      if id in rows {
        rows := rows[id := rows[id].(state := Done, lockedBy := None)];
      }
    }

    method Fail(job: Job, error: string, now: int) returns (state: JobState)
      requires job.attempts >= 0
      modifies this
      ensures rows == Failed(old(rows), job, error, now)
      ensures state == if job.attempts + 1 >= job.maxAttempts then Dead else Queued
      ensures rows.Keys == old(rows).Keys && forall i :: i in rows && i != job.id ==> rows[i] == old(rows)[i]
      ensures job.id in rows ==>
                var r, delay := old(rows)[job.id], DelayAfter(job.attempts);
                rows[job.id] == Row(r.kind, r.payload, state, if state == Dead then r.runAt else now + delay,
                                    r.attempts, r.maxAttempts, None, r.lockedAt,
                                    Some(error[..Min(2000, |error|)]), r.key)
    {
      BackoffExact(job.attempts);
      assert error[..|error|] == error;
      var attempts := job.attempts + 1;
      state := if attempts >= job.maxAttempts then Dead else Queued;
      if job.id in rows {
        rows := rows[job.id := FailRow(rows[job.id], job, error, now)];
      }
    }

    method ReclaimStale(now: int, olderThan: int) returns (count: nat)
      modifies this
      ensures rows == Reclaimed(old(rows), now, olderThan)
      ensures count == |StaleIds(old(rows), now, olderThan)|
      ensures rows.Keys == old(rows).Keys
      ensures forall i :: i in rows ==>
                if old(rows)[i].state == Running && old(rows)[i].lockedAt.Some?
                   && old(rows)[i].lockedAt.value < now - olderThan
                then
                  var r := old(rows)[i];
                  rows[i] == Row(r.kind, r.payload, Queued, r.runAt, r.attempts, r.maxAttempts, None, r.lockedAt,
                                 if r.lastError == None then Some("reclaimed after worker timeout") else r.lastError,
                                 r.key)
                else rows[i] == old(rows)[i]
    {
      var before := rows;
      var left := StaleIds(before, now, olderThan);
      count := 0;
      while left != {}
        invariant left <= StaleIds(before, now, olderThan) && rows.Keys == before.Keys
        invariant count + |left| == |StaleIds(before, now, olderThan)|
        invariant forall i :: i in before ==>
                    rows[i] ==
                    if Stale(before[i], now, olderThan) && i !in left then ReclaimRow(before[i]) else before[i]
        decreases left
      {
        var i :| i in left;
        rows := rows[i := ReclaimRow(rows[i])];
        left, count := left - {i}, count + 1;
      }
    }
  }
}
