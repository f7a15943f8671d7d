/** The outbox and the version counter over every run of fetches, failures and re-normalisations (pipeline.py). */
module PipelineRuns {
  import opened Common
  import opened JobQueue
  import opened Pipeline

  /** What one `upsert_notice` was given, and whether it was an amendment. */
  datatype Upsert = Upsert(id: NoticeId, hash: string, version: string, amended: bool)

  datatype World = World(store: Store, log: seq<Upsert>)

  datatype Step =
    | Fetch(source: Source, feed: seq<RawNotice>, limit: Option<int>, ids: seq<Ids>, now: int)
    | FetchFails                                   // the adapter raises part-way, or the process dies
    | Normalize(m: Mapping, rawId: RawId, dedupeJob: JobId, notifyJob: JobId, now: int)
    | OtherEnqueue(id: JobId, kind: string, payload: string, entity: string, version: string, now: int)
    | Work(jobs: Table)                            // any claim, completion, failure or reclaim

  /** Queue work leaves alone which jobs there are and what they are about. */
  ghost predicate SameJobs(a: Table, b: Table) {
    a.Keys == b.Keys
    && forall j :: j in a ==> a[j].kind == b[j].kind && a[j].key == b[j].key && a[j].payload == b[j].payload
  }

  ghost predicate Enabled(w: World, s: Step) {
    match s
    case Fetch(source, feed, _, ids, _) => |feed| <= |ids|
    case OtherEnqueue(_, kind, _, _, _, _) => kind != NORMALIZE
    case Work(jobs) => SameJobs(w.store.jobs, jobs)
    case _ => true
  }

  function UpsertOf(s: Store, m: Mapping, raw: RawRow): Upsert {
    var id := NoticeIdOf(m, raw);
    Upsert(id, raw.contentHash, m.normalize(raw).version, Amends(Lookup(s.notices, id), raw.contentHash))
  }

  function Apply(w: World, s: Step): World
    requires Enabled(w, s)
  {
    match s
    case Fetch(source, feed, limit, ids, now) =>
      if !source.enabled then w
      else (match FetchAll(FetchFrom(source, now), w.store.raws, w.store.jobs, Taken(feed, limit), ids)
            case Err(_) => w
            case Ok(p) => w.(store := w.store.(raws := p.raws, jobs := p.jobs)))
    case FetchFails => w
    case Normalize(m, rawId, dedupeJob, notifyJob, now) =>
      (match Normalized(w.store, m, rawId, dedupeJob, notifyJob, now)
       case Err(_) => w
       case Ok(store) =>
         var raw := w.store.raws[rawId];
         World(store, w.log + [UpsertOf(w.store, m, raw)]))
    case OtherEnqueue(id, kind, payload, entity, version, now) =>
      (match Enqueued(w.store.jobs, id, kind, payload, entity, version, now, DEFAULT_MAX_ATTEMPTS)
       case Err(_) => w
       case Ok((jobs, _)) => w.(store := w.store.(jobs := jobs)))
    case Work(jobs) => w.(store := w.store.(jobs := jobs))
  }

  ghost predicate Run(w: World, steps: seq<Step>)
    decreases |steps|
  {
    steps == [] || (Enabled(w, steps[0]) && Run(Apply(w, steps[0]), steps[1..]))
  }

  function Final(w: World, steps: seq<Step>): World
    requires Run(w, steps)
    decreases |steps|
  {
    if steps == [] then w else Final(Apply(w, steps[0]), steps[1..])
  }

  const BEGIN := World(Store(map[], map[], map[], map[]), [])

  lemma {:induction false} NothingNewInFeed(source: Source, now: int, raws: Raws, jobs: Table, feed: seq<RawNotice>,
                                            ids: seq<Ids>)
    requires |feed| <= |ids| && forall raw :: raw in feed ==> Recorded(raws, source, raw)
    ensures FetchAll(FetchFrom(source, now), raws, jobs, feed, ids) == Ok(Progress(raws, jobs, 0))
    decreases |feed|
  {
    if feed != [] {
      FetchStepExact(raws, jobs, source, feed[0], ids[0], now);
      NothingNewInFeed(source, now, raws, jobs, feed[1..], ids[1..]);
    }
  }

  /** A fetch of a disabled source, or of a window that was fetched before, changes nothing at all. */
  lemma FetchingAgainChangesNothing(w: World, source: Source, feed: seq<RawNotice>, limit: Option<int>, ids: seq<Ids>,
                                    now: int)
    requires |feed| <= |ids|
    requires source.enabled ==> forall raw :: raw in Taken(feed, limit) ==> Recorded(w.store.raws, source, raw)
    ensures Apply(w, Fetch(source, feed, limit, ids, now)) == w
  {
    if source.enabled { NothingNewInFeed(source, now, w.store.raws, w.store.jobs, Taken(feed, limit), ids); }
  }

  // ---------------------------------------------------------------- keys tell kinds apart

  predicate NoColon(s: string) {
    forall i :: 0 <= i < |s| ==> s[i] != ':'
  }

  lemma KindsHaveNoColon(kind: string)
    requires kind in JOB_KINDS
    ensures NoColon(kind)
  {
  }

  lemma ShorterDiffers(a: string, x: string, b: string, y: string)
    requires NoColon(b) && |a| < |b|
    ensures a + ":" + x != b + ":" + y
  {
    assert (a + ":" + x)[|a|] == ':' && (b + ":" + y)[|a|] == b[|a|];
  }

  lemma FirstColonSplits(a: string, x: string, b: string, y: string)
    requires NoColon(a) && NoColon(b) && a + ":" + x == b + ":" + y
    ensures a == b && x == y
  {
    var left, right := a + ":" + x, b + ":" + y;
    if |a| < |b| {
      ShorterDiffers(a, x, b, y);
    } else if |b| < |a| {
      ShorterDiffers(b, y, a, x);
    } else {
      assert a == left[..|a|] && b == right[..|b|] && x == left[|a| + 1..] && y == right[|b| + 1..];
    }
  }

  lemma KeysTellKinds(a: string, e: string, v: string, b: string, f: string, u: string)
    requires a in JOB_KINDS && b in JOB_KINDS && IdempotencyKey(a, e, v) == IdempotencyKey(b, f, u)
    ensures a == b
    ensures v == u ==> e == f
  {
    KindsHaveNoColon(a);
    KindsHaveNoColon(b);
    assert IdempotencyKey(a, e, v) == a + ":" + (e + ":" + v) && IdempotencyKey(b, f, u) == b + ":" + (f + ":" + u);
    FirstColonSplits(a, e + ":" + v, b, f + ":" + u);
    if v == u {
      assert |e| == |f|;
      assert e == (e + ":" + v)[..|e|] && f == (f + ":" + u)[..|f|];
    }
  }

  // ---------------------------------------------------------------- a payload and its job come together

  predicate JobFor(jobs: Table, j: JobId, r: RawId) {
    j in jobs && jobs[j].kind == NORMALIZE && jobs[j].payload == r
  }

  predicate HasJob(jobs: Table, r: RawId) {
    exists j :: j in jobs && JobFor(jobs, j, r)
  }

  ghost predicate WellKeyed(row: Row) {
    row.kind in JOB_KINDS && exists entity, version :: row.key == IdempotencyKey(row.kind, entity, version)
  }

  function NormalizeKey(r: RawId): string {
    IdempotencyKey(NORMALIZE, r, DEFAULT_VERSION)
  }

  ghost predicate JobsKnown(raws: Raws, jobs: Table) {
    && KeysUnique(jobs)
    && (forall j :: j in jobs ==> WellKeyed(jobs[j]))
    && (forall j :: j in jobs && jobs[j].kind == NORMALIZE ==>
          jobs[j].payload in raws && jobs[j].key == NormalizeKey(jobs[j].payload))
  }

  ghost predicate Outbox(raws: Raws, jobs: Table) {
    JobsKnown(raws, jobs) && forall r :: r in raws ==> HasJob(jobs, r)
  }

  /** A key of a raw row that is not stored yet is free. */
  lemma FreshRowKeyIsFree(raws: Raws, jobs: Table, r: RawId)
    requires JobsKnown(raws, jobs) && r !in raws
    ensures !KeyTaken(jobs, NormalizeKey(r))
  {
    forall j | j in jobs ensures jobs[j].key != NormalizeKey(r) {
      assert WellKeyed(jobs[j]);
      var entity, version :| jobs[j].key == IdempotencyKey(jobs[j].kind, entity, version);
      if jobs[j].key == NormalizeKey(r) {
        KeysTellKinds(jobs[j].kind, entity, version, NORMALIZE, r, DEFAULT_VERSION);
        KeysTellKinds(NORMALIZE, jobs[j].payload, DEFAULT_VERSION, NORMALIZE, r, DEFAULT_VERSION);
      }
    }
  }

  lemma EnqueueKeepsKnown(raws: Raws, jobs: Table, id: JobId, kind: string, payload: string, entity: string,
                          version: string, now: int)
    requires JobsKnown(raws, jobs)
    requires kind == NORMALIZE ==> payload in raws && entity == payload && version == DEFAULT_VERSION
    requires Enqueued(jobs, id, kind, payload, entity, version, now, DEFAULT_MAX_ATTEMPTS).Ok?
    ensures var jobs' := Enqueued(jobs, id, kind, payload, entity, version, now, DEFAULT_MAX_ATTEMPTS).value.0;
            && JobsKnown(raws, jobs')
            && forall r :: HasJob(jobs, r) ==> HasJob(jobs', r)
  {
  }

  lemma FetchOneKeepsOutbox(raws: Raws, jobs: Table, source: Source, raw: RawNotice, ids: Ids, now: int)
    requires Outbox(raws, jobs) && FetchOne(raws, jobs, source, raw, ids, now).Ok?
    ensures var p := FetchOne(raws, jobs, source, raw, ids, now).value; Outbox(p.raws, p.jobs)
  {
    var p := FetchOne(raws, jobs, source, raw, ids, now).value;
    if !AlreadyStored(raws, source, raw) {
      FreshRowKeyIsFree(raws, jobs, ids.raw);
      EnqueueKeepsKnown(p.raws, jobs, ids.job, NORMALIZE, ids.raw, ids.raw, DEFAULT_VERSION, now);
      assert JobFor(p.jobs, ids.job, ids.raw);
    }
  }

  lemma {:induction false} FetchAllKeepsOutbox(source: Source, now: int, raws: Raws, jobs: Table, feed: seq<RawNotice>,
                                               ids: seq<Ids>)
    requires |feed| <= |ids| && Outbox(raws, jobs)
    ensures match FetchAll(FetchFrom(source, now), raws, jobs, feed, ids)
            case Err(_) => true
            case Ok(p) => Outbox(p.raws, p.jobs)
    decreases |feed|
  {
    if feed != [] && FetchOne(raws, jobs, source, feed[0], ids[0], now).Ok? {
      FetchOneKeepsOutbox(raws, jobs, source, feed[0], ids[0], now);
      var first := FetchOne(raws, jobs, source, feed[0], ids[0], now).value;
      FetchAllKeepsOutbox(source, now, first.raws, first.jobs, feed[1..], ids[1..]);
    }
  }

  lemma NormalizeKeepsOutbox(s: Store, m: Mapping, rawId: RawId, dedupeJob: JobId, notifyJob: JobId, now: int)
    requires Outbox(s.raws, s.jobs) && Normalized(s, m, rawId, dedupeJob, notifyJob, now).Ok?
    ensures var t := Normalized(s, m, rawId, dedupeJob, notifyJob, now).value; Outbox(t.raws, t.jobs)
  {
    var raw := s.raws[rawId];
    var id, version := NoticeIdOf(m, raw), m.normalize(raw).version;
    EnqueueKeepsKnown(s.raws, s.jobs, dedupeJob, DEDUPE, id, id, DEFAULT_VERSION, now);
    if Amends(Lookup(s.notices, id), raw.contentHash) {
      var jobs := Enqueued(s.jobs, dedupeJob, DEDUPE, id, id, DEFAULT_VERSION, now, DEFAULT_MAX_ATTEMPTS).value.0;
      EnqueueKeepsKnown(s.raws, jobs, notifyJob, NOTIFY, id, id, version, now);
    }
  }

  lemma WorkKeepsOutbox(raws: Raws, jobs: Table, jobs': Table)
    requires Outbox(raws, jobs) && SameJobs(jobs, jobs')
    ensures Outbox(raws, jobs')
  {
  }

  lemma StepKeepsOutbox(w: World, s: Step)
    requires Enabled(w, s) && Outbox(w.store.raws, w.store.jobs)
    ensures var w' := Apply(w, s); Outbox(w'.store.raws, w'.store.jobs)
  {
    match s
    case Fetch(source, feed, limit, ids, now) =>
      FetchAllKeepsOutbox(source, now, w.store.raws, w.store.jobs, Taken(feed, limit), ids);
    case FetchFails =>
    case Normalize(m, rawId, dedupeJob, notifyJob, now) =>
      if Normalized(w.store, m, rawId, dedupeJob, notifyJob, now).Ok? {
        NormalizeKeepsOutbox(w.store, m, rawId, dedupeJob, notifyJob, now);
      }
    case OtherEnqueue(id, kind, payload, entity, version, now) =>
      if Enqueued(w.store.jobs, id, kind, payload, entity, version, now, DEFAULT_MAX_ATTEMPTS).Ok? {
        EnqueueKeepsKnown(w.store.raws, w.store.jobs, id, kind, payload, entity, version, now);
      }
    case Work(jobs) => WorkKeepsOutbox(w.store.raws, w.store.jobs, jobs);
  }

  /** The statements of the queue are such work. */
  lemma ClaimsAreWork(t: Table, ids: seq<JobId>, id: JobId, worker: WorkerName, now: int)
    ensures SameJobs(t, Claimed(t, ids, worker, now)) && SameJobs(t, Completed(t, id))
  {
  }

  lemma FailuresAreWork(t: Table, job: Job, error: string, now: int, olderThan: int)
    requires job.attempts >= 0
    ensures SameJobs(t, Failed(t, job, error, now)) && SameJobs(t, Reclaimed(t, now, olderThan))
  {
  }

  lemma {:induction false} OutboxAlways(w: World, steps: seq<Step>)
    requires Run(w, steps) && Outbox(w.store.raws, w.store.jobs)
    ensures var w' := Final(w, steps); Outbox(w'.store.raws, w'.store.jobs)
    decreases |steps|
  {
    if steps != [] {
      StepKeepsOutbox(w, steps[0]);
      OutboxAlways(Apply(w, steps[0]), steps[1..]);
    }
  }

  /** Through fetches, failures and re-normalisations, every stored payload has exactly one normalisation job,
      and every normalisation job has its payload. */
  lemma ExactlyOneJobEach(steps: seq<Step>)
    requires Run(BEGIN, steps)
    ensures var s := Final(BEGIN, steps).store;
            && (forall r :: r in s.raws ==> HasJob(s.jobs, r))
            && (forall r, i, j :: JobFor(s.jobs, i, r) && JobFor(s.jobs, j, r) ==> i == j)
            && (forall r, j :: JobFor(s.jobs, j, r) ==> r in s.raws)
  {
    OutboxAlways(BEGIN, steps);
  }

  // ---------------------------------------------------------------- versions count amendments

  /** The hashes a notice was upserted with, in order. */
  function HashesOf(log: seq<Upsert>, id: NoticeId): seq<string> {
    if log == [] then []
    else
      var last := log[|log| - 1];
      HashesOf(log[..|log| - 1], id) + if last.id == id then [last.hash] else []
  }

  /** The changes between consecutive known hashes. */
  function Changes(hashes: seq<string>): seq<Diff> {
    if |hashes| < 2 then []
    else
      var a, b := hashes[|hashes| - 2], hashes[|hashes| - 1];
      Changes(hashes[..|hashes| - 1]) + if a != "" && b != "" && a != b then [Diff(a, b)] else []
  }

  /** A notice tells its history: the last hash, one version more than there were changes, and one row for each. */
  ghost predicate TellsHistory(s: Store, id: NoticeId, hashes: seq<string>) {
    && (id in s.notices <==> hashes != [])
    && (id in s.notices ==> s.notices[id].hash == hashes[|hashes| - 1]
                            && s.notices[id].version == 1 + |Changes(hashes)|)
    && (forall v: nat :: (id, v) in s.versions <==> 2 <= v <= 1 + |Changes(hashes)|)
    && (forall v: nat :: (id, v) in s.versions ==> s.versions[(id, v)] == Changes(hashes)[v - 2])
  }

  ghost predicate HistoryTold(w: World) {
    forall id :: TellsHistory(w.store, id, HashesOf(w.log, id))
  }

  lemma UpsertTellsHistory(s: Store, id: NoticeId, canonical: Canonical, hash: string, hashes: seq<string>, s': Store)
    requires TellsHistory(s, id, hashes)
    requires s'.notices == s.notices[id := Upserted(Lookup(s.notices, id), canonical, hash)]
    requires s'.versions == VersionsAfter(s.versions, id, Lookup(s.notices, id), hash)
    ensures TellsHistory(s', id, hashes + [hash])
  {
  }

  lemma OthersKeepHistory(s: Store, id: NoticeId, canonical: Canonical, hash: string, s': Store, other: NoticeId,
                          hashes: seq<string>)
    requires TellsHistory(s, other, hashes) && other != id
    requires s'.notices == s.notices[id := Upserted(Lookup(s.notices, id), canonical, hash)]
    requires s'.versions == VersionsAfter(s.versions, id, Lookup(s.notices, id), hash)
    ensures TellsHistory(s', other, hashes)
  {
  }

  lemma StepTellsHistory(w: World, s: Step)
    requires Enabled(w, s) && HistoryTold(w)
    ensures HistoryTold(Apply(w, s))
  {
    var w' := Apply(w, s);
    forall id ensures TellsHistory(w'.store, id, HashesOf(w'.log, id)) {
      assert TellsHistory(w.store, id, HashesOf(w.log, id));
      if s.Normalize? && Normalized(w.store, s.m, s.rawId, s.dedupeJob, s.notifyJob, s.now).Ok? {
        var raw := w.store.raws[s.rawId];
        var upserted := NoticeIdOf(s.m, raw);
        assert w'.log[..|w'.log| - 1] == w.log;
        if id == upserted {
          UpsertTellsHistory(w.store, id, s.m.normalize(raw), raw.contentHash, HashesOf(w.log, id), w'.store);
        } else {
          OthersKeepHistory(w.store, upserted, s.m.normalize(raw), raw.contentHash, w'.store, id, HashesOf(w.log, id));
          assert HashesOf(w'.log, id) == HashesOf(w.log, id);
        }
      }
    }
  }

  lemma {:induction false} HistoryStaysTold(w: World, steps: seq<Step>)
    requires Run(w, steps) && HistoryTold(w)
    ensures HistoryTold(Final(w, steps))
    decreases |steps|
  {
    if steps != [] {
      StepTellsHistory(w, steps[0]);
      HistoryStaysTold(Apply(w, steps[0]), steps[1..]);
    }
  }

  /** In every run, a notice's version is one more than the number of times consecutive hashes differed, and
      `notice_versions` holds exactly the versions from 2 to it, each with the hashes it changed from and to. */
  lemma VersionsCountChanges(steps: seq<Step>)
    requires Run(BEGIN, steps)
    ensures HistoryTold(Final(BEGIN, steps))
  {
    forall id ensures TellsHistory(BEGIN.store, id, HashesOf(BEGIN.log, id)) {
      assert HashesOf([], id) == [] && Changes([]) == [];
    }
    HistoryStaysTold(BEGIN, steps);
  }

  function Switches(hashes: seq<string>): nat {
    if |hashes| < 2 then 0
    else Switches(hashes[..|hashes| - 1]) + if hashes[|hashes| - 2] != hashes[|hashes| - 1] then 1 else 0
  }

  /** With a hash on every row, no change goes uncounted; an empty one hides the changes around it. */
  lemma {:induction false} EveryChangeCounts(hashes: seq<string>)
    requires forall i :: 0 <= i < |hashes| ==> hashes[i] != ""
    ensures |Changes(hashes)| == Switches(hashes)
  {
    if |hashes| >= 2 { EveryChangeCounts(hashes[..|hashes| - 1]); }
  }

  // ---------------------------------------------------------------- what a repeat does

  /** Normalising a row a second time enqueues nothing, adds no version and leaves the notice as it is but for its
      status: it takes back `amended`.  So a repeat changes nothing at all exactly if the row was no amendment, or the
      adapter itself says amended. */
  lemma RepeatExact(s: Store, m: Mapping, rawId: RawId, dedupeJob: JobId, notifyJob: JobId, now: int, again: JobId,
                    notifyAgain: JobId, later: int)
    requires Normalized(s, m, rawId, dedupeJob, notifyJob, now).Ok?
    ensures var once := Normalized(s, m, rawId, dedupeJob, notifyJob, now).value;
            var twice := Normalized(once, m, rawId, again, notifyAgain, later);
            var raw := s.raws[rawId];
            var id, status := NoticeIdOf(m, raw), m.normalize(raw).status;
            && id in once.notices
            && twice == Ok(once.(notices := once.notices[id := once.notices[id].(status := status)]))
            && (twice == Ok(once) <==> !Amends(Lookup(s.notices, id), raw.contentHash) || status == Amended)
  {
    var raw := s.raws[rawId];
    var id := NoticeIdOf(m, raw);
    var once := Normalized(s, m, rawId, dedupeJob, notifyJob, now).value;
    NormalizeTakesKeys(s, m, rawId, dedupeJob, notifyJob, now);
    assert !Amends(Lookup(once.notices, id), raw.contentHash);
    assert once.notices[id := once.notices[id].(status := m.normalize(raw).status)][id].status ==
           m.normalize(raw).status;
    assert once.notices[id := once.notices[id]] == once.notices;
  }

  lemma {:induction false} KeysPersist(w: World, steps: seq<Step>, key: string)
    requires Run(w, steps) && KeyTaken(w.store.jobs, key)
    ensures KeyTaken(Final(w, steps).store.jobs, key)
    decreases |steps|
  {
    if steps != [] {
      StepKeepsKey(w, steps[0], key);
      KeysPersist(Apply(w, steps[0]), steps[1..], key);
    }
  }

  lemma {:induction false} FetchKeepsKey(source: Source, now: int, raws: Raws, jobs: Table, feed: seq<RawNotice>,
                                         ids: seq<Ids>, key: string)
    requires |feed| <= |ids| && KeyTaken(jobs, key)
    ensures match FetchAll(FetchFrom(source, now), raws, jobs, feed, ids)
            case Err(_) => true
            case Ok(p) => KeyTaken(p.jobs, key)
    decreases |feed|
  {
    if feed != [] && FetchOne(raws, jobs, source, feed[0], ids[0], now).Ok? {
      var first := FetchOne(raws, jobs, source, feed[0], ids[0], now).value;
      FetchKeepsKey(source, now, first.raws, first.jobs, feed[1..], ids[1..], key);
    }
  }

  lemma StepKeepsKey(w: World, s: Step, key: string)
    requires Enabled(w, s) && KeyTaken(w.store.jobs, key)
    ensures KeyTaken(Apply(w, s).store.jobs, key)
  {
    var i :| i in w.store.jobs && w.store.jobs[i].key == key;
    if s.Fetch? {
      FetchKeepsKey(s.source, s.now, w.store.raws, w.store.jobs, Taken(s.feed, s.limit), s.ids, key);
    } else {
      assert i in Apply(w, s).store.jobs && Apply(w, s).store.jobs[i].key == key;
    }
  }

  /** What a normalisation that commits leaves taken. */
  lemma NormalizeTakesKeys(s: Store, m: Mapping, rawId: RawId, dedupeJob: JobId, notifyJob: JobId, now: int)
    requires Normalized(s, m, rawId, dedupeJob, notifyJob, now).Ok?
    ensures var t := Normalized(s, m, rawId, dedupeJob, notifyJob, now).value;
            var id := NoticeIdOf(m, s.raws[rawId]);
            && KeyTaken(t.jobs, IdempotencyKey(DEDUPE, id, DEFAULT_VERSION))
            && (Amends(Lookup(s.notices, id), s.raws[rawId].contentHash) ==>
                  KeyTaken(t.jobs, IdempotencyKey(NOTIFY, id, m.normalize(s.raws[rawId]).version)))
  {
  }

  // ---------------------------------------------------------------- which amendments enqueue a notification

  function NotifyKey(id: NoticeId, version: string): string {
    IdempotencyKey(NOTIFY, id, version)
  }

  lemma KeysAfterEnqueue(t: Table, id: JobId, kind: string, payload: string, entity: string, version: string, now: int,
                         key: string)
    requires Enqueued(t, id, kind, payload, entity, version, now, DEFAULT_MAX_ATTEMPTS).Ok?
    ensures KeyTaken(Enqueued(t, id, kind, payload, entity, version, now, DEFAULT_MAX_ATTEMPTS).value.0, key) <==>
            KeyTaken(t, key) || key == IdempotencyKey(kind, entity, version)
  {
    var t' := Enqueued(t, id, kind, payload, entity, version, now, DEFAULT_MAX_ATTEMPTS).value.0;
    if KeyTaken(t, key) {
      var i :| i in t && t[i].key == key;
      assert t'[i].key == key;
    }
  }

  /** An amendment with fresh job ids enqueues its notification exactly if the key of its version is free. */
  lemma AmendmentJobExact(s: Store, m: Mapping, rawId: RawId, dedupeJob: JobId, notifyJob: JobId, now: int)
    requires rawId in s.raws && dedupeJob !in s.jobs && notifyJob !in s.jobs && dedupeJob != notifyJob
    requires Amends(Lookup(s.notices, NoticeIdOf(m, s.raws[rawId])), s.raws[rawId].contentHash)
    ensures var id, version := NoticeIdOf(m, s.raws[rawId]), m.normalize(s.raws[rawId]).version;
            var r := Normalized(s, m, rawId, dedupeJob, notifyJob, now);
            && r.Ok?
            && (notifyJob in r.value.jobs <==> !KeyTaken(s.jobs, NotifyKey(id, version)))
            && (notifyJob in r.value.jobs ==>
                  r.value.jobs[notifyJob].kind == NOTIFY && r.value.jobs[notifyJob].key == NotifyKey(id, version)
                  && r.value.jobs[notifyJob].state == Queued)
  {
    var id, version := NoticeIdOf(m, s.raws[rawId]), m.normalize(s.raws[rawId]).version;
    KeysAfterEnqueue(s.jobs, dedupeJob, DEDUPE, id, id, DEFAULT_VERSION, now, NotifyKey(id, version));
    DedupeIsNotNotify(id, id, version);
  }

  lemma DedupeIsNotNotify(entity: string, id: NoticeId, version: string)
    ensures IdempotencyKey(DEDUPE, entity, DEFAULT_VERSION) != NotifyKey(id, version)
    ensures IdempotencyKey(NORMALIZE, entity, DEFAULT_VERSION) != NotifyKey(id, version)
  {
    assert |DEDUPE| == 13 && |NORMALIZE| == 16 && |NOTIFY| == 11;
    if IdempotencyKey(DEDUPE, entity, DEFAULT_VERSION) == NotifyKey(id, version) {
      KeysTellKinds(DEDUPE, entity, DEFAULT_VERSION, NOTIFY, id, version);
    }
    if IdempotencyKey(NORMALIZE, entity, DEFAULT_VERSION) == NotifyKey(id, version) {
      KeysTellKinds(NORMALIZE, entity, DEFAULT_VERSION, NOTIFY, id, version);
    }
  }

  /** Notice ids are made of letters, digits and underscores. */
  ghost predicate PlainIds(m: Mapping) {
    forall source, externalId :: NoColon(m.noticeId(source, externalId))
  }

  lemma NotifyKeysDiffer(a: NoticeId, v: string, b: NoticeId, u: string)
    requires NoColon(a) && NoColon(b)
    ensures NotifyKey(a, v) == NotifyKey(b, u) <==> a == b && v == u
  {
    assert NotifyKey(a, v) == NOTIFY + ":" + (a + ":" + v) && NotifyKey(b, u) == NOTIFY + ":" + (b + ":" + u);
    if NotifyKey(a, v) == NotifyKey(b, u) {
      KindsHaveNoColon(NOTIFY);
      FirstColonSplits(NOTIFY, a + ":" + v, NOTIFY, b + ":" + u);
      FirstColonSplits(a, v, b, u);
    }
  }

  /** Nothing but the normalisation of notice `id` enqueues notifications about it. */
  ghost predicate LeavesAlone(s: Step, id: NoticeId) {
    match s
    case OtherEnqueue(_, kind, _, entity, version, _) =>
      forall v :: IdempotencyKey(kind, entity, version) != NotifyKey(id, v)
    case Normalize(m, _, _, _, _) => PlainIds(m)
    case _ => true
  }

  ghost predicate AllLeaveAlone(steps: seq<Step>, id: NoticeId) {
    forall i :: 0 <= i < |steps| ==> LeavesAlone(steps[i], id)
  }

  predicate AmendedAs(log: seq<Upsert>, id: NoticeId, version: string) {
    exists u :: u in log && u.id == id && u.amended && u.version == version
  }

  /** The notification keys of a notice that are taken are those of its amendments so far. */
  ghost predicate KeysAreAmendments(w: World, id: NoticeId) {
    forall v :: KeyTaken(w.store.jobs, NotifyKey(id, v)) <==> AmendedAs(w.log, id, v)
  }

  lemma {:induction false} FetchTakesNoNotifyKey(source: Source, now: int, raws: Raws, jobs: Table,
                                                 feed: seq<RawNotice>, ids: seq<Ids>, id: NoticeId, v: string)
    requires |feed| <= |ids|
    ensures match FetchAll(FetchFrom(source, now), raws, jobs, feed, ids)
            case Err(_) => true
            case Ok(p) => KeyTaken(p.jobs, NotifyKey(id, v)) <==> KeyTaken(jobs, NotifyKey(id, v))
    decreases |feed|
  {
    if feed != [] && FetchOne(raws, jobs, source, feed[0], ids[0], now).Ok? {
      var first := FetchOne(raws, jobs, source, feed[0], ids[0], now).value;
      if !AlreadyStored(raws, source, feed[0]) {
        KeysAfterEnqueue(jobs, ids[0].job, NORMALIZE, ids[0].raw, ids[0].raw, DEFAULT_VERSION, now, NotifyKey(id, v));
        DedupeIsNotNotify(ids[0].raw, id, v);
      }
      FetchTakesNoNotifyKey(source, now, first.raws, first.jobs, feed[1..], ids[1..], id, v);
    }
  }

  lemma NormalizeNotifyKeys(s: Store, m: Mapping, rawId: RawId, dedupeJob: JobId, notifyJob: JobId, now: int,
                            id: NoticeId, v: string)
    requires Normalized(s, m, rawId, dedupeJob, notifyJob, now).Ok? && PlainIds(m) && NoColon(id)
    ensures var u := UpsertOf(s, m, s.raws[rawId]);
            KeyTaken(Normalized(s, m, rawId, dedupeJob, notifyJob, now).value.jobs, NotifyKey(id, v)) <==>
            KeyTaken(s.jobs, NotifyKey(id, v)) || (u.amended && u.id == id && u.version == v)
  {
    var u := UpsertOf(s, m, s.raws[rawId]);
    var jobs := Enqueued(s.jobs, dedupeJob, DEDUPE, u.id, u.id, DEFAULT_VERSION, now, DEFAULT_MAX_ATTEMPTS).value.0;
    KeysAfterEnqueue(s.jobs, dedupeJob, DEDUPE, u.id, u.id, DEFAULT_VERSION, now, NotifyKey(id, v));
    DedupeIsNotNotify(u.id, id, v);
    NotifyKeysDiffer(u.id, u.version, id, v);
    if u.amended {
      KeysAfterEnqueue(jobs, notifyJob, NOTIFY, u.id, u.id, u.version, now, NotifyKey(id, v));
    }
  }

  lemma WorkKeepsKey(jobs: Table, jobs': Table, key: string)
    requires SameJobs(jobs, jobs')
    ensures KeyTaken(jobs', key) <==> KeyTaken(jobs, key)
  {
    if KeyTaken(jobs, key) {
      var i :| i in jobs && jobs[i].key == key;
      assert i in jobs' && jobs'[i].key == key;
    }
  }

  lemma LoggedOneMore(log: seq<Upsert>, u: Upsert, id: NoticeId, v: string)
    ensures AmendedAs(log + [u], id, v) <==> AmendedAs(log, id, v) || (u.amended && u.id == id && u.version == v)
  {
    assert u in log + [u];
    if AmendedAs(log, id, v) {
      var x :| x in log && x.id == id && x.amended && x.version == v;
      assert x in log + [u];
    }
  }

  lemma StepKeepsAmendments(w: World, s: Step, id: NoticeId)
    requires Enabled(w, s) && LeavesAlone(s, id) && NoColon(id) && KeysAreAmendments(w, id)
    ensures KeysAreAmendments(Apply(w, s), id)
  {
    var w' := Apply(w, s);
    forall v ensures KeyTaken(w'.store.jobs, NotifyKey(id, v)) <==> AmendedAs(w'.log, id, v) {
      assert KeyTaken(w.store.jobs, NotifyKey(id, v)) <==> AmendedAs(w.log, id, v);
      match s
      case Fetch(source, feed, limit, ids, now) =>
        FetchTakesNoNotifyKey(source, now, w.store.raws, w.store.jobs, Taken(feed, limit), ids, id, v);
      case FetchFails =>
      case Normalize(m, rawId, dedupeJob, notifyJob, now) =>
        if Normalized(w.store, m, rawId, dedupeJob, notifyJob, now).Ok? {
          NormalizeNotifyKeys(w.store, m, rawId, dedupeJob, notifyJob, now, id, v);
          LoggedOneMore(w.log, UpsertOf(w.store, m, w.store.raws[rawId]), id, v);
        }
      case OtherEnqueue(job, kind, payload, entity, version, now) =>
        if Enqueued(w.store.jobs, job, kind, payload, entity, version, now, DEFAULT_MAX_ATTEMPTS).Ok? {
          KeysAfterEnqueue(w.store.jobs, job, kind, payload, entity, version, now, NotifyKey(id, v));
        }
      case Work(jobs) => WorkKeepsKey(w.store.jobs, jobs, NotifyKey(id, v));
    }
  }

  lemma {:induction false} RunKeepsAmendments(w: World, steps: seq<Step>, id: NoticeId)
    requires Run(w, steps) && AllLeaveAlone(steps, id) && NoColon(id) && KeysAreAmendments(w, id)
    ensures KeysAreAmendments(Final(w, steps), id)
    decreases |steps|
  {
    if steps != [] {
      assert LeavesAlone(steps[0], id);
      StepKeepsAmendments(w, steps[0], id);
      forall i | 0 <= i < |steps| - 1 ensures LeavesAlone(steps[1..][i], id) {
        assert LeavesAlone(steps[i + 1], id);
      }
      RunKeepsAmendments(Apply(w, steps[0]), steps[1..], id);
    }
  }

  /** After any run in which nothing else enqueues notifications about a notice, an amendment of it enqueues one exactly
      if no earlier amendment of it carried the same version. */
  lemma AmendmentJobInRuns(steps: seq<Step>, later: Step)
    requires Run(BEGIN, steps) && later.Normalize? && later.rawId in Final(BEGIN, steps).store.raws
    requires var s := Final(BEGIN, steps).store;
             var u := UpsertOf(s, later.m, s.raws[later.rawId]);
             && u.amended && NoColon(u.id) && AllLeaveAlone(steps, u.id)
             && later.dedupeJob !in s.jobs && later.notifyJob !in s.jobs && later.dedupeJob != later.notifyJob
    ensures var w := Final(BEGIN, steps);
            var u := UpsertOf(w.store, later.m, w.store.raws[later.rawId]);
            later.notifyJob in Apply(w, later).store.jobs <==> !AmendedAs(w.log, u.id, u.version)
  {
    var w := Final(BEGIN, steps);
    var u := UpsertOf(w.store, later.m, w.store.raws[later.rawId]);
    RunKeepsAmendments(BEGIN, steps, u.id);
    AmendmentJobExact(w.store, later.m, later.rawId, later.dedupeJob, later.notifyJob, later.now);
    assert KeyTaken(w.store.jobs, NotifyKey(u.id, u.version)) <==> AmendedAs(w.log, u.id, u.version);
  }

  /** Whatever happens in between, other enqueues of any kind included, an amendment enqueues no job at all if an
      earlier one carried the same version. */
  lemma LaterAmendmentIsSilent(w: World, first: Step, steps: seq<Step>, later: Step)
    requires first.Normalize? && later.Normalize? && Run(Apply(w, first), steps)
    requires Normalized(w.store, first.m, first.rawId, first.dedupeJob, first.notifyJob, first.now).Ok?
    requires later.rawId in Final(Apply(w, first), steps).store.raws
    requires var raw, raw' := w.store.raws[first.rawId], Final(Apply(w, first), steps).store.raws[later.rawId];
             && NoticeIdOf(later.m, raw') == NoticeIdOf(first.m, raw)
             && later.m.normalize(raw').version == first.m.normalize(raw).version
             && Amends(Lookup(w.store.notices, NoticeIdOf(first.m, raw)), raw.contentHash)
    ensures var before := Final(Apply(w, first), steps).store;
            var after := Normalized(before, later.m, later.rawId, later.dedupeJob, later.notifyJob, later.now);
            after.Ok? && after.value.jobs == before.jobs
  {
    var raw := w.store.raws[first.rawId];
    var id, version := NoticeIdOf(first.m, raw), first.m.normalize(raw).version;
    NormalizeTakesKeys(w.store, first.m, first.rawId, first.dedupeJob, first.notifyJob, first.now);
    KeysPersist(Apply(w, first), steps, IdempotencyKey(DEDUPE, id, DEFAULT_VERSION));
    KeysPersist(Apply(w, first), steps, IdempotencyKey(NOTIFY, id, version));
  }

  // ---------------------------------------------------------------- a notice is sent to clustering once

  function DedupeKey(id: NoticeId): string {
    IdempotencyKey(DEDUPE, id, DEFAULT_VERSION)
  }

  /** Every known notice has been sent to clustering. */
  ghost predicate NoticesSent(s: Store) {
    forall id :: id in s.notices ==> KeyTaken(s.jobs, DedupeKey(id))
  }

  lemma StepKeepsSent(w: World, s: Step)
    requires Enabled(w, s) && NoticesSent(w.store)
    ensures NoticesSent(Apply(w, s).store)
  {
    var w' := Apply(w, s);
    forall id | id in w'.store.notices ensures KeyTaken(w'.store.jobs, DedupeKey(id)) {
      if id in w.store.notices {
        StepKeepsKey(w, s, DedupeKey(id));
      } else {
        NormalizeTakesKeys(w.store, s.m, s.rawId, s.dedupeJob, s.notifyJob, s.now);
      }
    }
  }

  lemma {:induction false} RunKeepsSent(w: World, steps: seq<Step>)
    requires Run(w, steps) && NoticesSent(w.store)
    ensures NoticesSent(Final(w, steps).store)
    decreases |steps|
  {
    if steps != [] {
      StepKeepsSent(w, steps[0]);
      RunKeepsSent(Apply(w, steps[0]), steps[1..]);
    }
  }

  /** A normalisation with fresh ids enqueues a clustering job exactly if the key of the notice is free. */
  lemma ClusteringJobExact(w: World, s: Step)
    requires s.Normalize? && s.rawId in w.store.raws
    requires s.dedupeJob !in w.store.jobs && s.notifyJob !in w.store.jobs && s.dedupeJob != s.notifyJob
    ensures s.dedupeJob in Apply(w, s).store.jobs <==>
            !KeyTaken(w.store.jobs, DedupeKey(NoticeIdOf(s.m, w.store.raws[s.rawId])))
  {
  }

  /** In every run, whatever else is enqueued, no normalisation of a known notice - amendment or not - sends it to
      clustering again. */
  lemma KnownNoticeIsNotClusteredAgain(steps: seq<Step>, later: Step)
    requires Run(BEGIN, steps) && later.Normalize? && later.rawId in Final(BEGIN, steps).store.raws
    requires var s := Final(BEGIN, steps).store;
             && NoticeIdOf(later.m, s.raws[later.rawId]) in s.notices
             && later.dedupeJob !in s.jobs && later.notifyJob !in s.jobs && later.dedupeJob != later.notifyJob
    ensures later.dedupeJob !in Apply(Final(BEGIN, steps), later).store.jobs
  {
    RunKeepsSent(BEGIN, steps);
    ClusteringJobExact(Final(BEGIN, steps), later);
  }

  /** No other enqueue sends notice `id` to clustering. */
  ghost predicate LeavesClustering(s: Step, id: NoticeId) {
    s.OtherEnqueue? ==> IdempotencyKey(s.kind, s.entity, s.version) != DedupeKey(id)
  }

  ghost predicate AllLeaveClustering(steps: seq<Step>, id: NoticeId) {
    forall i :: 0 <= i < |steps| ==> LeavesClustering(steps[i], id)
  }

  lemma DedupeKeysDiffer(kind: string, entity: string, version: string, id: NoticeId)
    requires kind in JOB_KINDS && IdempotencyKey(kind, entity, version) == DedupeKey(id)
    ensures kind == DEDUPE && (version == DEFAULT_VERSION ==> entity == id)
  {
    KeysTellKinds(kind, entity, version, DEDUPE, id, DEFAULT_VERSION);
  }

  lemma {:induction false} FetchSendsNothing(source: Source, now: int, raws: Raws, jobs: Table, feed: seq<RawNotice>,
                                             ids: seq<Ids>, id: NoticeId)
    requires |feed| <= |ids|
    ensures match FetchAll(FetchFrom(source, now), raws, jobs, feed, ids)
            case Err(_) => true
            case Ok(p) => KeyTaken(p.jobs, DedupeKey(id)) ==> KeyTaken(jobs, DedupeKey(id))
    decreases |feed|
  {
    if feed != [] && FetchOne(raws, jobs, source, feed[0], ids[0], now).Ok? {
      var first := FetchOne(raws, jobs, source, feed[0], ids[0], now).value;
      if !AlreadyStored(raws, source, feed[0]) {
        KeysAfterEnqueue(jobs, ids[0].job, NORMALIZE, ids[0].raw, ids[0].raw, DEFAULT_VERSION, now, DedupeKey(id));
        if NormalizeKey(ids[0].raw) == DedupeKey(id) {
          DedupeKeysDiffer(NORMALIZE, ids[0].raw, DEFAULT_VERSION, id);
        }
      }
      FetchSendsNothing(source, now, first.raws, first.jobs, feed[1..], ids[1..], id);
    }
  }

  lemma NormalizeSendsItsNotice(s: Store, m: Mapping, rawId: RawId, dedupeJob: JobId, notifyJob: JobId, now: int,
                                id: NoticeId)
    requires Normalized(s, m, rawId, dedupeJob, notifyJob, now).Ok?
    ensures var t := Normalized(s, m, rawId, dedupeJob, notifyJob, now).value;
            KeyTaken(t.jobs, DedupeKey(id)) ==> KeyTaken(s.jobs, DedupeKey(id)) || id == NoticeIdOf(m, s.raws[rawId])
  {
    var u := UpsertOf(s, m, s.raws[rawId]);
    var jobs := Enqueued(s.jobs, dedupeJob, DEDUPE, u.id, u.id, DEFAULT_VERSION, now, DEFAULT_MAX_ATTEMPTS).value.0;
    KeysAfterEnqueue(s.jobs, dedupeJob, DEDUPE, u.id, u.id, DEFAULT_VERSION, now, DedupeKey(id));
    if DedupeKey(u.id) == DedupeKey(id) { DedupeKeysDiffer(DEDUPE, u.id, DEFAULT_VERSION, id); }
    if u.amended {
      KeysAfterEnqueue(jobs, notifyJob, NOTIFY, u.id, u.id, u.version, now, DedupeKey(id));
      DedupeIsNotNotify(id, u.id, u.version);
    }
  }

  lemma StepSendsOnlyNotices(w: World, s: Step, id: NoticeId)
    requires Enabled(w, s) && LeavesClustering(s, id)
    requires KeyTaken(w.store.jobs, DedupeKey(id)) ==> id in w.store.notices
    ensures KeyTaken(Apply(w, s).store.jobs, DedupeKey(id)) ==> id in Apply(w, s).store.notices
  {
    match s
    case Fetch(source, feed, limit, ids, now) =>
      FetchSendsNothing(source, now, w.store.raws, w.store.jobs, Taken(feed, limit), ids, id);
    case FetchFails =>
    case Normalize(m, rawId, dedupeJob, notifyJob, now) =>
      if Normalized(w.store, m, rawId, dedupeJob, notifyJob, now).Ok? {
        NormalizeSendsItsNotice(w.store, m, rawId, dedupeJob, notifyJob, now, id);
      }
    case OtherEnqueue(job, kind, payload, entity, version, now) =>
      if Enqueued(w.store.jobs, job, kind, payload, entity, version, now, DEFAULT_MAX_ATTEMPTS).Ok? {
        KeysAfterEnqueue(w.store.jobs, job, kind, payload, entity, version, now, DedupeKey(id));
      }
    case Work(jobs) => WorkKeepsKey(w.store.jobs, jobs, DedupeKey(id));
  }

  lemma {:induction false} RunSendsOnlyNotices(w: World, steps: seq<Step>, id: NoticeId)
    requires Run(w, steps) && AllLeaveClustering(steps, id)
    requires KeyTaken(w.store.jobs, DedupeKey(id)) ==> id in w.store.notices
    ensures KeyTaken(Final(w, steps).store.jobs, DedupeKey(id)) ==> id in Final(w, steps).store.notices
    decreases |steps|
  {
    if steps != [] {
      assert LeavesClustering(steps[0], id);
      StepSendsOnlyNotices(w, steps[0], id);
      forall i | 0 <= i < |steps| - 1 ensures LeavesClustering(steps[1..][i], id) {
        assert LeavesClustering(steps[i + 1], id);
      }
      RunSendsOnlyNotices(Apply(w, steps[0]), steps[1..], id);
    }
  }

  /** In every run in which nothing else sends the notice to clustering, a normalisation with fresh ids does so exactly
      if it is the notice's first. */
  lemma ClusteredAtFirstSight(steps: seq<Step>, later: Step)
    requires Run(BEGIN, steps) && later.Normalize? && later.rawId in Final(BEGIN, steps).store.raws
    requires var s := Final(BEGIN, steps).store;
             && AllLeaveClustering(steps, NoticeIdOf(later.m, s.raws[later.rawId]))
             && later.dedupeJob !in s.jobs && later.notifyJob !in s.jobs && later.dedupeJob != later.notifyJob
    ensures var s := Final(BEGIN, steps).store;
            later.dedupeJob in Apply(Final(BEGIN, steps), later).store.jobs <==>
            NoticeIdOf(later.m, s.raws[later.rawId]) !in s.notices
  {
    var w := Final(BEGIN, steps);
    RunKeepsSent(BEGIN, steps);
    RunSendsOnlyNotices(BEGIN, steps, NoticeIdOf(later.m, w.store.raws[later.rawId]));
    ClusteringJobExact(w, later);
  }
}
