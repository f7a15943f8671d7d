/**
 From a source's feed to versioned notices (pipeline.py).

 `run_source_fetch` and `run_normalize` each run in one transaction: they commit as a whole or raise and change
 nothing.  Ids drawn by `new_id` are parameters; an id that is already taken raises.
 */
module Pipeline {
  import opened Common
  import opened JobQueue

  type RawId = string
  type NoticeId = string

  datatype Source = Source(id: string, code: string, enabled: bool)

  datatype RawNotice = RawNotice(externalId: string, payload: string, contentHash: Option<string>)

  datatype RawRow = RawRow(sourceId: string, sourceCode: string, externalId: string, payload: string,
                           contentHash: string)

  datatype Status = Amended | Other(name: string)

  /** What an adapter makes of a raw row; `source` and `externalId` are its first source reference. */
  datatype Canonical = Canonical(source: string, externalId: string, status: Status, version: string, content: string)

  /** A row of `notices`; `hash` is the `raw_content_hash` that adapters copy into the provenance. */
  datatype Notice = Notice(status: Status, version: nat, hash: string, content: string)

  datatype Diff = Diff(previousHash: string, newHash: string)

  datatype Error = DuplicateRaw(id: RawId) | QueueRaises(error: QueueError) | RawNotFound(id: RawId)

  type Raws = map<RawId, RawRow>

  const NORMALIZE := "notice.normalize"
  const DEDUPE := "notice.dedupe"
  const NOTIFY := "notify.send"

  const DEFAULT_VERSION := "1"

  // ---------------------------------------------------------------- fetching

  predicate SamePayload(row: RawRow, source: Source, raw: RawNotice) {
    row.sourceId == source.id && row.externalId == raw.externalId && row.contentHash == HashOf(raw)
  }

  /** `raw.content_hash or ""`. */
  function HashOf(raw: RawNotice): string {
    if raw.contentHash.Some? then raw.contentHash.value else ""
  }

  predicate AlreadyStored(raws: Raws, source: Source, raw: RawNotice) {
    exists r :: r in raws && SamePayload(raws[r], source, raw)
  }

  function RowOf(source: Source, raw: RawNotice): RawRow {
    RawRow(source.id, source.code, raw.externalId, raw.payload, HashOf(raw))
  }

  function StoreRaw(raws: Raws, source: Source, raw: RawNotice, id: RawId): Result<(Raws, bool), Error> {
    if AlreadyStored(raws, source, raw) then Ok((raws, false))
    else if id in raws then Err(DuplicateRaw(id))
    else Ok((raws[id := RowOf(source, raw)], true))
  }

  datatype Progress = Progress(raws: Raws, jobs: Table, stored: nat)

  /** Ids for one notice: of its raw row and of its job. */
  datatype Ids = Ids(raw: RawId, job: JobId)

  function FetchOne(raws: Raws, jobs: Table, source: Source, raw: RawNotice, ids: Ids, now: int)
    : Result<Progress, Error>
  {
    match StoreRaw(raws, source, raw, ids.raw)
    case Err(e) => Err(e)
    case Ok((raws', stored)) =>
      if !stored then Ok(Progress(raws', jobs, 0))
      else match Enqueued(jobs, ids.job, NORMALIZE, ids.raw, ids.raw, DEFAULT_VERSION, now, DEFAULT_MAX_ATTEMPTS)
        case Err(e) => Err(QueueRaises(e))
        case Ok((jobs', _)) => Ok(Progress(raws', jobs', 1))
  }

  type FetchStep = (Raws, Table, RawNotice, Ids) -> Result<Progress, Error>

  function FetchFrom(source: Source, now: int): FetchStep {
    (raws: Raws, jobs: Table, raw: RawNotice, ids: Ids) => FetchOne(raws, jobs, source, raw, ids, now)
  }

  function FetchAll(one: FetchStep, raws: Raws, jobs: Table, feed: seq<RawNotice>, ids: seq<Ids>)
    : Result<Progress, Error>
    requires |feed| <= |ids|
    decreases |feed|
  {
    if feed == [] then Ok(Progress(raws, jobs, 0))
    else match one(raws, jobs, feed[0], ids[0])
      case Err(e) => Err(e)
      case Ok(first) =>
        match FetchAll(one, first.raws, first.jobs, feed[1..], ids[1..])
        case Err(e) => Err(e)
        case Ok(rest) => Ok(rest.(stored := first.stored + rest.stored))
  }

  /** The limit is looked at after a notice has been dealt with, so at least one is. */
  function Taken(feed: seq<RawNotice>, limit: Option<int>): (r: seq<RawNotice>)
    ensures |r| <= |feed|
  {
    if limit.None? then feed else feed[..Min(|feed|, Max(1, limit.value))]
  }

  // ---------------------------------------------------------------- normalising

  function Amends(existing: Option<Notice>, hash: string): bool {
    existing.Some? && existing.value.hash != "" && hash != "" && existing.value.hash != hash
  }

  function Upserted(existing: Option<Notice>, canonical: Canonical, hash: string): Notice {
    var amended := Amends(existing, hash);
    Notice(if amended then Amended else canonical.status,
           if existing.None? then 1 else if amended then existing.value.version + 1 else existing.value.version,
           hash, canonical.content)
  }

  type Notices = map<NoticeId, Notice>
  type Versions = map<(NoticeId, nat), Diff>

  function Lookup(notices: Notices, id: NoticeId): Option<Notice> {
    if id in notices then Some(notices[id]) else None
  }

  /** `ON CONFLICT (notice_id, version) DO NOTHING`. */
  function WithVersion(versions: Versions, id: NoticeId, version: nat, diff: Diff): Versions {
    if (id, version) in versions then versions else versions[(id, version) := diff]
  }

  function VersionsAfter(versions: Versions, id: NoticeId, existing: Option<Notice>, hash: string): Versions {
    if Amends(existing, hash)
    then WithVersion(versions, id, existing.value.version + 1, Diff(existing.value.hash, hash))
    else versions
  }

  datatype Store = Store(raws: Raws, jobs: Table, notices: Notices, versions: Versions)

  /** How a deployment maps rows: its adapters, and the row id derived from a source reference. */
  datatype Mapping = Mapping(normalize: RawRow -> Canonical, noticeId: (string, string) -> NoticeId)

  function NoticeIdOf(m: Mapping, raw: RawRow): NoticeId {
    var c := m.normalize(raw);
    m.noticeId(c.source, c.externalId)
  }

  /** The jobs `run_normalize` enqueues: the clustering and, for an amendment, the notification. */
  function NormalizeJobs(jobs: Table, id: NoticeId, amended: bool, version: string, dedupeJob: JobId, notifyJob: JobId,
                         now: int): Result<Table, QueueError>
  {
    match Enqueued(jobs, dedupeJob, DEDUPE, id, id, DEFAULT_VERSION, now, DEFAULT_MAX_ATTEMPTS)
    case Err(e) => Err(e)
    case Ok((jobs', _)) =>
      if !amended then Ok(jobs')
      else match Enqueued(jobs', notifyJob, NOTIFY, id, id, version, now, DEFAULT_MAX_ATTEMPTS)
        case Err(e) => Err(e)
        case Ok((jobs'', _)) => Ok(jobs'')
  }

  function Normalized(s: Store, m: Mapping, rawId: RawId, dedupeJob: JobId, notifyJob: JobId, now: int)
    : Result<Store, Error>
  {
    if rawId !in s.raws then Err(RawNotFound(rawId))
    else
      var raw := s.raws[rawId];
      var canonical, id := m.normalize(raw), NoticeIdOf(m, raw);
      var existing := Lookup(s.notices, id);
      match NormalizeJobs(s.jobs, id, Amends(existing, raw.contentHash), canonical.version, dedupeJob, notifyJob, now)
      case Err(e) => Err(QueueRaises(e))
      case Ok(jobs) =>
        Ok(Store(s.raws, jobs, s.notices[id := Upserted(existing, canonical, raw.contentHash)],
                 VersionsAfter(s.versions, id, existing, raw.contentHash)))
  }

  /** What the loop still owes, after `stored` new rows. */
  predicate Continues(goal: Result<Progress, Error>, stored: nat, rest: Result<Progress, Error>) {
    match rest
    case Err(e) => goal == Err(e)
    case Ok(p) => goal == Ok(p.(stored := stored + p.stored))
  }

  /** The loop of `run_source_fetch`, on the tables as its transaction sees them. */
  method FetchUntil(one: FetchStep, raws: Raws, jobs: Table, feed: seq<RawNotice>, limit: Option<int>, ids: seq<Ids>)
    returns (r: Result<Progress, Error>, fetched: nat)
    requires |feed| <= |ids|
    ensures r == FetchAll(one, raws, jobs, Taken(feed, limit), ids)
    ensures r.Ok? ==> fetched == |Taken(feed, limit)|
  {
    var raws', jobs', stored: nat := raws, jobs, 0;
    fetched := 0;
    ghost var taken := Taken(feed, limit);
    while fetched < |feed| && (limit.None? || fetched < limit.value || fetched == 0)
      invariant fetched <= |taken|
      invariant Continues(FetchAll(one, raws, jobs, taken, ids), stored,
                          FetchAll(one, raws', jobs', taken[fetched..], ids[fetched..]))
    {
      assert taken[fetched..][0] == feed[fetched] && taken[fetched..][1..] == taken[fetched + 1..];
      assert ids[fetched..][0] == ids[fetched] && ids[fetched..][1..] == ids[fetched + 1..];
      match one(raws', jobs', feed[fetched], ids[fetched])
      case Err(e) =>
        return Err(e), fetched;
      case Ok(p) =>
        raws', jobs', stored := p.raws, p.jobs, stored + p.stored;
        fetched := fetched + 1;
    }
    assert taken[fetched..] == [];
    r := Ok(Progress(raws', jobs', stored));
  }

  // ---------------------------------------------------------------- what one notice adds

  /** This payload of this source is stored; a missing hash counts as the empty one. */
  ghost predicate Recorded(raws: Raws, source: Source, raw: RawNotice) {
    exists r :: r in raws && raws[r].sourceId == source.id && raws[r].externalId == raw.externalId
                && raws[r].contentHash == (match raw.contentHash case Some(hash) => hash case None => "")
  }

  ghost predicate HasKey(jobs: Table, key: string) {
    exists j :: j in jobs && jobs[j].key == key
  }

  /** `after` has one more job, due at once and with five attempts - unless its key was there before. */
  ghost predicate AddsJob(before: Table, after: Table, id: JobId, kind: string, payload: string, key: string, now: int)
  {
    if HasKey(before, key) then after == before
    else
      && id !in before
      && after == before[id := Row(kind, payload, Queued, now, 0, 5, None, None, None, key)]
  }

  /** One fetched notice: nothing if its payload is stored already; otherwise its row, untouched, and the job that
      normalises it.  It raises only when an id is already in use. */
  lemma FetchStepExact(raws: Raws, jobs: Table, source: Source, raw: RawNotice, ids: Ids, now: int)
    ensures var key := "notice.normalize:" + ids.raw + ":1";
            match FetchFrom(source, now)(raws, jobs, raw, ids)
            case Err(e) =>
              && !Recorded(raws, source, raw)
              && (if ids.raw in raws then e == DuplicateRaw(ids.raw)
                  else !HasKey(jobs, key) && ids.job in jobs && e == QueueRaises(DuplicateId(ids.job)))
            case Ok(p) =>
              if Recorded(raws, source, raw) then p == Progress(raws, jobs, 0)
              else
                && ids.raw !in raws && p.stored == 1
                && p.raws == raws[ids.raw := RawRow(source.id, source.code, raw.externalId, raw.payload,
                                                    match raw.contentHash case Some(hash) => hash case None => "")]
                && AddsJob(jobs, p.jobs, ids.job, "notice.normalize", ids.raw, key, now)
  {
    StoredExact(raws, source, raw);
    KeyExact(jobs, "notice.normalize", ids.raw, "1");
    assert "notice.normalize" + ":" + ids.raw + ":" + "1" == "notice.normalize:" + ids.raw + ":1";
  }

  lemma StoredExact(raws: Raws, source: Source, raw: RawNotice)
    ensures AlreadyStored(raws, source, raw) <==> Recorded(raws, source, raw)
  {
    if Recorded(raws, source, raw) {
      var r :| r in raws && raws[r].sourceId == source.id && raws[r].externalId == raw.externalId
               && raws[r].contentHash == (match raw.contentHash case Some(hash) => hash case None => "");
      assert SamePayload(raws[r], source, raw);
    }
  }

  lemma KeyExact(jobs: Table, kind: string, entity: string, version: string)
    ensures IdempotencyKey(kind, entity, version) == kind + ":" + entity + ":" + version
    ensures KeyTaken(jobs, IdempotencyKey(kind, entity, version)) <==> HasKey(jobs, kind + ":" + entity + ":" + version)
  {
  }

  /** The jobs of one normalisation: the clustering, under the version 1; and for an amendment the notification, under
      the version that the adapter states. */
  lemma NormalizeJobsExact(jobs: Table, id: NoticeId, amended: bool, version: string, dedupeJob: JobId,
                           notifyJob: JobId, now: int)
    requires NormalizeJobs(jobs, id, amended, version, dedupeJob, notifyJob, now).Ok?
    ensures var after := NormalizeJobs(jobs, id, amended, version, dedupeJob, notifyJob, now).value;
            exists between ::
              && AddsJob(jobs, between, dedupeJob, "notice.dedupe", id, "notice.dedupe:" + id + ":1", now)
              && (if amended
                  then AddsJob(between, after, notifyJob, "notify.send", id, "notify.send:" + id + ":" + version, now)
                  else after == between)
  {
    KeyExact(jobs, "notice.dedupe", id, "1");
    var between := Enqueued(jobs, dedupeJob, DEDUPE, id, id, DEFAULT_VERSION, now, DEFAULT_MAX_ATTEMPTS).value.0;
    KeyExact(between, "notify.send", id, version);
    assert "notice.dedupe" + ":" + id + ":" + "1" == "notice.dedupe:" + id + ":1";
    assert "notify.send" + ":" + id + ":" + version == "notify.send:" + id + ":" + version;
    assert AddsJob(jobs, between, dedupeJob, "notice.dedupe", id, "notice.dedupe:" + id + ":1", now);
  }

  // ---------------------------------------------------------------- the tables, updated in place

  class Database {
    var raws: Raws
    var jobs: Table
    var notices: Notices
    var versions: Versions

    constructor ()
      ensures Value() == Store(map[], map[], map[], map[])
    {
      raws, jobs, notices, versions := map[], map[], map[], map[];
    }

    function Value(): Store
      reads this
    {
      Store(raws, jobs, notices, versions)
    }

    /** `feed` is what the adapter yields; the transaction's own view is written back when it commits. */
    method RunSourceFetch(source: Source, feed: seq<RawNotice>, limit: Option<int>, ids: seq<Ids>, now: int)
      returns (r: Result<(nat, nat), Error>)
      requires |feed| <= |ids|
      modifies this
      ensures !source.enabled ==> r == Ok((0, 0)) && Value() == old(Value())
      ensures source.enabled ==>
                match FetchAll(FetchFrom(source, now), old(raws), old(jobs), Taken(feed, limit), ids)
                case Err(e) => r == Err(e) && Value() == old(Value())
                case Ok(p) => r == Ok((|Taken(feed, limit)|, p.stored))
                              && Value() == old(Value()).(raws := p.raws, jobs := p.jobs)
    {
      if !source.enabled {
        return Ok((0, 0));
      }
      var p, fetched;
      p, fetched := FetchUntil(FetchFrom(source, now), raws, jobs, feed, limit, ids);
      match p
      case Err(e) =>
        r := Err(e);
      case Ok(progress) =>
        raws, jobs := progress.raws, progress.jobs;
        r := Ok((fetched, progress.stored));
    }

    method UpsertNotice(id: NoticeId, canonical: Canonical, hash: string) returns (amended: bool)
      modifies this`notices, this`versions
      ensures amended == Amends(Lookup(old(notices), id), hash)
      ensures notices == old(notices)[id := Upserted(Lookup(old(notices), id), canonical, hash)]
      ensures versions == VersionsAfter(old(versions), id, Lookup(old(notices), id), hash)
    {
      var previousHash, version := "", 1;
      if id in notices {
        previousHash, version := notices[id].hash, notices[id].version;
      }
      amended := previousHash != "" && hash != "" && previousHash != hash;
      if amended {
        version := version + 1;
      }
      notices := notices[id := Notice(if amended then Amended else canonical.status, version, hash, canonical.content)];
      if amended && (id, version) !in versions {
        versions := versions[(id, version) := Diff(previousHash, hash)];
      }
    }

    method RunNormalize(m: Mapping, rawId: RawId, dedupeJob: JobId, notifyJob: JobId, now: int)
      returns (r: Result<(NoticeId, bool), Error>)
      modifies this
      ensures match Normalized(old(Value()), m, rawId, dedupeJob, notifyJob, now)
              case Err(e) => r == Err(e) && Value() == old(Value())
              case Ok(s) =>
                && Value() == s
                && var id := NoticeIdOf(m, old(raws)[rawId]);
                   r == Ok((id, Amends(Lookup(old(notices), id), old(raws)[rawId].contentHash)))
      ensures r.Err? ==> Value() == old(Value())
      ensures r.Ok? ==>
                && rawId in old(raws) && raws == old(raws)
                && var raw := old(raws)[rawId];
                   var id, hash := m.noticeId(m.normalize(raw).source, m.normalize(raw).externalId), raw.contentHash;
                   var amended := id in old(notices) && old(notices)[id].hash !in {"", hash} && hash != "";
                   && r.value == (id, amended)
                   && notices == old(notices)[id := Notice(if amended then Amended else m.normalize(raw).status,
                                                           if id !in old(notices) then 1
                                                           else old(notices)[id].version + if amended then 1 else 0,
                                                           hash, m.normalize(raw).content)]
                   && versions == if amended && (id, old(notices)[id].version + 1) !in old(versions)
                                  then old(versions)[(id, old(notices)[id].version + 1) :=
                                                       Diff(old(notices)[id].hash, hash)]
                                  else old(versions)
    {
      if rawId !in raws {
        return Err(RawNotFound(rawId));
      }
      var raw := raws[rawId];
      var canonical := m.normalize(raw);
      var id := m.noticeId(canonical.source, canonical.externalId);
      match NormalizeJobs(jobs, id, Amends(Lookup(notices, id), raw.contentHash), canonical.version, dedupeJob,
                          notifyJob, now)
      case Err(e) =>
        r := Err(QueueRaises(e));
      case Ok(jobs') =>
        var amended := UpsertNotice(id, canonical, raw.contentHash);
        jobs := jobs';
        r := Ok((id, amended));
    }
  }
}
