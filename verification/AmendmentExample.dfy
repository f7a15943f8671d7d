/** A run in which a second amendment enqueues nothing and a repeat takes back a status (pipeline.py). */
module AmendmentExample {
  import opened Common
  import opened JobQueue
  import opened Pipeline
  import opened PipelineRuns

  const SOURCE := Source("src", "boamp", true)

  /** An adapter that leaves the version at its default, and the plainest row ids. */
  function Plain(): Mapping {
    Mapping((raw: RawRow) => Canonical(raw.sourceCode, raw.externalId, Other("open"), DEFAULT_VERSION, raw.payload),
            (source: string, externalId: string) => "ntc")
  }

  function Notice(hash: string): RawNotice {
    RawNotice("2026-1", "payload", Some(hash))
  }

  function FetchOf(hash: string, rawId: RawId, job: JobId): Step {
    Fetch(SOURCE, [Notice(hash)], None, [Ids(rawId, job)], 0)
  }

  lemma {:induction false} ExtendRun(w: World, steps: seq<Step>, s: Step)
    requires Run(w, steps) && Enabled(Final(w, steps), s)
    ensures Run(w, steps + [s]) && Final(w, steps + [s]) == Apply(Final(w, steps), s)
    decreases |steps|
  {
    if steps == [] {
      assert steps + [s] == [s] && [s][1..] == [];
    } else {
      assert (steps + [s])[1..] == steps[1..] + [s];
      ExtendRun(Apply(w, steps[0]), steps[1..], s);
    }
  }

  lemma Advance(steps: seq<Step>, w: World, s: Step) returns (steps': seq<Step>, w': World)
    requires Run(BEGIN, steps) && w == Final(BEGIN, steps) && Enabled(w, s)
    ensures Run(BEGIN, steps') && w' == Final(BEGIN, steps') && w' == Apply(w, s)
  {
    ExtendRun(BEGIN, steps, s);
    steps', w' := steps + [s], Apply(w, s);
  }

  /** What a run leaves free. */
  lemma KeyIsFree(steps: seq<Step>, rawId: RawId)
    requires Run(BEGIN, steps) && rawId !in Final(BEGIN, steps).store.raws
    ensures !KeyTaken(Final(BEGIN, steps).store.jobs, NormalizeKey(rawId))
  {
    var s := Final(BEGIN, steps).store;
    OutboxAlways(BEGIN, steps);
    FreshRowKeyIsFree(s.raws, s.jobs, rawId);
  }

  lemma FetchOneAdds(raws: Raws, jobs: Table, hash: string, ids: Ids)
    requires ids.raw !in raws && ids.job !in jobs && !KeyTaken(jobs, NormalizeKey(ids.raw))
    requires forall r :: r in raws ==> raws[r].contentHash != hash
    ensures var p := FetchOne(raws, jobs, SOURCE, Notice(hash), ids, 0);
            && p.Ok? && p.value.raws == raws[ids.raw := RowOf(SOURCE, Notice(hash))]
            && p.value.jobs.Keys == jobs.Keys + {ids.job}
  {
    KindsAreKnown();
    assert !AlreadyStored(raws, SOURCE, Notice(hash));
  }

  lemma KindsAreKnown()
    ensures NORMALIZE in JOB_KINDS && DEDUPE in JOB_KINDS && NOTIFY in JOB_KINDS
  {
  }

  lemma FetchAllOfOne(one: FetchStep, raws: Raws, jobs: Table, raw: RawNotice, ids: Ids)
    requires one(raws, jobs, raw, ids).Ok?
    ensures var p := FetchAll(one, raws, jobs, [raw], [ids]);
            && p.Ok? && p.value.raws == one(raws, jobs, raw, ids).value.raws
            && p.value.jobs == one(raws, jobs, raw, ids).value.jobs
  {
    var first := one(raws, jobs, raw, ids).value;
    assert [raw][1..] == [] && [ids][1..] == [];
    assert FetchAll(one, first.raws, first.jobs, [], []) == Ok(Progress(first.raws, first.jobs, 0));
  }

  /** A fetch of one new version of the notice. */
  lemma FetchAdds(w: World, hash: string, rawId: RawId, job: JobId)
    requires rawId !in w.store.raws && job !in w.store.jobs && !KeyTaken(w.store.jobs, NormalizeKey(rawId))
    requires forall r :: r in w.store.raws ==> w.store.raws[r].contentHash != hash
    ensures var w' := Apply(w, FetchOf(hash, rawId, job));
            && w'.store.raws == w.store.raws[rawId := RowOf(SOURCE, Notice(hash))]
            && w'.store.jobs.Keys == w.store.jobs.Keys + {job} && w'.store.notices == w.store.notices
  {
    FetchOneAdds(w.store.raws, w.store.jobs, hash, Ids(rawId, job));
    FetchAllOfOne(FetchFrom(SOURCE, 0), w.store.raws, w.store.jobs, Notice(hash), Ids(rawId, job));
    assert Taken([Notice(hash)], None) == [Notice(hash)];
  }

  /** The content hashes of the stored rows. */
  function Hashes(w: World): map<RawId, string> {
    map r | r in w.store.raws :: w.store.raws[r].contentHash
  }

  /** A run from the beginning that ends in `w`. */
  ghost predicate Reached(steps: seq<Step>, w: World) {
    Run(BEGIN, steps) && w == Final(BEGIN, steps)
  }

  lemma FetchNext(steps: seq<Step>, w: World, hash: string, rawId: RawId, job: JobId)
    returns (steps': seq<Step>, w': World)
    requires Reached(steps, w) && rawId !in Hashes(w) && job !in w.store.jobs
    requires forall r :: r in Hashes(w) ==> Hashes(w)[r] != hash
    ensures Reached(steps', w') && Hashes(w') == Hashes(w)[rawId := hash]
    ensures w'.store.jobs.Keys == w.store.jobs.Keys + {job} && w'.store.notices == w.store.notices
  {
    assert forall r :: r in w.store.raws ==> r in Hashes(w) && Hashes(w)[r] == w.store.raws[r].contentHash;
    KeyIsFree(steps, rawId);
    FetchAdds(w, hash, rawId, job);
    steps', w' := Advance(steps, w, FetchOf(hash, rawId, job));
  }

  function NormalizeOf(rawId: RawId, dedupeJob: JobId, notifyJob: JobId): Step {
    Normalize(Plain(), rawId, dedupeJob, notifyJob, 0)
  }

  lemma NormalizeCommits(w: World, rawId: RawId, dedupeJob: JobId, notifyJob: JobId)
    requires rawId in w.store.raws && dedupeJob !in w.store.jobs && notifyJob !in w.store.jobs
    requires dedupeJob != notifyJob
    ensures Normalized(w.store, Plain(), rawId, dedupeJob, notifyJob, 0).Ok?
    ensures var w' := Apply(w, NormalizeOf(rawId, dedupeJob, notifyJob));
            var raw := w.store.raws[rawId];
            && w'.store.raws == w.store.raws
            && w'.store.jobs.Keys <= w.store.jobs.Keys + {dedupeJob, notifyJob}
            && "ntc" in w'.store.notices
            && w'.store.notices["ntc"] ==
               Upserted(Lookup(w.store.notices, "ntc"), Plain().normalize(raw), raw.contentHash)
  {
  }

  lemma NormalizeNext(steps: seq<Step>, w: World, rawId: RawId, dedupeJob: JobId, notifyJob: JobId)
    returns (steps': seq<Step>, w': World)
    requires Reached(steps, w) && dedupeJob !in w.store.jobs && notifyJob !in w.store.jobs && dedupeJob != notifyJob
    requires rawId in Hashes(w)
    ensures Reached(steps', w') && Hashes(w') == Hashes(w)
    ensures w'.store.jobs.Keys <= w.store.jobs.Keys + {dedupeJob, notifyJob}
    ensures "ntc" in w'.store.notices
    ensures IsUpsert(Lookup(w.store.notices, "ntc"), Hashes(w)[rawId], w'.store.notices["ntc"])
    ensures KeyTaken(w'.store.jobs, IdempotencyKey(DEDUPE, "ntc", DEFAULT_VERSION))
    ensures Amends(Lookup(w.store.notices, "ntc"), Hashes(w)[rawId]) ==>
              KeyTaken(w'.store.jobs, NotifyKey("ntc", DEFAULT_VERSION))
  {
    NormalizeCommits(w, rawId, dedupeJob, notifyJob);
    NormalizeTakesKeys(w.store, Plain(), rawId, dedupeJob, notifyJob, 0);
    steps', w' := Advance(steps, w, NormalizeOf(rawId, dedupeJob, notifyJob));
  }

  /** What upserting a row with this hash leaves, whatever its payload. */
  predicate IsUpsert(existing: Option<Notice>, hash: string, after: Notice) {
    && after.hash == hash
    && after.status == (if Amends(existing, hash) then Amended else Other("open"))
    && after.version == (if existing.None? then 1 else existing.value.version + if Amends(existing, hash) then 1 else 0)
  }

  lemma ThreeFetched() returns (steps: seq<Step>, w: World)
    ensures Reached(steps, w) && w.store.notices == map[]
    ensures Hashes(w) == map["1" := "a", "22" := "bb", "333" := "ccc"] && w.store.jobs.Keys == {"1", "22", "333"}
  {
    steps, w := [], BEGIN;
    steps, w := FetchNext(steps, w, "a", "1", "1");
    assert Hashes(w) == map["1" := "a"];
    steps, w := FetchNext(steps, w, "bb", "22", "22");
    assert Hashes(w) == map["1" := "a", "22" := "bb"];
    steps, w := FetchNext(steps, w, "ccc", "333", "333");
  }

  /** Three versions of a notice fetched and the first two normalised: it has been amended once. */
  lemma AmendedOnce() returns (steps: seq<Step>, w: World)
    ensures Reached(steps, w) && Hashes(w) == map["1" := "a", "22" := "bb", "333" := "ccc"]
    ensures "ntc" in w.store.notices && w.store.notices["ntc"].status == Amended
    ensures w.store.notices["ntc"].version == 2 && w.store.notices["ntc"].hash == "bb"
    ensures w.store.jobs.Keys <= {"1", "22", "333", "d1", "n1", "d22", "n22"}
    ensures KeyTaken(w.store.jobs, NotifyKey("ntc", DEFAULT_VERSION))
    ensures KeyTaken(w.store.jobs, IdempotencyKey(DEDUPE, "ntc", DEFAULT_VERSION))
  {
    steps, w := ThreeFetched();
    steps, w := NormalizeNext(steps, w, "1", "d1", "n1");
    assert w.store.notices["ntc"].hash == "a" && "a" != "bb";
    steps, w := NormalizeNext(steps, w, "22", "d22", "n22");
  }

  /** A normalisation that finds its keys taken enqueues nothing. */
  lemma NothingEnqueued(w: World, rawId: RawId)
    requires rawId in w.store.raws
    requires KeyTaken(w.store.jobs, NotifyKey("ntc", DEFAULT_VERSION))
    requires KeyTaken(w.store.jobs, IdempotencyKey(DEDUPE, "ntc", DEFAULT_VERSION))
    ensures Apply(w, NormalizeOf(rawId, "d333", "n333")).store.jobs == w.store.jobs
  {
    KindsAreKnown();
  }

  /** One more normalisation of the amended notice. */
  lemma OneMore(rawId: RawId) returns (steps: seq<Step>, w: World, s: Step)
    requires rawId == "22" || rawId == "333"
    ensures Run(BEGIN, steps) && w == Final(BEGIN, steps) && Enabled(w, s) && s.Normalize?
    ensures "ntc" in w.store.notices && "ntc" in Apply(w, s).store.notices && Apply(w, s).store.jobs == w.store.jobs
    ensures w.store.notices["ntc"].status == Amended && w.store.notices["ntc"].version == 2
    ensures w.store.notices["ntc"].hash == "bb"
    ensures IsUpsert(Some(w.store.notices["ntc"]), if rawId == "22" then "bb" else "ccc",
                     Apply(w, s).store.notices["ntc"])
  {
    steps, w := AmendedOnce();
    s := NormalizeOf(rawId, "d333", "n333");
    assert rawId in Hashes(w) && Hashes(w)[rawId] == if rawId == "22" then "bb" else "ccc";
    NormalizeCommits(w, rawId, "d333", "n333");
    NothingEnqueued(w, rawId);
  }

  /** The second amendment of a notice whose adapter leaves the version at its default enqueues nothing. */
  lemma SecondAmendmentIsSilent()
    ensures exists steps, later ::
              && Run(BEGIN, steps) && Enabled(Final(BEGIN, steps), later)
              && var s, t := Final(BEGIN, steps).store, Apply(Final(BEGIN, steps), later).store;
              && "ntc" in s.notices && "ntc" in t.notices
              && s.notices["ntc"].version == 2 && t.notices["ntc"].version == 3 && t.notices["ntc"].status == Amended
              && t.jobs == s.jobs
  {
    var steps, w, later := OneMore("333");
    assert Run(BEGIN, steps) && Enabled(Final(BEGIN, steps), later);
  }

  /** Normalising the amending row again takes back the status. */
  lemma RepeatTakesBackAmended()
    ensures exists steps, again ::
              && Run(BEGIN, steps) && Enabled(Final(BEGIN, steps), again)
              && var s, t := Final(BEGIN, steps).store, Apply(Final(BEGIN, steps), again).store;
              && "ntc" in s.notices && "ntc" in t.notices
              && s.notices["ntc"].status == Amended && t.notices["ntc"].status == Other("open")
              && s.notices["ntc"].version == t.notices["ntc"].version && t.jobs == s.jobs
  {
    var steps, w, again := OneMore("22");
    assert Run(BEGIN, steps) && Enabled(Final(BEGIN, steps), again);
  }
}
