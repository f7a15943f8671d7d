/**
 Normalisations of several workers at once (pipeline.py).

 `upsert_notice` reads the notice without locking it, and what it computed from that read becomes visible when its
 transaction commits; other normalisations of the same notice may commit in between.  The row lock that the write takes
 makes them commit one after the other, so reading and committing are two steps.
 */
module UpsertRuns {
  import opened Common
  import opened Pipeline
  import PR = PipelineRuns

  type Worker = string

  /** A normalisation under way, with the notice as it read it. */
  datatype Upserting = Upserting(id: NoticeId, canonical: Canonical, hash: string, existing: Option<Notice>)

  datatype World = World(notices: Notices, versions: Versions, underway: map<Worker, Upserting>, log: seq<PR.Upsert>)

  datatype Step =
    | Read(worker: Worker, id: NoticeId, canonical: Canonical, hash: string)
    | Commit(worker: Worker)
    | Lose(worker: Worker)

  predicate Enabled(w: World, s: Step) {
    match s
    case Read(k, _, _, _) => k !in w.underway
    case Commit(k) => k in w.underway
    case Lose(k) => k in w.underway
  }

  function Apply(w: World, s: Step): World
    requires Enabled(w, s)
  {
    match s
    case Read(k, id, canonical, hash) =>
      w.(underway := w.underway[k := Upserting(id, canonical, hash, Lookup(w.notices, id))])
    case Commit(k) =>
      var u := w.underway[k];
      World(w.notices[u.id := Upserted(u.existing, u.canonical, u.hash)],
            VersionsAfter(w.versions, u.id, u.existing, u.hash), w.underway - {k},
            w.log + [PR.Upsert(u.id, u.hash, u.canonical.version, Amends(u.existing, u.hash))])
    case Lose(k) => w.(underway := w.underway - {k})
  }

  ghost predicate Run(w: World, steps: seq<Step>)
    decreases |steps|
  {
    steps == [] || (Enabled(w, steps[0]) && Run(Apply(w, steps[0]), steps[1..]))
  }

  function Final(w: World, steps: seq<Step>): World
    requires Run(w, steps)
    decreases |steps|
  {
    if steps == [] then w else Final(Apply(w, steps[0]), steps[1..])
  }

  const BEGIN := World(map[], map[], map[], [])

  /** A normalisation that nothing interrupts does to notices and versions what `Normalized` says. */
  lemma WholeUpsertIsNormalize(w: World, k: Worker, s: Store, m: Mapping, rawId: RawId, dedupeJob: string,
                               notifyJob: string, now: int)
    requires k !in w.underway && s.notices == w.notices && s.versions == w.versions
    requires Normalized(s, m, rawId, dedupeJob, notifyJob, now).Ok?
    ensures var t := Normalized(s, m, rawId, dedupeJob, notifyJob, now).value;
            var raw := s.raws[rawId];
            var w' := Apply(Apply(w, Read(k, NoticeIdOf(m, raw), m.normalize(raw), raw.contentHash)), Commit(k));
            w'.notices == t.notices && w'.versions == t.versions && w'.underway == w.underway
            && w'.log == w.log + [PR.UpsertOf(s, m, raw)]
  {
  }

  /** A normalisation that is lost leaves notices and versions as they were, and running it again makes up for it. */
  lemma LostUpsertIsMadeUp(w: World, k: Worker, s: Store, m: Mapping, rawId: RawId, dedupeJob: string,
                           notifyJob: string, now: int)
    requires k in w.underway && s.notices == w.notices && s.versions == w.versions
    requires Normalized(s, m, rawId, dedupeJob, notifyJob, now).Ok?
    ensures Enabled(w, Lose(k)) && Apply(w, Lose(k)) == w.(underway := w.underway - {k})
    ensures var t, raw := Normalized(s, m, rawId, dedupeJob, notifyJob, now).value, s.raws[rawId];
            var w' := w.(underway := w.underway - {k});
            var w'' := Apply(Apply(w', Read(k, NoticeIdOf(m, raw), m.normalize(raw), raw.contentHash)), Commit(k));
            w''.notices == t.notices && w''.versions == t.versions
  {
    WholeUpsertIsNormalize(w.(underway := w.underway - {k}), k, s, m, rawId, dedupeJob, notifyJob, now);
  }

  // ---------------------------------------------------------------- when the count stays right

  function Tables(w: World): Store {
    Store(map[], map[], w.notices, w.versions)
  }

  /** Versions count the changes between consecutive hashes, in the order of the commits. */
  ghost predicate HistoryTold(w: World) {
    forall id :: PR.TellsHistory(Tables(w), id, PR.HashesOf(w.log, id))
  }

  ghost predicate SnapshotsKnown(w: World) {
    && (forall id :: id in w.notices ==> w.notices[id].version >= 1)
    && (forall k :: k in w.underway && w.underway[k].existing.Some? ==>
          w.underway[k].id in w.notices && w.underway[k].existing.value.version >= 1)
  }

  lemma StepKeepsSnapshots(w: World, s: Step)
    requires SnapshotsKnown(w) && Enabled(w, s)
    ensures SnapshotsKnown(Apply(w, s))
  {
  }

  function NextVersion(existing: Option<Notice>, hash: string): nat {
    if existing.None? then 1 else existing.value.version + if Amends(existing, hash) then 1 else 0
  }

  /** What was read leads to the version that the notice as it is now calls for; and a change of hash that is due a
      version row is the change that was read. */
  predicate UpToDate(existing: Option<Notice>, current: Option<Notice>, hash: string) {
    && NextVersion(existing, hash) == NextVersion(current, hash)
    && (Amends(current, hash) ==> Amends(existing, hash) && existing.value.hash == current.value.hash)
  }

  predicate CommitsUpToDate(w: World, s: Step)
    requires Enabled(w, s)
  {
    s.Commit? ==>
      var u := w.underway[s.worker];
      UpToDate(u.existing, Lookup(w.notices, u.id), u.hash)
  }

  lemma HashesAfter(w: World, k: Worker, id: NoticeId)
    requires k in w.underway
    ensures PR.HashesOf(Apply(w, Commit(k)).log, id) ==
            PR.HashesOf(w.log, id) + if id == w.underway[k].id then [w.underway[k].hash] else []
  {
    var log := Apply(w, Commit(k)).log;
    assert log[..|log| - 1] == w.log;
  }

  /** Only the notice that was upserted is in question. */
  lemma OthersKeepHistory(w: World, k: Worker, other: NoticeId)
    requires k in w.underway && other != w.underway[k].id
    requires PR.TellsHistory(Tables(w), other, PR.HashesOf(w.log, other))
    ensures PR.TellsHistory(Tables(Apply(w, Commit(k))), other, PR.HashesOf(Apply(w, Commit(k)).log, other))
  {
    HashesAfter(w, k, other);
    assert PR.HashesOf(Apply(w, Commit(k)).log, other) == PR.HashesOf(w.log, other);
  }

  /** The tables as a commit should leave them. */
  function Intended(w: World, u: Upserting): Store {
    var current := Lookup(w.notices, u.id);
    Store(map[], map[], w.notices[u.id := Upserted(current, u.canonical, u.hash)],
          VersionsAfter(w.versions, u.id, current, u.hash))
  }

  lemma UpToDateIsIntended(w: World, k: Worker)
    requires SnapshotsKnown(w) && k in w.underway
    requires var u := w.underway[k];
             && PR.TellsHistory(Tables(w), u.id, PR.HashesOf(w.log, u.id))
             && UpToDate(u.existing, Lookup(w.notices, u.id), u.hash)
    ensures var u, w' := w.underway[k], Apply(w, Commit(k));
            && w'.versions == Intended(w, u).versions
            && w'.notices[u.id].version == Intended(w, u).notices[u.id].version
  {
    var u := w.underway[k];
    var current := Lookup(w.notices, u.id);
    if Amends(u.existing, u.hash) && !Amends(current, u.hash) {
      assert (u.id, current.value.version) in w.versions;
    }
  }

  lemma StaleIsNot(w: World, k: Worker)
    requires k in w.underway
    requires var u, w' := w.underway[k], Apply(w, Commit(k));
             && PR.TellsHistory(Tables(w), u.id, PR.HashesOf(w.log, u.id))
             && PR.TellsHistory(Intended(w, u), u.id, PR.HashesOf(w'.log, u.id))
             && PR.TellsHistory(Tables(w'), u.id, PR.HashesOf(w'.log, u.id))
    ensures var u := w.underway[k]; UpToDate(u.existing, Lookup(w.notices, u.id), u.hash)
  {
    var u, w' := w.underway[k], Apply(w, Commit(k));
    var current := Lookup(w.notices, u.id);
    if Amends(current, u.hash) {
      var next := (u.id, current.value.version + 1);
      assert next !in w.versions && next in Intended(w, u).versions && next in w'.versions;
      assert w'.versions[next] == Intended(w, u).versions[next] == Diff(current.value.hash, u.hash);
    }
  }

  /** A commit keeps the history told exactly if it is up to date. */
  lemma CommitExact(w: World, k: Worker)
    requires HistoryTold(w) && SnapshotsKnown(w) && k in w.underway
    ensures HistoryTold(Apply(w, Commit(k))) <==> CommitsUpToDate(w, Commit(k))
  {
    var u, w' := w.underway[k], Apply(w, Commit(k));
    HashesAfter(w, k, u.id);
    PR.UpsertTellsHistory(Tables(w), u.id, u.canonical, u.hash, PR.HashesOf(w.log, u.id), Intended(w, u));
    if HistoryTold(w') {
      StaleIsNot(w, k);
    } else if CommitsUpToDate(w, Commit(k)) {
      UpToDateIsIntended(w, k);
      forall id ensures PR.TellsHistory(Tables(w'), id, PR.HashesOf(w'.log, id)) {
        if id != u.id { OthersKeepHistory(w, k, id); }
      }
    }
  }

  ghost predicate AllUpToDate(w: World, steps: seq<Step>)
    requires Run(w, steps)
    decreases |steps|
  {
    steps == [] || (CommitsUpToDate(w, steps[0]) && AllUpToDate(Apply(w, steps[0]), steps[1..]))
  }

  lemma {:induction false} UpToDateRunTells(w: World, steps: seq<Step>)
    requires HistoryTold(w) && SnapshotsKnown(w) && Run(w, steps) && AllUpToDate(w, steps)
    ensures HistoryTold(Final(w, steps)) && SnapshotsKnown(Final(w, steps))
    decreases |steps|
  {
    if steps != [] {
      StepKeepsSnapshots(w, steps[0]);
      if steps[0].Commit? { CommitExact(w, steps[0].worker); }
      UpToDateRunTells(Apply(w, steps[0]), steps[1..]);
    }
  }

  /** After any run whose commits were up to date the versions count the changes; and after one step more they still do
      exactly if that step, should it be a commit, is up to date as well. */
  lemma CountExact(steps: seq<Step>, s: Step)
    requires Run(BEGIN, steps) && AllUpToDate(BEGIN, steps) && Enabled(Final(BEGIN, steps), s)
    ensures HistoryTold(Final(BEGIN, steps))
    ensures HistoryTold(Apply(Final(BEGIN, steps), s)) <==> CommitsUpToDate(Final(BEGIN, steps), s)
  {
    BeginTells();
    UpToDateRunTells(BEGIN, steps);
    if s.Commit? { CommitExact(Final(BEGIN, steps), s.worker); }
  }

  lemma BeginTells()
    ensures HistoryTold(BEGIN) && SnapshotsKnown(BEGIN)
  {
    forall id ensures PR.TellsHistory(Tables(BEGIN), id, PR.HashesOf(BEGIN.log, id)) {
      assert PR.HashesOf([], id) == [] && PR.Changes([]) == [];
    }
  }

  /** No notice is read while another normalisation of it is under way. */
  ghost predicate OneAtATime(w: World, steps: seq<Step>)
    requires Run(w, steps)
    decreases |steps|
  {
    steps == [] ||
    (&& (steps[0].Read? ==> forall l :: l in w.underway ==> w.underway[l].id != steps[0].id)
     && OneAtATime(Apply(w, steps[0]), steps[1..]))
  }

  ghost predicate ReadsCurrent(w: World) {
    && (forall k :: k in w.underway ==> w.underway[k].existing == Lookup(w.notices, w.underway[k].id))
    && (forall k, l :: k in w.underway && l in w.underway && k != l ==> w.underway[k].id != w.underway[l].id)
  }

  lemma {:induction false} OneAtATimeIsUpToDate(w: World, steps: seq<Step>)
    requires ReadsCurrent(w) && Run(w, steps) && OneAtATime(w, steps)
    ensures AllUpToDate(w, steps)
    decreases |steps|
  {
    if steps != [] { OneAtATimeIsUpToDate(Apply(w, steps[0]), steps[1..]); }
  }

  /** As long as the normalisations of each notice follow one another, the versions count its changes. */
  lemma OneAtATimeCounts(steps: seq<Step>)
    requires Run(BEGIN, steps) && OneAtATime(BEGIN, steps)
    ensures HistoryTold(Final(BEGIN, steps))
  {
    BeginTells();
    OneAtATimeIsUpToDate(BEGIN, steps);
    UpToDateRunTells(BEGIN, steps);
  }

  // ---------------------------------------------------------------- runs in which it goes wrong

  const OPEN := Canonical("boamp", "2026-1", Other("open"), DEFAULT_VERSION, "content")

  function ReadOf(k: Worker, hash: string): Step {
    Read(k, "ntc", OPEN, hash)
  }

  /** Two new versions of a notice are normalised together. */
  const LOST_VERSION: seq<Step> := [
    ReadOf("a", "v"), Commit("a"), ReadOf("a", "vv"), ReadOf("b", "vvv"), Commit("a"), Commit("b")]

  /** An old row is normalised again while a new one is. */
  const FALLS_BACK: seq<Step> := [
    ReadOf("a", "v"), Commit("a"), ReadOf("a", "vv"), ReadOf("b", "v"), Commit("a"), Commit("b")]

  /** A run from the beginning that ends in `w`. */
  ghost predicate Reaches(steps: seq<Step>, w: World) {
    Run(BEGIN, steps) && w == Final(BEGIN, steps)
  }

  lemma {:induction false} ExtendRun(w: World, steps: seq<Step>, s: Step)
    requires Run(w, steps) && Enabled(Final(w, steps), s)
    ensures Run(w, steps + [s]) && Final(w, steps + [s]) == Apply(Final(w, steps), s)
    decreases |steps|
  {
    if steps == [] {
      assert steps + [s] == [s] && [s][1..] == [];
    } else {
      assert (steps + [s])[1..] == steps[1..] + [s];
      ExtendRun(Apply(w, steps[0]), steps[1..], s);
    }
  }

  lemma Advance(steps: seq<Step>, w: World, s: Step) returns (steps': seq<Step>, w': World)
    requires Reaches(steps, w) && Enabled(w, s)
    ensures Reaches(steps', w') && steps' == steps + [s] && w' == Apply(w, s)
  {
    ExtendRun(BEGIN, steps, s);
    steps', w' := steps + [s], Apply(w, s);
  }

  /** Worker `a` brings the notice from hash `v` to `vv`, while `b` has read it at `v` for a row with hash `hash`. */
  lemma BothRead(hash: string) returns (steps: seq<Step>, w: World)
    ensures steps == [ReadOf("a", "v"), Commit("a"), ReadOf("a", "vv"), ReadOf("b", hash), Commit("a")]
    ensures Reaches(steps, w) && w.versions == map[("ntc", 2) := Diff("v", "vv")]
    ensures "ntc" in w.notices && w.notices["ntc"].version == 2 && w.notices["ntc"].hash == "vv"
    ensures "b" in w.underway
    ensures w.underway["b"] == Upserting("ntc", OPEN, hash, Some(Notice(Other("open"), 1, "v", "content")))
  {
    assert "v" != "vv";
    steps, w := [], BEGIN;
    steps, w := Advance(steps, w, ReadOf("a", "v"));
    steps, w := Advance(steps, w, Commit("a"));
    assert w.notices == map["ntc" := Notice(Other("open"), 1, "v", "content")] && w.versions == map[];
    steps, w := Advance(steps, w, ReadOf("a", "vv"));
    steps, w := Advance(steps, w, ReadOf("b", hash));
    steps, w := Advance(steps, w, Commit("a"));
  }

  /** The hash has changed twice, but the version is 2 and the second change has no row. */
  lemma ConcurrentAmendmentsLoseAVersion()
    ensures Run(BEGIN, LOST_VERSION)
    ensures var w := Final(BEGIN, LOST_VERSION);
            && "ntc" in w.notices && w.notices["ntc"].hash == "vvv" && w.notices["ntc"].version == 2
            && w.versions == map[("ntc", 2) := Diff("v", "vv")]
  {
    assert "v" != "vvv";
    var steps, w := BothRead("vvv");
    steps, w := Advance(steps, w, Commit("b"));
    assert steps == LOST_VERSION;
  }

  /** The version goes from 2 back to 1, with a row for version 2 left over. */
  lemma StaleRepeatFallsBack()
    ensures Run(BEGIN, FALLS_BACK[..5]) && Run(BEGIN, FALLS_BACK)
    ensures var w, w' := Final(BEGIN, FALLS_BACK[..5]), Final(BEGIN, FALLS_BACK);
            && "ntc" in w.notices && w.notices["ntc"].version == 2
            && "ntc" in w'.notices && w'.notices["ntc"].version == 1 && w'.notices["ntc"].hash == "v"
            && ("ntc", 2) in w'.versions
  {
    var steps, w := BothRead("v");
    assert steps == FALLS_BACK[..5];
    steps, w := Advance(steps, w, Commit("b"));
    assert steps == FALLS_BACK;
  }
}
