/**
 Online first-fit clustering of notices (dedupe.py).

 How notices are compared and merged is a parameter, so the argument shows which laws of `same_tender`
 and `merge` the clustering rests on; the results are stated for the two functions of the source.
 */
module Clustering {
  import opened Common
  import opened OrderedUnion
  import opened NoticeMerge
  import opened TenderIdentity
  import opened TenderEvidence

  /** One entry of `merged_from`. */
  datatype Merged = Merged(source: string, externalId: string, reason: Option<Reason>, confidence: real)

  /** A cluster as a value; `members` is the history of what went into it, first notice first. */
  datatype Group = Group(clusterId: string, canonical: Notice, confidence: real, mergedFrom: seq<Merged>,
                         members: seq<Notice>)

  type Embeddings = map<string, Vector>

  datatype Rules = Rules(judge: (Notice, Notice) -> Verdict, merge: (Notice, Notice) -> Notice)

  /** Every notice has at least one source reference (a validator of the model). */
  predicate Sourced(n: Notice) {
    n.sourceRefs != []
  }

  function EmbeddingOf(embeddings: Embeddings, n: Notice): Vector {
    if Sourced(n) && RefKey(n.sourceRefs[0]) in embeddings then embeddings[RefKey(n.sourceRefs[0])] else []
  }

  /** `same_tender`, with embeddings looked up by first reference, and `merge`. */
  function SourceRules(env: Env, embeddings: Embeddings): Rules {
    Rules((l: Notice, r: Notice) => SameTender(env, l, r, EmbeddingOf(embeddings, l), EmbeddingOf(embeddings, r)),
          MERGE)
  }

  function Absorbed(rules: Rules, g: Group, notice: Notice, verdict: Verdict): Group
    requires Sourced(notice)
  {
    var weight := if verdict.confidence == 0.0 then 1.0 else verdict.confidence;
    Group(g.clusterId, rules.merge(g.canonical, notice), MinReal(g.confidence, weight),
          g.mergedFrom + [Merged(notice.sourceRefs[0].source, notice.sourceRefs[0].externalId, verdict.reason,
                                 verdict.confidence)],
          g.members + [notice])
  }

  /** `f"{prefix}_{count + 1:06d}"`. */
  function ClusterId(prefix: string, count: nat): string {
    prefix + "_" + Padded(count + 1, 6)
  }

  function Opened(prefix: string, count: nat, notice: Notice): Group {
    Group(ClusterId(prefix, count), notice, 1.0, [], [notice])
  }

  /** The first cluster whose canonical notice the verdict accepts takes the notice; otherwise it opens a new
      cluster, numbered after the `count` there are. */
  function Placed(rules: Rules, prefix: string, count: nat, groups: seq<Group>, notice: Notice): seq<Group>
    requires Sourced(notice)
  {
    if groups == [] then [Opened(prefix, count, notice)]
    else
      var verdict := rules.judge(groups[0].canonical, notice);
      if verdict.matched then [Absorbed(rules, groups[0], notice, verdict)] + groups[1..]
      else [groups[0]] + Placed(rules, prefix, count, groups[1..], notice)
  }

  ghost predicate SourcedNotices(notices: seq<Notice>) {
    forall n :: n in notices ==> Sourced(n)
  }

  function Clustered(rules: Rules, prefix: string, groups: seq<Group>, notices: seq<Notice>): seq<Group>
    requires SourcedNotices(notices)
    decreases |notices|
  {
    if notices == [] then groups
    else Clustered(rules, prefix, Placed(rules, prefix, |groups|, groups, notices[0]), notices[1..])
  }

  // ---------------------------------------------------------------- the clusters, updated in place

  class Cluster {
    const clusterId: string
    var canonical: Notice
    var confidence: real
    var mergedFrom: seq<Merged>
    ghost var members: seq<Notice>

    ghost function Value(): Group
      reads this
    {
      Group(clusterId, canonical, confidence, mergedFrom, members)
    }

    constructor (clusterId: string, canonical: Notice)
      ensures Value() == Group(clusterId, canonical, 1.0, [], [canonical])
    {
      this.clusterId, this.canonical, this.confidence, this.mergedFrom := clusterId, canonical, 1.0, [];
      this.members := [canonical];
    }

    method Absorb(rules: Rules, notice: Notice, verdict: Verdict)
      requires Sourced(notice)
      modifies this
      ensures Value() == Absorbed(rules, old(Value()), notice, verdict)
    {
      canonical := rules.merge(canonical, notice);
      mergedFrom := mergedFrom + [Merged(notice.sourceRefs[0].source, notice.sourceRefs[0].externalId, verdict.reason,
                                         verdict.confidence)];
      var weight := if verdict.confidence == 0.0 then 1.0 else verdict.confidence;
      confidence := if weight < confidence then weight else confidence;
      members := members + [notice];
    }
  }

  ghost predicate Shows(clusters: seq<Cluster>, groups: seq<Group>)
    reads clusters
  {
    && |clusters| == |groups|
    && (forall k :: 0 <= k < |clusters| ==> clusters[k].Value() == groups[k])
    && (forall k, l :: 0 <= k < l < |clusters| ==> clusters[k] != clusters[l])
  }

  /** Where the scan stops: the first match, or the end. */
  lemma {:induction false} PlacedAt(rules: Rules, prefix: string, count: nat, groups: seq<Group>, notice: Notice,
                                    k: nat)
    requires Sourced(notice) && k <= |groups|
    requires forall j :: 0 <= j < k ==> !rules.judge(groups[j].canonical, notice).matched
    requires k < |groups| ==> rules.judge(groups[k].canonical, notice).matched
    ensures Placed(rules, prefix, count, groups, notice) ==
            if k == |groups| then groups + [Opened(prefix, count, notice)]
            else groups[k := Absorbed(rules, groups[k], notice, rules.judge(groups[k].canonical, notice))]
  {
    if k > 0 {
      PlacedAt(rules, prefix, count, groups[1..], notice, k - 1);
      assert groups == [groups[0]] + groups[1..];
    }
  }

  /** The inner loop: scan the clusters in order and stop at the first match. */
  method FindFit(rules: Rules, clusters: seq<Cluster>, notice: Notice, ghost groups: seq<Group>)
    returns (k: nat, verdict: Verdict)
    requires Shows(clusters, groups)
    ensures k <= |groups| && forall j :: 0 <= j < k ==> !rules.judge(groups[j].canonical, notice).matched
    ensures k < |groups| ==> verdict == rules.judge(groups[k].canonical, notice) && verdict.matched
  {
    verdict := Verdict(false, None, 0.0, BlockedByType);
    k := 0;
    while k < |clusters|
      invariant k <= |groups| && forall j :: 0 <= j < k ==> !rules.judge(groups[j].canonical, notice).matched
    {
      assert clusters[k].Value() == groups[k];
      verdict := rules.judge(clusters[k].canonical, notice);
      if verdict.matched {
        return;
      }
      k := k + 1;
    }
  }

  method PlaceNotice(rules: Rules, prefix: string, clusters: seq<Cluster>, notice: Notice, ghost groups: seq<Group>)
    returns (after: seq<Cluster>)
    requires Sourced(notice) && Shows(clusters, groups)
    modifies clusters
    ensures Shows(after, Placed(rules, prefix, |groups|, groups, notice))
    ensures forall k :: 0 <= k < |after| ==> (k < |clusters| && after[k] == clusters[k]) || fresh(after[k])
  {
    var k, verdict := FindFit(rules, clusters, notice, groups);
    PlacedAt(rules, prefix, |groups|, groups, notice, k);
    if k < |clusters| {
      assert clusters[k].Value() == groups[k];
      clusters[k].Absorb(rules, notice, verdict);
      after := clusters;
    } else {
      var created := new Cluster(ClusterId(prefix, |clusters|), notice);
      after := clusters + [created];
    }
  }

  lemma ClusteredStep(rules: Rules, prefix: string, groups: seq<Group>, notices: seq<Notice>, i: nat)
    requires SourcedNotices(notices) && i < |notices|
    ensures Clustered(rules, prefix, groups, notices[i..]) ==
            Clustered(rules, prefix, Placed(rules, prefix, |groups|, groups, notices[i]), notices[i + 1..])
  {
  }

  method ClusterNotices(env: Env, embeddings: Embeddings, prefix: string, notices: seq<Notice>)
    returns (clusters: seq<Cluster>)
    requires SourcedNotices(notices)
    ensures Shows(clusters, Clustered(SourceRules(env, embeddings), prefix, [], notices))
    ensures forall c :: c in clusters ==> fresh(c)
  {
    clusters := ClusterAll(SourceRules(env, embeddings), prefix, notices);
  }

  /** The outer loop. */
  method ClusterAll(rules: Rules, prefix: string, notices: seq<Notice>) returns (clusters: seq<Cluster>)
    requires SourcedNotices(notices)
    ensures Shows(clusters, Clustered(rules, prefix, [], notices))
    ensures forall c :: c in clusters ==> fresh(c)
  {
    clusters := [];
    ghost var groups: seq<Group> := [];
    for i := 0 to |notices|
      invariant Shows(clusters, groups)
      invariant forall k :: 0 <= k < |clusters| ==> fresh(clusters[k])
      invariant Clustered(rules, prefix, groups, notices[i..]) == Clustered(rules, prefix, [], notices)
    {
      ClusteredStep(rules, prefix, groups, notices, i);
      clusters := PlaceNotice(rules, prefix, clusters, notices[i], groups);
      groups := Placed(rules, prefix, |groups|, groups, notices[i]);
    }
  }

  // ---------------------------------------------------------------- what clustering guarantees

  /** What clustering needs of the comparison and of the merge. */
  ghost predicate Lawful(rules: Rules) {
    && (forall l: Notice, r: Notice :: rules.judge(l, r).matched ==> l.noticeType == r.noticeType)
    && (forall l: Notice, r: Notice :: Houses(l, r) && Sourced(r) ==> rules.judge(l, r).matched)
    && (forall a: Notice, b: Notice :: rules.merge(a, b).noticeType == a.noticeType)
    && (forall a: Notice, b: Notice :: ExternalIds(rules.merge(a, b)) == ExternalIds(a) + ExternalIds(b))
  }

  /** A notice of the same type that carries all the other's references. */
  predicate Houses(canonical: Notice, notice: Notice) {
    canonical.noticeType == notice.noticeType && ExternalIds(notice) <= ExternalIds(canonical)
  }

  lemma SourceRulesAreLawful(env: Env, embeddings: Embeddings)
    ensures Lawful(SourceRules(env, embeddings))
  {
    var rules := SourceRules(env, embeddings);
    forall l: Notice, r: Notice | Houses(l, r) && Sourced(r) ensures rules.judge(l, r).matched {
      FirstRefIsAnId(r);
      assert RefKey(r.sourceRefs[0]) in ExternalIds(l) * ExternalIds(r);
      SharedIdMatches(env, l, r, EmbeddingOf(embeddings, l), EmbeddingOf(embeddings, r));
    }
    forall a: Notice, b: Notice ensures ExternalIds(rules.merge(a, b)) == ExternalIds(a) + ExternalIds(b) {
      MergeKeeps(a, b);
    }
  }

  /** The canonical notice of a cluster when it had `i` members. */
  function CanonicalAt(rules: Rules, g: Group, i: nat): Notice
    requires 1 <= i <= |g.members|
  {
    MergeAll(rules.merge, g.members[0], g.members[1..i])
  }

  /** Member `i` was accepted by the canonical notice of those before it, and the verdict is on record. */
  ghost predicate AcceptedAt(rules: Rules, g: Group, i: nat)
    requires 1 <= i < |g.members| && |g.members| == 1 + |g.mergedFrom|
  {
    var notice, v := g.members[i], rules.judge(CanonicalAt(rules, g, i), g.members[i]);
    && Sourced(notice) && v.matched
    && g.mergedFrom[i - 1]
       == Merged(notice.sourceRefs[0].source, notice.sourceRefs[0].externalId, v.reason, v.confidence)
  }

  ghost predicate AllAccepted(rules: Rules, g: Group)
    requires |g.members| == 1 + |g.mergedFrom|
  {
    forall i :: 1 <= i < |g.members| ==> AcceptedAt(rules, g, i)
  }

  predicate OneType(g: Group) {
    forall n :: n in g.members ==> n.noticeType == g.canonical.noticeType
  }

  /** The least confidence on record that is not zero, but at most 1. */
  ghost predicate LeastConfidence(g: Group) {
    && g.confidence <= 1.0
    && (forall i :: 0 <= i < |g.mergedFrom| && g.mergedFrom[i].confidence != 0.0 ==>
          g.confidence <= g.mergedFrom[i].confidence)
    && (g.confidence == 1.0 || exists i :: 0 <= i < |g.mergedFrom| && g.confidence == g.mergedFrom[i].confidence != 0.0)
  }

  /** A cluster's canonical notice is the merge of its members in order, all of one type; each of them was accepted by
      those before it. */
  ghost predicate Coherent(rules: Rules, g: Group) {
    && |g.members| == 1 + |g.mergedFrom|
    && g.canonical == CanonicalAt(rules, g, |g.members|)
    && OneType(g) && AllAccepted(rules, g) && LeastConfidence(g)
  }

  ghost predicate AllCoherent(rules: Rules, groups: seq<Group>) {
    forall k :: 0 <= k < |groups| ==> Coherent(rules, groups[k])
  }

  function MembersOf(groups: seq<Group>): multiset<Notice> {
    if groups == [] then multiset{} else multiset(groups[0].members) + MembersOf(groups[1..])
  }

  function Publications(groups: seq<Group>): nat {
    if groups == [] then 0 else 1 + |groups[0].mergedFrom| + Publications(groups[1..])
  }

  function IdsOf(groups: seq<Group>): set<string> {
    if groups == [] then {} else ExternalIds(groups[0].canonical) + IdsOf(groups[1..])
  }

  function AllIds(notices: seq<Notice>): set<string> {
    if notices == [] then {} else ExternalIds(notices[0]) + AllIds(notices[1..])
  }

  lemma AbsorbedCoherent(rules: Rules, g: Group, notice: Notice)
    requires Lawful(rules) && Coherent(rules, g) && Sourced(notice) && rules.judge(g.canonical, notice).matched
    ensures Coherent(rules, Absorbed(rules, g, notice, rules.judge(g.canonical, notice)))
  {
    AbsorbedType(rules, g, notice);
    AbsorbedCanonical(rules, g, notice);
    AbsorbedConfidence(rules, g, notice);
  }

  lemma AbsorbedType(rules: Rules, g: Group, notice: Notice)
    requires Lawful(rules) && OneType(g) && Sourced(notice) && rules.judge(g.canonical, notice).matched
    ensures OneType(Absorbed(rules, g, notice, rules.judge(g.canonical, notice)))
  {
  }

  lemma AbsorbedCanonical(rules: Rules, g: Group, notice: Notice)
    requires Coherent(rules, g) && Sourced(notice) && rules.judge(g.canonical, notice).matched
    ensures var r := Absorbed(rules, g, notice, rules.judge(g.canonical, notice));
            && |r.members| == 1 + |r.mergedFrom| && r.canonical == CanonicalAt(rules, r, |r.members|)
            && AllAccepted(rules, r)
  {
    var r := Absorbed(rules, g, notice, rules.judge(g.canonical, notice));
    MergeAllLast(rules.merge, g.members[0], g.members[1..], notice);
    assert r.members[1..|r.members|] == g.members[1..] + [notice];
    assert g.members[1..|g.members|] == g.members[1..];
    forall i | 1 <= i < |r.members| ensures AcceptedAt(rules, r, i) { AbsorbedAt(rules, g, notice, i); }
  }

  lemma AbsorbedAt(rules: Rules, g: Group, notice: Notice, i: nat)
    requires Coherent(rules, g) && Sourced(notice) && rules.judge(g.canonical, notice).matched && 1 <= i <= |g.members|
    ensures AcceptedAt(rules, Absorbed(rules, g, notice, rules.judge(g.canonical, notice)), i)
  {
    var r := Absorbed(rules, g, notice, rules.judge(g.canonical, notice));
    assert r.members[1..i] == g.members[1..i];
    if i < |g.members| {
      assert AcceptedAt(rules, g, i);
    } else {
      assert g.members[1..i] == g.members[1..];
    }
  }

  lemma AbsorbedConfidence(rules: Rules, g: Group, notice: Notice)
    requires LeastConfidence(g) && Sourced(notice)
    ensures LeastConfidence(Absorbed(rules, g, notice, rules.judge(g.canonical, notice)))
  {
    var r := Absorbed(rules, g, notice, rules.judge(g.canonical, notice));
    assert forall i :: 0 <= i < |g.mergedFrom| ==> r.mergedFrom[i] == g.mergedFrom[i];
    assert r.mergedFrom[|g.mergedFrom|].confidence == rules.judge(g.canonical, notice).confidence;
  }

  lemma {:induction false} PlacedCoherent(rules: Rules, prefix: string, count: nat, groups: seq<Group>, notice: Notice)
    requires Lawful(rules) && Sourced(notice) && AllCoherent(rules, groups)
    ensures AllCoherent(rules, Placed(rules, prefix, count, groups, notice))
  {
    if groups != [] {
      assert Coherent(rules, groups[0]);
      if rules.judge(groups[0].canonical, notice).matched {
        AbsorbedCoherent(rules, groups[0], notice);
      } else {
        PlacedCoherent(rules, prefix, count, groups[1..], notice);
      }
    } else {
      assert [notice][1..1] == [];
    }
  }

  lemma {:induction false} PlacedTotals(rules: Rules, prefix: string, count: nat, groups: seq<Group>, notice: Notice)
    requires Lawful(rules) && Sourced(notice)
    ensures var r := Placed(rules, prefix, count, groups, notice);
            && MembersOf(r) == MembersOf(groups) + multiset{notice}
            && Publications(r) == Publications(groups) + 1
            && IdsOf(r) == IdsOf(groups) + ExternalIds(notice)
  {
    var r := Placed(rules, prefix, count, groups, notice);
    if groups == [] {
      assert r[1..] == [];
    } else if rules.judge(groups[0].canonical, notice).matched {
      assert r[1..] == groups[1..];
    } else {
      PlacedTotals(rules, prefix, count, groups[1..], notice);
      assert r[1..] == Placed(rules, prefix, count, groups[1..], notice);
    }
  }

  lemma {:induction false} ClusteredCoherent(rules: Rules, prefix: string, groups: seq<Group>, notices: seq<Notice>)
    requires Lawful(rules) && SourcedNotices(notices) && AllCoherent(rules, groups)
    ensures AllCoherent(rules, Clustered(rules, prefix, groups, notices))
    decreases |notices|
  {
    if notices != [] {
      PlacedCoherent(rules, prefix, |groups|, groups, notices[0]);
      ClusteredCoherent(rules, prefix, Placed(rules, prefix, |groups|, groups, notices[0]), notices[1..]);
    }
  }

  lemma {:induction false} ClusteredTotals(rules: Rules, prefix: string, groups: seq<Group>, notices: seq<Notice>)
    requires Lawful(rules) && SourcedNotices(notices)
    ensures var r := Clustered(rules, prefix, groups, notices);
            && MembersOf(r) == MembersOf(groups) + multiset(notices)
            && Publications(r) == Publications(groups) + |notices|
            && IdsOf(r) == IdsOf(groups) + AllIds(notices)
    decreases |notices|
  {
    if notices != [] {
      PlacedTotals(rules, prefix, |groups|, groups, notices[0]);
      ClusteredTotals(rules, prefix, Placed(rules, prefix, |groups|, groups, notices[0]), notices[1..]);
      assert notices == [notices[0]] + notices[1..];
    }
  }

  /** Every notice ends in exactly one cluster: members, counts and references add up to the batch, and each
      canonical notice is the merge of its members, all of one notice type. */
  lemma NothingLostNothingDoubled(env: Env, embeddings: Embeddings, prefix: string, notices: seq<Notice>)
    requires SourcedNotices(notices)
    ensures var rules := SourceRules(env, embeddings);
            var r := Clustered(rules, prefix, [], notices);
            && MembersOf(r) == multiset(notices) && Publications(r) == |notices| && IdsOf(r) == AllIds(notices)
            && AllCoherent(rules, r)
  {
    var rules := SourceRules(env, embeddings);
    SourceRulesAreLawful(env, embeddings);
    ClusteredTotals(rules, prefix, [], notices);
    ClusteredCoherent(rules, prefix, [], notices);
  }

  // ---------------------------------------------------------------- why a notice is where it is

  /** The vector stored under the notice's first reference, and the empty one if there is none. */
  function StoredVector(embeddings: Embeddings, n: Notice): Vector
    requires Sourced(n)
  {
    var key := n.sourceRefs[0].source + ":" + n.sourceRefs[0].externalId;
    if key in embeddings then embeddings[key] else []
  }

  /** Member `i` was put with the notices before it on evidence, and the strongest evidence there was is on record. */
  ghost predicate Explained(env: Env, embeddings: Embeddings, g: Group, i: nat)
    requires 1 <= i < |g.members| && Sourced(g.members[0]) && Sourced(g.members[i])
  {
    var sofar, n := MergeAll(MERGE, g.members[0], g.members[1..i]), g.members[i];
    var le, re := StoredVector(embeddings, g.members[0]), StoredVector(embeddings, n);
    && sofar.noticeType == n.noticeType
    && Evidence(env, sofar, n, le, re)
    && i <= |g.mergedFrom|
    && g.mergedFrom[i - 1] ==
       if ShareId(sofar, n) || ShareLongId(env, sofar, n)
       then Merged(n.sourceRefs[0].source, n.sourceRefs[0].externalId, Some(CrossReference), 1.0)
       else if BuyerEvidence(env, sofar, n)
       then Merged(n.sourceRefs[0].source, n.sourceRefs[0].externalId, Some(BuyerDeadlineTitle),
                   env.round3(TitleSimilarityOf(env, sofar, n)))
       else Merged(n.sourceRefs[0].source, n.sourceRefs[0].externalId, Some(Embedding),
                   env.round3(Cosine(env, le, re)))
  }

  /** The first reference of a cluster is that of its first member. */
  lemma {:induction false} FirstRefStays(first: Notice, rest: seq<Notice>)
    requires Sourced(first)
    ensures Sourced(MergeAll(MERGE, first, rest)) && MergeAll(MERGE, first, rest).sourceRefs[0] == first.sourceRefs[0]
    decreases |rest|
  {
    if rest != [] {
      MergeKeeps(first, rest[0]);
      FirstRefStays(Merge(first, rest[0]), rest[1..]);
    }
  }

  lemma AcceptedIsExplained(env: Env, embeddings: Embeddings, g: Group, i: nat)
    requires 1 <= i < |g.members| && |g.members| == 1 + |g.mergedFrom| && Sourced(g.members[0])
    requires AcceptedAt(SourceRules(env, embeddings), g, i)
    ensures Explained(env, embeddings, g, i)
  {
    var sofar, n := CanonicalAt(SourceRules(env, embeddings), g, i), g.members[i];
    FirstRefStays(g.members[0], g.members[1..i]);
    VerdictExact(env, sofar, n, EmbeddingOf(embeddings, sofar), EmbeddingOf(embeddings, n));
  }

  /** When the earlier cluster had `p` members, it refused the notice. */
  ghost predicate RefusedAt(rules: Rules, g: Group, p: nat, notice: Notice) {
    1 <= p <= |g.members| && !rules.judge(CanonicalAt(rules, g, p), notice).matched
  }

  ghost predicate Refused(rules: Rules, g: Group, notice: Notice) {
    exists p: nat :: RefusedAt(rules, g, p, notice)
  }

  /** First fit: no member of a cluster was let in before the clusters in front of it had refused it. */
  ghost predicate FirstFit(rules: Rules, groups: seq<Group>) {
    forall k, l, n :: 0 <= k < l < |groups| && n in groups[l].members ==> Refused(rules, groups[k], n)
  }

  /** The prefix, an underscore and the number with six digits at least. */
  ghost predicate Numbered(prefix: string, number: nat, clusterId: string) {
    exists digits: string :: clusterId == prefix + "_" + digits && IsPadded(digits, number, 6)
  }

  ghost predicate AllNumbered(prefix: string, groups: seq<Group>) {
    forall k :: 0 <= k < |groups| ==> Numbered(prefix, k + 1, groups[k].clusterId)
  }

  lemma IdIsNumber(prefix: string, count: nat)
    ensures Numbered(prefix, count + 1, ClusterId(prefix, count))
  {
    PaddedExact(count + 1, 6);
    assert ClusterId(prefix, count) == prefix + "_" + Padded(count + 1, 6);
  }

  ghost function FitOf(rules: Rules, groups: seq<Group>, notice: Notice): (k: nat)
    ensures k <= |groups| && (forall j :: 0 <= j < k ==> !rules.judge(groups[j].canonical, notice).matched)
    ensures k < |groups| ==> rules.judge(groups[k].canonical, notice).matched
  {
    if groups == [] || rules.judge(groups[0].canonical, notice).matched then 0
    else 1 + FitOf(rules, groups[1..], notice)
  }

  /** A refusal stays on record as the cluster grows. */
  lemma RefusedStays(rules: Rules, g: Group, r: Group, notice: Notice)
    requires Refused(rules, g, notice) && g.members <= r.members
    ensures Refused(rules, r, notice)
  {
    var p: nat :| RefusedAt(rules, g, p, notice);
    assert r.members[1..p] == g.members[1..p];
    assert RefusedAt(rules, r, p, notice);
  }

  lemma PlacedFirstFit(rules: Rules, prefix: string, groups: seq<Group>, notice: Notice)
    requires Sourced(notice) && AllCoherent(rules, groups) && FirstFit(rules, groups)
    ensures FirstFit(rules, Placed(rules, prefix, |groups|, groups, notice))
  {
    var r := Placed(rules, prefix, |groups|, groups, notice);
    PlacedAt(rules, prefix, |groups|, groups, notice, FitOf(rules, groups, notice));
    forall k, l, n | 0 <= k < l < |r| && n in r[l].members ensures Refused(rules, r[k], n) {
      PlacedRefused(rules, prefix, groups, notice, k, l, n);
    }
  }

  lemma PlacedRefused(rules: Rules, prefix: string, groups: seq<Group>, notice: Notice, k: nat, l: nat, n: Notice)
    requires Sourced(notice) && AllCoherent(rules, groups) && FirstFit(rules, groups)
    requires k < l < |Placed(rules, prefix, |groups|, groups, notice)|
    requires n in Placed(rules, prefix, |groups|, groups, notice)[l].members
    ensures Refused(rules, Placed(rules, prefix, |groups|, groups, notice)[k], n)
  {
    var fit := FitOf(rules, groups, notice);
    PlacedAt(rules, prefix, |groups|, groups, notice, fit);
    if l == fit && n == notice {
      LatestRefusal(rules, groups[k], notice);
    } else {
      assert n in groups[l].members;
      RefusedStays(rules, groups[k], Placed(rules, prefix, |groups|, groups, notice)[k], n);
    }
  }

  lemma LatestRefusal(rules: Rules, g: Group, notice: Notice)
    requires Coherent(rules, g) && !rules.judge(g.canonical, notice).matched
    ensures Refused(rules, g, notice)
  {
    assert RefusedAt(rules, g, |g.members|, notice);
  }

  lemma PlacedNumbered(rules: Rules, prefix: string, groups: seq<Group>, notice: Notice)
    requires Sourced(notice) && AllNumbered(prefix, groups)
    ensures AllNumbered(prefix, Placed(rules, prefix, |groups|, groups, notice))
  {
    PlacedAt(rules, prefix, |groups|, groups, notice, FitOf(rules, groups, notice));
    IdIsNumber(prefix, |groups|);
  }

  lemma {:induction false} ClusteredFirstFit(rules: Rules, prefix: string, groups: seq<Group>, notices: seq<Notice>)
    requires Lawful(rules) && SourcedNotices(notices)
    requires AllCoherent(rules, groups) && FirstFit(rules, groups) && AllNumbered(prefix, groups)
    ensures FirstFit(rules, Clustered(rules, prefix, groups, notices))
    ensures AllNumbered(prefix, Clustered(rules, prefix, groups, notices))
    decreases |notices|
  {
    if notices != [] {
      PlacedCoherent(rules, prefix, |groups|, groups, notices[0]);
      PlacedFirstFit(rules, prefix, groups, notices[0]);
      PlacedNumbered(rules, prefix, groups, notices[0]);
      ClusteredFirstFit(rules, prefix, Placed(rules, prefix, |groups|, groups, notices[0]), notices[1..]);
    }
  }

  lemma {:induction false} MembersAreFed(groups: seq<Group>, g: Group, n: Notice)
    requires g in groups && n in g.members
    ensures n in MembersOf(groups)
  {
    if g != groups[0] { MembersAreFed(groups[1..], g, n); }
  }

  /** Each notice of a cluster but the first was put with those before it on evidence, which is on record. */
  lemma TogetherOnEvidence(env: Env, embeddings: Embeddings, prefix: string, notices: seq<Notice>, k: nat, i: nat)
    requires SourcedNotices(notices) && k < |Clustered(SourceRules(env, embeddings), prefix, [], notices)|
    requires 1 <= i < |Clustered(SourceRules(env, embeddings), prefix, [], notices)[k].members|
    ensures var g := Clustered(SourceRules(env, embeddings), prefix, [], notices)[k];
            Sourced(g.members[0]) && Sourced(g.members[i]) && Explained(env, embeddings, g, i)
  {
    var r := Clustered(SourceRules(env, embeddings), prefix, [], notices);
    NothingLostNothingDoubled(env, embeddings, prefix, notices);
    assert Coherent(SourceRules(env, embeddings), r[k]) && AcceptedAt(SourceRules(env, embeddings), r[k], i);
    MembersAreFed(r, r[k], r[k].members[0]);
    assert r[k].members[0] in multiset(notices);
    AcceptedIsExplained(env, embeddings, r[k], i);
  }

  /** Clusters are numbered in order from 1, and a notice is in a later one only because every earlier one, as it then
      was, had another notice type or gave no evidence. */
  lemma ApartForLackOfEvidence(env: Env, embeddings: Embeddings, prefix: string, notices: seq<Notice>)
    requires SourcedNotices(notices)
    ensures var r := Clustered(SourceRules(env, embeddings), prefix, [], notices);
            && AllNumbered(prefix, r)
            && forall k, l, n :: 0 <= k < l < |r| && n in r[l].members ==> PassedOver(env, embeddings, r[k], n)
  {
    var rules := SourceRules(env, embeddings);
    var r := Clustered(rules, prefix, [], notices);
    SourceRulesAreLawful(env, embeddings);
    NothingLostNothingDoubled(env, embeddings, prefix, notices);
    ClusteredFirstFit(rules, prefix, [], notices);
    forall k, l, n | 0 <= k < l < |r| && n in r[l].members ensures PassedOver(env, embeddings, r[k], n) {
      MembersAreFed(r, r[l], n);
      assert n in multiset(notices);
      assert Coherent(rules, r[k]);
      MembersAreFed(r, r[k], r[k].members[0]);
      assert r[k].members[0] in multiset(notices);
      RefusedForLack(env, embeddings, r[k], n);
    }
  }

  ghost predicate PassedOver(env: Env, embeddings: Embeddings, g: Group, n: Notice) {
    && g.members != [] && Sourced(g.members[0]) && Sourced(n)
    && exists p: nat :: NoEvidenceAt(env, embeddings, g, p, n)
  }

  /** When the cluster had `p` members, nothing spoke for putting the notice with them. */
  ghost predicate NoEvidenceAt(env: Env, embeddings: Embeddings, g: Group, p: nat, n: Notice)
    requires g.members != [] && Sourced(g.members[0]) && Sourced(n)
  {
    && 1 <= p <= |g.members|
    && var sofar := MergeAll(MERGE, g.members[0], g.members[1..p]);
       !(sofar.noticeType == n.noticeType
         && Evidence(env, sofar, n, StoredVector(embeddings, g.members[0]), StoredVector(embeddings, n)))
  }

  lemma RefusedForLack(env: Env, embeddings: Embeddings, g: Group, n: Notice)
    requires g.members != [] && Sourced(g.members[0]) && Sourced(n) && Refused(SourceRules(env, embeddings), g, n)
    ensures PassedOver(env, embeddings, g, n)
  {
    var p: nat :| RefusedAt(SourceRules(env, embeddings), g, p, n);
    var sofar := CanonicalAt(SourceRules(env, embeddings), g, p);
    FirstRefStays(g.members[0], g.members[1..p]);
    VerdictExact(env, sofar, n, EmbeddingOf(embeddings, sofar), EmbeddingOf(embeddings, n));
    assert NoEvidenceAt(env, embeddings, g, p, n);
  }

  // ---------------------------------------------------------------- re-entrancy

  /** Some cluster of the notice's type already carries all its references. */
  predicate Homed(groups: seq<Group>, notice: Notice) {
    groups != [] && (Houses(groups[0].canonical, notice) || Homed(groups[1..], notice))
  }

  /** Placing a notice gives it a home, takes no one's home away, and opens no cluster if it already had one. */
  lemma {:induction false} PlacedHomes(rules: Rules, prefix: string, count: nat, groups: seq<Group>, notice: Notice,
                                       other: Notice)
    requires Lawful(rules) && Sourced(notice)
    ensures Homed(Placed(rules, prefix, count, groups, notice), notice)
    ensures Homed(groups, other) ==> Homed(Placed(rules, prefix, count, groups, notice), other)
    ensures Homed(groups, notice) ==> |Placed(rules, prefix, count, groups, notice)| == |groups|
  {
    if groups != [] {
      var r := Placed(rules, prefix, count, groups, notice);
      if rules.judge(groups[0].canonical, notice).matched {
        assert r[1..] == groups[1..];
      } else {
        PlacedHomes(rules, prefix, count, groups[1..], notice, other);
        assert r[1..] == Placed(rules, prefix, count, groups[1..], notice);
      }
    }
  }

  lemma {:induction false} ClusteredHomes(rules: Rules, prefix: string, groups: seq<Group>, notices: seq<Notice>,
                                          n: Notice)
    requires Lawful(rules) && SourcedNotices(notices) && (Homed(groups, n) || n in notices)
    ensures Homed(Clustered(rules, prefix, groups, notices), n)
    decreases |notices|
  {
    if notices != [] {
      PlacedHomes(rules, prefix, |groups|, groups, notices[0], n);
      assert n in notices ==> n == notices[0] || n in notices[1..];
      ClusteredHomes(rules, prefix, Placed(rules, prefix, |groups|, groups, notices[0]), notices[1..], n);
    }
  }

  lemma {:induction false} HomedAddNothing(rules: Rules, prefix: string, groups: seq<Group>, notices: seq<Notice>)
    requires Lawful(rules) && SourcedNotices(notices) && forall n :: n in notices ==> Homed(groups, n)
    ensures |Clustered(rules, prefix, groups, notices)| == |groups|
    decreases |notices|
  {
    if notices != [] {
      var next := Placed(rules, prefix, |groups|, groups, notices[0]);
      PlacedHomes(rules, prefix, |groups|, groups, notices[0], notices[0]);
      forall n | n in notices[1..] ensures Homed(next, n) {
        PlacedHomes(rules, prefix, |groups|, groups, notices[0], n);
      }
      HomedAddNothing(rules, prefix, next, notices[1..]);
    }
  }

  /** Feeding notices again that were already processed, in any order and any number, opens no new cluster. */
  lemma RefeedingOpensNothing(env: Env, embeddings: Embeddings, prefix: string, notices: seq<Notice>,
                              again: seq<Notice>)
    requires SourcedNotices(notices) && forall n :: n in again ==> n in notices
    ensures SourcedNotices(again)
    ensures var rules := SourceRules(env, embeddings);
            var r := Clustered(rules, prefix, [], notices);
            |Clustered(rules, prefix, r, again)| == |r|
  {
    var rules := SourceRules(env, embeddings);
    SourceRulesAreLawful(env, embeddings);
    forall n | n in again ensures Homed(Clustered(rules, prefix, [], notices), n) {
      ClusteredHomes(rules, prefix, [], notices, n);
    }
    HomedAddNothing(rules, prefix, Clustered(rules, prefix, [], notices), again);
  }
}
