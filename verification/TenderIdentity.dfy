/**
 Whether two notices are the same tender (dedupe.py).

 Text normalisation, square root and rounding are arbitrary functions in `Env`: the verdict's laws
 hold whatever they are.  Arithmetic is exact.
 */
module TenderIdentity {
  import opened Common
  import opened OrderedUnion
  import opened NoticeMerge
  import opened TitleSimilarity

  datatype Env = Env(
    normalize: string -> string,          // normalize_text
    buyerName: Text -> string,            // normalize_buyer_name
    strip: string -> string,
    upper: string -> string,
    sqrt: real -> real,
    round3: real -> real)

  const TITLE_SIMILARITY_THRESHOLD: real := 0.6
  const EMBEDDING_SIMILARITY_THRESHOLD: real := 0.92
  const DEADLINE_TOLERANCE: int := 3600
  const EMBEDDING_DEADLINE_TOLERANCE: int := 24 * 3600
  const MIN_CROSS_REFERENCE_LEN: nat := 6

  datatype Reason = CrossReference | BuyerDeadlineTitle | Embedding

  /** What the source puts in `details`; of several shared references it names the least. */
  datatype Details =
    | BlockedByType
    | SamePublication
    | SharedReferences(refs: set<string>)
    | TitleAndBuyer(title: real, buyer: string)
    | CosineScore(score: real)
    | TitleScore(title: real)

  datatype Verdict = Verdict(matched: bool, reason: Option<Reason>, confidence: real, details: Details)

  type Vector = seq<real>

  function SirenEffective(b: Buyer): Text {
    if Truthy(b.siren) then b.siren
    else if Truthy(b.siret) then Some(if |b.siret.value| > 9 then b.siret.value[..9] else b.siret.value)
    else None
  }

  function BuyerKey(env: Env, n: Notice): Option<string> {
    var siren := SirenEffective(n.buyer);
    if Truthy(siren) then Some("siren:" + siren.value)
    else
      var name := env.buyerName(n.buyer.name);
      if name != "" then Some("name:" + name) else None
  }

  function CrossReferences(env: Env, n: Notice): set<string> {
    set r | r in n.sourceRefs && |env.strip(r.externalId)| >= MIN_CROSS_REFERENCE_LEN ::
      env.upper(env.strip(r.externalId))
  }

  function TitleSimilarityOf(env: Env, l: Notice, r: Notice): real {
    Jaccard(Trigrams(env.normalize(l.title)), Trigrams(env.normalize(r.title)))
  }

  function Dot(x: Vector, y: Vector): real
    requires |x| == |y|
  {
    if x == [] then 0.0 else x[0] * y[0] + Dot(x[1..], y[1..])
  }

  function Clamp(x: real): real {
    if x < -1.0 then -1.0 else if x > 1.0 then 1.0 else x
  }

  function CosineOf(dot: real, nx: real, ny: real): real {
    if nx == 0.0 || ny == 0.0 then 0.0
    else
      var norms := nx * ny;
      assert norms != 0.0;
      Clamp(dot / norms)
  }

  function Cosine(env: Env, x: Vector, y: Vector): real {
    if x == [] || y == [] || |x| != |y| then 0.0
    else CosineOf(Dot(x, y), env.sqrt(Dot(x, x)), env.sqrt(Dot(y, y)))
  }

  function Abs(x: int): nat {
    if x < 0 then -x else x
  }

  predicate DeadlinesWithin(l: Notice, r: Notice, tolerance: int) {
    && l.dates.deadlineAt.Some? && r.dates.deadlineAt.Some?
    && Abs(l.dates.deadlineAt.value - r.dates.deadlineAt.value) <= tolerance
  }

  function MinReal(x: real, y: real): real {
    if x <= y then x else y
  }

  /** The weaker evidence: buyer, deadline and title together, or the embeddings of notices from one country. */
  function Weigh(env: Env, lk: Option<string>, rk: Option<string>, sameHour: bool, title: real, comparable: bool,
                 score: real, sameDay: bool): Verdict
  {
    if lk.Some? && lk == rk && sameHour && title >= TITLE_SIMILARITY_THRESHOLD
    then
      Verdict(true, Some(BuyerDeadlineTitle),
              env.round3(MinReal(1.0, 0.6 + 0.4 * (title - TITLE_SIMILARITY_THRESHOLD) / 0.4)),
              TitleAndBuyer(env.round3(title), lk.value))
    else if comparable then
      if score >= EMBEDDING_SIMILARITY_THRESHOLD && sameDay
      then Verdict(true, Some(Embedding), env.round3(score), CosineScore(env.round3(score)))
      else Verdict(false, None, 0.0, CosineScore(env.round3(score)))
    else Verdict(false, None, 0.0, TitleScore(env.round3(title)))
  }

  function Weighed(env: Env, l: Notice, r: Notice, le: Vector, re: Vector): Verdict {
    Weigh(env, BuyerKey(env, l), BuyerKey(env, r), DeadlinesWithin(l, r, DEADLINE_TOLERANCE),
          TitleSimilarityOf(env, l, r), l.country == r.country && le != [] && re != [], Cosine(env, le, re),
          DeadlinesWithin(l, r, EMBEDDING_DEADLINE_TOLERANCE))
  }

  /** A missing embedding is the empty vector: the source treats both alike. */
  function SameTender(env: Env, l: Notice, r: Notice, le: Vector, re: Vector): Verdict {
    if l.noticeType != r.noticeType then Verdict(false, None, 0.0, BlockedByType)
    else if ExternalIds(l) * ExternalIds(r) != {} then Verdict(true, Some(CrossReference), 1.0, SamePublication)
    else
      var shared := CrossReferences(env, l) * CrossReferences(env, r);
      if shared != {} then Verdict(true, Some(CrossReference), 1.0, SharedReferences(shared))
      else Weighed(env, l, r, le, re)
  }

  lemma {:induction false} DotSymmetric(x: Vector, y: Vector)
    requires |x| == |y|
    ensures Dot(x, y) == Dot(y, x)
  {
    if x != [] { DotSymmetric(x[1..], y[1..]); }
  }

  lemma CosineSymmetric(env: Env, x: Vector, y: Vector)
    ensures Cosine(env, x, y) == Cosine(env, y, x)
  {
    if |x| == |y| {
      DotSymmetric(x, y);
      var nx, ny := env.sqrt(Dot(x, x)), env.sqrt(Dot(y, y));
      assert nx * ny == ny * nx;
    }
  }

  lemma WeighSymmetric(env: Env, lk: Option<string>, rk: Option<string>, sameHour: bool, title: real, comparable: bool,
                       score: real, sameDay: bool)
    ensures Weigh(env, lk, rk, sameHour, title, comparable, score, sameDay) ==
            Weigh(env, rk, lk, sameHour, title, comparable, score, sameDay)
  {
  }

  lemma TitleSymmetric(env: Env, l: Notice, r: Notice)
    ensures TitleSimilarityOf(env, l, r) == TitleSimilarityOf(env, r, l)
  {
    JaccardSymmetric(Trigrams(env.normalize(l.title)), Trigrams(env.normalize(r.title)));
  }

  /** The whole verdict - match, reason, confidence and details - does not depend on the order of its arguments. */
  lemma VerdictSymmetric(env: Env, l: Notice, r: Notice, le: Vector, re: Vector)
    ensures SameTender(env, l, r, le, re) == SameTender(env, r, l, re, le)
  {
    assert ExternalIds(l) * ExternalIds(r) == ExternalIds(r) * ExternalIds(l);
    assert CrossReferences(env, l) * CrossReferences(env, r) == CrossReferences(env, r) * CrossReferences(env, l);
    TitleSymmetric(env, l, r);
    CosineSymmetric(env, le, re);
    WeighSymmetric(env, BuyerKey(env, l), BuyerKey(env, r), DeadlinesWithin(l, r, DEADLINE_TOLERANCE),
                   TitleSimilarityOf(env, l, r), l.country == r.country && le != [] && re != [], Cosine(env, le, re),
                   DeadlinesWithin(l, r, EMBEDDING_DEADLINE_TOLERANCE));
  }

  /** Sharing one publication is enough, and nothing else about the two notices matters. */
  lemma SharedIdMatches(env: Env, l: Notice, r: Notice, le: Vector, re: Vector)
    ensures var v := SameTender(env, l, r, le, re);
            && (v.details == SamePublication <==>
                l.noticeType == r.noticeType && ExternalIds(l) * ExternalIds(r) != {})
            && (v.details == SamePublication ==> v.matched && v.confidence == 1.0)
  {
  }

  /** A notice has an external id as soon as it has a reference. */
  lemma FirstRefIsAnId(n: Notice)
    requires n.sourceRefs != []
    ensures RefKey(n.sourceRefs[0]) in ExternalIds(n)
  {
  }

  /** Every notice is the same tender as itself. */
  lemma VerdictReflexive(env: Env, n: Notice, e: Vector)
    requires n.sourceRefs != []
    ensures SameTender(env, n, n, e, e).matched && SameTender(env, n, n, e, e).confidence == 1.0
  {
    FirstRefIsAnId(n);
    assert RefKey(n.sourceRefs[0]) in ExternalIds(n) * ExternalIds(n);
    SharedIdMatches(env, n, n, e, e);
  }

  /** Two titles that both reach the threshold against a third notice's are at least 0.2 similar. */
  lemma NeighboursResemble(env: Env, a: Notice, b: Notice, c: Notice)
    requires TitleSimilarityOf(env, a, b) >= TITLE_SIMILARITY_THRESHOLD
    requires TitleSimilarityOf(env, b, c) >= TITLE_SIMILARITY_THRESHOLD
    ensures TitleSimilarityOf(env, a, c) >= 0.2
  {
    SimilarToACommonTitle(Trigrams(env.normalize(a.title)), Trigrams(env.normalize(b.title)),
                          Trigrams(env.normalize(c.title)));
  }
}
