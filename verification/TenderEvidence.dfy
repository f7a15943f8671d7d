/**
 What makes two notices the same tender, on the notices' own fields (dedupe.py).

 `same_tender` decides by keys, similarities and tolerances; here the decision is stated in terms of what the
 two notices say: their references, buyers, deadlines, countries and titles.
 */
module TenderEvidence {
  import opened Common
  import opened OrderedUnion
  import opened NoticeMerge
  import opened TitleSimilarity
  import opened TenderIdentity

  // ---------------------------------------------------------------- the evidence

  /** One publication, seen twice. */
  predicate ShareId(l: Notice, r: Notice) {
    exists i, j :: 0 <= i < |l.sourceRefs| && 0 <= j < |r.sourceRefs|
                   && l.sourceRefs[i].source + ":" + l.sourceRefs[i].externalId
                      == r.sourceRefs[j].source + ":" + r.sourceRefs[j].externalId
  }

  /** Two references with the same id of at least six characters, spaces around it and case aside. */
  predicate SameLongId(env: Env, a: SourceRef, b: SourceRef) {
    && |env.strip(a.externalId)| >= 6 && |env.strip(b.externalId)| >= 6
    && env.upper(env.strip(a.externalId)) == env.upper(env.strip(b.externalId))
  }

  predicate ShareLongId(env: Env, l: Notice, r: Notice) {
    exists i, j :: 0 <= i < |l.sourceRefs| && 0 <= j < |r.sourceRefs|
                   && SameLongId(env, l.sourceRefs[i], r.sourceRefs[j])
  }

  /** The SIREN of a buyer: stated, or the first nine digits of its SIRET. */
  predicate HasSiren(b: Buyer, siren: string) {
    && siren != ""
    && if b.siren.Some? && b.siren.value != "" then siren == b.siren.value
       else b.siret.Some? && siren == b.siret.value[..Min(9, |b.siret.value|)]
  }

  ghost predicate KnownSiren(b: Buyer) {
    exists siren :: HasSiren(b, siren)
  }

  ghost predicate SameBuyer(env: Env, l: Buyer, r: Buyer) {
    || (exists siren :: HasSiren(l, siren) && HasSiren(r, siren))
    || (!KnownSiren(l) && !KnownSiren(r)
        && env.buyerName(l.name) != "" && env.buyerName(l.name) == env.buyerName(r.name))
  }

  /** Both deadlines are known and neither is more than `seconds` after the other. */
  predicate DeadlinesClose(l: Notice, r: Notice, seconds: int) {
    match (l.dates.deadlineAt, r.dates.deadlineAt)
    case (Some(x), Some(y)) => x <= y + seconds && y <= x + seconds
    case _ => false
  }

  /** The titles have trigrams, and at least three fifths of those of either are common. */
  predicate TitlesAgree(env: Env, l: Notice, r: Notice) {
    var a, b := Trigrams(env.normalize(l.title)), Trigrams(env.normalize(r.title));
    a != {} && b != {} && 5 * |a * b| >= 3 * |a + b|
  }

  ghost predicate BuyerEvidence(env: Env, l: Notice, r: Notice) {
    SameBuyer(env, l.buyer, r.buyer) && DeadlinesClose(l, r, 3600) && TitlesAgree(env, l, r)
  }

  predicate EmbeddingEvidence(env: Env, l: Notice, r: Notice, le: Vector, re: Vector) {
    l.country == r.country && le != [] && re != [] && Cosine(env, le, re) >= 0.92 && DeadlinesClose(l, r, 86400)
  }

  ghost predicate Evidence(env: Env, l: Notice, r: Notice, le: Vector, re: Vector) {
    ShareId(l, r) || ShareLongId(env, l, r) || BuyerEvidence(env, l, r) || EmbeddingEvidence(env, l, r, le, re)
  }

  // ---------------------------------------------------------------- the keys mean what they say

  lemma {:induction false} KeysAreRefs(refs: seq<SourceRef>, key: string)
    ensures key in KeysOf(REF_KEY, refs) <==>
            exists i :: 0 <= i < |refs| && refs[i].source + ":" + refs[i].externalId == key
  {
    if refs != [] {
      KeysAreRefs(refs[1..], key);
      if i :| 0 <= i < |refs| && refs[i].source + ":" + refs[i].externalId == key {
        if i > 0 { assert refs[1..][i - 1] == refs[i]; }
      }
      if j :| 0 <= j < |refs[1..]| && refs[1..][j].source + ":" + refs[1..][j].externalId == key {
        assert refs[j + 1] == refs[1..][j];
      }
    }
  }

  lemma SharedIdExact(l: Notice, r: Notice)
    ensures ExternalIds(l) * ExternalIds(r) != {} <==> ShareId(l, r)
  {
    if ExternalIds(l) * ExternalIds(r) != {} {
      var key :| key in ExternalIds(l) && key in ExternalIds(r);
      KeysAreRefs(l.sourceRefs, key);
      KeysAreRefs(r.sourceRefs, key);
    }
    if i, j :| 0 <= i < |l.sourceRefs| && 0 <= j < |r.sourceRefs|
               && l.sourceRefs[i].source + ":" + l.sourceRefs[i].externalId
                  == r.sourceRefs[j].source + ":" + r.sourceRefs[j].externalId {
      var key := l.sourceRefs[i].source + ":" + l.sourceRefs[i].externalId;
      KeysAreRefs(l.sourceRefs, key);
      KeysAreRefs(r.sourceRefs, key);
      assert key in ExternalIds(l) * ExternalIds(r);
    }
  }

  lemma SharedReferenceExact(env: Env, l: Notice, r: Notice)
    ensures CrossReferences(env, l) * CrossReferences(env, r) != {} <==> ShareLongId(env, l, r)
  {
    if CrossReferences(env, l) * CrossReferences(env, r) != {} {
      var id :| id in CrossReferences(env, l) && id in CrossReferences(env, r);
      var a :| a in l.sourceRefs && |env.strip(a.externalId)| >= 6 && env.upper(env.strip(a.externalId)) == id;
      var b :| b in r.sourceRefs && |env.strip(b.externalId)| >= 6 && env.upper(env.strip(b.externalId)) == id;
      var i :| 0 <= i < |l.sourceRefs| && l.sourceRefs[i] == a;
      var j :| 0 <= j < |r.sourceRefs| && r.sourceRefs[j] == b;
      assert SameLongId(env, l.sourceRefs[i], r.sourceRefs[j]);
    }
    if i, j :| 0 <= i < |l.sourceRefs| && 0 <= j < |r.sourceRefs| && SameLongId(env, l.sourceRefs[i], r.sourceRefs[j]) {
      var id := env.upper(env.strip(l.sourceRefs[i].externalId));
      assert l.sourceRefs[i] in l.sourceRefs && r.sourceRefs[j] in r.sourceRefs;
      assert id in CrossReferences(env, l) * CrossReferences(env, r);
    }
  }

  lemma SirenExact(b: Buyer, siren: string)
    ensures HasSiren(b, siren) <==> Truthy(SirenEffective(b)) && SirenEffective(b).value == siren
  {
  }

  lemma BuyerExact(env: Env, l: Notice, r: Notice)
    ensures BuyerKey(env, l).Some? && BuyerKey(env, l) == BuyerKey(env, r) <==> SameBuyer(env, l.buyer, r.buyer)
  {
    var ls, rs := SirenEffective(l.buyer), SirenEffective(r.buyer);
    forall siren ensures HasSiren(l.buyer, siren) <==> Truthy(ls) && ls.value == siren { SirenExact(l.buyer, siren); }
    forall siren ensures HasSiren(r.buyer, siren) <==> Truthy(rs) && rs.value == siren { SirenExact(r.buyer, siren); }
    if Truthy(ls) { assert HasSiren(l.buyer, ls.value); }
    if Truthy(rs) { assert HasSiren(r.buyer, rs.value); }
    var tag, other := "siren:", "name:";
    assert forall a: string :: (tag + a)[6..] == a && (other + a)[5..] == a;
    assert forall a: string, b: string :: (tag + a)[0] != (other + b)[0];
  }

  lemma TitlesExact(env: Env, l: Notice, r: Notice)
    ensures TitleSimilarityOf(env, l, r) >= 0.6 <==> TitlesAgree(env, l, r)
  {
    var a, b := Trigrams(env.normalize(l.title)), Trigrams(env.normalize(r.title));
    if a != {} && b != {} {
      NonEmptyUnion(a, b);
      AtLeastThreeFifths(|a * b|, |a + b|);
    }
  }

  lemma AtLeastThreeFifths(p: nat, q: nat)
    requires q > 0
    ensures p as real / q as real >= 0.6 <==> 5 * p >= 3 * q
  {
    var x, d := p as real / q as real, q as real;
    Ordered(0.6, x, d);
    assert 5.0 * (x * d) == (5 * p) as real && 5.0 * (0.6 * d) == (3 * q) as real;
  }

  /** A positive factor keeps the order. */
  lemma Ordered(x: real, y: real, d: real)
    requires d > 0.0
    ensures x <= y <==> x * d <= y * d
  {
  }

  // ---------------------------------------------------------------- the verdict

  lemma TitleAtMostOne(env: Env, l: Notice, r: Notice)
    ensures TitleSimilarityOf(env, l, r) <= 1.0
  {
    JaccardLaws(Trigrams(env.normalize(l.title)), Trigrams(env.normalize(r.title)));
  }

  /** Two notices are judged the same tender exactly if they are of one type and there is evidence of one of the four
      kinds; the first kind there is gives the reason and the confidence. */
  lemma VerdictExact(env: Env, l: Notice, r: Notice, le: Vector, re: Vector)
    ensures var v := SameTender(env, l, r, le, re);
            && (v.matched <==> l.noticeType == r.noticeType && Evidence(env, l, r, le, re))
            && (!v.matched ==> v.reason == None && v.confidence == 0.0)
            && (v.matched && (ShareId(l, r) || ShareLongId(env, l, r)) ==>
                  v.reason == Some(CrossReference) && v.confidence == 1.0)
            && (v.matched && !ShareId(l, r) && !ShareLongId(env, l, r) ==>
                  if BuyerEvidence(env, l, r)
                  then v.reason == Some(BuyerDeadlineTitle) && v.confidence == env.round3(TitleSimilarityOf(env, l, r))
                  else v.reason == Some(Embedding) && v.confidence == env.round3(Cosine(env, le, re)))
  {
    SharedIdExact(l, r);
    SharedReferenceExact(env, l, r);
    if !ShareId(l, r) && !ShareLongId(env, l, r) { WeighExact(env, l, r, le, re); }
  }

  /** Of the weaker evidence the buyer's comes first; the formula for its confidence is the similarity itself. */
  lemma WeighMeans(env: Env, lk: Option<string>, rk: Option<string>, sameHour: bool, title: real, comparable: bool,
                   score: real, sameDay: bool)
    requires title <= 1.0
    ensures var v := Weigh(env, lk, rk, sameHour, title, comparable, score, sameDay);
            if lk.Some? && lk == rk && sameHour && title >= 0.6
            then v == Verdict(true, Some(BuyerDeadlineTitle), env.round3(title),
                              TitleAndBuyer(env.round3(title), lk.value))
            else if comparable && score >= 0.92 && sameDay
            then v == Verdict(true, Some(Embedding), env.round3(score), CosineScore(env.round3(score)))
            else v == Verdict(false, None, 0.0, if comparable then CosineScore(env.round3(score))
                                                else TitleScore(env.round3(title)))
  {
    assert MinReal(1.0, 0.6 + 0.4 * (title - 0.6) / 0.4) == title;
  }

  predicate Comparable(l: Notice, r: Notice, le: Vector, re: Vector) {
    l.country == r.country && le != [] && re != []
  }

  /** Without a common reference: the match, the reason, the confidence and the details.  The details name the
      similarity of the titles and the buyer's key, or the cosine where embeddings were compared, or else the
      similarity alone. */
  lemma WeighExact(env: Env, l: Notice, r: Notice, le: Vector, re: Vector)
    ensures var v, title, score := Weighed(env, l, r, le, re), env.round3(TitleSimilarityOf(env, l, r)),
                                   env.round3(Cosine(env, le, re));
            if BuyerEvidence(env, l, r)
            then BuyerKey(env, l).Some?
                 && v == Verdict(true, Some(BuyerDeadlineTitle), title, TitleAndBuyer(title, BuyerKey(env, l).value))
            else if EmbeddingEvidence(env, l, r, le, re)
            then v == Verdict(true, Some(Embedding), score, CosineScore(score))
            else v == Verdict(false, None, 0.0,
                              if Comparable(l, r, le, re) then CosineScore(score) else TitleScore(title))
  {
    BuyerExact(env, l, r);
    TitlesExact(env, l, r);
    TitleAtMostOne(env, l, r);
    WeighMeans(env, BuyerKey(env, l), BuyerKey(env, r), DeadlinesWithin(l, r, DEADLINE_TOLERANCE),
               TitleSimilarityOf(env, l, r), l.country == r.country && le != [] && re != [], Cosine(env, le, re),
               DeadlinesWithin(l, r, EMBEDDING_DEADLINE_TOLERANCE));
  }

  /** The details of a match by references are the long ids that both notices have. */
  lemma SharedDetails(env: Env, l: Notice, r: Notice, le: Vector, re: Vector)
    requires l.noticeType == r.noticeType && !ShareId(l, r) && ShareLongId(env, l, r)
    ensures var v := SameTender(env, l, r, le, re);
            && v.details.SharedReferences? && v.details.refs != {}
            && forall id :: id in v.details.refs <==> HasLongId(env, l, id) && HasLongId(env, r, id)
  {
    SharedIdExact(l, r);
    SharedReferenceExact(env, l, r);
  }

  ghost predicate HasLongId(env: Env, n: Notice, id: string) {
    exists a :: a in n.sourceRefs && |env.strip(a.externalId)| >= 6 && env.upper(env.strip(a.externalId)) == id
  }

  /** The key tells SIRENs from names. */
  lemma KeyMeans(env: Env, n: Notice)
    ensures forall siren :: HasSiren(n.buyer, siren) ==> BuyerKey(env, n) == Some("siren:" + siren)
    ensures !KnownSiren(n.buyer) ==>
              BuyerKey(env, n) == if env.buyerName(n.buyer.name) == "" then None
                                  else Some("name:" + env.buyerName(n.buyer.name))
  {
    forall siren ensures HasSiren(n.buyer, siren) <==>
                           Truthy(SirenEffective(n.buyer)) && SirenEffective(n.buyer).value == siren {
      SirenExact(n.buyer, siren);
    }
    if Truthy(SirenEffective(n.buyer)) { assert HasSiren(n.buyer, SirenEffective(n.buyer).value); }
  }

  /** No condition can be spared: without a common reference, buyer, hour and title are all needed where there are no
      embeddings, and country, embeddings, similarity and day where the buyers differ. */
  lemma EveryConditionCounts(env: Env, l: Notice, r: Notice, le: Vector, re: Vector)
    requires !ShareId(l, r) && !ShareLongId(env, l, r)
    ensures le == [] || re == [] || l.country != r.country ==>
              (SameTender(env, l, r, le, re).matched <==>
                 l.noticeType == r.noticeType && SameBuyer(env, l.buyer, r.buyer) && DeadlinesClose(l, r, 3600)
                 && TitlesAgree(env, l, r))
    ensures !SameBuyer(env, l.buyer, r.buyer) || !TitlesAgree(env, l, r) ==>
              (SameTender(env, l, r, le, re).matched <==>
                 l.noticeType == r.noticeType && l.country == r.country && le != [] && re != []
                 && Cosine(env, le, re) >= 0.92 && DeadlinesClose(l, r, 86400))
    ensures !DeadlinesClose(l, r, 86400) ==> !SameTender(env, l, r, le, re).matched
  {
    VerdictExact(env, l, r, le, re);
  }

  // ---------------------------------------------------------------- the cosine

  predicate Schwarz(d: real, p: real, q: real) {
    p >= 0.0 && q >= 0.0 && d * d <= p * q
  }

  /** The inequality of Cauchy and Schwarz for one more coordinate. */
  lemma OneMoreCoordinate(a: real, b: real, d: real, p: real, q: real, d': real, p': real, q': real)
    requires Schwarz(d, p, q) && d' == a * b + d && p' == a * a + p && q' == b * b + q
    ensures Schwarz(d', p', q')
  {
    SquareSign(a, a * a);
    SquareSign(b, b * b);
    assert (a * b + d) * (a * b + d) == (a * b) * (a * b) + 2.0 * (a * b * d) + d * d;
    assert (a * a + p) * (b * b + q) == (a * b) * (a * b) + a * a * q + b * b * p + p * q;
    MixedTerm(a, b, d, p, q);
  }

  lemma MixedTerm(a: real, b: real, d: real, p: real, q: real)
    requires p >= 0.0 && q >= 0.0 && d * d <= p * q
    ensures 2.0 * (a * b * d) <= a * a * q + b * b * p
  {
    SquareSign(a, a * a);
    if p == 0.0 {
      SquareSign(d, d * d);
      assert a * a * q >= 0.0;
    } else {
      var gap, s := a * a * q + b * b * p - 2.0 * (a * b * d), a * d - b * p;
      SquareSign(s, s * s);
      assert s * s == a * a * (d * d) - 2.0 * (a * b * d) * p + b * b * p * p;
      assert a * a * (d * d) <= a * a * (p * q);
      assert gap * p == a * a * (p * q) + b * b * p * p - 2.0 * (a * b * d) * p;
      Ordered(0.0, gap, p);
    }
  }

  lemma ProductIsPositive(x: real, y: real, product: real)
    requires x > 0.0 && y > 0.0 && product == x * y
    ensures product > 0.0
  {
  }

  lemma SquareSign(x: real, square: real)
    requires square == x * x
    ensures square >= 0.0 && (x == 0.0 <==> square == 0.0)
  {
    if x > 0.0 { ProductIsPositive(x, x, square); }
    if x < 0.0 { ProductIsPositive(-x, -x, square); }
  }

  lemma SquaresOrdered(x: real, y: real)
    requires 0.0 <= x < y
    ensures x * x < y * y
  {
    ProductIsPositive(y - x, y + x, y * y - x * x);
  }

  lemma DotStep(x: Vector, y: Vector)
    requires |x| == |y| && x != []
    ensures Dot(x, y) == x[0] * y[0] + Dot(x[1..], y[1..])
  {
  }

  lemma {:induction false} CauchySchwarz(x: Vector, y: Vector)
    requires |x| == |y|
    ensures Schwarz(Dot(x, y), Dot(x, x), Dot(y, y))
  {
    if x != [] {
      CauchySchwarz(x[1..], y[1..]);
      DotStep(x, y);
      DotStep(x, x);
      DotStep(y, y);
      OneMoreCoordinate(x[0], y[0], Dot(x[1..], y[1..]), Dot(x[1..], x[1..]), Dot(y[1..], y[1..]),
                        Dot(x, y), Dot(x, x), Dot(y, y));
    }
  }

  /** The quotient, or the end of the range from -1 to 1 that it lies beyond. */
  lemma ClampIsNearest(x: real)
    ensures -1.0 <= Clamp(x) <= 1.0
    ensures if x <= -1.0 then Clamp(x) == -1.0 else if x >= 1.0 then Clamp(x) == 1.0 else Clamp(x) == x
  {
  }

  predicate IsRoot(root: real, square: real) {
    root >= 0.0 && root * root == square
  }

  lemma BoundedByRoots(d: real, p: real, q: real, m: real, n: real)
    requires d * d <= p * q && IsRoot(m, p) && IsRoot(n, q)
    ensures -(m * n) <= d <= m * n
  {
    var w := m * n;
    assert w * w == p * q && w >= 0.0;
    assert (-d) * (-d) == d * d;
    if d > w { SquaresOrdered(w, d); }
    if -d > w { SquaresOrdered(w, -d); }
  }

  lemma InsideUnit(d: real, w: real)
    requires w > 0.0 && -w <= d <= w
    ensures -1.0 <= d / w <= 1.0 && d / w * w == d
  {
    assert d / w * w == d;
  }

  lemma RootIsZero(root: real, square: real)
    requires IsRoot(root, square)
    ensures root == 0.0 <==> square == 0.0
  {
    SquareSign(root, square);
  }

  lemma CosineOfBounded(d: real, m: real, n: real)
    requires m >= 0.0 && n >= 0.0 && -(m * n) <= d <= m * n
    ensures -1.0 <= CosineOf(d, m, n) <= 1.0
    ensures m != 0.0 && n != 0.0 ==> CosineOf(d, m, n) * (m * n) == d
  {
    if m != 0.0 && n != 0.0 {
      ProductIsPositive(m, n, m * n);
      InsideUnit(d, m * n);
    }
  }

  lemma RootsMean(d: real, p: real, q: real, m: real, n: real, c: real)
    requires Schwarz(d, p, q) && IsRoot(m, p) && IsRoot(n, q) && c == CosineOf(d, m, n)
    ensures -1.0 <= c <= 1.0
    ensures p == 0.0 || q == 0.0 ==> c == 0.0
    ensures p != 0.0 && q != 0.0 ==> c * (m * n) == d
  {
    RootIsZero(m, p);
    RootIsZero(n, q);
    BoundedByRoots(d, p, q, m, n);
    CosineOfBounded(d, m, n);
  }

  /** With exact square roots: 0 unless both vectors have one length and are not zero; otherwise the product of the
      vectors divided by that of their lengths, which never needs clamping. */
  lemma CosineMeans(env: Env, x: Vector, y: Vector)
    requires IsRoot(env.sqrt(Dot(x, x)), Dot(x, x)) && IsRoot(env.sqrt(Dot(y, y)), Dot(y, y))
    ensures -1.0 <= Cosine(env, x, y) <= 1.0
    ensures |x| != |y| || Dot(x, x) == 0.0 || Dot(y, y) == 0.0 ==> Cosine(env, x, y) == 0.0
    ensures |x| == |y| && Dot(x, x) != 0.0 && Dot(y, y) != 0.0 ==>
              Cosine(env, x, y) * (env.sqrt(Dot(x, x)) * env.sqrt(Dot(y, y))) == Dot(x, y)
  {
    if |x| == |y| && x != [] {
      CauchySchwarz(x, y);
      RootsMean(Dot(x, y), Dot(x, x), Dot(y, y), env.sqrt(Dot(x, x)), env.sqrt(Dot(y, y)), Cosine(env, x, y));
    }
  }
}
