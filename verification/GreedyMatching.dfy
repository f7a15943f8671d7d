/**
 Pairing predicted requirements with gold ones (evals.py).

 Greedy best-first over every pair whose similarity reaches the threshold.  The similarity is an
 arbitrary function: nothing below depends on how texts are compared.
 */
module GreedyMatching {

  type Similarity = (string, string) -> real

  const MATCH_THRESHOLD: real := 0.6

  datatype Edge = Edge(score: real, p: nat, g: nat)

  /** The order of `scored.sort(reverse=True)` on `(score, p_index, g_index)` tuples. */
  predicate Precedes(a: Edge, b: Edge) {
    a.score > b.score || (a.score == b.score && (a.p > b.p || (a.p == b.p && a.g >= b.g)))
  }

  /** The better score first; of equal scores the later prediction, and of one prediction the later gold item. */
  predicate Ahead(a: Edge, b: Edge) {
    && a.score >= b.score
    && (a.score == b.score ==> a.p >= b.p)
    && (a.score == b.score && a.p == b.p ==> a.g >= b.g)
  }

  ghost predicate Descending(s: seq<Edge>) {
    forall i, j :: 0 <= i < j < |s| ==> Ahead(s[i], s[j])
  }

  function Inserted(e: Edge, s: seq<Edge>): seq<Edge> {
    if s == [] || Precedes(e, s[0]) then [e] + s else [s[0]] + Inserted(e, s[1..])
  }

  lemma PrecedesIsAhead(a: Edge, b: Edge)
    ensures Precedes(a, b) <==> Ahead(a, b)
    ensures Ahead(a, b) || Ahead(b, a)
  {
  }

  lemma {:induction false} InsertedKeepsOrder(e: Edge, s: seq<Edge>)
    requires Descending(s)
    ensures Descending(Inserted(e, s))
    ensures forall x :: x in Inserted(e, s) <==> x == e || x in s
  {
    var r := Inserted(e, s);
    if s == [] {
    } else if Precedes(e, s[0]) {
      forall j | 0 < j < |r| ensures Ahead(e, r[j]) {
        PrecedesIsAhead(e, s[0]);
        if j > 1 { assert Ahead(s[0], s[j - 1]); }
      }
    } else {
      InsertedKeepsOrder(e, s[1..]);
      assert s == [s[0]] + s[1..];
      forall j | 0 < j < |r| ensures Ahead(s[0], r[j]) {
        assert r[j] in Inserted(e, s[1..]);
        PrecedesIsAhead(e, s[0]);
      }
    }
  }

  lemma {:induction false} InsertedKeepsAll(e: Edge, s: seq<Edge>)
    ensures multiset(Inserted(e, s)) == multiset(s) + multiset{e}
  {
    if s != [] && !Precedes(e, s[0]) {
      InsertedKeepsAll(e, s[1..]);
      assert s == [s[0]] + s[1..];
    }
  }

  method SortDescending(s: seq<Edge>) returns (r: seq<Edge>)
    ensures Descending(r) && multiset(r) == multiset(s)
    ensures forall e :: e in r <==> e in s
  {
    r := [];
    for i := 0 to |s|
      invariant Descending(r) && multiset(r) == multiset(s[..i])
      invariant forall e :: e in r <==> e in s[..i]
    {
      InsertedKeepsOrder(s[i], r);
      InsertedKeepsAll(s[i], r);
      r := Inserted(s[i], r);
      assert s[..i + 1] == s[..i] + [s[i]];
    }
    assert s[..|s|] == s;
  }

  // ---------------------------------------------------------------- what a pairing must satisfy

  type Pairs = seq<(nat, nat)>

  ghost predicate Eligible(predicted: seq<string>, gold: seq<string>, sim: Similarity, p: nat, g: nat) {
    p < |predicted| && g < |gold| && sim(predicted[p], gold[g]) >= 0.6
  }

  ghost predicate OneToOne(pairs: Pairs) {
    forall k, l :: 0 <= k < l < |pairs| ==> pairs[k].0 != pairs[l].0 && pairs[k].1 != pairs[l].1
  }

  function EdgeOf(w: (nat, nat) -> real, p: nat, g: nat): Edge {
    Edge(w(p, g), p, g)
  }

  /** The pair uses one of the two ends and is ahead. */
  predicate Bars(w: (nat, nat) -> real, pair: (nat, nat), p: nat, g: nat) {
    (pair.0 == p || pair.1 == g) && Ahead(EdgeOf(w, pair.0, pair.1), EdgeOf(w, p, g))
  }

  ghost predicate Blocked(w: (nat, nat) -> real, pairs: Pairs, p: nat, g: nat) {
    exists k :: 0 <= k < |pairs| && Bars(w, pairs[k], p, g)
  }

  function Weight(predicted: seq<string>, gold: seq<string>, sim: Similarity): (nat, nat) -> real {
    (p: nat, g: nat) => if p < |predicted| && g < |gold| then sim(predicted[p], gold[g]) else 0.0
  }

  /** A one-to-one choice of eligible pairs, best first, that no eligible pair could improve on. */
  ghost predicate Stable(predicted: seq<string>, gold: seq<string>, sim: Similarity, pairs: Pairs) {
    var w := Weight(predicted, gold, sim);
    && OneToOne(pairs)
    && (forall k :: 0 <= k < |pairs| ==> Eligible(predicted, gold, sim, pairs[k].0, pairs[k].1))
    && BestFirst(w, pairs)
    && (forall p, g {:trigger Blocked(w, pairs, p, g)} ::
          Eligible(predicted, gold, sim, p, g) ==> Blocked(w, pairs, p, g))
  }

  /** The indices below `n` outside `used`, in order. */
  ghost predicate IsComplement(rest: seq<nat>, n: nat, used: set<nat>) {
    && (forall i :: i in rest <==> 0 <= i < n && i !in used)
    && (forall i, j :: 0 <= i < j < |rest| ==> rest[i] < rest[j])
  }

  function Firsts(pairs: Pairs): set<nat> {
    set k | 0 <= k < |pairs| :: pairs[k].0
  }

  function Seconds(pairs: Pairs): set<nat> {
    set k | 0 <= k < |pairs| :: pairs[k].1
  }

  // ---------------------------------------------------------------- the algorithm

  method ScoreAll(predicted: seq<string>, gold: seq<string>, sim: Similarity) returns (scored: seq<Edge>)
    ensures forall e :: e in scored <==>
              Eligible(predicted, gold, sim, e.p, e.g) && e.score == sim(predicted[e.p], gold[e.g])
  {
    scored := [];
    for p := 0 to |predicted|
      invariant forall e :: e in scored <==>
                  e.p < p && Eligible(predicted, gold, sim, e.p, e.g) && e.score == sim(predicted[e.p], gold[e.g])
    {
      for g := 0 to |gold|
        invariant forall e :: e in scored <==>
                    && (e.p < p || (e.p == p && e.g < g)) && Eligible(predicted, gold, sim, e.p, e.g)
                    && e.score == sim(predicted[e.p], gold[e.g])
      {
        var score := sim(predicted[p], gold[g]);
        if score >= MATCH_THRESHOLD {
          scored := scored + [Edge(score, p, g)];
        }
      }
    }
  }

  method Complement(n: nat, used: set<nat>) returns (rest: seq<nat>)
    ensures IsComplement(rest, n, used)
  {
    rest := [];
    for i := 0 to n
      invariant IsComplement(rest, i, used) && forall k :: 0 <= k < |rest| ==> rest[k] < i
    {
      if i !in used {
        rest := rest + [i];
      }
    }
  }

  ghost predicate BestFirst(w: (nat, nat) -> real, pairs: Pairs) {
    forall k, l :: 0 <= k < l < |pairs| ==>
                     Ahead(EdgeOf(w, pairs[k].0, pairs[k].1), EdgeOf(w, pairs[l].0, pairs[l].1))
  }

  lemma StaysBlocked(w: (nat, nat) -> real, pairs: Pairs, x: (nat, nat), p: nat, g: nat)
    requires Blocked(w, pairs, p, g)
    ensures Blocked(w, pairs + [x], p, g)
  {
    var k :| 0 <= k < |pairs| && Bars(w, pairs[k], p, g);
    assert (pairs + [x])[k] == pairs[k];
  }

  /** The pair is one of the first `i` edges. */
  ghost predicate ComesFrom(scored: seq<Edge>, w: (nat, nat) -> real, i: nat, pair: (nat, nat))
    requires i <= |scored|
  {
    exists j :: 0 <= j < i && scored[j] == EdgeOf(w, pair.0, pair.1)
  }

  /** The state of the greedy pass after `i` edges: what is picked comes from them, best first, and blocks them all. */
  ghost predicate PickedFrom(scored: seq<Edge>, w: (nat, nat) -> real, i: nat, pairs: Pairs)
    requires i <= |scored|
  {
    && OneToOne(pairs) && BestFirst(w, pairs)
    && (forall k {:trigger ComesFrom(scored, w, i, pairs[k])} :: 0 <= k < |pairs| ==> ComesFrom(scored, w, i, pairs[k]))
    && (forall j {:trigger Blocked(w, pairs, scored[j].p, scored[j].g)} :: 0 <= j < i ==>
          Blocked(w, pairs, scored[j].p, scored[j].g))
  }

  /** What was picked from the first `i` edges scores at least as much as edge `i`. */
  lemma PickedEarlier(scored: seq<Edge>, w: (nat, nat) -> real, i: nat, pair: (nat, nat))
    requires Descending(scored) && i < |scored| && scored[i].score == w(scored[i].p, scored[i].g)
    requires ComesFrom(scored, w, i, pair)
    ensures Ahead(EdgeOf(w, pair.0, pair.1), scored[i]) && ComesFrom(scored, w, i + 1, pair)
  {
  }

  lemma SkipOne(scored: seq<Edge>, w: (nat, nat) -> real, i: nat, pairs: Pairs)
    requires Descending(scored) && i < |scored| && scored[i].score == w(scored[i].p, scored[i].g)
    requires PickedFrom(scored, w, i, pairs)
    requires scored[i].p in Firsts(pairs) || scored[i].g in Seconds(pairs)
    ensures PickedFrom(scored, w, i + 1, pairs)
  {
    forall k | 0 <= k < |pairs|
      ensures Ahead(EdgeOf(w, pairs[k].0, pairs[k].1), scored[i]) && ComesFrom(scored, w, i + 1, pairs[k])
    {
      PickedEarlier(scored, w, i, pairs[k]);
    }
    var k :| 0 <= k < |pairs| && (pairs[k].0 == scored[i].p || pairs[k].1 == scored[i].g);
    assert Bars(w, pairs[k], scored[i].p, scored[i].g);
  }

  lemma PickOne(scored: seq<Edge>, w: (nat, nat) -> real, i: nat, pairs: Pairs)
    requires Descending(scored) && i < |scored| && scored[i].score == w(scored[i].p, scored[i].g)
    requires PickedFrom(scored, w, i, pairs)
    requires scored[i].p !in Firsts(pairs) && scored[i].g !in Seconds(pairs)
    ensures PickedFrom(scored, w, i + 1, pairs + [(scored[i].p, scored[i].g)])
  {
    var x := (scored[i].p, scored[i].g);
    var more := pairs + [x];
    forall k | 0 <= k < |pairs|
      ensures Ahead(EdgeOf(w, pairs[k].0, pairs[k].1), scored[i]) && ComesFrom(scored, w, i + 1, pairs[k])
      ensures pairs[k].0 != x.0 && pairs[k].1 != x.1
    {
      PickedEarlier(scored, w, i, pairs[k]);
      assert pairs[k].0 in Firsts(pairs) && pairs[k].1 in Seconds(pairs);
    }
    forall j | 0 <= j < i ensures Blocked(w, more, scored[j].p, scored[j].g) {
      StaysBlocked(w, pairs, x, scored[j].p, scored[j].g);
    }
    assert Bars(w, more[|pairs|], x.0, x.1);
    assert ComesFrom(scored, w, i + 1, x);
  }

  method PickGreedily(scored: seq<Edge>, ghost w: (nat, nat) -> real)
    returns (pairs: Pairs, usedP: set<nat>, usedG: set<nat>)
    requires Descending(scored) && forall i :: 0 <= i < |scored| ==> scored[i].score == w(scored[i].p, scored[i].g)
    ensures PickedFrom(scored, w, |scored|, pairs) && usedP == Firsts(pairs) && usedG == Seconds(pairs)
  {
    pairs, usedP, usedG := [], {}, {};
    for i := 0 to |scored|
      invariant PickedFrom(scored, w, i, pairs) && usedP == Firsts(pairs) && usedG == Seconds(pairs)
    {
      var edge := scored[i];
      if edge.p in usedP || edge.g in usedG {
        SkipOne(scored, w, i, pairs);
      } else {
        ghost var before := pairs;
        PickOne(scored, w, i, pairs);
        pairs := pairs + [(edge.p, edge.g)];
        usedP, usedG := usedP + {edge.p}, usedG + {edge.g};
        UsedGrow(before, edge.p, edge.g);
      }
    }
  }

  lemma UsedGrow(pairs: Pairs, p: nat, g: nat)
    ensures Firsts(pairs + [(p, g)]) == Firsts(pairs) + {p}
    ensures Seconds(pairs + [(p, g)]) == Seconds(pairs) + {g}
  {
    var more := pairs + [(p, g)];
    assert more[|pairs|] == (p, g);
    assert forall k :: 0 <= k < |pairs| ==> more[k] == pairs[k];
  }

  method MatchRequirements(predicted: seq<string>, gold: seq<string>, sim: Similarity)
    returns (pairs: Pairs, unmatchedPredicted: seq<nat>, unmatchedGold: seq<nat>)
    ensures Stable(predicted, gold, sim, pairs)
    ensures IsComplement(unmatchedPredicted, |predicted|, Firsts(pairs))
    ensures IsComplement(unmatchedGold, |gold|, Seconds(pairs))
  {
    var scored := ScoreAll(predicted, gold, sim);
    var sorted := SortDescending(scored);
    ghost var w := Weight(predicted, gold, sim);
    var usedP, usedG;
    pairs, usedP, usedG := PickGreedily(sorted, w);
    forall k | 0 <= k < |pairs| ensures Eligible(predicted, gold, sim, pairs[k].0, pairs[k].1) {
      assert ComesFrom(sorted, w, |sorted|, pairs[k]);
    }
    forall p, g | Eligible(predicted, gold, sim, p, g) ensures Blocked(w, pairs, p, g) {
      assert EdgeOf(w, p, g) in sorted;
    }
    unmatchedPredicted := Complement(|predicted|, usedP);
    unmatchedGold := Complement(|gold|, usedG);
  }

  // ---------------------------------------------------------------- there is one stable pairing

  lemma SharedEndIsSame(pairs: Pairs, k: nat, l: nat)
    requires OneToOne(pairs) && k < |pairs| && l < |pairs|
    requires pairs[k].0 == pairs[l].0 || pairs[k].1 == pairs[l].1
    ensures k == l
  {
  }

  /** A pair of one stable pairing has a pair of the other, not earlier than where they part, ahead of it or equal. */
  lemma OtherIsAhead(predicted: seq<string>, gold: seq<string>, sim: Similarity, a: Pairs, b: Pairs, k: nat)
    requires Stable(predicted, gold, sim, a) && Stable(predicted, gold, sim, b) && k < |a|
    requires k <= |b| && a[..k] == b[..k]
    ensures var w := Weight(predicted, gold, sim);
            k < |b| && Ahead(EdgeOf(w, b[k].0, b[k].1), EdgeOf(w, a[k].0, a[k].1))
  {
    var w := Weight(predicted, gold, sim);
    assert Eligible(predicted, gold, sim, a[k].0, a[k].1);
    assert Blocked(w, b, a[k].0, a[k].1);
    var m :| 0 <= m < |b| && Bars(w, b[m], a[k].0, a[k].1);
    if m < k { assert false; }
    if m > k { assert Ahead(EdgeOf(w, b[k].0, b[k].1), EdgeOf(w, b[m].0, b[m].1)); }
  }

  lemma {:induction false} SameSoFar(predicted: seq<string>, gold: seq<string>, sim: Similarity, a: Pairs, b: Pairs,
                                     k: nat)
    requires Stable(predicted, gold, sim, a) && Stable(predicted, gold, sim, b) && k <= |a|
    ensures k <= |b| && a[..k] == b[..k]
  {
    if k > 0 {
      SameSoFar(predicted, gold, sim, a, b, k - 1);
      OtherIsAhead(predicted, gold, sim, a, b, k - 1);
      OtherIsAhead(predicted, gold, sim, b, a, k - 1);
      assert a[k - 1] == b[k - 1];
      assert a[..k] == a[..k - 1] + [a[k - 1]] && b[..k] == b[..k - 1] + [b[k - 1]];
    }
  }

  /** An input has only one stable pairing, so being stable says everything about the pairs returned, ties included. */
  lemma StableIsUnique(predicted: seq<string>, gold: seq<string>, sim: Similarity, a: Pairs, b: Pairs)
    requires Stable(predicted, gold, sim, a) && Stable(predicted, gold, sim, b)
    ensures a == b
  {
    SameSoFar(predicted, gold, sim, a, b, |a|);
    SameSoFar(predicted, gold, sim, b, a, |b|);
    assert a[..|a|] == a && b[..|b|] == b;
  }

  // ---------------------------------------------------------------- how good a stable pairing is

  function PairTotal(w: (nat, nat) -> real, pairs: Pairs): real {
    if pairs == [] then 0.0
    else PairTotal(w, pairs[..|pairs| - 1]) + w(pairs[|pairs| - 1].0, pairs[|pairs| - 1].1)
  }

  /** A matching as a map from predicted to gold indices; its total over predicted indices below `n`. */
  function Total(w: (nat, nat) -> real, m: map<nat, nat>, n: nat): real {
    if n == 0 then 0.0
    else Total(w, m, n - 1) + if n - 1 in m then w(n - 1, m[n - 1]) else 0.0
  }

  ghost predicate Injective(m: map<nat, nat>) {
    forall p, q :: p in m && q in m && m[p] == m[q] ==> p == q
  }

  lemma {:induction false} TotalWithout(w: (nat, nat) -> real, m: map<nat, nat>, p: nat, n: nat)
    requires p in m
    ensures Total(w, m, n) == Total(w, m - {p}, n) + if p < n then w(p, m[p]) else 0.0
  {
    if n > 0 { TotalWithout(w, m, p, n - 1); }
  }

  /** Take out of `m` an edge that the pair `f` accounts for, if there is one at `p`. */
  function Released(w: (nat, nat) -> real, m: map<nat, nat>, f: (nat, nat), p: nat): map<nat, nat> {
    if p in m && w(p, m[p]) <= w(f.0, f.1) then m - {p} else m
  }

  lemma ReleasedCost(w: (nat, nat) -> real, m: map<nat, nat>, f: (nat, nat), p: nat, n: nat)
    requires w(f.0, f.1) >= 0.0
    ensures |m| <= |Released(w, m, f, p)| + 1
    ensures Total(w, m, n) <= Total(w, Released(w, m, f, p), n) + w(f.0, f.1)
  {
    if p in m && w(p, m[p]) <= w(f.0, f.1) {
      TotalWithout(w, m, p, n);
      assert m.Keys == (m - {p}).Keys + {p};
    }
  }

  /** At most two edges of a matching are barred by one pair; take them out. */
  lemma Discharge(w: (nat, nat) -> real, m: map<nat, nat>, f: (nat, nat), n: nat) returns (rest: map<nat, nat>)
    requires Injective(m) && w(f.0, f.1) >= 0.0
    ensures Injective(rest) && |m| <= |rest| + 2
    ensures Total(w, m, n) <= Total(w, rest, n) + 2.0 * w(f.0, f.1)
    ensures forall p :: p in rest ==> p in m && rest[p] == m[p] && !Bars(w, f, p, m[p])
  {
    var m1 := Released(w, m, f, f.0);
    ReleasedCost(w, m, f, f.0, n);
    if q :| q in m1 && m1[q] == f.1 {
      rest := Released(w, m1, f, q);
      ReleasedCost(w, m1, f, q, n);
    } else {
      rest := m1;
    }
  }

  /** Charge each edge of a matching to a pair that blocks it: no pair is charged more than twice. */
  lemma {:induction false} ChargeTwice(w: (nat, nat) -> real, pairs: Pairs, m: map<nat, nat>, n: nat)
    requires Injective(m)
    requires forall k :: 0 <= k < |pairs| ==> w(pairs[k].0, pairs[k].1) >= 0.0
    requires forall p {:trigger Blocked(w, pairs, p, m[p])} :: p in m ==> Blocked(w, pairs, p, m[p])
    ensures |m| <= 2 * |pairs|
    ensures Total(w, m, n) <= 2.0 * PairTotal(w, pairs)
    decreases |pairs|
  {
    if pairs == [] {
      if p :| p in m {
        NothingBlocks(w, p, m[p]);
        assert false;
      }
      EmptyTotal(w, n);
    } else {
      var f, rest := pairs[|pairs| - 1], pairs[..|pairs| - 1];
      var m' := Discharge(w, m, f, n);
      forall p | p in m' ensures Blocked(w, rest, p, m'[p]) {
        assert Blocked(w, pairs, p, m[p]);
        var k :| 0 <= k < |pairs| && Bars(w, pairs[k], p, m[p]);
        assert rest[k] == pairs[k];
      }
      ChargeTwice(w, rest, m', n);
    }
  }

  lemma NothingBlocks(w: (nat, nat) -> real, p: nat, g: nat)
    ensures !Blocked(w, [], p, g)
  {
  }

  lemma {:induction false} EmptyTotal(w: (nat, nat) -> real, n: nat)
    ensures Total(w, map[], n) == 0.0
  {
    if n > 0 { EmptyTotal(w, n - 1); }
  }

  /** A stable pairing has at least half the pairs and half the score of any matching of eligible pairs,
      and cannot be extended. */
  lemma HalfAsGoodAsAny(predicted: seq<string>, gold: seq<string>, sim: Similarity, pairs: Pairs, m: map<nat, nat>)
    requires Stable(predicted, gold, sim, pairs)
    requires Injective(m) && forall p :: p in m ==> Eligible(predicted, gold, sim, p, m[p])
    ensures |m| <= 2 * |pairs|
    ensures var w := Weight(predicted, gold, sim); Total(w, m, |predicted|) <= 2.0 * PairTotal(w, pairs)
    ensures forall p, g :: Eligible(predicted, gold, sim, p, g) ==> p in Firsts(pairs) || g in Seconds(pairs)
  {
    var w := Weight(predicted, gold, sim);
    ChargeTwice(w, pairs, m, |predicted|);
    forall p, g | Eligible(predicted, gold, sim, p, g) ensures p in Firsts(pairs) || g in Seconds(pairs) {
      assert Blocked(w, pairs, p, g);
    }
  }

  /** A pair better than every other that shares an end with all of them leaves room for none. */
  lemma OnlyTheBestPair(predicted: seq<string>, gold: seq<string>, sim: Similarity, pairs: Pairs)
    requires Stable(predicted, gold, sim, pairs) && Eligible(predicted, gold, sim, 0, 0)
    requires forall p: nat, g: nat :: Eligible(predicted, gold, sim, p, g) && (p > 0 || g > 0) ==>
               (p == 0 || g == 0) && sim(predicted[p], gold[g]) < sim(predicted[0], gold[0])
    ensures |pairs| == 1
  {
    var w := Weight(predicted, gold, sim);
    assert Blocked(w, pairs, 0, 0);
    var k :| 0 <= k < |pairs| && Bars(w, pairs[k], 0, 0);
    assert Eligible(predicted, gold, sim, pairs[k].0, pairs[k].1);
    var last := |pairs| - 1;
    assert Eligible(predicted, gold, sim, pairs[0].0, pairs[0].1);
    assert Eligible(predicted, gold, sim, pairs[last].0, pairs[last].1);
    SharedEndIsSame(pairs, k, 0);
    SharedEndIsSame(pairs, k, last);
  }

  /** The factor two is reached: an input with a matching of two pairs on which every stable pairing, and so the one
      returned, has a single pair. */
  lemma HalfIsTight() returns (predicted: seq<string>, gold: seq<string>, sim: Similarity, m: map<nat, nat>)
    ensures Injective(m) && |m| == 2 && forall p :: p in m ==> Eligible(predicted, gold, sim, p, m[p])
    ensures forall pairs :: Stable(predicted, gold, sim, pairs) ==> |pairs| == 1
  {
    predicted, gold, m := ["a", "b"], ["c", "d"], map[0 := 1, 1 := 0];
    sim := (x: string, y: string) => if x == "a" && y == "c" then 1.0 else if x == "b" && y == "d" then 0.0 else 0.8;
    assert "a" != "b" && "c" != "d";
    forall pairs | Stable(predicted, gold, sim, pairs) ensures |pairs| == 1 {
      OnlyTheBestPair(predicted, gold, sim, pairs);
    }
  }
}
