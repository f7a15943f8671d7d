/** Trigram similarity of titles (dedupe.py), in exact arithmetic, and why it is nearly transitive. */
module TitleSimilarity {

  function Gram(padded: string, i: nat): string
    requires i + 3 <= |padded|
  {
    padded[i..i + 3]
  }

  /** The trigrams of a normalised text, padded as the source pads it. */
  function Trigrams(cleaned: string): set<string> {
    if cleaned == "" then {}
    else
      var padded := "  " + cleaned + " ";
      set i | 0 <= i < |padded| - 2 :: Gram(padded, i)
  }

  /** Jaccard similarity, with 0 whenever a set is empty. */
  function Jaccard(a: set<string>, b: set<string>): real {
    if a == {} || b == {} then 0.0
    else
      assert a <= a + b;
      NonEmptyUnion(a, b);
      |a * b| as real / |a + b| as real
  }

  /** A trigram is any three consecutive characters of the text after two spaces and before one; no text has none. */
  lemma TrigramsExact(cleaned: string, gram: string)
    ensures gram in Trigrams(cleaned) <==>
            |gram| == 3 && cleaned != ""
            && exists before: string, after: string :: before + gram + after == [' ', ' '] + cleaned + [' ']
  {
    var padded := [' ', ' '] + cleaned + [' '];
    if gram in Trigrams(cleaned) {
      var i :| 0 <= i < |padded| - 2 && Gram(padded, i) == gram;
      assert padded[..i] + gram + padded[i + 3..] == padded;
    }
    if before: string, after: string :| |gram| == 3 && cleaned != "" && before + gram + after == padded {
      assert Gram(padded, |before|) == gram by {
        assert (before + gram + after)[|before|..|before| + 3] == gram;
      }
    }
  }

  function Distance(a: set<string>, b: set<string>): real {
    1.0 - Jaccard(a, b)
  }

  lemma SubsetCard(a: set<string>, b: set<string>)
    requires a <= b
    ensures |a| <= |b| && |b - a| == |b| - |a|
  {
  }

  lemma NonEmptyUnion(a: set<string>, b: set<string>)
    requires a != {}
    ensures |a + b| > 0
  {
  }

  // ---------------------------------------------------------------- fractions

  /** A quotient is the only solution of its equation. */
  lemma QuotientIs(x: real, p: real, q: real)
    requires q > 0.0 && x * q == p
    ensures x == p / q
  {
  }

  lemma CrossMultiply(p: real, q: real, r: real, s: real)
    requires q > 0.0 && s > 0.0 && p * s <= r * q
    ensures p / q <= r / s
  {
  }

  lemma Ratio(p: nat, q: nat)
    requires p <= q && q > 0
    ensures 0.0 <= p as real / q as real <= 1.0
    ensures p as real / q as real == 1.0 <==> p == q
    ensures 1.0 - p as real / q as real == (q - p) as real / q as real
  {
    var x, d := p as real / q as real, q as real;
    assert x * d == p as real;
    CrossMultiply(0.0, d, p as real, d);
    assert 0.0 / d == 0.0 by { QuotientIs(0.0, 0.0, d); }
    CrossMultiply(p as real, d, d, d);
    QuotientIs(1.0, d, d);
    QuotientIs(1.0 - x, (q - p) as real, d);
  }

  // ---------------------------------------------------------------- similarity

  lemma JaccardSymmetric(a: set<string>, b: set<string>)
    ensures Jaccard(a, b) == Jaccard(b, a)
  {
    assert a + b == b + a && a * b == b * a;
  }

  lemma JaccardLaws(a: set<string>, b: set<string>)
    ensures 0.0 <= Jaccard(a, b) <= 1.0
    ensures a == {} || b == {} ==> Jaccard(a, b) == 0.0
    ensures a != {} && b != {} ==> (Jaccard(a, b) == 1.0 <==> a == b)
  {
    if a != {} && b != {} {
      NonEmptyUnion(a, b);
      SubsetCard(a * b, a + b);
      Ratio(|a * b|, |a + b|);
      OnlyEqualSetsAgree(a, b);
    }
  }

  lemma OnlyEqualSetsAgree(a: set<string>, b: set<string>)
    ensures |a * b| == |a + b| <==> a == b
  {
    SubsetCard(a * b, a + b);
    if a == b { assert a + b == a * b; }
    if |a * b| == |a + b| {
      var rest := (a + b) - a * b;
      assert rest == {};
      assert a <= b by { forall x | x in a ensures x in b { assert x !in rest; } }
      assert b <= a by { forall x | x in b ensures x in a { assert x !in rest; } }
    }
  }

  // ---------------------------------------------------------------- the triangle inequality

  /** How many elements are in one set only. */
  function Apart(a: set<string>, b: set<string>): nat {
    |a - b| + |b - a|
  }

  lemma DistanceIsApart(a: set<string>, b: set<string>)
    requires a != {} && b != {}
    ensures |a + b| > 0 && Apart(a, b) <= |a + b|
    ensures Distance(a, b) == Apart(a, b) as real / |a + b| as real
  {
  }

  /** An element in only one of `a` and `c` is apart from `b` once; one of `b` alone is apart twice. */
  lemma ApartThrough(a: set<string>, b: set<string>, c: set<string>)
    ensures Apart(a, c) + 2 * |b - (a + c)| <= Apart(a, b) + Apart(b, c)
  {
    var alone := b - (a + c);
    Detour(a, b, c, alone);
    Detour(c, b, a, alone);
  }

  lemma Detour(a: set<string>, b: set<string>, c: set<string>, alone: set<string>)
    requires alone == b - (a + c)
    ensures |a - c| + |alone| <= |a - b| + |b - c|
  {
    assert (a - c) !! alone;
    assert (a - c) + alone <= (a - b) + (b - c);
    SubsetCard((a - c) + alone, (a - b) + (b - c));
    assert (a - b) !! (b - c);
  }

  lemma Mediant(s: nat, u: nat, t: nat)
    requires 0 < u && s <= u
    ensures s as real / u as real <= (s + 2 * t) as real / (u + t) as real
  {
  }

  lemma LargerDenominator(p: nat, q: nat, r: nat)
    requires 0 < q <= r
    ensures p as real / r as real <= p as real / q as real
  {
  }

  /** Jaccard distance, with similarity 0 for empty sets, obeys the triangle inequality. */
  lemma TriangleInequality(a: set<string>, b: set<string>, c: set<string>)
    ensures Distance(a, c) <= Distance(a, b) + Distance(b, c)
  {
    JaccardLaws(a, b);
    JaccardLaws(b, c);
    JaccardLaws(a, c);
    if a != {} && b != {} && c != {} {
      DistanceIsApart(a, b);
      DistanceIsApart(b, c);
      DistanceIsApart(a, c);
      var s, u, t := Apart(a, c), |a + c|, |b - (a + c)|;
      assert (a + c) + (b - (a + c)) == a + b + c;
      assert |a + b + c| == u + t;
      SubsetCard(a + b, a + b + c);
      SubsetCard(b + c, a + b + c);
      LargerDenominator(Apart(a, b), |a + b|, u + t);
      LargerDenominator(Apart(b, c), |b + c|, u + t);
      ApartThrough(a, b, c);
      Mediant(s, u, t);
      SumOver(Apart(a, b), Apart(b, c), s + 2 * t, u + t);
    }
  }

  lemma SumOver(p: nat, q: nat, least: nat, d: nat)
    requires d > 0 && least <= p + q
    ensures least as real / d as real <= p as real / d as real + q as real / d as real
  {
  }

  /** Titles that each reach the threshold against a third are never strangers to each other. */
  lemma SimilarToACommonTitle(a: set<string>, b: set<string>, c: set<string>)
    requires Jaccard(a, b) >= 0.6 && Jaccard(b, c) >= 0.6
    ensures Jaccard(a, c) >= 0.2
  {
    TriangleInequality(a, b, c);
  }
}
