/**
 Joining the two extraction passes (scripts/run_eval.py).

 A requirement is a dict: `kind` is its `type`, absent or not, and `disputed` the `disputed_type` key, absent or
 present with a value that may itself be None.  The similarity is an arbitrary function.
 */
module ExtractionUnion {
  import opened Common

  type Similarity = (string, string) -> real

  const MATCH_THRESHOLD: real := 0.6

  const ELIMINATORY: Option<string> := Some("eliminatory")

  datatype Item = Item(text: string, kind: Option<string>, disputed: Option<Option<string>>, reference: string)

  function Absorb(existing: Item, candidate: Item): Item {
    if candidate.kind == ELIMINATORY && existing.kind != ELIMINATORY
    then existing.(disputed := Some(existing.kind), kind := ELIMINATORY)
    else if candidate.kind != existing.kind then existing.(disputed := Some(candidate.kind))
    else existing
  }

  predicate Similar(sim: Similarity, candidate: Item, existing: Item) {
    sim(candidate.text, existing.text) >= MATCH_THRESHOLD
  }

  /** Where a candidate goes: the first similar item, or past the end. */
  function Slot(sim: Similarity, kept: seq<Item>, candidate: Item): (k: nat)
    ensures k <= |kept|
    ensures k < |kept| ==> Similar(sim, candidate, kept[k])
    ensures forall i :: 0 <= i < k ==> !Similar(sim, candidate, kept[i])
  {
    if kept == [] || Similar(sim, candidate, kept[0]) then 0 else 1 + Slot(sim, kept[1..], candidate)
  }

  function Added(sim: Similarity, kept: seq<Item>, candidate: Item): seq<Item> {
    var k := Slot(sim, kept, candidate);
    if k == |kept| then kept + [candidate] else kept[k := Absorb(kept[k], candidate)]
  }

  function Union(sim: Similarity, items: seq<Item>): seq<Item> {
    if items == [] then [] else Added(sim, Union(sim, items[..|items| - 1]), items[|items| - 1])
  }

  function Ref(index: nat): string {
    "REQ-" + Padded(index, 3)
  }

  function Numbered(kept: seq<Item>): seq<Item> {
    seq(|kept|, i requires 0 <= i < |kept| => kept[i].(reference := Ref(i + 1)))
  }

  method Dedupe(sim: Similarity, requirements: seq<Item>) returns (kept: seq<Item>)
    ensures kept == Numbered(Union(sim, requirements))
  {
    kept := [];
    for i := 0 to |requirements|
      invariant kept == Union(sim, requirements[..i])
    {
      var candidate := requirements[i];
      assert requirements[..i + 1][..i] == requirements[..i];
      var k := 0;
      while k < |kept| && !Similar(sim, candidate, kept[k])
        invariant k <= |kept| && Slot(sim, kept, candidate) >= k
      {
        k := k + 1;
      }
      if k < |kept| {
        var existing := kept[k];
        if candidate.kind == ELIMINATORY && existing.kind != ELIMINATORY {
          kept := kept[k := existing.(disputed := Some(existing.kind), kind := ELIMINATORY)];
        } else if candidate.kind != existing.kind {
          kept := kept[k := existing.(disputed := Some(candidate.kind))];
        }
      } else {
        kept := kept + [candidate];
      }
    }
    assert requirements[..|requirements|] == requirements;
    kept := Renumber(kept);
  }

  method Renumber(kept: seq<Item>) returns (numbered: seq<Item>)
    ensures numbered == Numbered(kept)
  {
    numbered := kept;
    for index := 0 to |kept|
      invariant |numbered| == |kept|
      invariant forall j :: 0 <= j < index ==> numbered[j] == kept[j].(reference := Ref(j + 1))
      invariant forall j :: index <= j < |kept| ==> numbered[j] == kept[j]
    {
      numbered := numbered[index := numbered[index].(reference := Ref(index + 1))];
    }
  }

  // ---------------------------------------------------------------- where every requirement ended up

  function Home(sim: Similarity, items: seq<Item>, i: nat): nat
    requires i < |items|
  {
    Slot(sim, Union(sim, items[..i]), items[i])
  }

  ghost predicate Separated(sim: Similarity, kept: seq<Item>) {
    forall i, j :: 0 <= i < j < |kept| ==> sim(kept[j].text, kept[i].text) < 0.6
  }

  /** A requirement of this kind ended up in kept item `k`. */
  ghost predicate Saw(sim: Similarity, items: seq<Item>, k: nat, kind: Option<string>) {
    exists i: nat :: i < |items| && Home(sim, items, i) == k && items[i].kind == kind
  }

  ghost predicate SawTwo(sim: Similarity, items: seq<Item>, k: nat) {
    exists a, b :: a != b && Saw(sim, items, k, a) && Saw(sim, items, k, b)
  }

  predicate Undisputed(items: seq<Item>) {
    forall i :: 0 <= i < |items| ==> items[i].disputed.None?
  }

  /** The verdict on kept item `k`: its type was seen, it is eliminatory if any was, and a disagreement is on
      record, under a type that was seen and is not the final one, exactly when there was one. */
  ghost predicate Judged(sim: Similarity, items: seq<Item>, k: nat, item: Item) {
    && Saw(sim, items, k, item.kind)
    && (Saw(sim, items, k, Some("eliminatory")) ==> item.kind == Some("eliminatory"))
    && (SawTwo(sim, items, k) ==> item.disputed.Some? && item.disputed.value != item.kind
                                  && Saw(sim, items, k, item.disputed.value))
    && (Undisputed(items) && item.disputed.Some? ==> SawTwo(sim, items, k))
  }

  lemma HomesGrow(sim: Similarity, items: seq<Item>, last: Item, k: nat, kind: Option<string>)
    ensures Saw(sim, items + [last], k, kind) <==>
            Saw(sim, items, k, kind) || (Slot(sim, Union(sim, items), last) == k && last.kind == kind)
  {
    var all := items + [last];
    forall i: nat | i < |items| ensures Home(sim, all, i) == Home(sim, items, i) && all[i] == items[i] {
      assert all[..i] == items[..i];
    }
    assert all[..|items|] == items && all[|items|] == last;
    if Saw(sim, all, k, kind) {
      var i: nat :| i < |all| && Home(sim, all, i) == k && all[i].kind == kind;
    }
    if Saw(sim, items, k, kind) {
      var i: nat :| i < |items| && Home(sim, items, i) == k && items[i].kind == kind;
      assert Home(sim, all, i) == k;
    }
    if Slot(sim, Union(sim, items), last) == k && last.kind == kind {
      assert Home(sim, all, |items|) == k;
    }
  }

  ghost predicate AllJudged(sim: Similarity, items: seq<Item>, kept: seq<Item>) {
    && (forall k: nat :: k < |kept| ==> Judged(sim, items, k, kept[k]))
    && (forall k: nat, kind :: Saw(sim, items, k, kind) ==> k < |kept|)
  }

  /** `all` has seen exactly what `items` have, and `extra` if it is given. */
  ghost predicate SeesAlso(sim: Similarity, items: seq<Item>, all: seq<Item>, k: nat, extra: Option<Item>) {
    forall kind :: Saw(sim, all, k, kind) <==> Saw(sim, items, k, kind) || (extra.Some? && extra.value.kind == kind)
  }

  lemma JudgedUnchanged(sim: Similarity, items: seq<Item>, all: seq<Item>, k: nat, item: Item)
    requires SeesAlso(sim, items, all, k, None) && Judged(sim, items, k, item)
    requires Undisputed(all) ==> Undisputed(items)
    ensures Judged(sim, all, k, item)
  {
    if SawTwo(sim, all, k) {
      var a, b :| a != b && Saw(sim, all, k, a) && Saw(sim, all, k, b);
      assert Saw(sim, items, k, a) && Saw(sim, items, k, b);
    }
    if SawTwo(sim, items, k) {
      var a, b :| a != b && Saw(sim, items, k, a) && Saw(sim, items, k, b);
      assert Saw(sim, all, k, a) && Saw(sim, all, k, b);
    }
  }

  lemma JudgedAbsorbed(sim: Similarity, items: seq<Item>, all: seq<Item>, k: nat, item: Item, last: Item)
    requires SeesAlso(sim, items, all, k, Some(last)) && Judged(sim, items, k, item)
    requires Undisputed(all) ==> Undisputed(items)
    ensures Judged(sim, all, k, Absorb(item, last))
  {
    assert Saw(sim, items, k, item.kind) && Saw(sim, all, k, item.kind) && Saw(sim, all, k, last.kind);
    if last.kind == item.kind {
      assert SeesAlso(sim, items, all, k, None);
      JudgedUnchanged(sim, items, all, k, item);
    } else {
      assert SawTwo(sim, all, k);
    }
  }

  lemma JudgedOpened(sim: Similarity, all: seq<Item>, k: nat, last: Item)
    requires forall kind :: Saw(sim, all, k, kind) <==> kind == last.kind
    requires Undisputed(all) ==> last.disputed.None?
    ensures Judged(sim, all, k, last)
  {
  }

  lemma JudgedStep(sim: Similarity, items: seq<Item>, last: Item)
    requires AllJudged(sim, items, Union(sim, items))
    ensures AllJudged(sim, items + [last], Added(sim, Union(sim, items), last))
  {
    var all, kept, slot := items + [last], Union(sim, items), Slot(sim, Union(sim, items), last);
    var after := Added(sim, kept, last);
    assert Undisputed(all) ==> Undisputed(items) && last.disputed.None? by {
      if Undisputed(all) {
        assert all[|items|].disputed.None?;
        forall i | 0 <= i < |items| ensures items[i].disputed.None? { assert all[i].disputed.None?; }
      }
    }
    forall k: nat, kind
      ensures Saw(sim, all, k, kind) <==> Saw(sim, items, k, kind) || (slot == k && last.kind == kind)
    {
      HomesGrow(sim, items, last, k, kind);
    }
    forall k: nat | k < |after| ensures Judged(sim, all, k, after[k]) {
      if k == |kept| {
        JudgedOpened(sim, all, k, last);
      } else if k == slot {
        JudgedAbsorbed(sim, items, all, k, kept[k], last);
      } else {
        JudgedUnchanged(sim, items, all, k, kept[k]);
      }
    }
  }

  /** Every requirement ends in a kept item; an eliminatory one never ends in anything weaker, and disagreements
      are flagged. */
  lemma {:induction false} NothingWeakened(sim: Similarity, items: seq<Item>)
    ensures AllJudged(sim, items, Union(sim, items))
  {
    if items == [] {
    } else {
      var earlier := items[..|items| - 1];
      NothingWeakened(sim, earlier);
      JudgedStep(sim, earlier, items[|items| - 1]);
      assert earlier + [items[|items| - 1]] == items;
    }
  }

  /** The same, read off the numbered result. */
  lemma EliminatoryIsNeverLost(sim: Similarity, items: seq<Item>, i: nat)
    requires i < |items| && items[i].kind == Some("eliminatory")
    ensures var k := Home(sim, items, i);
            k < |Union(sim, items)| && Numbered(Union(sim, items))[k].kind == Some("eliminatory")
  {
    NothingWeakened(sim, items);
    assert Saw(sim, items, Home(sim, items, i), Some("eliminatory"));
  }

  // ---------------------------------------------------------------- what is kept is distinct

  lemma {:induction false} KeptAreSeparated(sim: Similarity, items: seq<Item>)
    ensures Separated(sim, Union(sim, items))
  {
    if items != [] { KeptAreSeparated(sim, items[..|items| - 1]); }
  }

  lemma PrefixSeparated(sim: Similarity, kept: seq<Item>, n: nat)
    requires n <= |kept| && Separated(sim, kept)
    ensures Separated(sim, kept[..n])
  {
  }

  /** Joining what has been joined changes nothing. */
  lemma {:induction false} JoiningTwiceIsOnce(sim: Similarity, kept: seq<Item>)
    requires Separated(sim, kept)
    ensures Union(sim, kept) == kept
  {
    if kept != [] {
      var n := |kept| - 1;
      PrefixSeparated(sim, kept, n);
      JoiningTwiceIsOnce(sim, kept[..n]);
      assert kept[..n] + [kept[n]] == kept;
      assert Slot(sim, kept[..n], kept[n]) == n;
    }
  }

  lemma SamePrefix(prefix: string, a: string, b: string)
    requires prefix + a == prefix + b
    ensures a == b
  {
    assert a == (prefix + a)[|prefix|..] == (prefix + b)[|prefix|..] == b;
  }

  /** Each kept item is numbered by its place, from 001; so no two share a reference. */
  lemma RefsDiffer(kept: seq<Item>, i: nat, j: nat)
    requires i < j < |kept|
    ensures exists digits :: Numbered(kept)[i].reference == "REQ-" + digits && IsPadded(digits, i + 1, 3)
    ensures Numbered(kept)[i].reference != Numbered(kept)[j].reference
  {
    PaddedExact(i + 1, 3);
    PaddedExact(j + 1, 3);
    if Ref(i + 1) == Ref(j + 1) { SamePrefix("REQ-", Padded(i + 1, 3), Padded(j + 1, 3)); }
  }

  // ---------------------------------------------------------------- where a requirement goes

  lemma {:induction false} TextsStay(sim: Similarity, items: seq<Item>, n: nat, k: nat)
    requires n <= |items| && k < |Union(sim, items[..n])|
    ensures k < |Union(sim, items)| && Union(sim, items)[k].text == Union(sim, items[..n])[k].text
    decreases |items|
  {
    if n < |items| {
      var earlier := items[..|items| - 1];
      assert earlier[..n] == items[..n];
      TextsStay(sim, earlier, n, k);
    } else {
      assert items[..n] == items;
    }
  }

  /** A requirement goes to the first kept item it is at least 0.6 similar to; if there is none it is kept itself. */
  lemma HomeIsFirstSimilar(sim: Similarity, items: seq<Item>, i: nat)
    requires i < |items|
    ensures var k, kept := Home(sim, items, i), Union(sim, items);
            && k < |kept|
            && (forall j :: 0 <= j < k ==> sim(items[i].text, kept[j].text) < 0.6)
            && (sim(items[i].text, kept[k].text) >= 0.6
                || (k == |Union(sim, items[..i])| && kept[k].text == items[i].text))
  {
    var k, before, after := Home(sim, items, i), Union(sim, items[..i]), Union(sim, items[..i + 1]);
    assert items[..i + 1][..i] == items[..i] && after == Added(sim, before, items[i]);
    TextsStay(sim, items, i + 1, k);
    forall j | 0 <= j < k ensures sim(items[i].text, Union(sim, items)[j].text) < 0.6 {
      TextsStay(sim, items, i, j);
      assert !Similar(sim, items[i], before[j]);
    }
  }
}
