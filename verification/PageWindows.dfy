/**
 Splitting a document into page windows and rendering them for a prompt (documents.py).

 The split is greedy; it is shown to use as few windows as any.  Rendering is shown to be readable
 back, and its exact length is compared with the cost the split accounted for.
 */
module PageWindows {
  import opened Common

  datatype Page = Page(number: nat, text: string)

  const MARKER_OPEN := "[[page:"
  const MARKER_CLOSE := "]]"

  function Marker(number: nat): string {
    MARKER_OPEN + Decimal(number) + MARKER_CLOSE
  }

  function Cost(page: Page): nat {
    |page.text| + |Marker(page.number)| + 2
  }

  /** A marker is `[[page:12]]`; with two line breaks it adds eleven characters and the number to a text. */
  lemma MarkerMeans(page: Page)
    ensures Marker(page.number) == "[[page:" + Decimal(page.number) + "]]"
    ensures Cost(page) == |page.text| + |Decimal(page.number)| + 11
  {
  }

  function TotalCost(pages: seq<Page>): nat {
    if pages == [] then 0 else Cost(pages[0]) + TotalCost(pages[1..])
  }

  function Numbers(pages: seq<Page>): seq<nat> {
    seq(|pages|, i requires 0 <= i < |pages| => pages[i].number)
  }

  function Flatten(split: seq<seq<Page>>): seq<Page> {
    if split == [] then [] else split[0] + Flatten(split[1..])
  }

  /** A window within the budget, or a single page. */
  predicate Fits(window: seq<Page>, maxChars: int) {
    window != [] && (|window| == 1 || TotalCost(window) <= maxChars)
  }

  ghost predicate IsSplit(split: seq<seq<Page>>, pages: seq<Page>, maxChars: int) {
    Flatten(split) == pages && forall i :: 0 <= i < |split| ==> Fits(split[i], maxChars)
  }

  /** No window could have taken the first page of the next one. */
  ghost predicate Greedy(split: seq<seq<Page>>, maxChars: int) {
    forall i :: 0 <= i < |split| - 1 && split[i + 1] != [] ==> TotalCost(split[i]) + Cost(split[i + 1][0]) > maxChars
  }

  lemma {:induction false} TotalCostConcat(a: seq<Page>, b: seq<Page>)
    ensures TotalCost(a + b) == TotalCost(a) + TotalCost(b)
  {
    if a == [] {
      assert a + b == b;
    } else {
      TotalCostConcat(a[1..], b);
      assert (a + b)[1..] == a[1..] + b;
    }
  }

  lemma {:induction false} FlattenConcat(a: seq<seq<Page>>, b: seq<seq<Page>>)
    ensures Flatten(a + b) == Flatten(a) + Flatten(b)
  {
    if a == [] {
      assert a + b == b;
    } else {
      FlattenConcat(a[1..], b);
      assert (a + b)[1..] == a[1..] + b;
    }
  }

  // ---------------------------------------------------------------- the split

  /** The windows closed so far and the open one, after the pages of `prefix`. */
  ghost predicate Splitting(split: seq<seq<Page>>, open: seq<Page>, prefix: seq<Page>, maxChars: int) {
    && Flatten(split) + open == prefix
    && (forall i :: 0 <= i < |split| ==> Fits(split[i], maxChars))
    && if open == [] then split == [] else Fits(open, maxChars) && Greedy(split + [open], maxChars)
  }

  lemma FlattenOne(split: seq<seq<Page>>, window: seq<Page>)
    ensures Flatten(split + [window]) == Flatten(split) + window
  {
    FlattenConcat(split, [window]);
    assert [window][1..] == [];
  }

  lemma CostOfOneMore(window: seq<Page>, page: Page)
    ensures TotalCost(window + [page]) == TotalCost(window) + Cost(page)
    ensures Numbers(window + [page]) == Numbers(window) + [page.number]
  {
    TotalCostConcat(window, [page]);
    assert [page][1..] == [];
  }

  lemma PageFits(split: seq<seq<Page>>, open: seq<Page>, prefix: seq<Page>, page: Page, maxChars: int)
    requires Splitting(split, open, prefix, maxChars)
    requires open == [] || TotalCost(open) + Cost(page) <= maxChars
    ensures Splitting(split, open + [page], prefix + [page], maxChars)
  {
    CostOfOneMore(open, page);
    var s, s' := split + [open], split + [open + [page]];
    assert forall i :: 0 <= i < |split| ==> s'[i] == s[i];
    if open != [] { assert (open + [page])[0] == open[0]; }
    assert Flatten(split) + (open + [page]) == Flatten(split) + open + [page];
  }

  lemma PageOverflows(split: seq<seq<Page>>, open: seq<Page>, prefix: seq<Page>, page: Page, maxChars: int)
    requires Splitting(split, open, prefix, maxChars) && open != [] && TotalCost(open) + Cost(page) > maxChars
    ensures Splitting(split + [open], [page], prefix + [page], maxChars)
  {
    FlattenOne(split, open);
    var s, s' := split + [open], split + [open] + [[page]];
    assert forall i :: 0 <= i < |s| ==> s'[i] == s[i];
  }

  /** `page_window`: the windows as page numbers; `split` holds the same windows as pages. */
  method PageWindow(pages: seq<Page>, maxChars: int)
    returns (windows: Result<seq<seq<nat>>, string>, ghost split: seq<seq<Page>>)
    ensures windows.Err? <==> maxChars <= 0
    ensures windows.Ok? ==> IsSplit(split, pages, maxChars) && Greedy(split, maxChars)
    ensures windows.Ok? ==>
              |windows.value| == |split| && forall i :: 0 <= i < |split| ==> windows.value[i] == Numbers(split[i])
  {
    split := [];
    if maxChars <= 0 {
      return Err("max_chars must be positive"), split;
    }
    var closed: seq<seq<nat>>, current: seq<nat>, used := [], [], 0;
    ghost var open: seq<Page> := [];
    for k := 0 to |pages|
      invariant Splitting(split, open, pages[..k], maxChars)
      invariant current == Numbers(open) && used == TotalCost(open)
      invariant |closed| == |split| && forall i :: 0 <= i < |split| ==> closed[i] == Numbers(split[i])
    {
      var page := pages[k];
      var cost := |page.text| + |Marker(page.number)| + 2;
      assert pages[..k + 1] == pages[..k] + [page];
      if current != [] && used + cost > maxChars {
        PageOverflows(split, open, pages[..k], page, maxChars);
        closed, split := closed + [current], split + [open];
        current, used, open := [], 0, [];
        assert open + [page] == [page];
      } else {
        PageFits(split, open, pages[..k], page, maxChars);
      }
      CostOfOneMore(open, page);
      current, used, open := current + [page.number], used + cost, open + [page];
    }
    assert pages[..|pages|] == pages;
    if current != [] {
      FlattenOne(split, open);
      closed, split := closed + [current], split + [open];
    }
    windows := Ok(closed);
  }

  // ---------------------------------------------------------------- no split has fewer windows

  lemma {:induction false} CostOfPart(pages: seq<Page>, i: nat, j: nat)
    requires i <= j <= |pages|
    ensures TotalCost(pages[i..j]) <= TotalCost(pages)
  {
    TotalCostConcat(pages[..j], pages[j..]);
    TotalCostConcat(pages[..i], pages[i..j]);
    assert pages[..j] + pages[j..] == pages && pages[..i] + pages[i..j] == pages[..j];
  }

  /** If a window holds `g` and the page after it, then `g` had room for that page. */
  lemma {:induction false} FitsWithin(o: seq<Page>, lead: nat, g: seq<Page>, next: Page, maxChars: int)
    requires Fits(o, maxChars) && g != [] && lead + |g| + 1 <= |o| && o[lead..lead + |g| + 1] == g + [next]
    ensures TotalCost(g) + Cost(next) <= maxChars
  {
    CostOfPart(o, lead, lead + |g| + 1);
    CostOfOneMore(g, next);
  }

  /** The greedy split stays ahead: what it has left to cut is a suffix of what any other split has left. */
  lemma {:induction false} StaysAhead(greedy: seq<seq<Page>>, other: seq<seq<Page>>, lead: nat, maxChars: int)
    requires Greedy(greedy, maxChars) && forall i :: 0 <= i < |greedy| ==> greedy[i] != []
    requires forall i :: 0 <= i < |other| ==> Fits(other[i], maxChars)
    requires lead <= |Flatten(other)| && Flatten(other)[lead..] == Flatten(greedy)
    ensures |greedy| <= |other|
    decreases |other|
  {
    if greedy != [] {
      var g, o := greedy[0], other[0];
      assert Flatten(other) == o + Flatten(other[1..]);
      if lead >= |o| {
        assert Flatten(other[1..])[lead - |o|..] == Flatten(other)[lead..];
        StaysAhead(greedy, other[1..], lead - |o|, maxChars);
      } else {
        var taken := |o| - lead;
        if taken > |g| {
          assert greedy[1..] != [];
          var next := greedy[1];
          assert Flatten(greedy) == g + Flatten(greedy[1..]);
          assert Flatten(greedy[1..]) == next + Flatten(greedy[1..][1..]);
          assert o[lead..lead + |g| + 1] == Flatten(other)[lead..][..|g| + 1];
          FitsWithin(o, lead, g, next[0], maxChars);
          assert false;
        }
        assert Flatten(greedy)[|g|..] == Flatten(greedy[1..]);
        assert Flatten(other[1..])[|g| - taken..] == Flatten(other)[lead..][|g|..];
        StaysAhead(greedy[1..], other[1..], |g| - taken, maxChars);
      }
    }
  }

  /** `page_window` uses the fewest windows of any contiguous split within the budget. */
  lemma FewestWindows(pages: seq<Page>, split: seq<seq<Page>>, other: seq<seq<Page>>, maxChars: int)
    requires IsSplit(split, pages, maxChars) && Greedy(split, maxChars) && IsSplit(other, pages, maxChars)
    ensures |split| <= |other|
  {
    StaysAhead(split, other, 0, maxChars);
  }
}
