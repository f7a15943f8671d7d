/** Rendering pages for a prompt, and reading the page markers back (documents.py). */
module PromptText {
  import opened Common
  import opened PageWindows

  // ---------------------------------------------------------------- rendering

  function Chunk(page: Page): string {
    Marker(page.number) + "\n" + page.text
  }

  /** `"\n\n".join(chunks)`. */
  function Join(chunks: seq<string>): string {
    if chunks == [] then "" else if |chunks| == 1 then chunks[0] else chunks[0] + "\n\n" + Join(chunks[1..])
  }

  function Chunks(pages: seq<Page>): seq<string> {
    if pages == [] then [] else [Chunk(pages[0])] + Chunks(pages[1..])
  }

  function Render(pages: seq<Page>): string {
    Join(Chunks(pages))
  }

  /** The pages whose number is in `wanted`; every page when there is no such set. */
  function Wanted(pages: seq<Page>, wanted: Option<set<nat>>): seq<Page> {
    if pages == [] then []
    else (if wanted.None? || pages[0].number in wanted.value then [pages[0]] else []) + Wanted(pages[1..], wanted)
  }

  lemma {:induction false} WantedOfOneMore(pages: seq<Page>, page: Page, wanted: Option<set<nat>>)
    ensures Wanted(pages + [page], wanted) == Wanted(pages, wanted) + Wanted([page], wanted)
  {
    if pages == [] {
      assert pages + [page] == [page];
    } else {
      WantedOfOneMore(pages[1..], page, wanted);
      assert (pages + [page])[1..] == pages[1..] + [page];
    }
  }

  lemma {:induction false} ChunksOfOneMore(pages: seq<Page>, page: Page)
    ensures Chunks(pages + [page]) == Chunks(pages) + [Chunk(page)]
  {
    if pages == [] {
      assert pages + [page] == [page] && [page][1..] == [];
    } else {
      ChunksOfOneMore(pages[1..], page);
      assert (pages + [page])[1..] == pages[1..] + [page];
    }
  }

  method ToPromptText(pages: seq<Page>, wanted: Option<set<nat>>) returns (text: string)
    ensures text == Render(Wanted(pages, wanted))
  {
    var chunks: seq<string> := [];
    for i := 0 to |pages|
      invariant chunks == Chunks(Wanted(pages[..i], wanted))
    {
      var page := pages[i];
      assert pages[..i + 1] == pages[..i] + [page] && [page][1..] == [];
      WantedOfOneMore(pages[..i], page, wanted);
      assert Wanted([page], wanted) == if wanted.None? || page.number in wanted.value then [page] else [];
      if wanted.None? || page.number in wanted.value {
        ChunksOfOneMore(Wanted(pages[..i], wanted), page);
        chunks := chunks + [Marker(page.number) + "\n" + page.text];
      } else {
        assert Wanted(pages[..i + 1], wanted) == Wanted(pages[..i], wanted);
      }
    }
    assert pages[..|pages|] == pages;
    text := Join(chunks);
  }

  /** Each page under its marker, and a blank line between two pages. */
  lemma RenderMeans(pages: seq<Page>, more: seq<Page>)
    ensures Render([]) == ""
    ensures |pages| == 1 ==> Render(pages) == "[[page:" + Decimal(pages[0].number) + "]]\n" + pages[0].text
    ensures |pages| == 1 && more != [] ==> Render(pages + more) == Render(pages) + "\n\n" + Render(more)
  {
    if |pages| == 1 {
      assert (pages + more)[1..] == more && pages[1..] == [];
    }
  }

  // ---------------------------------------------------------------- the length of a rendered window

  lemma {:induction false} RenderLength(pages: seq<Page>)
    requires pages != []
    ensures |Render(pages)| == TotalCost(pages) + |pages| - 2
  {
    if |pages| == 1 {
      assert pages[1..] == [] && Chunks(pages) == [Chunk(pages[0])];
    } else {
      RenderLength(pages[1..]);
      assert Chunks(pages)[1..] == Chunks(pages[1..]);
    }
  }

  /** Page numbers are the 1-based positions in the file, so they never repeat. */
  ghost predicate DistinctNumbers(pages: seq<Page>) {
    forall i, j :: 0 <= i < j < |pages| ==> pages[i].number != pages[j].number
  }

  function NumberSet(pages: seq<Page>): set<nat> {
    set page | page in pages :: page.number
  }

  lemma {:induction false} WantedConcat(a: seq<Page>, b: seq<Page>, wanted: Option<set<nat>>)
    ensures Wanted(a + b, wanted) == Wanted(a, wanted) + Wanted(b, wanted)
  {
    if a == [] {
      assert a + b == b;
    } else {
      WantedConcat(a[1..], b, wanted);
      assert (a + b)[1..] == a[1..] + b;
    }
  }

  lemma {:induction false} WantedAllOrNone(pages: seq<Page>, wanted: set<nat>)
    ensures (forall p :: p in pages ==> p.number in wanted) ==> Wanted(pages, Some(wanted)) == pages
    ensures (forall p :: p in pages ==> p.number !in wanted) ==> Wanted(pages, Some(wanted)) == []
  {
    if pages != [] {
      WantedAllOrNone(pages[1..], wanted);
      assert pages == [pages[0]] + pages[1..];
    }
  }

  /** Pages of one part of a document do not carry the numbers of another part. */
  lemma PartsDiffer(all: seq<Page>, a: seq<Page>, i: nat, b: seq<Page>, j: nat, p: Page)
    requires DistinctNumbers(all) && p in a
    requires i + |a| <= |all| && a == all[i..i + |a|] && j + |b| <= |all| && b == all[j..j + |b|]
    requires i + |a| <= j || j + |b| <= i
    ensures p.number !in NumberSet(b)
  {
  }

  /** Rendering the numbers of a window renders exactly that window. */
  lemma WantedWindow(before: seq<Page>, window: seq<Page>, after: seq<Page>)
    requires DistinctNumbers(before + window + after)
    ensures Wanted(before + window + after, Some(NumberSet(window))) == window
  {
    var all, wanted := before + window + after, NumberSet(window);
    var i, j := |before|, |before| + |window|;
    assert before == all[0..i] && window == all[i..j] && after == all[j..j + |after|];
    forall p | p in before ensures p.number !in wanted { PartsDiffer(all, before, 0, window, i, p); }
    forall p | p in after ensures p.number !in wanted { PartsDiffer(all, after, j, window, i, p); }
    WantedMiddle(before, window, after, wanted);
  }

  lemma WantedMiddle(before: seq<Page>, window: seq<Page>, after: seq<Page>, wanted: set<nat>)
    requires forall p :: p in before || p in after ==> p.number !in wanted
    requires forall p :: p in window ==> p.number in wanted
    ensures Wanted(before + window + after, Some(wanted)) == window
  {
    WantedConcat(before + window, after, Some(wanted));
    WantedConcat(before, window, Some(wanted));
    WantedAllOrNone(before, wanted);
    WantedAllOrNone(window, wanted);
    WantedAllOrNone(after, wanted);
  }

  lemma SplitAround(split: seq<seq<Page>>, k: nat)
    requires k < |split|
    ensures Flatten(split) == Flatten(split[..k]) + split[k] + Flatten(split[k + 1..])
  {
    assert split == split[..k] + split[k..] && split[k..] == [split[k]] + split[k + 1..];
    FlattenConcat(split[..k], split[k..]);
  }

  /** The prompt text of a window of k pages is its accounted cost plus k - 2 characters.  A window of several
      pages can therefore overshoot the budget, by at most k - 2. */
  lemma WindowTextLength(pages: seq<Page>, split: seq<seq<Page>>, maxChars: int, k: nat)
    requires DistinctNumbers(pages) && IsSplit(split, pages, maxChars) && k < |split|
    ensures var text := Render(Wanted(pages, Some(NumberSet(split[k]))));
            && |text| == TotalCost(split[k]) + |split[k]| - 2
            && (|split[k]| > 1 ==> |text| <= maxChars + |split[k]| - 2)
  {
    assert Fits(split[k], maxChars);
    SplitAround(split, k);
    WantedWindow(Flatten(split[..k]), split[k], Flatten(split[k + 1..]));
    RenderLength(split[k]);
  }

  /** The overshoot is real: three empty pages that exactly fill the budget render to one character more. */
  lemma OvershootHappens() returns (pages: seq<Page>, maxChars: int)
    ensures DistinctNumbers(pages) && Fits(pages, maxChars) && |Render(pages)| == maxChars + 1
  {
    pages := [Page(1, ""), Page(2, ""), Page(3, "")];
    maxChars := TotalCost(pages);
    RenderLength(pages);
  }

  // ---------------------------------------------------------------- reading markers back

  function LeadingDigits(s: string): (n: nat)
    ensures n <= |s| && forall i :: 0 <= i < n ==> IsDigit(s[i])
  {
    if s != "" && IsDigit(s[0]) then 1 + LeadingDigits(s[1..]) else 0
  }

  /** A marker at the start of `s`, as its page number and its length. */
  function MarkerAt(s: string): (r: Option<(nat, nat)>)
    ensures r.Some? ==> 0 < r.value.1 <= |s|
  {
    var open := |MARKER_OPEN|;
    if |s| < open || s[..open] != MARKER_OPEN then None
    else
      var digits := LeadingDigits(s[open..]);
      var rest := s[open + digits..];
      if digits == 0 || |rest| < 2 || rest[..2] != MARKER_CLOSE then None
      else Some((NumberOf(s[open..open + digits]), open + digits + 2))
  }

  /** `findall` of the marker pattern: the numbers, left to right, of matches that do not overlap. */
  function ParseMarkers(s: string): seq<nat>
    decreases |s|
  {
    if s == "" then []
    else match MarkerAt(s)
      case None => ParseMarkers(s[1..])
      case Some((number, length)) => [number] + ParseMarkers(s[length..])
  }

  /** `s` is a marker of the number that `digits` read as, and `rest`. */
  predicate IsMarked(s: string, digits: string, rest: string) {
    && digits != "" && (forall i :: 0 <= i < |digits| ==> IsDigit(digits[i]))
    && s == "[[page:" + digits + "]]" + rest
  }

  lemma Ends(a: string, b: string)
    ensures (a + b)[..|a|] == a && (a + b)[|a|..] == b
  {
  }

  lemma MarkedParts(s: string, digits: string, rest: string)
    requires IsMarked(s, digits, rest)
    ensures MarkerAt(s) == Some((NumberOf(digits), |digits| + 9)) && s[|digits| + 9..] == rest
  {
    var close, tail := MARKER_CLOSE + rest, digits + (MARKER_CLOSE + rest);
    Ends(MARKER_OPEN, tail);
    Ends(digits, close);
    Ends(MARKER_CLOSE, rest);
    DigitsStop(digits, close);
    AllDigitsLead(digits);
    assert s == MARKER_OPEN + tail;
    MarkedTail(s, tail, |digits|);
  }

  lemma MarkedTail(s: string, tail: string, n: nat)
    requires s == MARKER_OPEN + tail && n <= |tail|
    ensures s[7..7 + n] == tail[..n] && s[7 + n..] == tail[n..]
    ensures n + 2 <= |tail| ==> s[n + 9..] == tail[n..][2..]
  {
  }

  lemma PartsMarked(s: string)
    requires MarkerAt(s).Some?
    ensures exists digits, rest :: IsMarked(s, digits, rest)
  {
    var tail := s[7..];
    var n := LeadingDigits(tail);
    var digits, close := tail[..n], tail[n..];
    assert s == s[..7] + tail && tail == digits + close && close == close[..2] + close[2..];
    assert s[7 + n..] == close;
    assert IsMarked(s, digits, close[2..]);
  }

  /** Reading any text: a marker at its start gives its number and the reading goes on behind it; without one the
      reading goes on at the next character. */
  lemma ParseExact(s: string)
    ensures forall digits, rest :: IsMarked(s, digits, rest) ==>
                                     ParseMarkers(s) == [NumberOf(digits)] + ParseMarkers(rest)
    ensures s != "" && (forall digits, rest :: !IsMarked(s, digits, rest)) ==> ParseMarkers(s) == ParseMarkers(s[1..])
    ensures s == "" ==> ParseMarkers(s) == []
  {
    forall digits, rest | IsMarked(s, digits, rest)
      ensures ParseMarkers(s) == [NumberOf(digits)] + ParseMarkers(rest) {
      MarkedParts(s, digits, rest);
    }
    if MarkerAt(s).Some? { PartsMarked(s); }
  }

  lemma {:induction false} DigitsStop(a: string, b: string)
    requires b == "" || !IsDigit(b[0])
    ensures LeadingDigits(a + b) == LeadingDigits(a)
  {
    if a == "" {
      assert a + b == b;
    } else {
      DigitsStop(a[1..], b);
      assert (a + b)[1..] == a[1..] + b;
    }
  }

  /** No marker reaches across a line break. */
  lemma MarkerStaysOnLine(a: string, b: string)
    ensures MarkerAt(a + ("\n" + b)) == MarkerAt(a)
  {
    var line, open := a + ("\n" + b), |MARKER_OPEN|;
    if |a| < open {
      assert line[|a|] == '\n';
      assert |line| >= open ==> line[..open][|a|] == '\n';
      assert forall i :: 0 <= i < open ==> MARKER_OPEN[i] != '\n';
    } else {
      assert line[..open] == a[..open];
      assert line[open..] == a[open..] + ("\n" + b);
      DigitsStop(a[open..], "\n" + b);
      var digits := LeadingDigits(a[open..]);
      assert line[open + digits..] == a[open + digits..] + ("\n" + b);
      assert line[open..open + digits] == a[open..open + digits];
      CloseStaysOnLine(a[open + digits..], b);
    }
  }

  lemma CloseStaysOnLine(rest: string, b: string)
    ensures var line := rest + ("\n" + b);
            (|line| >= 2 && line[..2] == MARKER_CLOSE) == (|rest| >= 2 && rest[..2] == MARKER_CLOSE)
  {
    var line := rest + ("\n" + b);
    if |rest| < 2 {
      assert line[|rest|] == '\n';
      assert |line| >= 2 ==> line[..2][|rest|] == '\n';
    } else {
      assert line[..2] == rest[..2];
    }
  }

  lemma ParseSkips(s: string)
    requires s != "" && MarkerAt(s).None?
    ensures ParseMarkers(s) == ParseMarkers(s[1..])
  {
  }

  lemma ParseReads(s: string)
    requires MarkerAt(s).Some?
    ensures ParseMarkers(s) == [MarkerAt(s).value.0] + ParseMarkers(s[MarkerAt(s).value.1..])
  {
  }

  lemma DropFromLine(a: string, b: string, n: nat)
    requires n <= |a|
    ensures (a + ("\n" + b))[n..] == a[n..] + ("\n" + b)
  {
  }

  /** Markers are read line by line. */
  lemma {:induction false} ParseByLine(a: string, b: string)
    ensures ParseMarkers(a + ("\n" + b)) == ParseMarkers(a) + ParseMarkers(b)
    decreases |a|
  {
    var line, at := a + ("\n" + b), MarkerAt(a);
    MarkerStaysOnLine(a, b);
    if a == "" {
      assert line == "\n" + b && line[1..] == b;
      ParseSkips(line);
    } else if at.None? {
      ParseSkips(a);
      ParseSkips(line);
      DropFromLine(a, b, 1);
      ParseByLine(a[1..], b);
    } else {
      ParseReads(a);
      ParseReads(line);
      DropFromLine(a, b, at.value.1);
      ParseByLine(a[at.value.1..], b);
    }
  }

  lemma {:induction false} AllDigitsLead(s: string)
    requires forall i :: 0 <= i < |s| ==> IsDigit(s[i])
    ensures LeadingDigits(s) == |s|
  {
    if s != "" { AllDigitsLead(s[1..]); }
  }

  lemma ParseOneMarker(number: nat)
    ensures ParseMarkers(Marker(number)) == [number]
  {
    var s, open, d := Marker(number), |MARKER_OPEN|, Decimal(number);
    assert s == MARKER_OPEN + (d + MARKER_CLOSE);
    assert s[..open] == MARKER_OPEN && s[open..] == d + MARKER_CLOSE;
    DigitsStop(d, MARKER_CLOSE);
    AllDigitsLead(d);
    assert s[open + |d|..] == MARKER_CLOSE && s[open..open + |d|] == d;
    DecimalRoundTrip(number);
    assert s[open + |d| + 2..] == "";
  }

  /** The page numbers in order, with whatever markers each page's own text contains after its number. */
  function MarkersOf(pages: seq<Page>): seq<nat> {
    if pages == [] then [] else [pages[0].number] + ParseMarkers(pages[0].text) + MarkersOf(pages[1..])
  }

  lemma ParseChunk(page: Page)
    ensures ParseMarkers(Chunk(page)) == [page.number] + ParseMarkers(page.text)
  {
    ParseOneMarker(page.number);
    ParseByLine(Marker(page.number), page.text);
    assert Chunk(page) == Marker(page.number) + ("\n" + page.text);
  }

  lemma ParseAfterBreak(line: string, rest: string)
    requires line == "\n" + rest
    ensures ParseMarkers(line) == ParseMarkers(rest)
  {
    assert line[0] == '\n' && line[1..] == rest;
    assert MarkerAt(line).None?;
    ParseSkips(line);
  }

  lemma ParseAcrossBlankLine(a: string, rest: string, second: string, text: string)
    requires second == "\n" + rest && text == a + ("\n" + second)
    ensures ParseMarkers(text) == ParseMarkers(a) + ParseMarkers(rest)
  {
    ParseAfterBreak(second, rest);
    ParseByLine(a, second);
  }

  lemma RenderOne(page: Page)
    ensures Render([page]) == Chunk(page)
  {
    assert [page][1..] == [] && Chunks([page]) == [Chunk(page)];
  }

  lemma RenderMore(pages: seq<Page>)
    requires |pages| > 1
    ensures Render(pages) == Chunk(pages[0]) + ("\n" + ("\n" + Render(pages[1..])))
  {
  }

  /** Reading a rendered document back gives every page number, in order, plus the markers inside the texts. */
  lemma {:induction false} ParseRendered(pages: seq<Page>)
    ensures ParseMarkers(Render(pages)) == MarkersOf(pages)
  {
    if |pages| == 1 {
      RenderOne(pages[0]);
      ParseChunk(pages[0]);
      assert pages == [pages[0]] && pages[1..] == [];
    } else if |pages| > 1 {
      RenderMore(pages);
      ParseAcrossBlankLine(Chunk(pages[0]), Render(pages[1..]), "\n" + Render(pages[1..]), Render(pages));
      ParseChunk(pages[0]);
      ParseRendered(pages[1..]);
    }
  }

  lemma {:induction false} MarkersOfSize(pages: seq<Page>)
    ensures |MarkersOf(pages)| >= |pages|
    ensures |MarkersOf(pages)| == |pages| ==> forall i :: 0 <= i < |pages| ==> ParseMarkers(pages[i].text) == []
    ensures (forall i :: 0 <= i < |pages| ==> ParseMarkers(pages[i].text) == []) ==> MarkersOf(pages) == Numbers(pages)
  {
    if pages != [] {
      MarkersOfSize(pages[1..]);
      assert pages == [pages[0]] + pages[1..];
      assert Numbers(pages) == [pages[0].number] + Numbers(pages[1..]);
    }
  }

  /** The markers read back are exactly the page numbers iff no page's own text contains a marker. */
  lemma MarkersRoundTrip(pages: seq<Page>)
    ensures ParseMarkers(Render(pages)) == Numbers(pages) <==>
            forall i :: 0 <= i < |pages| ==> ParseMarkers(pages[i].text) == []
  {
    ParseRendered(pages);
    MarkersOfSize(pages);
  }
}
