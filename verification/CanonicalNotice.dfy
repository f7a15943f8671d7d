/**
 What a cluster's canonical notice says, field by field, in terms of all the notices it was merged from (dedupe.py).

 Nothing here is stated through the merge policies: each field is the first known, the first longest, the earliest, or
 the ordered union of what the members say.
 */
module CanonicalNotice {
  import opened Common
  import opened OrderedUnion
  import opened NoticeMerge

  // ---------------------------------------------------------------- one field of many notices

  /** The value of the first member that knows it, and `otherwise` if none does. */
  ghost predicate FirstKnown<T>(x: T, members: seq<Notice>, field: Notice -> T, known: T -> bool, otherwise: T) {
    || (x == otherwise && forall j :: 0 <= j < |members| ==> !known(field(members[j])))
    || (exists k :: 0 <= k < |members| && x == field(members[k]) && known(x)
                    && forall j :: 0 <= j < k ==> !known(field(members[j])))
  }

  lemma NextKnown<T>(x: T, members: seq<Notice>, next: Notice, field: Notice -> T, known: T -> bool, otherwise: T,
                     otherwise': T)
    requires FirstKnown(x, members, field, known, otherwise)
    requires known(otherwise) ==> exists n :: n in members && otherwise == field(n)
    ensures FirstKnown(if known(x) then x else if known(field(next)) then field(next) else otherwise',
                       members + [next], field, known, otherwise')
  {
    var all := members + [next];
    assert forall j :: 0 <= j < |members| ==> all[j] == members[j];
    assert all[|members|] == next;
    if k :| 0 <= k < |members| && x == field(members[k]) && known(x)
            && forall j :: 0 <= j < k ==> !known(field(members[j])) {
      assert x == field(all[k]);
    } else if known(field(next)) {
      assert field(next) == field(all[|members|]);
    }
  }

  predicate Stated(t: Text) {
    t.Some? && |t.value| > 0
  }

  function Chars(t: Text): nat {
    match t
    case None => 0
    case Some(s) => |s|
  }

  /** The first of the longest texts. */
  ghost predicate FirstLongest(x: Text, members: seq<Notice>, field: Notice -> Text) {
    exists k :: 0 <= k < |members| && x == field(members[k])
                && (forall j :: 0 <= j < |members| ==> Chars(field(members[j])) <= Chars(x))
                && (forall j :: 0 <= j < k ==> Chars(field(members[j])) < Chars(x))
  }

  lemma NextLongest(x: Text, members: seq<Notice>, next: Notice, field: Notice -> Text)
    requires FirstLongest(x, members, field)
    ensures FirstLongest(if Chars(field(next)) > Chars(x) then field(next) else x, members + [next], field)
  {
    var all := members + [next];
    assert forall j :: 0 <= j < |members| ==> all[j] == members[j];
    assert all[|members|] == next;
    var k :| 0 <= k < |members| && x == field(members[k])
             && (forall j :: 0 <= j < |members| ==> Chars(field(members[j])) <= Chars(x))
             && (forall j :: 0 <= j < k ==> Chars(field(members[j])) < Chars(x));
    assert x == field(all[k]);
    assert field(next) == field(all[|members|]);
  }

  ghost predicate EarliestPublication(x: Option<int>, members: seq<Notice>) {
    && (x.Some? <==> exists n :: n in members && n.dates.publishedAt.Some?)
    && (x.Some? ==> exists n :: n in members && n.dates.publishedAt == x)
    && (forall n :: n in members && n.dates.publishedAt.Some? ==> x.Some? && x.value <= n.dates.publishedAt.value)
  }

  // ---------------------------------------------------------------- lists of many notices

  ghost predicate IsDistinct(s: seq<string>) {
    forall i, j :: 0 <= i < j < |s| ==> s[i] != s[j]
  }

  /** Exactly the elements of `all`, each once, in the order in which they first occur. */
  ghost predicate IsFirsts(r: seq<string>, all: seq<string>) {
    && IsDistinct(r)
    && (forall x :: x in r <==> x in all)
    && (forall i, j :: 0 <= i < j < |r| ==> Precedes(r[i], r[j], all))
  }

  /** `x` occurs in `all` before the first `y`. */
  ghost predicate Precedes(x: string, y: string, all: seq<string>) {
    exists p :: 0 <= p < |all| && all[p] == x && y !in all[..p]
  }

  lemma PrecedesInFront(x: string, y: string, all: seq<string>)
    requires all != [] && y != all[0] && Precedes(x, y, all[1..])
    ensures Precedes(x, y, all)
  {
    var rest := all[1..];
    var p :| 0 <= p < |rest| && rest[p] == x && y !in rest[..p];
    assert all[p + 1] == x;
    var front := all[..p + 1];
    forall k | 0 <= k < |front| ensures front[k] != y {
      if k > 0 { assert front[k] == rest[..p][k - 1]; }
    }
  }

  lemma {:induction false} UnseenFirsts(seen: set<string>, s: seq<string>)
    ensures var r := Unseen(seen, s);
            && IsDistinct(r)
            && (forall x :: x in r <==> x in s && x !in seen)
            && (forall i, j :: 0 <= i < j < |r| ==> Precedes(r[i], r[j], s))
    decreases |s|
  {
    if s != [] {
      var r := Unseen(seen, s);
      var seen' := if s[0] in seen then seen else seen + {s[0]};
      UnseenFirsts(seen', s[1..]);
      var r' := Unseen(seen', s[1..]);
      assert s[0] in seen ==> r == r';
      assert s[0] !in seen ==> r == [s[0]] + r';
      forall i, j | 0 <= i < j < |r| ensures Precedes(r[i], r[j], s) {
        var d := if s[0] in seen then 0 else 1;
        assert r[j] == r'[j - d] && r[j] != s[0];
        if i < d {
          assert s[0] == r[i] && r[j] !in s[..0];
        } else {
          assert Precedes(r'[i - d], r'[j - d], s[1..]);
          PrecedesInFront(r[i], r[j], s);
        }
      }
    }
  }

  /** All the codes of the members, one member after the other. */
  function Concatenated(members: seq<Notice>, field: Notice -> seq<string>): seq<string> {
    if members == [] then []
    else Concatenated(members[..|members| - 1], field) + field(members[|members| - 1])
  }

  function Filtered<T>(s: seq<T>, keep: T -> bool): seq<T> {
    if s == [] then [] else (if keep(s[0]) then [s[0]] else []) + Filtered(s[1..], keep)
  }

  /** Some member has a reference with the same source and id. */
  ghost predicate Referred(members: seq<Notice>, ref: SourceRef) {
    exists n, r :: n in members && r in n.sourceRefs
                   && r.source + ":" + r.externalId == ref.source + ":" + ref.externalId
  }

  /** The first member's references, then from each later one those that no earlier member has. */
  ghost function RefsOf(members: seq<Notice>): seq<SourceRef>
    requires members != []
  {
    var earlier, last := members[..|members| - 1], members[|members| - 1];
    if earlier == [] then last.sourceRefs
    else RefsOf(earlier) + Filtered(last.sourceRefs, (ref: SourceRef) => !Referred(earlier, ref))
  }

  ghost predicate Linked(members: seq<Notice>, url: Text) {
    exists n, d :: n in members && d in n.documents && d.url == url
  }

  /** The first member's documents, then from each later one those with a URL that no earlier member's have. */
  ghost function DocsOf(members: seq<Notice>): seq<DocumentRef>
    requires members != []
  {
    var earlier, last := members[..|members| - 1], members[|members| - 1];
    if earlier == [] then last.documents
    else DocsOf(earlier) + Filtered(last.documents, (d: DocumentRef) => Stated(d.url) && !Linked(earlier, d.url))
  }

  lemma {:induction false} NewIsFiltered<T>(key: T -> Option<string>, seen: set<string>, s: seq<T>, keep: T -> bool)
    requires forall x :: x in s ==> (keep(x) <==> IsNew(key, seen, x))
    ensures NewIn(key, seen, s) == Filtered(s, keep)
  {
    if s != [] { NewIsFiltered(key, seen, s[1..], keep); }
  }

  lemma {:induction false} KeyOfElement<T>(key: T -> Option<string>, s: seq<T>, k: string)
    ensures k in KeysOf(key, s) <==> exists x :: x in s && key(x) == Some(k)
  {
    if s != [] { KeyOfElement(key, s[1..], k); }
  }

  // ---------------------------------------------------------------- the record

  const TITLE: Notice -> Text := (n: Notice) => Some(n.title)
  const DESCRIPTION: Notice -> Text := (n: Notice) => n.description
  const DEADLINE: Notice -> Option<int> := (n: Notice) => n.dates.deadlineAt
  const QUESTIONS_DEADLINE: Notice -> Option<int> := (n: Notice) => n.dates.questionsDeadlineAt
  const TIME_ZONE: Notice -> Text := (n: Notice) => n.dates.tz
  const VISIT: Notice -> Visit := (n: Notice) => n.dates.visit
  const NAME: Notice -> Text := (n: Notice) => n.buyer.name
  const SIREN: Notice -> Text := (n: Notice) => n.buyer.siren
  const SIRET: Notice -> Text := (n: Notice) => n.buyer.siret
  const TOTAL: Notice -> Option<real> := (n: Notice) => n.amounts.estimatedTotal
  const CURRENCY: Notice -> Text := (n: Notice) => n.amounts.currency
  const PROCEDURE: Notice -> Option<ProcedureType> := (n: Notice) => n.procedure.type_
  const AWARD: Notice -> Option<Award> := (n: Notice) => n.award
  const LOTS: Notice -> seq<Lot> := (n: Notice) => n.lots
  const NOTICE_URL: Notice -> Text := (n: Notice) => n.urls.notice
  const DOCUMENTS_URL: Notice -> Text := (n: Notice) => n.urls.documents
  const SUBMISSION_URL: Notice -> Text := (n: Notice) => n.urls.submission
  const CPV: Notice -> seq<string> := (n: Notice) => n.cpv
  const NUTS: Notice -> seq<string> := (n: Notice) => n.nuts

  predicate Known<T>(x: Option<T>) {
    x.Some?
  }

  predicate Required(v: Visit) {
    v.mandatory.Some?
  }

  predicate Nonempty(lots: seq<Lot>) {
    lots != []
  }

  ghost predicate TextFields(m: Notice, members: seq<Notice>) {
    FirstLongest(Some(m.title), members, TITLE) && FirstLongest(m.description, members, DESCRIPTION)
  }

  /** The earliest publication; the deadlines, the time zone and the visit of the first member that knows them. */
  ghost predicate DateFields(m: Notice, members: seq<Notice>) {
    && members != []
    && EarliestPublication(m.dates.publishedAt, members)
    && FirstKnown(m.dates.deadlineAt, members, DEADLINE, Known, None)
    && FirstKnown(m.dates.questionsDeadlineAt, members, QUESTIONS_DEADLINE, Known, None)
    && FirstKnown(m.dates.tz, members, TIME_ZONE, Known, None)
    && FirstKnown(m.dates.visit, members, VISIT, Required, members[0].dates.visit)
  }

  /** The first name that is not empty.  A SIREN or SIRET of the first member stands, even an empty one; else it is the
      first non-empty one of a later member. */
  ghost predicate BuyerFields(m: Notice, members: seq<Notice>) {
    && members != []
    && m.buyer.(name := members[0].buyer.name, siren := members[0].buyer.siren, siret := members[0].buyer.siret)
       == members[0].buyer
    && FirstKnown(m.buyer.name, members, NAME, Stated, members[0].buyer.name)
    && (if members[0].buyer.siren.Some? then m.buyer.siren == members[0].buyer.siren
        else FirstKnown(m.buyer.siren, members, SIREN, Stated, None))
    && (if members[0].buyer.siret.Some? then m.buyer.siret == members[0].buyer.siret
        else FirstKnown(m.buyer.siret, members, SIRET, Stated, None))
  }

  /** The first `k` members end with the first that knows the total, or are all there are. */
  predicate UpToTotal(members: seq<Notice>, k: nat) {
    && 0 < k <= |members|
    && (forall j :: 0 <= j < k - 1 ==> members[j].amounts.estimatedTotal.None?)
    && (k < |members| ==> members[k - 1].amounts.estimatedTotal.Some?)
  }

  /** The currency is looked for in the members up to that one, and is the last of theirs if none of them states one. */
  ghost predicate CurrencyField(m: Notice, members: seq<Notice>, k: nat) {
    && UpToTotal(members, k)
    && FirstKnown(m.amounts.currency, members[..k], CURRENCY, Stated, members[k - 1].amounts.currency)
  }

  ghost predicate AmountFields(m: Notice, members: seq<Notice>) {
    && members != []
    && m.amounts.(estimatedTotal := members[0].amounts.estimatedTotal, currency := members[0].amounts.currency)
       == members[0].amounts
    && FirstKnown(m.amounts.estimatedTotal, members, TOTAL, Known, None)
    && exists k: nat :: CurrencyField(m, members, k)
  }

  /** The first known procedure type, award and lots. */
  ghost predicate OtherGaps(m: Notice, members: seq<Notice>) {
    && members != []
    && m.procedure.(type_ := members[0].procedure.type_) == members[0].procedure
    && FirstKnown(m.procedure.type_, members, PROCEDURE, Known, None)
    && FirstKnown(m.award, members, AWARD, Known, None)
    && FirstKnown(m.lots, members, LOTS, Nonempty, [])
  }

  /** Of each URL the first that is not empty, or the last member's. */
  ghost predicate UrlFields(m: Notice, members: seq<Notice>) {
    && members != []
    && FirstKnown(m.urls.notice, members, NOTICE_URL, Stated, members[|members| - 1].urls.notice)
    && FirstKnown(m.urls.documents, members, DOCUMENTS_URL, Stated, members[|members| - 1].urls.documents)
    && FirstKnown(m.urls.submission, members, SUBMISSION_URL, Stated, members[|members| - 1].urls.submission)
  }

  /** Codes each once in order of first appearance as soon as two notices are merged; references and documents in order,
      each key once over different members. */
  ghost predicate ListFields(m: Notice, members: seq<Notice>) {
    && members != []
    && (if |members| == 1 then m.cpv == members[0].cpv else IsFirsts(m.cpv, Concatenated(members, CPV)))
    && (if |members| == 1 then m.nuts == members[0].nuts else IsFirsts(m.nuts, Concatenated(members, NUTS)))
    && m.sourceRefs == RefsOf(members)
    && m.documents == DocsOf(members)
  }

  /** No policy touches the other fields: they are the first member's. */
  predicate RestIsFirst(m: Notice, first: Notice) {
    first == m.(sourceRefs := first.sourceRefs, title := first.title, description := first.description,
                cpv := first.cpv, nuts := first.nuts, dates := first.dates, buyer := first.buyer,
                amounts := first.amounts, procedure := first.procedure, documents := first.documents,
                urls := first.urls, lots := first.lots, award := first.award)
  }

  // ---------------------------------------------------------------- one more member

  lemma NextTexts(m: Notice, members: seq<Notice>, next: Notice)
    requires TextFields(m, members)
    ensures TextFields(Merge(m, next), members + [next])
  {
    NextLongest(Some(m.title), members, next, TITLE);
    NextLongest(m.description, members, next, DESCRIPTION);
  }

  lemma NextPublication(m: Notice, members: seq<Notice>, next: Notice)
    requires EarliestPublication(m.dates.publishedAt, members)
    ensures EarliestPublication(Merge(m, next).dates.publishedAt, members + [next])
  {
    var all := members + [next];
    assert forall n :: n in all <==> n in members || n == next;
  }

  lemma NextDates(m: Notice, members: seq<Notice>, next: Notice)
    requires DateFields(m, members)
    ensures DateFields(Merge(m, next), members + [next])
  {
    NextPublication(m, members, next);
    NextKnown(m.dates.deadlineAt, members, next, DEADLINE, Known, None, None);
    NextKnown(m.dates.questionsDeadlineAt, members, next, QUESTIONS_DEADLINE, Known, None, None);
    NextKnown(m.dates.tz, members, next, TIME_ZONE, Known, None, None);
    NextKnown(m.dates.visit, members, next, VISIT, Required, members[0].dates.visit, members[0].dates.visit);
  }

  lemma NextBuyer(m: Notice, members: seq<Notice>, next: Notice)
    requires BuyerFields(m, members)
    ensures BuyerFields(Merge(m, next), members + [next])
  {
    NextKnown(m.buyer.name, members, next, NAME, Stated, members[0].buyer.name, members[0].buyer.name);
    if members[0].buyer.siren.None? { NextKnown(m.buyer.siren, members, next, SIREN, Stated, None, None); }
    if members[0].buyer.siret.None? { NextKnown(m.buyer.siret, members, next, SIRET, Stated, None, None); }
  }

  lemma NextCurrency(m: Notice, members: seq<Notice>, next: Notice, k: nat)
    requires AmountFields(m, members) && CurrencyField(m, members, k)
    ensures CurrencyField(Merge(m, next), members + [next], if m.amounts.estimatedTotal.Some? then k else k + 1)
  {
    var all := members + [next];
    if m.amounts.estimatedTotal.Some? {
      assert all[..k] == members[..k];
    } else {
      assert members[..k] == members && all[..k + 1] == all;
      NextKnown(m.amounts.currency, members, next, CURRENCY, Stated, members[k - 1].amounts.currency,
                next.amounts.currency);
    }
  }

  lemma NextAmounts(m: Notice, members: seq<Notice>, next: Notice)
    requires AmountFields(m, members)
    ensures AmountFields(Merge(m, next), members + [next])
  {
    NextKnown(m.amounts.estimatedTotal, members, next, TOTAL, Known, None, None);
    var k: nat :| CurrencyField(m, members, k);
    NextCurrency(m, members, next, k);
  }

  lemma NextGaps(m: Notice, members: seq<Notice>, next: Notice)
    requires OtherGaps(m, members)
    ensures OtherGaps(Merge(m, next), members + [next])
  {
    NextKnown(m.procedure.type_, members, next, PROCEDURE, Known, None, None);
    NextKnown(m.award, members, next, AWARD, Known, None, None);
    NextKnown(m.lots, members, next, LOTS, Nonempty, [], []);
  }

  lemma NextUrls(m: Notice, members: seq<Notice>, next: Notice)
    requires UrlFields(m, members)
    ensures UrlFields(Merge(m, next), members + [next])
  {
    var last := members[|members| - 1].urls;
    NextKnown(m.urls.notice, members, next, NOTICE_URL, Stated, last.notice, next.urls.notice);
    NextKnown(m.urls.documents, members, next, DOCUMENTS_URL, Stated, last.documents, next.urls.documents);
    NextKnown(m.urls.submission, members, next, SUBMISSION_URL, Stated, last.submission, next.urls.submission);
  }

  lemma NextCodes(x: seq<string>, members: seq<Notice>, next: Notice, field: Notice -> seq<string>)
    requires members != []
    requires if |members| == 1 then x == field(members[0]) else x == Unseen({}, Concatenated(members, field))
    ensures FirstsOf(x, field(next)) == Unseen({}, Concatenated(members + [next], field))
  {
    assert (members + [next])[..|members|] == members;
    if |members| == 1 {
      assert members[..0] == [] && Concatenated(members, field) == [] + field(members[0]) == field(members[0]);
    } else {
      FirstsThen(Concatenated(members, field), field(next));
    }
  }

  lemma NextRefs(m: Notice, members: seq<Notice>, next: Notice)
    requires members != [] && m.sourceRefs == RefsOf(members)
    requires forall ref :: RefKey(ref) in ExternalIds(m) <==> Referred(members, ref)
    ensures Merge(m, next).sourceRefs == RefsOf(members + [next])
    ensures forall ref :: RefKey(ref) in ExternalIds(Merge(m, next)) <==> Referred(members + [next], ref)
  {
    assert (members + [next])[..|members|] == members;
    NewIsFiltered(REF_KEY, ExternalIds(m), next.sourceRefs, (ref: SourceRef) => !Referred(members, ref));
    MergeKeeps(m, next);
    forall ref: SourceRef ensures RefKey(ref) in ExternalIds(Merge(m, next)) <==> Referred(members + [next], ref) {
      KeyOfElement(REF_KEY, next.sourceRefs, RefKey(ref));
      ReferredByNext(members, next, ref);
    }
  }

  lemma ReferredByNext(members: seq<Notice>, next: Notice, ref: SourceRef)
    ensures Referred(members + [next], ref) <==>
            Referred(members, ref)
            || exists r :: r in next.sourceRefs && r.source + ":" + r.externalId == ref.source + ":" + ref.externalId
  {
    assert forall n :: n in members + [next] <==> n in members || n == next;
  }

  lemma NextDocs(m: Notice, members: seq<Notice>, next: Notice)
    requires members != [] && m.documents == DocsOf(members)
    requires forall url: Text :: Stated(url) ==> (url.value in DocUrls(m) <==> Linked(members, url))
    ensures Merge(m, next).documents == DocsOf(members + [next])
    ensures forall url: Text :: Stated(url) ==>
                                  (url.value in DocUrls(Merge(m, next)) <==> Linked(members + [next], url))
  {
    var all := members + [next];
    assert all[..|members|] == members;
    NewIsFiltered(DOC_KEY, DocUrls(m), next.documents, (d: DocumentRef) => Stated(d.url) && !Linked(members, d.url));
    MergeKeeps(m, next);
    forall url: Text | Stated(url)
      ensures url.value in DocUrls(next) <==> exists d :: d in next.documents && d.url == url {
      KeyOfElement(DOC_KEY, next.documents, url.value);
    }
    assert forall n :: n in all <==> n in members || n == next;
  }

  /** What the induction carries: every field, and which keys the lists have so far. */
  ghost predicate Told(m: Notice, members: seq<Notice>) {
    && members != []
    && (if |members| == 1 then m.cpv == members[0].cpv else m.cpv == Unseen({}, Concatenated(members, CPV)))
    && (if |members| == 1 then m.nuts == members[0].nuts else m.nuts == Unseen({}, Concatenated(members, NUTS)))
    && m.sourceRefs == RefsOf(members) && m.documents == DocsOf(members)
    && (forall ref :: RefKey(ref) in ExternalIds(m) <==> Referred(members, ref))
    && (forall url: Text :: Stated(url) ==> (url.value in DocUrls(m) <==> Linked(members, url)))
  }

  lemma NextLists(m: Notice, members: seq<Notice>, next: Notice)
    requires Told(m, members)
    ensures Told(Merge(m, next), members + [next])
  {
    NextCodes(m.cpv, members, next, CPV);
    NextCodes(m.nuts, members, next, NUTS);
    NextRefs(m, members, next);
    NextDocs(m, members, next);
  }

  lemma FirstLists(n: Notice)
    ensures Told(n, [n])
  {
    assert [n][..0] == [];
    forall ref: SourceRef ensures RefKey(ref) in ExternalIds(n) <==> Referred([n], ref) {
      KeyOfElement(REF_KEY, n.sourceRefs, RefKey(ref));
    }
    forall url: Text | Stated(url) ensures url.value in DocUrls(n) <==> Linked([n], url) {
      KeyOfElement(DOC_KEY, n.documents, url.value);
    }
  }

  lemma {:induction false} MergedLists(first: Notice, rest: seq<Notice>)
    ensures Told(MergeAll(MERGE, first, rest), [first] + rest)
    decreases |rest|
  {
    if rest == [] {
      FirstLists(first);
      assert [first] + rest == [first];
    } else {
      var init, last := rest[..|rest| - 1], rest[|rest| - 1];
      assert rest == init + [last] && [first] + rest == ([first] + init) + [last];
      MergeAllLast(MERGE, first, init, last);
      MergedLists(first, init);
      NextLists(MergeAll(MERGE, first, init), [first] + init, last);
    }
  }

  // ---------------------------------------------------------------- all members

  ghost predicate SaysTheMost(m: Notice, members: seq<Notice>) {
    && members != []
    && TextFields(m, members) && DateFields(m, members) && BuyerFields(m, members) && AmountFields(m, members)
    && OtherGaps(m, members) && UrlFields(m, members) && RestIsFirst(m, members[0])
  }

  lemma AloneDates(n: Notice)
    ensures TextFields(n, [n]) && DateFields(n, [n])
  {
  }

  lemma AloneAmounts(n: Notice)
    ensures AmountFields(n, [n])
  {
    assert [n][..1] == [n];
    assert CurrencyField(n, [n], 1);
  }

  lemma AloneGaps(n: Notice)
    ensures BuyerFields(n, [n]) && OtherGaps(n, [n]) && UrlFields(n, [n])
  {
  }

  lemma AloneSaysTheMost(n: Notice)
    ensures SaysTheMost(n, [n])
  {
    AloneDates(n);
    AloneAmounts(n);
    AloneGaps(n);
  }

  lemma {:induction false} MergedFields(first: Notice, rest: seq<Notice>)
    ensures SaysTheMost(MergeAll(MERGE, first, rest), [first] + rest)
    decreases |rest|
  {
    if rest == [] {
      AloneSaysTheMost(first);
      assert [first] + rest == [first];
    } else {
      var init, last := rest[..|rest| - 1], rest[|rest| - 1];
      assert rest == init + [last] && [first] + rest == ([first] + init) + [last];
      MergeAllLast(MERGE, first, init, last);
      MergedFields(first, init);
      NextFields(MergeAll(MERGE, first, init), [first] + init, last);
    }
  }

  lemma NextFields(m: Notice, members: seq<Notice>, next: Notice)
    requires SaysTheMost(m, members)
    ensures SaysTheMost(Merge(m, next), members + [next])
  {
    NextTexts(m, members, next);
    NextDates(m, members, next);
    NextBuyer(m, members, next);
    NextAmounts(m, members, next);
    NextGaps(m, members, next);
    NextUrls(m, members, next);
  }

  /** However many notices were absorbed, every field of the canonical notice is what the members say about it. */
  lemma CanonicalSaysTheMost(first: Notice, rest: seq<Notice>)
    ensures SaysTheMost(MergeAll(MERGE, first, rest), [first] + rest)
    ensures ListFields(MergeAll(MERGE, first, rest), [first] + rest)
  {
    MergedFields(first, rest);
    MergedLists(first, rest);
    UnseenFirsts({}, Concatenated([first] + rest, CPV));
    UnseenFirsts({}, Concatenated([first] + rest, NUTS));
  }
}
