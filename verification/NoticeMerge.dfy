/**
 The canonical notice (canonical.py) and the field-level merge of two of them (dedupe.py).

 The merge is left-biased and not commutative, but on whole records it is associative and absorbs
 repeats.  So a cluster's notice does not depend on how its members were bundled on the way in.
 */
module NoticeMerge {
  import opened Common
  import opened OrderedUnion

  // ---------------------------------------------------------------- the record

  datatype NoticeType = Planning | Competition | Result
  datatype NoticeStatus = Active | Amended | Closed | Awarded | Cancelled
  datatype ProcedureType =
    | Open | Restricted | Negotiated | CompetitiveDialogue | InnovationPartnership | DirectAward | Adapted
    | OtherProcedure
  datatype ContractNature = Works | Supplies | Services
  datatype DocumentKind = Rc | Ccap | Cctp | Ae | Price | Dume | Annex | Amendment | OtherDocument

  type Text = Option<string>

  datatype SourceRef = SourceRef(source: string, externalId: string, url: Text, fetchedAt: Option<int>)
  datatype Contact = Contact(email: Text, phone: Text, website: Text)
  datatype Address = Address(street: Text, postcode: Text, city: Text, nuts: Text, country: Text)
  datatype Buyer = Buyer(name: Text, siren: Text, siret: Text, nationalId: Text, contact: Contact, address: Address)
  datatype Procedure = Procedure(type_: Option<ProcedureType>, nationalLabel: Text, framework: Option<bool>,
                                 reservedSme: Option<bool>, contractNature: seq<ContractNature>)
  datatype Lot = Lot(lotId: string, title: Text, description: Text, cpv: seq<string>, amountEst: Option<real>,
                     currency: Text, placeNuts: seq<string>, deadlineAt: Option<int>)
  datatype Amounts = Amounts(estimatedTotal: Option<real>, currency: Text, vat: Text)
  datatype Visit = Visit(mandatory: Option<bool>, dates: seq<string>)
  datatype Dates = Dates(publishedAt: Option<int>, deadlineAt: Option<int>, questionsDeadlineAt: Option<int>,
                         visit: Visit, tz: Text)
  datatype DocumentRef = DocumentRef(kind: DocumentKind, title: Text, url: Text, fileKey: Text, pages: Option<int>)
  datatype Urls = Urls(notice: Text, documents: Text, submission: Text)
  datatype Award = Award(supplierName: Text, supplierSiren: Text, amount: Option<real>, currency: Text,
                         signedAt: Text, durationMonths: Option<int>)
  datatype Provenance = Provenance(adapter: string, normalizedAt: int, rawContentHash: Text,
                                   unmappedFields: seq<string>)

  datatype Notice = Notice(
    schemaVersion: int, uid: Text, clusterId: Text, sourceRefs: seq<SourceRef>, noticeType: NoticeType,
    status: NoticeStatus, country: string, language: Text, buyer: Buyer, title: string, description: Text,
    cpv: seq<string>, nuts: seq<string>, procedure: Procedure, lots: seq<Lot>, amounts: Amounts, dates: Dates,
    documents: seq<DocumentRef>, urls: Urls, requiresAccountForDocs: Option<bool>, award: Option<Award>,
    provenance: Provenance, version: int)

  /** What the field validators guarantee of a SIREN and a SIRET: absent, or of the right length. */
  predicate ValidBuyer(b: Buyer) {
    (b.siren.Some? ==> |b.siren.value| == 9) && (b.siret.Some? ==> |b.siret.value| == 14)
  }

  // ---------------------------------------------------------------- field policies

  /** Python truth of an optional string. */
  predicate Truthy(t: Text) {
    t.Some? && t.value != ""
  }

  /** `x or y`. */
  function Or(x: Text, y: Text): Text {
    if Truthy(x) then x else y
  }

  /** Fill a gap only: an existing value stands. */
  function FirstSome<T>(x: Option<T>, y: Option<T>): Option<T> {
    if x.None? then y else x
  }

  /** `if x is None and y: x = y`. */
  function FirstNonEmpty(x: Text, y: Text): Text {
    if x.None? && Truthy(y) then y else x
  }

  function LengthOf(t: Text): nat {
    if t.None? then 0 else |t.value|
  }

  function Longer(x: Text, y: Text): Text {
    if LengthOf(y) > LengthOf(x) then y else x
  }

  function LongerTitle(x: string, y: string): string {
    if |y| > |x| then y else x
  }

  function Earliest(x: Option<int>, y: Option<int>): Option<int> {
    if y.Some? && (x.None? || y.value < x.value) then y else x
  }

  function RefKey(ref: SourceRef): string {
    ref.source + ":" + ref.externalId
  }

  /** References are told apart by source and id; a document without a URL has no key, and is never added. */
  const REF_KEY: SourceRef -> Option<string> := (ref: SourceRef) => Some(RefKey(ref))

  const DOC_KEY: DocumentRef -> Option<string> :=
    (doc: DocumentRef) => if Truthy(doc.url) then doc.url else None

  function ExternalIds(n: Notice): set<string> {
    KeysOf(REF_KEY, n.sourceRefs)
  }

  function DocUrls(n: Notice): set<string> {
    KeysOf(DOC_KEY, n.documents)
  }

  function MergedVisit(x: Visit, y: Visit): Visit {
    if x.mandatory.None? && y.mandatory.Some? then y else x
  }

  function MergedDates(x: Dates, y: Dates): Dates {
    Dates(Earliest(x.publishedAt, y.publishedAt), FirstSome(x.deadlineAt, y.deadlineAt),
          FirstSome(x.questionsDeadlineAt, y.questionsDeadlineAt), MergedVisit(x.visit, y.visit), FirstSome(x.tz, y.tz))
  }

  function MergedBuyer(x: Buyer, y: Buyer): Buyer {
    x.(siren := FirstNonEmpty(x.siren, y.siren), siret := FirstNonEmpty(x.siret, y.siret),
       name := if !Truthy(x.name) && Truthy(y.name) then y.name else x.name)
  }

  /** The currency is only looked at when the total was missing. */
  function MergedAmounts(x: Amounts, y: Amounts): Amounts {
    if x.estimatedTotal.None? then x.(estimatedTotal := y.estimatedTotal, currency := Or(x.currency, y.currency)) else x
  }

  function MergedUrls(x: Urls, y: Urls): Urls {
    Urls(Or(x.notice, y.notice), Or(x.documents, y.documents), Or(x.submission, y.submission))
  }

  function Merge(canonical: Notice, incoming: Notice): Notice {
    canonical.(
      sourceRefs := Joined(REF_KEY, canonical.sourceRefs, incoming.sourceRefs),
      title := LongerTitle(canonical.title, incoming.title),
      description := Longer(canonical.description, incoming.description),
      cpv := FirstsOf(canonical.cpv, incoming.cpv),
      nuts := FirstsOf(canonical.nuts, incoming.nuts),
      dates := MergedDates(canonical.dates, incoming.dates),
      buyer := MergedBuyer(canonical.buyer, incoming.buyer),
      amounts := MergedAmounts(canonical.amounts, incoming.amounts),
      procedure := canonical.procedure.(type_ := FirstSome(canonical.procedure.type_, incoming.procedure.type_)),
      documents := Joined(DOC_KEY, canonical.documents, incoming.documents),
      urls := MergedUrls(canonical.urls, incoming.urls),
      lots := if canonical.lots == [] then incoming.lots else canonical.lots,
      award := FirstSome(canonical.award, incoming.award))
  }

  // ---------------------------------------------------------------- whole records

  lemma ScalarsAssociative(a: Notice, b: Notice, c: Notice)
    requires ValidBuyer(b.buyer)
    ensures MergedBuyer(MergedBuyer(a.buyer, b.buyer), c.buyer) == MergedBuyer(a.buyer, MergedBuyer(b.buyer, c.buyer))
    ensures MergedDates(MergedDates(a.dates, b.dates), c.dates) == MergedDates(a.dates, MergedDates(b.dates, c.dates))
    ensures MergedUrls(MergedUrls(a.urls, b.urls), c.urls) == MergedUrls(a.urls, MergedUrls(b.urls, c.urls))
    ensures MergedAmounts(MergedAmounts(a.amounts, b.amounts), c.amounts)
            == MergedAmounts(a.amounts, MergedAmounts(b.amounts, c.amounts))
  {
  }

  /** Bundling does not matter: merging a bundle into a notice is merging its parts one after the other. */
  lemma MergeAssociative(a: Notice, b: Notice, c: Notice)
    requires ValidBuyer(b.buyer)
    ensures Merge(Merge(a, b), c) == Merge(a, Merge(b, c))
  {
    JoinedAssociative(REF_KEY, a.sourceRefs, b.sourceRefs, c.sourceRefs);
    JoinedAssociative(DOC_KEY, a.documents, b.documents, c.documents);
    FirstsAssociative(a.cpv, b.cpv, c.cpv);
    FirstsAssociative(a.nuts, b.nuts, c.nuts);
    ScalarsAssociative(a, b, c);
  }

  /** Merging the same notice again changes nothing. */
  lemma MergeAbsorbs(a: Notice, b: Notice)
    ensures Merge(Merge(a, b), b) == Merge(a, b)
  {
    JoinedAbsorbs(REF_KEY, a.sourceRefs, b.sourceRefs);
    JoinedAbsorbs(DOC_KEY, a.documents, b.documents);
    FirstsAbsorb(a.cpv, b.cpv);
    FirstsAbsorb(a.nuts, b.nuts);
  }

  /** Every reference and every document URL of both notices survives; type and first reference stay. */
  lemma MergeKeeps(a: Notice, b: Notice)
    ensures ExternalIds(Merge(a, b)) == ExternalIds(a) + ExternalIds(b)
    ensures DocUrls(Merge(a, b)) == DocUrls(a) + DocUrls(b)
    ensures Merge(a, b).noticeType == a.noticeType
    ensures ValidBuyer(a.buyer) && ValidBuyer(b.buyer) ==> ValidBuyer(Merge(a, b).buyer)
    ensures a.sourceRefs != [] ==> Merge(a, b).sourceRefs != [] && Merge(a, b).sourceRefs[0] == a.sourceRefs[0]
  {
    JoinedKeys(REF_KEY, a.sourceRefs, b.sourceRefs);
    JoinedKeys(DOC_KEY, a.documents, b.documents);
  }

  /** `merge` as a value. */
  const MERGE: (Notice, Notice) -> Notice := (a: Notice, b: Notice) => Merge(a, b)

  /** A notice and the notices absorbed after it, in order. */
  function MergeAll(merge: (Notice, Notice) -> Notice, first: Notice, rest: seq<Notice>): Notice
    decreases |rest|
  {
    if rest == [] then first else MergeAll(merge, merge(first, rest[0]), rest[1..])
  }

  lemma {:induction false} MergeAllLast(merge: (Notice, Notice) -> Notice, first: Notice, rest: seq<Notice>,
                                        last: Notice)
    ensures MergeAll(merge, first, rest + [last]) == merge(MergeAll(merge, first, rest), last)
    decreases |rest|
  {
    if rest == [] {
      assert rest + [last] == [last] && [last][1..] == [];
    } else {
      assert (rest + [last])[1..] == rest[1..] + [last];
      MergeAllLast(merge, merge(first, rest[0]), rest[1..], last);
    }
  }

  /** Absorbing a late bundle equals absorbing its members one by one. */
  lemma {:induction false} AbsorbingABundle(x: Notice, y: Notice, ys: seq<Notice>)
    requires ValidBuyer(y.buyer) && forall n :: n in ys ==> ValidBuyer(n.buyer)
    ensures MergeAll(MERGE, x, [y] + ys) == Merge(x, MergeAll(MERGE, y, ys))
    decreases |ys|
  {
    assert ([y] + ys)[1..] == ys;
    if ys != [] {
      MergeAssociative(x, y, ys[0]);
      MergeKeeps(y, ys[0]);
      AbsorbingABundle(x, Merge(y, ys[0]), ys[1..]);
      assert ([Merge(y, ys[0])] + ys[1..])[1..] == ys[1..];
    }
  }

  /** Without the validators the law would fail: an empty SIREN in the middle notice blocks a later one. */
  lemma EmptySirenBreaksAssociativity(a: Buyer, b: Buyer, c: Buyer)
    requires b.siren == Some("") && a.siren.None? && Truthy(c.siren)
    ensures MergedBuyer(MergedBuyer(a, b), c).siren != MergedBuyer(a, MergedBuyer(b, c)).siren
  {
  }
}
