/** Which deadline alerts are due (alerts.py). */
module DeadlineAlerts {
  import opened Common
  import opened WorkingDays

  type TenderId = string
  type Kind = string

  datatype Stage = Open | Submitted | Closed

  /** A row of `tenders`. */
  datatype Tender = Tender(id: TenderId, orgId: string, title: Option<string>, deadlineAt: Option<int>, stage: Stage)

  datatype DueAlert = DueAlert(orgId: string, tenderId: TenderId, offsetDays: nat, deadlineAt: int, title: string)

  /** The order of the loop: the furthest offset first. */
  const OFFSETS: seq<nat> := [14, 7, 3, 1]

  const J3: Kind := "deadline.j3"

  const ESCALATED: Kind := "deadline.escalated"

  function AlertKind(offset: nat): Kind {
    if offset == 14 then "deadline.j14" else if offset == 7 then "deadline.j7"
    else if offset == 3 then J3 else "deadline.j1"
  }

  type SentSet = set<(TenderId, Kind)>

  /** The first offset of `offsets` that is unsent and due. */
  function FirstDue(id: TenderId, deadline: int, now: int, sent: SentSet, offsets: seq<nat>): Option<nat> {
    if offsets == [] then None
    else if (id, AlertKind(offsets[0])) !in sent && now >= WorkingDaysBefore(deadline, offsets[0]) then Some(offsets[0])
    else FirstDue(id, deadline, now, sent, offsets[1..])
  }

  function AlertOf(t: Tender, now: int, sent: SentSet): seq<DueAlert> {
    if t.deadlineAt.None? || t.deadlineAt.value <= now then []
    else match FirstDue(t.id, t.deadlineAt.value, now, sent, OFFSETS)
      case None => []
      case Some(offset) =>
        [DueAlert(t.orgId, t.id, offset, t.deadlineAt.value, if t.title.Some? then t.title.value else "")]
  }

  function DueAlerts(tenders: seq<Tender>, now: int, sent: SentSet): seq<DueAlert> {
    if tenders == [] then [] else AlertOf(tenders[0], now, sent) + DueAlerts(tenders[1..], now, sent)
  }

  lemma {:induction false} DueAlertsConcat(a: seq<Tender>, b: seq<Tender>, now: int, sent: SentSet)
    ensures DueAlerts(a + b, now, sent) == DueAlerts(a, now, sent) + DueAlerts(b, now, sent)
  {
    if a == [] {
      assert a + b == b;
    } else {
      assert (a + b)[1..] == a[1..] + b;
      DueAlertsConcat(a[1..], b, now, sent);
    }
  }

  method DueDeadlineAlerts(tenders: seq<Tender>, now: int, alreadySent: SentSet) returns (due: seq<DueAlert>)
    ensures due == DueAlerts(tenders, now, alreadySent)
  {
    due := [];
    for i := 0 to |tenders|
      invariant due == DueAlerts(tenders[..i], now, alreadySent)
    {
      var tender := tenders[i];
      assert tenders[..i + 1] == tenders[..i] + [tender];
      DueAlertsConcat(tenders[..i], [tender], now, alreadySent);
      assert [tender][1..] == [] && DueAlerts([tender], now, alreadySent) == AlertOf(tender, now, alreadySent);
      if tender.deadlineAt.Some? && tender.deadlineAt.value > now {
        var deadline := tender.deadlineAt.value;
        var k := 0;
        while k < |OFFSETS|
          invariant k <= |OFFSETS| && due == DueAlerts(tenders[..i], now, alreadySent)
          invariant FirstDue(tender.id, deadline, now, alreadySent, OFFSETS[k..]) ==
                    FirstDue(tender.id, deadline, now, alreadySent, OFFSETS)
        {
          var offset := OFFSETS[k];
          assert OFFSETS[k..][0] == offset && OFFSETS[k..][1..] == OFFSETS[k + 1..];
          if (tender.id, AlertKind(offset)) !in alreadySent {
            var fires := ComputeWorkingDaysBefore(deadline, offset);
            if now >= fires {
              var title := if tender.title.Some? then tender.title.value else "";
              due := due + [DueAlert(tender.orgId, tender.id, offset, deadline, title)];
              break;
            }
          }
          k := k + 1;
        }
      }
    }
    assert tenders[..|tenders|] == tenders;
  }

  // ---------------------------------------------------------------- the order alerts fire in

  predicate Unsent(id: TenderId, offset: nat, sent: SentSet) {
    (id, AlertKind(offset)) !in sent
  }

  ghost predicate Descending(offsets: seq<nat>) {
    forall i, j :: 0 <= i < j < |offsets| ==> offsets[i] > offsets[j]
  }

  /** The offset that fires is the furthest one not sent yet: a nearer one never overtakes it. */
  lemma {:induction false} FurthestUnsentFires(id: TenderId, deadline: int, now: int, sent: SentSet, offsets: seq<nat>)
    requires Descending(offsets)
    ensures match FirstDue(id, deadline, now, sent, offsets)
            case Some(offset) =>
              && offset in offsets && Unsent(id, offset, sent) && now >= WorkingDaysBefore(deadline, offset)
              && forall o :: o in offsets && o > offset ==> !Unsent(id, o, sent)
            case None =>
              forall o :: o in offsets && Unsent(id, o, sent) ==> now < WorkingDaysBefore(deadline, o)
  {
    if offsets != [] {
      FurthestUnsentFires(id, deadline, now, sent, offsets[1..]);
      assert offsets == [offsets[0]] + offsets[1..];
      match FirstDue(id, deadline, now, sent, offsets[1..])
      case None =>
      case Some(offset) => MoreNoticeIsEarlier(deadline, offset, offsets[0]);
    }
  }

  /** The alert has not been raised, and `offset` working days before the deadline are behind us. */
  ghost predicate Waits(id: TenderId, deadline: int, now: int, sent: SentSet, offset: nat) {
    && (id, "deadline.j" + Decimal(offset)) !in sent
    && exists instant :: LandsOn(deadline, offset, instant) && instant <= now
  }

  /** The first that waits, of J-14, J-7, J-3 and J-1. */
  ghost function FirstWaiting(id: TenderId, deadline: int, now: int, sent: SentSet): Option<nat> {
    if Waits(id, deadline, now, sent, 14) then Some(14)
    else if Waits(id, deadline, now, sent, 7) then Some(7)
    else if Waits(id, deadline, now, sent, 3) then Some(3)
    else if Waits(id, deadline, now, sent, 1) then Some(1)
    else None
  }

  lemma KindIsPrinted(offset: nat)
    requires offset in {14, 7, 3, 1}
    ensures AlertKind(offset) == "deadline.j" + Decimal(offset)
  {
    assert Decimal(14) == Decimal(1) + [DigitChar(4)];
  }

  lemma WaitsExact(id: TenderId, deadline: int, now: int, sent: SentSet, offset: nat)
    requires offset in {14, 7, 3, 1}
    ensures Waits(id, deadline, now, sent, offset) <==>
            (id, AlertKind(offset)) !in sent && now >= WorkingDaysBefore(deadline, offset)
  {
    KindIsPrinted(offset);
    var landing := WorkingDaysBefore(deadline, offset);
    CountdownLands(deadline, offset);
    forall x | LandsOn(deadline, offset, x) ensures x == landing {
      LandingIsUnique(deadline, offset, x, offset, landing);
    }
  }

  /** A tender whose deadline is ahead raises the first alert that waits. */
  lemma AlertExact(t: Tender, now: int, sent: SentSet)
    ensures AlertOf(t, now, sent) ==
            if t.deadlineAt.None? || t.deadlineAt.value <= now then []
            else match FirstWaiting(t.id, t.deadlineAt.value, now, sent)
              case None => []
              case Some(offset) =>
                [DueAlert(t.orgId, t.id, offset, t.deadlineAt.value,
                          match t.title case Some(title) => title case None => "")]
  {
    if t.deadlineAt.Some? && t.deadlineAt.value > now {
      var deadline := t.deadlineAt.value;
      WaitsExact(t.id, deadline, now, sent, 14);
      WaitsExact(t.id, deadline, now, sent, 7);
      WaitsExact(t.id, deadline, now, sent, 3);
      WaitsExact(t.id, deadline, now, sent, 1);
      FirstOfFour(t.id, deadline, now, sent);
    }
  }

  lemma FirstDueStep(id: TenderId, deadline: int, now: int, sent: SentSet, offsets: seq<nat>)
    requires offsets != []
    ensures FirstDue(id, deadline, now, sent, offsets) ==
            if (id, AlertKind(offsets[0])) !in sent && now >= WorkingDaysBefore(deadline, offsets[0])
            then Some(offsets[0]) else FirstDue(id, deadline, now, sent, offsets[1..])
  {
  }

  lemma FirstOfFour(id: TenderId, deadline: int, now: int, sent: SentSet)
    ensures FirstDue(id, deadline, now, sent, OFFSETS) ==
            if (id, AlertKind(14)) !in sent && now >= WorkingDaysBefore(deadline, 14) then Some(14)
            else if (id, AlertKind(7)) !in sent && now >= WorkingDaysBefore(deadline, 7) then Some(7)
            else if (id, AlertKind(3)) !in sent && now >= WorkingDaysBefore(deadline, 3) then Some(3)
            else if (id, AlertKind(1)) !in sent && now >= WorkingDaysBefore(deadline, 1) then Some(1)
            else None
  {
    var all: seq<nat>, three: seq<nat>, two: seq<nat>, one: seq<nat> := [14, 7, 3, 1], [7, 3, 1], [3, 1], [1];
    assert all[1..] == three && three[1..] == two && two[1..] == one && one[1..] == [];
    FirstDueStep(id, deadline, now, sent, all);
    FirstDueStep(id, deadline, now, sent, three);
    FirstDueStep(id, deadline, now, sent, two);
    FirstDueStep(id, deadline, now, sent, one);
  }

  predicate IsDue(deadline: int, now: int, offset: nat) {
    now >= WorkingDaysBefore(deadline, offset)
  }

  /** An offset that is still to be raised and whose instant has come. */
  predicate Waiting(id: TenderId, deadline: int, now: int, sent: SentSet, offset: nat) {
    Unsent(id, offset, sent) && IsDue(deadline, now, offset)
  }

  /** What the documentation promises of the offset that fires: no nearer one is waiting. */
  predicate IsNearest(id: TenderId, deadline: int, now: int, sent: SentSet, offset: nat) {
    forall o :: o in OFFSETS && o < offset ==> !Waiting(id, deadline, now, sent, o)
  }

  predicate OneWaiting(id: TenderId, deadline: int, now: int, sent: SentSet) {
    forall o, p ::
      o in OFFSETS && p in OFFSETS && Waiting(id, deadline, now, sent, o) && Waiting(id, deadline, now, sent, p) ==>
        o == p
  }

  /** The nearest waiting offset fires exactly if no two are waiting. */
  lemma NearestFiresExact(id: TenderId, deadline: int, now: int, sent: SentSet)
    requires FirstDue(id, deadline, now, sent, OFFSETS).Some?
    ensures IsNearest(id, deadline, now, sent, FirstDue(id, deadline, now, sent, OFFSETS).value) <==>
            OneWaiting(id, deadline, now, sent)
  {
    FurthestUnsentFires(id, deadline, now, sent, OFFSETS);
    var fired := FirstDue(id, deadline, now, sent, OFFSETS).value;
    assert Waiting(id, deadline, now, sent, fired);
    if IsNearest(id, deadline, now, sent, fired) {
      forall o | o in OFFSETS && Waiting(id, deadline, now, sent, o) ensures o == fired {
        assert !(o > fired);
      }
    }
  }

  /** With nothing sent at the J-3 instant, J-14 fires although J-3 is waiting. */
  lemma FurthestOvertakes(id: TenderId, deadline: int)
    ensures var now := WorkingDaysBefore(deadline, 3);
            && FirstDue(id, deadline, now, {}, OFFSETS) == Some(14)
            && Waiting(id, deadline, now, {}, 3) && !IsNearest(id, deadline, now, {}, 14)
  {
    MoreNoticeIsEarlier(deadline, 3, 14);
    assert OFFSETS[0] == 14 && OFFSETS[2] == 3 && 3 in OFFSETS;
  }
}
