/** Every interleaving of alert ticks, deliveries, acknowledgements and escalations (alerts.py, notify.py). */
module NotificationRuns {
  import opened Common
  import opened WorkingDays
  import opened DeadlineAlerts
  import opened Notifications

  /** The transport accepted a message about a row. */
  datatype Acceptance = Acceptance(row: nat, recipient: string, at: int)

  datatype World = World(rows: seq<Note>, log: set<Acceptance>, clock: int)

  datatype Step =
    | Raise(tenders: seq<Tender>, now: int)        // the `tenders` table may be any other one at each tick
    | Escalate(now: int)
    | Deliver(orgId: string, people: seq<string>, accepts: Accepts, limit: nat, began: int, now: int)
                                                   // begun, and committed with its messages accepted
    | LoseDelivery(orgId: string, people: seq<string>, accepts: Accepts, limit: nat, now: int)
                                                   // messages left, then the transaction rolled back
    | Acknowledge(row: nat, now: int)
    | RaiseOther(note: Note, now: int)             // a notification about something else

  predicate IdsDistinct(tenders: seq<Tender>) {
    && (forall i :: 0 <= i < |tenders| ==> tenders[i].id != "")
    && (forall i, j :: 0 <= i < j < |tenders| ==> tenders[i].id != tenders[j].id)
  }

  predicate Enabled(w: World, s: Step) {
    && w.clock <= s.now
    && match s
       case Deliver(_, _, _, _, began, now) => w.clock <= began <= now
       case Raise(tenders, _) => IdsDistinct(tenders)
       case Acknowledge(row, _) => row < |w.rows|
       case RaiseOther(note, now) =>
         !IsAlertKind(note.kind) && note.kind != ESCALATED && note.sentAt.None? && note.createdAt == now
       case _ => true
  }

  function Sent(rows: seq<Note>, pending: seq<nat>, people: seq<string>, accepts: Accepts, now: int): set<Acceptance> {
    set a | a in accepts && a.0 in pending && a.1 in people :: Acceptance(a.0, a.1, now)
  }

  function Apply(w: World, s: Step): World
    requires Enabled(w, s)
  {
    match s
    case Raise(tenders, now) => World(Raised(w.rows, tenders, now), w.log, now)
    case Escalate(now) => World(Escalated(w.rows, now), w.log, now)
    case Deliver(orgId, people, accepts, limit, began, now) =>
      var pending := Pending(w.rows, orgId, 0, limit);
      World(Delivered(w.rows, pending, people, accepts, began),
            w.log + Sent(w.rows, pending, people, accepts, now), now)
    case LoseDelivery(orgId, people, accepts, limit, now) =>
      World(w.rows, w.log + Sent(w.rows, Pending(w.rows, orgId, 0, limit), people, accepts, now), now)
    case Acknowledge(row, now) => World(w.rows[row := w.rows[row].(ackAt := Some(now))], w.log, now)
    case RaiseOther(note, now) => World(w.rows + [note], w.log, now)
  }

  predicate Run(w: World, steps: seq<Step>)
    decreases |steps|
  {
    steps == [] || (Enabled(w, steps[0]) && Run(Apply(w, steps[0]), steps[1..]))
  }

  function Final(w: World, steps: seq<Step>): World
    requires Run(w, steps)
    decreases |steps|
  {
    if steps == [] then w else Final(Apply(w, steps[0]), steps[1..])
  }

  // ---------------------------------------------------------------- alerts come in the order 14, 7, 3, 1

  const LADDER: seq<Kind> := ["deadline.j14", "deadline.j7", "deadline.j3", "deadline.j1"]

  /** The alerts raised for a tender, in the order they were raised. */
  function AlertsFor(rows: seq<Note>, id: TenderId): seq<Kind> {
    if rows == [] then []
    else (if rows[0].tenderId == id && IsAlertKind(rows[0].kind) then [rows[0].kind] else []) + AlertsFor(rows[1..], id)
  }

  lemma {:induction false} AlertsForConcat(a: seq<Note>, b: seq<Note>, id: TenderId)
    ensures AlertsFor(a + b, id) == AlertsFor(a, id) + AlertsFor(b, id)
  {
    if a == [] {
      assert a + b == b;
    } else {
      assert (a + b)[1..] == a[1..] + b;
      AlertsForConcat(a[1..], b, id);
    }
  }

  lemma {:induction false} OnRecordIffRaised(rows: seq<Note>, id: TenderId, kind: Kind)
    requires id != "" && IsAlertKind(kind)
    ensures (id, kind) in SentOf(rows) <==> kind in AlertsFor(rows, id)
  {
    if rows != [] {
      OnRecordIffRaised(rows[1..], id, kind);
      assert rows == [rows[0]] + rows[1..];
      if (id, kind) in SentOf(rows) && (id, kind) !in SentOf(rows[1..]) {
        var n :| n in rows && IsAlertKind(n.kind) && n.tenderId != "" && (n.tenderId, n.kind) == (id, kind);
        assert n == rows[0];
      }
      if rows[0].tenderId == id && rows[0].kind == kind {
        assert rows[0] in rows;
      }
    }
  }

  /** Two tables with the same identities raise the same alerts. */
  predicate SameIdentity(a: Note, b: Note) {
    a.kind == b.kind && a.tenderId == b.tenderId
  }

  lemma {:induction false} AlertsForKeepsIdentity(a: seq<Note>, b: seq<Note>, id: TenderId)
    requires |a| == |b| && forall i :: 0 <= i < |a| ==> SameIdentity(a[i], b[i])
    ensures AlertsFor(a, id) == AlertsFor(b, id)
  {
    if a != [] {
      assert SameIdentity(a[0], b[0]);
      assert forall i :: 0 <= i < |a| - 1 ==> SameIdentity(a[1..][i], b[1..][i]) by {
        forall i | 0 <= i < |a| - 1 ensures SameIdentity(a[1..][i], b[1..][i]) {
          assert SameIdentity(a[i + 1], b[i + 1]);
        }
      }
      AlertsForKeepsIdentity(a[1..], b[1..], id);
    }
  }

  lemma LadderKinds()
    ensures forall k :: 0 <= k < 4 ==> LADDER[k] == AlertKind(OFFSETS[k]) && IsAlertKind(LADDER[k])
    ensures forall j, k :: 0 <= j < k < 4 ==> LADDER[j] != LADDER[k]
    ensures !IsAlertKind(ESCALATED)
  {
    assert |LADDER[0]| == 12 && |LADDER[1]| == 11 && |LADDER[2]| == 11 && |LADDER[3]| == 11;
    assert LADDER[1][10] == '7' && LADDER[2][10] == '3' && LADDER[3][10] == '1';
    assert ESCALATED[..10][9] == 'e' && ALERT_PREFIX[9] == 'j';
  }

  predicate SentUpTo(sent: SentSet, id: TenderId, k: nat) {
    forall i :: 0 <= i < 4 ==> ((id, LADDER[i]) in sent <==> i < k)
  }

  lemma RungUnsent(id: TenderId, sent: SentSet, k: nat, i: nat)
    requires k <= 4 && i < 4 && SentUpTo(sent, id, k)
    ensures Unsent(id, OFFSETS[i], sent) <==> k <= i
  {
    LadderKinds();
    assert LADDER[i] == AlertKind(OFFSETS[i]);
  }

  /** The first `k` rungs are on record; the next one fires exactly if its instant has come. */
  lemma NextRungFires(id: TenderId, deadline: int, now: int, sent: SentSet, k: nat)
    requires k <= 4 && SentUpTo(sent, id, k)
    ensures match FirstDue(id, deadline, now, sent, OFFSETS)
            case None => k == 4 || now < WorkingDaysBefore(deadline, OFFSETS[k])
            case Some(offset) =>
              k < 4 && AlertKind(offset) == LADDER[k] && now >= WorkingDaysBefore(deadline, OFFSETS[k])
  {
    FurthestUnsentFires(id, deadline, now, sent, OFFSETS);
    if k < 4 {
      RungUnsent(id, sent, k, k);
      assert OFFSETS[k] in OFFSETS;
    }
    match FirstDue(id, deadline, now, sent, OFFSETS)
    case None =>
    case Some(offset) =>
      var j :| 0 <= j < 4 && OFFSETS[j] == offset;
      RungUnsent(id, sent, k, j);
      LadderKinds();
  }

  predicate OnLadder(alerts: seq<Kind>) {
    |alerts| <= 4 && alerts == LADDER[..|alerts|]
  }

  /** What one tick adds for one tender. */
  function AddedBy(tenders: seq<Tender>, now: int, sent: SentSet): seq<Note> {
    NotesOf(DueAlerts(Selected(tenders, now), now, sent), now)
  }

  function AddedFor(t: Tender, now: int, sent: SentSet): seq<Note> {
    AddedBy([t], now, sent)
  }

  lemma NotesOfConcat(a: seq<DueAlert>, b: seq<DueAlert>, now: int)
    ensures NotesOf(a + b, now) == NotesOf(a, now) + NotesOf(b, now)
  {
  }

  lemma SelectedFirst(tenders: seq<Tender>, now: int)
    requires tenders != []
    ensures Selected(tenders, now) == Selected([tenders[0]], now) + Selected(tenders[1..], now)
  {
    assert [tenders[0]][1..] == [] && Selected([], now) == [];
  }

  lemma AddedTenderByTender(tenders: seq<Tender>, now: int, sent: SentSet)
    requires tenders != []
    ensures AddedBy(tenders, now, sent) == AddedFor(tenders[0], now, sent) + AddedBy(tenders[1..], now, sent)
  {
    var first, rest := Selected([tenders[0]], now), Selected(tenders[1..], now);
    SelectedFirst(tenders, now);
    DueAlertsConcat(first, rest, now, sent);
    NotesOfConcat(DueAlerts(first, now, sent), DueAlerts(rest, now, sent), now);
  }

  lemma AddedForShape(t: Tender, now: int, sent: SentSet)
    ensures var added := AddedFor(t, now, sent);
            || added == []
            || (t.deadlineAt.Some?
                && match FirstDue(t.id, t.deadlineAt.value, now, sent, OFFSETS)
                   case None => false
                   case Some(offset) => added == [Note(t.orgId, AlertKind(offset), t.id, now, None, None)])
  {
    assert [t][1..] == [] && Selected([], now) == [];
    var first := Selected([t], now);
    if first != [] {
      assert first == [t];
      assert DueAlerts([], now, sent) == [];
      assert DueAlerts(first, now, sent) == AlertOf(t, now, sent);
    }
  }

  lemma {:induction false} OthersAddNothing(tenders: seq<Tender>, now: int, sent: SentSet, id: TenderId)
    requires forall i :: 0 <= i < |tenders| ==> tenders[i].id != id
    ensures AlertsFor(AddedBy(tenders, now, sent), id) == []
  {
    if tenders != [] {
      AddedTenderByTender(tenders, now, sent);
      AddedForShape(tenders[0], now, sent);
      OthersAddNothing(tenders[1..], now, sent, id);
      AlertsForConcat(AddedFor(tenders[0], now, sent), AddedBy(tenders[1..], now, sent), id);
      var added := AddedFor(tenders[0], now, sent);
      if added != [] { assert added[1..] == []; }
    }
  }

  /** The next rung is due: the tender is open, its deadline lies ahead, and there are few enough working days left. */
  predicate RungIsDue(t: Tender, now: int, k: nat) {
    && t.deadlineAt.Some? && t.deadlineAt.value > now && t.stage == Open
    && k < 4 && now >= WorkingDaysBefore(t.deadlineAt.value, OFFSETS[k])
  }

  lemma TenderAddsNextRung(t: Tender, now: int, sent: SentSet, k: nat)
    requires t.id != "" && k <= 4 && SentUpTo(sent, t.id, k)
    ensures AlertsFor(AddedFor(t, now, sent), t.id) == if RungIsDue(t, now, k) then [LADDER[k]] else []
  {
    LadderKinds();
    assert [t][1..] == [] && Selected([], now) == [] && DueAlerts([], now, sent) == [];
    if t.deadlineAt.Some? {
      NextRungFires(t.id, t.deadlineAt.value, now, sent, k);
      if Selected([t], now) != [] {
        assert Selected([t], now) == [t] && DueAlerts([t], now, sent) == AlertOf(t, now, sent);
      }
    }
    var added := AddedFor(t, now, sent);
    if added != [] { assert added[1..] == []; }
  }

  predicate DueFor(tenders: seq<Tender>, id: TenderId, now: int, k: nat) {
    exists t :: t in tenders && t.id == id && RungIsDue(t, now, k)
  }

  lemma DueForFirstOrRest(tenders: seq<Tender>, id: TenderId, now: int, k: nat)
    requires tenders != []
    ensures DueFor(tenders, id, now, k) <==>
            (tenders[0].id == id && RungIsDue(tenders[0], now, k)) || DueFor(tenders[1..], id, now, k)
  {
    assert tenders == [tenders[0]] + tenders[1..];
    if tenders[0].id == id && RungIsDue(tenders[0], now, k) { assert tenders[0] in tenders; }
  }

  /** One tick adds for a tender exactly the next rung if it is due, and otherwise nothing. */
  lemma {:induction false} TickAddsNextRung(tenders: seq<Tender>, now: int, sent: SentSet, id: TenderId, k: nat)
    requires IdsDistinct(tenders) && k <= 4 && (id != "" ==> SentUpTo(sent, id, k))
    ensures AlertsFor(AddedBy(tenders, now, sent), id) == if DueFor(tenders, id, now, k) then [LADDER[k]] else []
  {
    if tenders != [] {
      var t := tenders[0];
      AddedTenderByTender(tenders, now, sent);
      var added := AddedFor(t, now, sent);
      AlertsForConcat(added, AddedBy(tenders[1..], now, sent), id);
      DueForFirstOrRest(tenders, id, now, k);
      if t.id == id {
        OthersAddNothing(tenders[1..], now, sent, id);
        TenderAddsNextRung(t, now, sent, k);
      } else {
        AddedForShape(t, now, sent);
        if added != [] { assert added[1..] == []; }
        TickAddsNextRung(tenders[1..], now, sent, id, k);
      }
    }
  }

  /** What is on record about a tender is the part of the ladder it has climbed. */
  lemma RecordIsLadder(rows: seq<Note>, id: TenderId, i: nat)
    requires id != "" && OnLadder(AlertsFor(rows, id)) && i < 4
    ensures (id, LADDER[i]) in SentOf(rows) <==> i < |AlertsFor(rows, id)|
  {
    var alerts := AlertsFor(rows, id);
    LadderKinds();
    OnRecordIffRaised(rows, id, LADDER[i]);
    if LADDER[i] in alerts {
      var j :| 0 <= j < |alerts| && alerts[j] == LADDER[i];
      assert LADDER[j] == LADDER[i];
    }
    if i < |alerts| { assert alerts[i] == LADDER[i]; }
  }

  lemma ClimbsOne(alerts: seq<Kind>, added: seq<Kind>)
    requires OnLadder(alerts) && (added == [] || (|alerts| < 4 && added == [LADDER[|alerts|]]))
    ensures OnLadder(alerts + added)
  {
  }

  /** A tick raises for each tender the next of 14, 7, 3, 1 if it is due, one at a time, and nothing else. */
  lemma RaiseClimbs(rows: seq<Note>, tenders: seq<Tender>, now: int, id: TenderId)
    requires IdsDistinct(tenders) && OnLadder(AlertsFor(rows, id))
    ensures var alerts, after := AlertsFor(rows, id), AlertsFor(Raised(rows, tenders, now), id);
            && OnLadder(after)
            && |after| == |alerts| + if DueFor(tenders, id, now, |alerts|) then 1 else 0
  {
    var alerts, sent := AlertsFor(rows, id), SentOf(rows);
    if id != "" {
      forall i | 0 <= i < 4 ensures (id, LADDER[i]) in sent <==> i < |alerts| {
        RecordIsLadder(rows, id, i);
      }
    }
    TickAddsNextRung(tenders, now, sent, id, |alerts|);
    AlertsForConcat(rows, AddedBy(tenders, now, sent), id);
    ClimbsOne(alerts, AlertsFor(AddedBy(tenders, now, sent), id));
  }

  lemma {:induction false} EscalationsAreNoAlerts(rows: seq<Note>, todo: seq<Note>, now: int, id: TenderId)
    ensures AlertsFor(Escalations(rows, todo, now), id) == []
  {
    if todo != [] {
      LadderKinds();
      EscalationsAreNoAlerts(rows, todo[1..], now, id);
      var e := Note(todo[0].orgId, ESCALATED, todo[0].tenderId, now, None, None);
      assert [e][1..] == [];
      AlertsForConcat(if NeedsEscalation(rows, todo[0], now) then [e] else [], Escalations(rows, todo[1..], now), id);
    }
  }

  // ---------------------------------------------------------------- what a step may do to a row

  predicate Matures(a: Note, b: Note, now: int) {
    && SameIdentity(a, b) && a.orgId == b.orgId && a.createdAt == b.createdAt
    && (a.sentAt.Some? ==> b.sentAt == a.sentAt)
    && (b.ackAt == a.ackAt || b.ackAt == Some(now))
  }

  /** No step removes a row, changes what it is about, or touches `sent_at` once it is set. */
  lemma RowsOnlyMature(w: World, s: Step)
    requires Enabled(w, s)
    ensures var w' := Apply(w, s);
            && |w.rows| <= |w'.rows| && w.log <= w'.log && w'.clock == s.now
            && forall i :: 0 <= i < |w.rows| ==> Matures(w.rows[i], w'.rows[i], s.now)
  {
    if s.Deliver? { PendingExact(w.rows, s.orgId, 0, s.limit); }
  }

  lemma StepKeepsLadder(w: World, s: Step, id: TenderId)
    requires Enabled(w, s) && OnLadder(AlertsFor(w.rows, id))
    ensures OnLadder(AlertsFor(Apply(w, s).rows, id))
  {
    var w' := Apply(w, s);
    RowsOnlyMature(w, s);
    match s
    case Raise(tenders, now) => RaiseClimbs(w.rows, tenders, now, id);
    case Escalate(now) =>
      EscalationsAreNoAlerts(w.rows, w.rows, now, id);
      AlertsForConcat(w.rows, Escalations(w.rows, w.rows, now), id);
    case RaiseOther(note, _) =>
      assert [note][1..] == [];
      AlertsForConcat(w.rows, [note], id);
    case _ =>
      forall i | 0 <= i < |w.rows| ensures SameIdentity(w.rows[i], w'.rows[i]) {
        assert Matures(w.rows[i], w'.rows[i], s.now);
      }
      AlertsForKeepsIdentity(w.rows, w'.rows, id);
  }

  // ---------------------------------------------------------------- escalations

  predicate IsEscalation(rows: seq<Note>, i: int) {
    0 <= i < |rows| && rows[i].kind == ESCALATED
  }

  ghost predicate EscalatedOnce(rows: seq<Note>) {
    forall i, j :: IsEscalation(rows, i) && IsEscalation(rows, j) && i < j ==> rows[i].tenderId != rows[j].tenderId
  }

  /** `sent_at` is when the delivery began; the message was accepted in the course of it. */
  predicate AcceptedWithin(log: set<Acceptance>, row: nat, began: int, longest: nat) {
    exists a :: a in log && a.row == row && began <= a.at <= began + longest
  }

  /** Row `j` is a J-3 alert, unread until `e`, whose delivery began over a day before and reached some recipient. */
  predicate Justifies(w: World, longest: nat, j: nat, e: Note) {
    && j < |w.rows| && w.rows[j].kind == J3 && w.rows[j].tenderId == e.tenderId
    && w.rows[j].sentAt.Some? && w.rows[j].sentAt.value < e.createdAt - ESCALATION_AFTER
    && AcceptedWithin(w.log, j, w.rows[j].sentAt.value, longest)
    && (w.rows[j].ackAt.None? || w.rows[j].ackAt.value >= e.createdAt)
  }

  predicate Justified(w: World, longest: nat, e: Note) {
    e.createdAt <= w.clock && exists j: nat :: j < |w.rows| && Justifies(w, longest, j, e)
  }

  ghost predicate EscalationsJustified(w: World, longest: nat) {
    forall i :: IsEscalation(w.rows, i) ==> Justified(w, longest, w.rows[i])
  }

  ghost predicate SentMeansAccepted(w: World, longest: nat) {
    forall i: nat :: i < |w.rows| && w.rows[i].sentAt.Some? ==>
                       AcceptedWithin(w.log, i, w.rows[i].sentAt.value, longest)
  }

  /** A delivery takes at most `longest` seconds. */
  predicate Brief(s: Step, longest: nat) {
    s.Deliver? ==> s.now - s.began <= longest
  }

  lemma {:induction false} RowIsOnTheLadder(rows: seq<Note>, i: nat)
    requires i < |rows| && IsAlertKind(rows[i].kind)
    ensures rows[i].kind in AlertsFor(rows, rows[i].tenderId)
  {
    if i > 0 {
      RowIsOnTheLadder(rows[1..], i - 1);
    }
  }

  lemma RungsDiffer(alerts: seq<Kind>, p: nat, q: nat)
    requires OnLadder(alerts) && p < q < |alerts|
    ensures alerts[p] != alerts[q]
  {
  }

  /** A tender has at most one J-3 alert. */
  lemma {:induction false} OneJ3(rows: seq<Note>, i: nat, j: nat)
    requires i < j < |rows| && rows[i].kind == rows[j].kind == J3
    requires OnLadder(AlertsFor(rows, rows[i].tenderId))
    ensures rows[i].tenderId != rows[j].tenderId
  {
    LadderKinds();
    var id := rows[i].tenderId;
    if rows[j].tenderId == id {
      var before, rest := AlertsFor(rows[..j], id), AlertsFor(rows[j..], id);
      assert rows[..j] + rows[j..] == rows;
      AlertsForConcat(rows[..j], rows[j..], id);
      RowIsOnTheLadder(rows[..j], i);
      RowIsOnTheLadder(rows[j..], 0);
      var p :| 0 <= p < |before| && before[p] == J3;
      var q :| 0 <= q < |rest| && rest[q] == J3;
      RungsDiffer(AlertsFor(rows, id), p, |before| + q);
    }
  }

  /** Every escalation comes from a row that needed one. */
  lemma {:induction false} EscalationsComeFromRows(rows: seq<Note>, todo: seq<Note>, now: int, k: nat)
    requires k < |Escalations(rows, todo, now)|
    ensures var e := Escalations(rows, todo, now)[k];
            && e.kind == ESCALATED && e.createdAt == now
            && exists i: nat :: i < |todo| && NeedsEscalation(rows, todo[i], now) && e.tenderId == todo[i].tenderId
  {
    var first := if NeedsEscalation(rows, todo[0], now) then 1 else 0;
    if k >= first {
      EscalationsComeFromRows(rows, todo[1..], now, k - first);
      var i: nat :| i < |todo[1..]| && NeedsEscalation(rows, todo[1..][i], now)
                    && Escalations(rows, todo[1..], now)[k - first].tenderId == todo[1..][i].tenderId;
      assert todo[i + 1] == todo[1..][i];
    } else {
      assert NeedsEscalation(rows, todo[0], now);
    }
  }

  ghost predicate DistinctJ3(todo: seq<Note>) {
    forall i, j :: 0 <= i < j < |todo| && todo[i].kind == J3 && todo[j].kind == J3 ==>
                     todo[i].tenderId != todo[j].tenderId
  }

  lemma {:induction false} EscalationsDiffer(rows: seq<Note>, todo: seq<Note>, now: int, p: nat, q: nat)
    requires DistinctJ3(todo) && p < q < |Escalations(rows, todo, now)|
    ensures Escalations(rows, todo, now)[p].tenderId != Escalations(rows, todo, now)[q].tenderId
  {
    var first := if NeedsEscalation(rows, todo[0], now) then 1 else 0;
    if p >= first {
      EscalationsDiffer(rows, todo[1..], now, p - first, q - first);
    } else {
      EscalationsComeFromRows(rows, todo[1..], now, q - 1);
      var i: nat :| i < |todo[1..]| && NeedsEscalation(rows, todo[1..][i], now)
                    && Escalations(rows, todo[1..], now)[q - 1].tenderId == todo[1..][i].tenderId;
      assert todo[i + 1] == todo[1..][i];
    }
  }

  ghost predicate Laddered(rows: seq<Note>) {
    forall id :: OnLadder(AlertsFor(rows, id))
  }

  lemma EscalateOnce(rows: seq<Note>, now: int)
    requires Laddered(rows) && EscalatedOnce(rows)
    ensures EscalatedOnce(Escalated(rows, now))
  {
    var extra, after := Escalations(rows, rows, now), Escalated(rows, now);
    forall i, j | 0 <= i < j < |rows| && rows[i].kind == J3 && rows[j].kind == J3
      ensures rows[i].tenderId != rows[j].tenderId
    {
      OneJ3(rows, i, j);
    }
    forall i, j | IsEscalation(after, i) && IsEscalation(after, j) && i < j
      ensures after[i].tenderId != after[j].tenderId
    {
      if j < |rows| {
        assert IsEscalation(rows, i) && IsEscalation(rows, j);
      } else if i < |rows| {
        EscalationsComeFromRows(rows, rows, now, j - |rows|);
        assert rows[i] in rows;
      } else {
        EscalationsDiffer(rows, rows, now, i - |rows|, j - |rows|);
      }
    }
  }

  lemma {:induction false} NeededIsEscalated(rows: seq<Note>, todo: seq<Note>, now: int, n: Note)
    requires n in todo && NeedsEscalation(rows, n, now)
    ensures HasEscalation(Escalations(rows, todo, now), n.tenderId)
  {
    var first := if NeedsEscalation(rows, todo[0], now)
                 then [Note(todo[0].orgId, ESCALATED, todo[0].tenderId, now, None, None)] else [];
    var rest := Escalations(rows, todo[1..], now);
    assert Escalations(rows, todo, now) == first + rest;
    if n == todo[0] {
      assert first[0] in first + rest;
    } else {
      NeededIsEscalated(rows, todo[1..], now, n);
      var e :| e in rest && e.kind == ESCALATED && e.tenderId == n.tenderId;
      assert e in first + rest;
    }
  }

  /** After a sweep a tender is escalated exactly if it was before or one of its J-3 alerts called for it. */
  lemma EscalateExact(rows: seq<Note>, now: int, id: TenderId)
    ensures HasEscalation(Escalated(rows, now), id) <==>
            HasEscalation(rows, id) || exists n :: n in rows && n.tenderId == id && NeedsEscalation(rows, n, now)
  {
    var extra, after := Escalations(rows, rows, now), Escalated(rows, now);
    if HasEscalation(after, id) && !HasEscalation(rows, id) {
      var e :| e in after && e.kind == ESCALATED && e.tenderId == id;
      assert e !in rows;
      var k :| 0 <= k < |extra| && extra[k] == e;
      EscalationsComeFromRows(rows, rows, now, k);
    }
    if HasEscalation(rows, id) {
      var e :| e in rows && e.kind == ESCALATED && e.tenderId == id;
      assert e in after;
    }
    if n :| n in rows && n.tenderId == id && NeedsEscalation(rows, n, now) {
      NeededIsEscalated(rows, rows, now, n);
      var e :| e in extra && e.kind == ESCALATED && e.tenderId == id;
      assert e in after;
    }
  }

  lemma TickRaisesNoEscalation(rows: seq<Note>, tenders: seq<Tender>, now: int, i: nat)
    requires |rows| <= i < |Raised(rows, tenders, now)|
    ensures !IsEscalation(Raised(rows, tenders, now), i) && Raised(rows, tenders, now)[i].sentAt.None?
  {
  }

  lemma StepEscalatesOnce(w: World, s: Step)
    requires Enabled(w, s) && Laddered(w.rows) && EscalatedOnce(w.rows)
    ensures EscalatedOnce(Apply(w, s).rows)
  {
    var w' := Apply(w, s);
    if s.Escalate? {
      EscalateOnce(w.rows, s.now);
    } else {
      RowsOnlyMature(w, s);
      forall i | IsEscalation(w'.rows, i) ensures IsEscalation(w.rows, i) && w.rows[i].tenderId == w'.rows[i].tenderId {
        if i < |w.rows| {
          assert Matures(w.rows[i], w'.rows[i], s.now);
        } else if s.Raise? {
          TickRaisesNoEscalation(w.rows, s.tenders, s.now, i);
        }
      }
    }
  }

  lemma StepKeepsAccepted(w: World, s: Step, longest: nat)
    requires Enabled(w, s) && Brief(s, longest) && SentMeansAccepted(w, longest)
    ensures SentMeansAccepted(Apply(w, s), longest)
  {
    var w' := Apply(w, s);
    RowsOnlyMature(w, s);
    forall i: nat | i < |w'.rows| && w'.rows[i].sentAt.Some?
      ensures AcceptedWithin(w'.log, i, w'.rows[i].sentAt.value, longest)
    {
      if i < |w.rows| && w.rows[i].sentAt.Some? {
        assert Matures(w.rows[i], w'.rows[i], s.now);
        StaysAccepted(w, s, i, w.rows[i].sentAt.value, longest);
      } else if s.Deliver? {
        var p :| p in s.people && (i, p) in s.accepts;
        assert Acceptance(i, p, s.now) in w'.log;
      } else if s.Escalate? && i >= |w.rows| {
        EscalationsAreUnsent(w.rows, w.rows, s.now, i - |w.rows|);
      }
    }
  }

  lemma StaysAccepted(w: World, s: Step, row: nat, began: int, longest: nat)
    requires Enabled(w, s) && AcceptedWithin(w.log, row, began, longest)
    ensures AcceptedWithin(Apply(w, s).log, row, began, longest)
  {
    var a :| a in w.log && a.row == row && began <= a.at <= began + longest;
    assert a in Apply(w, s).log;
  }

  lemma {:induction false} EscalationsAreUnsent(rows: seq<Note>, todo: seq<Note>, now: int, k: nat)
    requires k < |Escalations(rows, todo, now)|
    ensures Escalations(rows, todo, now)[k].sentAt.None?
  {
    var first := if NeedsEscalation(rows, todo[0], now) then 1 else 0;
    if k >= first { EscalationsAreUnsent(rows, todo[1..], now, k - first); }
  }

  lemma StaysJustified(w: World, s: Step, longest: nat, e: Note)
    requires Enabled(w, s) && Justified(w, longest, e)
    ensures Justified(Apply(w, s), longest, e)
  {
    var w' := Apply(w, s);
    RowsOnlyMature(w, s);
    var j: nat :| j < |w.rows| && Justifies(w, longest, j, e);
    assert Matures(w.rows[j], w'.rows[j], s.now);
    StaysAccepted(w, s, j, w.rows[j].sentAt.value, longest);
    assert Justifies(w', longest, j, e);
  }

  lemma StepKeepsJustified(w: World, s: Step, longest: nat)
    requires Enabled(w, s) && SentMeansAccepted(w, longest) && EscalationsJustified(w, longest)
    ensures EscalationsJustified(Apply(w, s), longest)
  {
    var w' := Apply(w, s);
    RowsOnlyMature(w, s);
    forall i | IsEscalation(w'.rows, i) ensures Justified(w', longest, w'.rows[i]) {
      if i < |w.rows| {
        assert Matures(w.rows[i], w'.rows[i], s.now);
        assert IsEscalation(w.rows, i);
        StaysJustified(w, s, longest, w.rows[i]);
        var j: nat :| j < |w'.rows| && Justifies(w', longest, j, w.rows[i]);
        assert Justifies(w', longest, j, w'.rows[i]);
      } else if s.Raise? {
        TickRaisesNoEscalation(w.rows, s.tenders, s.now, i);
      } else if s.Escalate? {
        EscalationsComeFromRows(w.rows, w.rows, s.now, i - |w.rows|);
        var j: nat :| j < |w.rows| && NeedsEscalation(w.rows, w.rows[j], s.now)
                      && w'.rows[i].tenderId == w.rows[j].tenderId;
        assert Justifies(w', longest, j, w'.rows[i]);
      }
    }
  }

  // ---------------------------------------------------------------- every run

  ghost predicate Inv(w: World, longest: nat) {
    Laddered(w.rows) && EscalatedOnce(w.rows) && SentMeansAccepted(w, longest) && EscalationsJustified(w, longest)
  }

  lemma StepKeepsInv(w: World, s: Step, longest: nat)
    requires Inv(w, longest) && Enabled(w, s) && Brief(s, longest)
    ensures Inv(Apply(w, s), longest)
  {
    forall id ensures OnLadder(AlertsFor(Apply(w, s).rows, id)) {
      StepKeepsLadder(w, s, id);
    }
    StepEscalatesOnce(w, s);
    StepKeepsAccepted(w, s, longest);
    StepKeepsJustified(w, s, longest);
  }

  ghost predicate AllBrief(steps: seq<Step>, longest: nat) {
    forall i :: 0 <= i < |steps| ==> Brief(steps[i], longest)
  }

  /** Whatever deadlines do between ticks: the alerts of every tender are a prefix of 14, 7, 3, 1, each tender has at
      most one escalation, justified by its J-3 alert, and nothing is marked sent without an acceptance no later after
      the mark than a delivery takes. */
  lemma RunKeepsInv(clock: int, steps: seq<Step>, longest: nat)
    requires Run(World([], {}, clock), steps) && AllBrief(steps, longest)
    ensures Inv(Final(World([], {}, clock), steps), longest)
  {
    var w := World([], {}, clock);
    assert Inv(w, longest);
    RunFromKeepsInv(w, steps, longest);
  }

  lemma {:induction false} RunFromKeepsInv(w: World, steps: seq<Step>, longest: nat)
    requires Inv(w, longest) && Run(w, steps) && AllBrief(steps, longest)
    ensures Inv(Final(w, steps), longest)
    decreases |steps|
  {
    if steps != [] {
      assert Brief(steps[0], longest);
      StepKeepsInv(w, steps[0], longest);
      forall i | 0 <= i < |steps| - 1 ensures Brief(steps[1..][i], longest) { assert Brief(steps[i + 1], longest); }
      RunFromKeepsInv(Apply(w, steps[0]), steps[1..], longest);
    }
  }

  /** So an escalation comes more than 24 hours, less the length of a delivery, after its J-3 alert was accepted. */
  lemma EscalationWaits(clock: int, steps: seq<Step>, longest: nat, i: int)
    requires Run(World([], {}, clock), steps) && AllBrief(steps, longest)
    requires IsEscalation(Final(World([], {}, clock), steps).rows, i)
    ensures var w := Final(World([], {}, clock), steps);
            exists a :: a in w.log && a.row < |w.rows| && w.rows[a.row].kind == J3
                        && w.rows[a.row].tenderId == w.rows[i].tenderId
                        && w.rows[i].createdAt - a.at > ESCALATION_AFTER - longest
  {
    RunKeepsInv(clock, steps, longest);
    var w := Final(World([], {}, clock), steps);
    assert Justified(w, longest, w.rows[i]);
    var j: nat :| j < |w.rows| && Justifies(w, longest, j, w.rows[i]);
    var began := w.rows[j].sentAt.value;
    var a :| a in w.log && a.row == j && began <= a.at <= began + longest;
  }

  /** `sent_at` is set at most once. */
  lemma {:induction false} SentOnce(w: World, steps: seq<Step>, i: nat)
    requires Run(w, steps) && i < |w.rows| && w.rows[i].sentAt.Some?
    ensures i < |Final(w, steps).rows| && Final(w, steps).rows[i].sentAt == w.rows[i].sentAt
    decreases |steps|
  {
    if steps != [] {
      RowsOnlyMature(w, steps[0]);
      assert Matures(w.rows[i], Apply(w, steps[0]).rows[i], steps[0].now);
      SentOnce(Apply(w, steps[0]), steps[1..], i);
    }
  }

  // ---------------------------------------------------------------- a whole story

  /** What a delivery leaves in the log, committed or lost: who was sent which of the rows it had taken. */
  lemma LogExact(w: World, s: Step, a: Acceptance)
    requires Enabled(w, s) && (s.Deliver? || s.LoseDelivery?)
    ensures a in Apply(w, s).log <==>
            || a in w.log
            || (&& a.at == s.now && a.row in Pending(w.rows, s.orgId, 0, s.limit) && a.recipient in s.people
                && (a.row, a.recipient) in s.accepts)
  {
  }

  function AlertRow(t: Tender, offset: nat, now: int, sentAt: Option<int>): Note {
    Note(t.orgId, AlertKind(offset), t.id, now, sentAt, None)
  }

  lemma TickRaises(rows: seq<Note>, t: Tender, now: int, offset: nat)
    requires Watched(t, now) && offset in {14, 7, 3, 1}
    requires FirstWaiting(t.id, t.deadlineAt.value, now, OnRecord(rows)) == Some(offset)
    ensures Raised(rows, [t], now) == rows + [AlertRow(t, offset, now, None)]
  {
    KindIsPrinted(offset);
    assert [t][..0] == [] && NewAlerts(rows, [], now) == [];
    RaisedExact(rows, [t], now);
  }

  lemma RecordedRow(rows: seq<Note>, t: Tender, now: int, offset: nat)
    requires t.id != "" && offset in {14, 7, 3, 1}
    ensures OnRecord(rows + [AlertRow(t, offset, now, None)]) == OnRecord(rows) + {(t.id, AlertKind(offset))}
  {
    KindIsPrinted(offset);
    var n := AlertRow(t, offset, now, None);
    assert "deadline.j" <= n.kind;
    assert forall m :: m in rows + [n] <==> m in rows || m == n;
  }

  /** Three ticks at the J-3 instant. */
  lemma ThreeTicks(t: Tender, now: int)
    requires t.id != "" && Watched(t, now) && WorkingDaysBefore(t.deadlineAt.value, 3) <= now
    ensures Raised([], [t], now) == [AlertRow(t, 14, now, None)]
    ensures Raised([AlertRow(t, 14, now, None)], [t], now) == [AlertRow(t, 14, now, None), AlertRow(t, 7, now, None)]
    ensures Raised([AlertRow(t, 14, now, None), AlertRow(t, 7, now, None)], [t], now)
            == [AlertRow(t, 14, now, None), AlertRow(t, 7, now, None), AlertRow(t, 3, now, None)]
  {
    var d, a, b := t.deadlineAt.value, AlertRow(t, 14, now, None), AlertRow(t, 7, now, None);
    MoreNoticeIsEarlier(d, 3, 7);
    MoreNoticeIsEarlier(d, 3, 14);
    var none, one, two: SentSet := {}, {(t.id, AlertKind(14))}, {(t.id, AlertKind(14)), (t.id, AlertKind(7))};
    assert OnRecord([]) == none;
    RecordedRow([], t, now, 14);
    assert [] + [a] == [a];
    RecordedRow([a], t, now, 7);
    assert [a] + [b] == [a, b] && one + {(t.id, AlertKind(7))} == two;
    WaitsExact(t.id, d, now, none, 14);
    WaitsExact(t.id, d, now, one, 14);
    WaitsExact(t.id, d, now, one, 7);
    WaitsExact(t.id, d, now, two, 14);
    WaitsExact(t.id, d, now, two, 7);
    WaitsExact(t.id, d, now, two, 3);
    TickRaises([], t, now, 14);
    TickRaises([a], t, now, 7);
    TickRaises([a, b], t, now, 3);
  }

  lemma {:induction false} NeglectedIsEscalated(rows: seq<Note>, todo: seq<Note>, n: Note, now: int)
    requires n in todo && Neglected(rows, n, now)
    ensures Note(n.orgId, "deadline.escalated", n.tenderId, now, None, None) in NewEscalations(rows, todo, now)
  {
    if n != todo[|todo| - 1] {
      var k :| 0 <= k < |todo| && todo[k] == n;
      assert todo[..|todo| - 1][k] == n;
      NeglectedIsEscalated(rows, todo[..|todo| - 1], n, now);
    }
  }

  /** All three alerts are unsent rows of the organisation, and somebody accepts each. */
  lemma ThreeSent(t: Tender, now: int, recipient: string)
    ensures var rows := [AlertRow(t, 14, now, None), AlertRow(t, 7, now, None), AlertRow(t, 3, now, None)];
            var accepts: Accepts := {(0, recipient), (1, recipient), (2, recipient)};
            Delivered(rows, Pending(rows, t.orgId, 0, 3), [recipient], accepts, now)
            == [AlertRow(t, 14, now, Some(now)), AlertRow(t, 7, now, Some(now)), AlertRow(t, 3, now, Some(now))]
  {
    var rows := [AlertRow(t, 14, now, None), AlertRow(t, 7, now, None), AlertRow(t, 3, now, None)];
    var accepts: Accepts := {(0, recipient), (1, recipient), (2, recipient)};
    var pending := Pending(rows, t.orgId, 0, 3);
    PendingExact(rows, t.orgId, 0, 3);
    if |pending| == 3 { assert pending[0] < pending[1] < pending[2]; }
    forall i: nat | i < 3 ensures i in pending && Reached(i, [recipient], accepts) {
      assert IsPending(rows, t.orgId, i);
      assert recipient in [recipient] && (i, recipient) in accepts;
    }
  }

  /** Three ticks at the J-3 instant, a delivery that somebody accepts, and the sweep a day and a second later. */
  function Story(t: Tender, now: int, recipient: string): seq<Step> {
    [Raise([t], now), Raise([t], now), Raise([t], now)] + Ending(t, now, recipient)
  }

  function Ending(t: Tender, now: int, recipient: string): seq<Step> {
    [Deliver(t.orgId, [recipient], {(0, recipient), (1, recipient), (2, recipient)}, 3, now, now),
     Escalate(now + 86401)]
  }

  /** For every open tender: three ticks, a delivery and a sweep later are a run from the empty table, and an alert that
      nobody reads ends in its escalation. */
  lemma UnreadAlertIsEscalated(t: Tender, now: int, recipient: string)
    requires t.id != "" && Watched(t, now) && WorkingDaysBefore(t.deadlineAt.value, 3) <= now
    ensures var w := World([], {}, now);
            && Run(w, Story(t, now, recipient))
            && Note(t.orgId, "deadline.escalated", t.id, now + 86401, None, None)
               in Final(w, Story(t, now, recipient)).rows
  {
    var later := now + 86401;
    var rows := [AlertRow(t, 14, now, Some(now)), AlertRow(t, 7, now, Some(now)), AlertRow(t, 3, now, Some(now))];
    KindIsPrinted(14);
    KindIsPrinted(7);
    KindIsPrinted(3);
    assert AlertKind(3) == "deadline.j3" && rows[2] in rows && Neglected(rows, rows[2], later);
    NeglectedIsEscalated(rows, rows, rows[2], later);
    EscalatedExact(rows, rows, later);
    StoryRuns(t, now, recipient);
  }

  lemma StoryRuns(t: Tender, now: int, recipient: string)
    requires t.id != "" && Watched(t, now) && WorkingDaysBefore(t.deadlineAt.value, 3) <= now
    ensures Run(World([], {}, now), Story(t, now, recipient))
    ensures Final(World([], {}, now), Story(t, now, recipient)).rows
            == Escalated([AlertRow(t, 14, now, Some(now)), AlertRow(t, 7, now, Some(now)),
                          AlertRow(t, 3, now, Some(now))], now + 86401)
  {
    ThreeTicks(t, now);
    var raise, ending := Raise([t], now), Ending(t, now, recipient);
    var one, two := [AlertRow(t, 14, now, None)], [AlertRow(t, 14, now, None), AlertRow(t, 7, now, None)];
    EndingRuns(t, now, recipient);
    FirstStep(World(two, {}, now), raise, ending);
    FirstStep(World(one, {}, now), raise, [raise] + ending);
    FirstStep(World([], {}, now), raise, [raise] + ([raise] + ending));
    assert Story(t, now, recipient) == [raise] + ([raise] + ([raise] + ending));
  }

  lemma EndingRuns(t: Tender, now: int, recipient: string)
    ensures var w := World([AlertRow(t, 14, now, None), AlertRow(t, 7, now, None), AlertRow(t, 3, now, None)], {}, now);
            && Run(w, Ending(t, now, recipient))
            && Final(w, Ending(t, now, recipient)).rows
               == Escalated([AlertRow(t, 14, now, Some(now)), AlertRow(t, 7, now, Some(now)),
                             AlertRow(t, 3, now, Some(now))], now + 86401)
  {
    ThreeSent(t, now, recipient);
    var w := World([AlertRow(t, 14, now, None), AlertRow(t, 7, now, None), AlertRow(t, 3, now, None)], {}, now);
    var ending := Ending(t, now, recipient);
    var deliver, escalate, none := ending[0], ending[1], ending[2..];
    var sent := Apply(w, deliver);
    assert none == [] && Run(Apply(sent, escalate), none);
    FirstStep(sent, escalate, none);
    FirstStep(w, deliver, [escalate]);
    assert ending == [deliver] + [escalate] && [escalate] == [escalate] + none;
  }

  lemma FirstStep(w: World, s: Step, rest: seq<Step>)
    requires Enabled(w, s) && Run(Apply(w, s), rest)
    ensures Run(w, [s] + rest) && Final(w, [s] + rest) == Final(Apply(w, s), rest)
  {
    assert ([s] + rest)[1..] == rest;
  }
}
