/**
 The `notifications` table: raising deadline alerts, delivering them, escalating the unread (alerts.py,
 notify.py).

 A row is identified by its position; the organisation loop is flattened, because a tender belongs to one
 organisation.  Transactions are serialized; each happens at one instant of a clock that does not go back.
 */
module Notifications {
  import opened Common
  import opened WorkingDays
  import opened DeadlineAlerts

  datatype Note = Note(orgId: string, kind: Kind, tenderId: TenderId, createdAt: int, sentAt: Option<int>,
                       ackAt: Option<int>)

  const ESCALATION_AFTER := 24 * 3600

  const ALERT_PREFIX := "deadline.j"

  /** `kind LIKE 'deadline.j%'`. */
  predicate IsAlertKind(kind: Kind) {
    |kind| >= |ALERT_PREFIX| && kind[..|ALERT_PREFIX|] == ALERT_PREFIX
  }

  // ---------------------------------------------------------------- raising

  /** The tenders the query selects. */
  function Selected(tenders: seq<Tender>, now: int): seq<Tender> {
    if tenders == [] then []
    else
      var t := tenders[0];
      (if t.deadlineAt.Some? && t.deadlineAt.value > now && t.stage == Open then [t] else [])
      + Selected(tenders[1..], now)
  }

  /** The alerts on record; a row without a tender id does not count. */
  function SentOf(rows: seq<Note>): SentSet {
    set n | n in rows && IsAlertKind(n.kind) && n.tenderId != "" :: (n.tenderId, n.kind)
  }

  function NoteOf(alert: DueAlert, now: int): Note {
    Note(alert.orgId, AlertKind(alert.offsetDays), alert.tenderId, now, None, None)
  }

  function NotesOf(due: seq<DueAlert>, now: int): seq<Note> {
    seq(|due|, i requires 0 <= i < |due| => NoteOf(due[i], now))
  }

  function Raised(rows: seq<Note>, tenders: seq<Tender>, now: int): seq<Note> {
    rows + NotesOf(DueAlerts(Selected(tenders, now), now, SentOf(rows)), now)
  }

  // ---------------------------------------------------------------- escalating

  predicate HasEscalation(rows: seq<Note>, tenderId: TenderId) {
    exists n :: n in rows && n.kind == ESCALATED && n.tenderId == tenderId
  }

  /** A J-3 alert that was sent more than a day ago, is unread, and whose tender has no escalation yet. */
  predicate NeedsEscalation(rows: seq<Note>, n: Note, now: int) {
    && n.kind == J3 && n.ackAt.None? && n.sentAt.Some? && n.sentAt.value < now - ESCALATION_AFTER
    && !HasEscalation(rows, n.tenderId)
  }

  /** The escalations for the rows of `todo`, judged against the table `rows` as it was before any insert. */
  function Escalations(rows: seq<Note>, todo: seq<Note>, now: int): seq<Note> {
    if todo == [] then []
    else
      (if NeedsEscalation(rows, todo[0], now) then [Note(todo[0].orgId, ESCALATED, todo[0].tenderId, now, None, None)]
       else [])
      + Escalations(rows, todo[1..], now)
  }

  function Escalated(rows: seq<Note>, now: int): seq<Note> {
    rows + Escalations(rows, rows, now)
  }

  // ---------------------------------------------------------------- delivering

  /** The first `limit` unsent rows of an organisation at or after position `start`. */
  function Pending(rows: seq<Note>, orgId: string, start: nat, limit: nat): seq<nat>
    requires start <= |rows|
    decreases |rows| - start
  {
    if limit == 0 || start == |rows| then []
    else if rows[start].orgId == orgId && rows[start].sentAt.None?
    then [start] + Pending(rows, orgId, start + 1, limit - 1)
    else Pending(rows, orgId, start + 1, limit)
  }

  /** What the transport accepted: row and recipient. */
  type Accepts = set<(nat, string)>

  predicate Reached(row: nat, people: seq<string>, accepts: Accepts) {
    exists p :: p in people && (row, p) in accepts
  }

  function Delivered(rows: seq<Note>, pending: seq<nat>, people: seq<string>, accepts: Accepts, now: int): seq<Note> {
    seq(|rows|, i requires 0 <= i < |rows| =>
      if i in pending && Reached(i, people, accepts) then rows[i].(sentAt := Some(now)) else rows[i])
  }

  // ---------------------------------------------------------------- what the two sweeps insert

  /** Tenders still open whose deadline is ahead. */
  ghost predicate Watched(t: Tender, now: int) {
    t.stage == Open && match t.deadlineAt case Some(deadline) => now < deadline case None => false
  }

  /** The alerts on record: every row with a tender id whose kind begins with `deadline.j`. */
  ghost function OnRecord(rows: seq<Note>): SentSet {
    set n | n in rows && |n.tenderId| > 0 && "deadline.j" <= n.kind :: (n.tenderId, n.kind)
  }

  /** For each watched tender the first alert that waits, as an unsent row. */
  ghost function NewAlerts(rows: seq<Note>, tenders: seq<Tender>, now: int): seq<Note> {
    if tenders == [] then []
    else
      var t := tenders[|tenders| - 1];
      NewAlerts(rows, tenders[..|tenders| - 1], now)
      + if !Watched(t, now) then []
        else match FirstWaiting(t.id, t.deadlineAt.value, now, OnRecord(rows))
          case None => []
          case Some(offset) => [Note(t.orgId, "deadline.j" + Decimal(offset), t.id, now, None, None)]
  }

  /** An unread J-3 alert delivered more than 24 hours ago, for a tender that has no escalation. */
  ghost predicate Neglected(rows: seq<Note>, n: Note, now: int) {
    && n.kind == "deadline.j3" && n.ackAt == None
    && (match n.sentAt case Some(sent) => sent + 86400 < now case None => false)
    && forall e :: e in rows && e.kind == "deadline.escalated" ==> e.tenderId != n.tenderId
  }

  /** An escalation for each neglected row of `todo`. */
  ghost function NewEscalations(rows: seq<Note>, todo: seq<Note>, now: int): seq<Note> {
    if todo == [] then []
    else
      var n := todo[|todo| - 1];
      NewEscalations(rows, todo[..|todo| - 1], now)
      + if Neglected(rows, n, now) then [Note(n.orgId, "deadline.escalated", n.tenderId, now, None, None)] else []
  }

  lemma {:induction false} SelectedConcat(a: seq<Tender>, b: seq<Tender>, now: int)
    ensures Selected(a + b, now) == Selected(a, now) + Selected(b, now)
  {
    if a == [] {
      assert a + b == b;
    } else {
      assert (a + b)[1..] == a[1..] + b;
      SelectedConcat(a[1..], b, now);
    }
  }

  lemma SelectedOne(t: Tender, now: int)
    ensures Selected([t], now) == if Watched(t, now) then [t] else []
  {
    assert [t][1..] == [];
  }

  lemma RecordExact(rows: seq<Note>)
    ensures SentOf(rows) == OnRecord(rows)
  {
  }

  lemma NotesConcat(a: seq<DueAlert>, b: seq<DueAlert>, now: int)
    ensures NotesOf(a + b, now) == NotesOf(a, now) + NotesOf(b, now)
  {
  }

  lemma AlertRows(rows: seq<Note>, t: Tender, now: int)
    ensures NotesOf(DueAlerts(Selected([t], now), now, SentOf(rows)), now) ==
            if !Watched(t, now) then []
            else match FirstWaiting(t.id, t.deadlineAt.value, now, OnRecord(rows))
              case None => []
              case Some(offset) => [Note(t.orgId, "deadline.j" + Decimal(offset), t.id, now, None, None)]
  {
    SelectedOne(t, now);
    RecordExact(rows);
    if Watched(t, now) {
      var sent := OnRecord(rows);
      assert [t][1..] == [] && DueAlerts([], now, sent) == [];
      assert DueAlerts([t], now, sent) == AlertOf(t, now, sent) + [];
      AlertExact(t, now, sent);
      var first := FirstWaiting(t.id, t.deadlineAt.value, now, sent);
      if first.Some? { KindIsPrinted(first.value); }
    }
  }

  lemma {:induction false} RaisedExact(rows: seq<Note>, tenders: seq<Tender>, now: int)
    ensures NotesOf(DueAlerts(Selected(tenders, now), now, SentOf(rows)), now) == NewAlerts(rows, tenders, now)
  {
    if tenders != [] {
      var init, t := tenders[..|tenders| - 1], tenders[|tenders| - 1];
      assert tenders == init + [t];
      SelectedConcat(init, [t], now);
      DueAlertsConcat(Selected(init, now), Selected([t], now), now, SentOf(rows));
      NotesConcat(DueAlerts(Selected(init, now), now, SentOf(rows)), DueAlerts(Selected([t], now), now, SentOf(rows)),
                  now);
      AlertRows(rows, t, now);
      RaisedExact(rows, init, now);
    }
  }

  lemma {:induction false} EscalationsConcat(rows: seq<Note>, a: seq<Note>, b: seq<Note>, now: int)
    ensures Escalations(rows, a + b, now) == Escalations(rows, a, now) + Escalations(rows, b, now)
  {
    if a == [] {
      assert a + b == b;
    } else {
      assert (a + b)[1..] == a[1..] + b;
      EscalationsConcat(rows, a[1..], b, now);
    }
  }

  lemma NeglectedExact(rows: seq<Note>, n: Note, now: int)
    ensures NeedsEscalation(rows, n, now) <==> Neglected(rows, n, now)
  {
  }

  lemma {:induction false} EscalatedExact(rows: seq<Note>, todo: seq<Note>, now: int)
    ensures Escalations(rows, todo, now) == NewEscalations(rows, todo, now)
  {
    if todo != [] {
      var init, n := todo[..|todo| - 1], todo[|todo| - 1];
      assert todo == init + [n] && [n][1..] == [];
      EscalationsConcat(rows, init, [n], now);
      EscalatedExact(rows, init, now);
      NeglectedExact(rows, n, now);
    }
  }

  // ---------------------------------------------------------------- the table, updated in place

  class NotificationTable {
    var rows: seq<Note>

    constructor ()
      ensures rows == []
    {
      rows := [];
    }

    method RunDeadlineAlerts(tenders: seq<Tender>, now: int) returns (considered: nat, raised: nat)
      modifies this
      ensures rows == Raised(old(rows), tenders, now) == old(rows) + NewAlerts(old(rows), tenders, now)
      ensures considered == |Selected(tenders, now)| && raised == |rows| - |old(rows)|
    {
      RaisedExact(rows, tenders, now);
      var selected := Selected(tenders, now);
      var due := DueDeadlineAlerts(selected, now, SentOf(rows));
      ghost var before := rows;
      for i := 0 to |due|
        invariant rows == before + NotesOf(due, now)[..i]
      {
        rows := rows + [NoteOf(due[i], now)];
        assert NotesOf(due, now)[..i + 1] == NotesOf(due, now)[..i] + [NotesOf(due, now)[i]];
      }
      assert NotesOf(due, now)[..|due|] == NotesOf(due, now);
      considered, raised := |selected|, |due|;
    }

    method EscalateUnacknowledged(now: int) returns (count: nat)
      modifies this
      ensures rows == Escalated(old(rows), now) == old(rows) + NewEscalations(old(rows), old(rows), now)
      ensures count == |rows| - |old(rows)|
    {
      EscalatedExact(rows, rows, now);
      var before := rows;
      var inserted: seq<Note> := [];
      for i := 0 to |before|
        invariant rows == before && inserted + Escalations(before, before[i..], now) == Escalations(before, before, now)
      {
        assert before[i..][0] == before[i] && before[i..][1..] == before[i + 1..];
        var n := before[i];
        if NeedsEscalation(before, n, now) {
          inserted := inserted + [Note(n.orgId, ESCALATED, n.tenderId, now, None, None)];
        }
      }
      rows := before + inserted;
      count := |inserted|;
    }

    /** `run_notify_send` for one organisation. */
    method Send(orgId: string, people: seq<string>, accepts: Accepts, now: int, limit: nat)
      returns (sent: nat, failed: nat)
      modifies this
      ensures rows == Delivered(old(rows), Pending(old(rows), orgId, 0, limit), people, accepts, now)
      ensures people != [] ==> sent + failed == |Pending(old(rows), orgId, 0, limit)|
      ensures people == [] ==> sent == failed == 0
    {
      sent, failed := 0, 0;
      var before := rows;
      var pending := Pending(before, orgId, 0, limit);
      PendingExact(before, orgId, 0, limit);
      if people == [] {
        assert Delivered(before, pending, people, accepts, now) == before;
        return;
      }
      for k := 0 to |pending|
        invariant sent + failed == k
        invariant rows == Delivered(before, pending[..k], people, accepts, now)
      {
        var row := pending[k];
        var reached := ReachAny(row, people, accepts);
        assert pending[..k + 1] == pending[..k] + [row];
        assert row !in pending[..k];
        if reached {
          rows := rows[row := rows[row].(sentAt := Some(now))];
          sent := sent + 1;
        } else {
          failed := failed + 1;
        }
        assert rows == Delivered(before, pending[..k + 1], people, accepts, now);
      }
      assert pending[..|pending|] == pending;
    }
  }

  /** Every recipient is tried; one acceptance is enough. */
  method ReachAny(row: nat, people: seq<string>, accepts: Accepts) returns (reached: bool)
    ensures reached <==> Reached(row, people, accepts)
  {
    reached := false;
    for i := 0 to |people|
      invariant reached <==> exists k :: 0 <= k < i && (row, people[k]) in accepts
    {
      if (row, people[i]) in accepts {
        reached := true;
      }
    }
  }

  predicate IsPending(rows: seq<Note>, orgId: string, i: nat)
    requires i < |rows|
  {
    rows[i].orgId == orgId && rows[i].sentAt.None?
  }

  /** Unsent rows of the organisation, in table order. */
  predicate InOrder(rows: seq<Note>, orgId: string, start: nat, p: seq<nat>) {
    && (forall k :: 0 <= k < |p| ==> start <= p[k] < |rows| && IsPending(rows, orgId, p[k]))
    && (forall k, l :: 0 <= k < l < |p| ==> p[k] < p[l])
  }

  /** No unsent row is left out, unless the limit is used up by rows before it. */
  predicate OldestFirst(rows: seq<Note>, orgId: string, start: nat, limit: nat, p: seq<nat>) {
    && |p| <= limit
    && (forall i {:trigger IsPending(rows, orgId, i)} :: start <= i < |rows| && IsPending(rows, orgId, i) ==>
          i in p || (|p| == limit && forall k :: 0 <= k < |p| ==> p[k] < i))
  }

  lemma {:induction false} PendingInOrder(rows: seq<Note>, orgId: string, start: nat, limit: nat)
    requires start <= |rows|
    ensures InOrder(rows, orgId, start, Pending(rows, orgId, start, limit))
    decreases |rows| - start
  {
    if limit > 0 && start < |rows| {
      PendingInOrder(rows, orgId, start + 1, limit);
      PendingInOrder(rows, orgId, start + 1, limit - 1);
      var rest := Pending(rows, orgId, start + 1, limit - 1);
      var p := [start] + rest;
      assert forall k :: 1 <= k < |p| ==> p[k] == rest[k - 1];
    }
  }

  lemma OneMoreIsOldest(rows: seq<Note>, orgId: string, start: nat, limit: nat, rest: seq<nat>)
    requires start < |rows| && limit >= 1 && OldestFirst(rows, orgId, start + 1, limit - 1, rest)
    ensures OldestFirst(rows, orgId, start, limit, [start] + rest)
  {
  }

  /** The rows taken are the oldest unsent ones, all of them if the limit allows. */
  lemma {:induction false} PendingExact(rows: seq<Note>, orgId: string, start: nat, limit: nat)
    requires start <= |rows|
    ensures InOrder(rows, orgId, start, Pending(rows, orgId, start, limit))
    ensures OldestFirst(rows, orgId, start, limit, Pending(rows, orgId, start, limit))
    decreases |rows| - start
  {
    PendingInOrder(rows, orgId, start, limit);
    if limit > 0 && start < |rows| {
      if IsPending(rows, orgId, start) {
        PendingExact(rows, orgId, start + 1, limit - 1);
        OneMoreIsOldest(rows, orgId, start, limit, Pending(rows, orgId, start + 1, limit - 1));
      } else {
        PendingExact(rows, orgId, start + 1, limit);
      }
    }
  }
}
