/**
 Deliveries of several workers at once (alerts.py, notify.py).

 Every alert enqueues a `notify.send` job of its own, so two workers can run `run_notify_send` together.  One run is one
 transaction over all organisations: it reads the unsent rows of an organisation without locking them, sends, marks what
 was accepted, goes on to the next organisation, and commits at the end.  Until then nobody else sees a mark, and a
 rollback takes all of them back - but not the mail.
 */
module DeliveryRuns {
  import opened Common
  import opened Notifications
  import NR = NotificationRuns

  type Worker = string

  /** A transaction under way: when it began, the organisations it has read, the rows it has read and not tried yet, and
      the rows it has marked because some transport accepted a message about them. */
  datatype Sweep = Sweep(number: nat, began: int, orgs: set<string>, pending: seq<nat>, marked: set<nat>)

  /** The transport accepted a message about a row, in a sweep. */
  datatype Acceptance = Acceptance(row: nat, recipient: string, sweep: nat)

  datatype World = World(rows: seq<Note>, sweeps: map<Worker, Sweep>, log: set<Acceptance>, next: nat)

  datatype Step =
    | Change(rows: seq<Note>)                  // rows raised, acknowledged or escalated
    | Start(worker: Worker, now: int)
    | Read(worker: Worker, orgId: string, limit: nat)
    | Mail(worker: Worker, people: seq<string>, accepts: Accepts)
    | Commit(worker: Worker)
    | Lose(worker: Worker)                     // the transaction rolls back, or the process dies

  /** What everything but a delivery does to the table: rows are added unsent, and no row's delivery is touched. */
  predicate OnlyAdds(rows: seq<Note>, rows': seq<Note>) {
    && |rows| <= |rows'|
    && (forall i :: 0 <= i < |rows| ==> rows'[i].sentAt == rows[i].sentAt && rows'[i].orgId == rows[i].orgId)
    && (forall i :: |rows| <= i < |rows'| ==> rows'[i].sentAt.None?)
  }

  predicate Enabled(w: World, s: Step) {
    match s
    case Change(rows) => OnlyAdds(w.rows, rows)
    case Start(k, _) => k !in w.sweeps
    case Read(k, _, _) => k in w.sweeps && w.sweeps[k].pending == []
    case Mail(k, _, _) => k in w.sweeps
    case Commit(k) => k in w.sweeps && w.sweeps[k].pending == []
    case Lose(k) => k in w.sweeps
  }

  /** `sent_at = now()`, which is when the transaction began. */
  function Marked(rows: seq<Note>, marked: set<nat>, began: int): seq<Note> {
    seq(|rows|, i requires 0 <= i < |rows| => if i in marked then rows[i].(sentAt := Some(began)) else rows[i])
  }

  /** The unsent rows as a transaction sees them: its own marks count, those of others do not yet. */
  function Unsent(rows: seq<Note>, sweep: Sweep, orgId: string, limit: nat): seq<nat> {
    Pending(Marked(rows, sweep.marked, sweep.began), orgId, 0, limit)
  }

  /** The messages that leave for the rows in hand. */
  function Messages(sweep: Sweep, people: seq<string>, accepts: Accepts): set<Acceptance> {
    set a | a in accepts && a.0 in sweep.pending && a.1 in people :: Acceptance(a.0, a.1, sweep.number)
  }

  function Tried(sweep: Sweep, people: seq<string>, accepts: Accepts): Sweep {
    sweep.(pending := [], marked := sweep.marked + set i | i in sweep.pending && Reached(i, people, accepts))
  }

  function Apply(w: World, s: Step): World
    requires Enabled(w, s)
  {
    match s
    case Change(rows) => w.(rows := rows)
    case Start(k, now) => w.(sweeps := w.sweeps[k := Sweep(w.next, now, {}, [], {})], next := w.next + 1)
    case Read(k, orgId, limit) =>
      var sweep := w.sweeps[k];
      w.(sweeps := w.sweeps[k := sweep.(orgs := sweep.orgs + {orgId}, pending := Unsent(w.rows, sweep, orgId, limit))])
    case Mail(k, people, accepts) =>
      w.(sweeps := w.sweeps[k := Tried(w.sweeps[k], people, accepts)],
         log := w.log + Messages(w.sweeps[k], people, accepts))
    case Commit(k) => w.(rows := Marked(w.rows, w.sweeps[k].marked, w.sweeps[k].began), sweeps := w.sweeps - {k})
    case Lose(k) => w.(sweeps := w.sweeps - {k})
  }

  ghost predicate Run(w: World, steps: seq<Step>)
    decreases |steps|
  {
    steps == [] || (Enabled(w, steps[0]) && Run(Apply(w, steps[0]), steps[1..]))
  }

  function Final(w: World, steps: seq<Step>): World
    requires Run(w, steps)
    decreases |steps|
  {
    if steps == [] then w else Final(Apply(w, steps[0]), steps[1..])
  }

  const BEGIN := World([], map[], {}, 0)

  /** Ticks, acknowledgements and escalations are changes of that kind. */
  lemma OtherStepsOnlyAdd(w: NR.World, s: NR.Step)
    requires NR.Enabled(w, s) && !s.Deliver? && !s.LoseDelivery?
    ensures OnlyAdds(w.rows, NR.Apply(w, s).rows)
  {
    var rows' := NR.Apply(w, s).rows;
    NR.RowsOnlyMature(w, s);
    forall i | |w.rows| <= i < |rows'| ensures rows'[i].sentAt.None? {
      if s.Raise? { NR.TickRaisesNoEscalation(w.rows, s.tenders, s.now, i); }
      if s.Escalate? { NR.EscalationsAreUnsent(w.rows, w.rows, s.now, i - |w.rows|); }
    }
  }

  // ---------------------------------------------------------------- double sends

  /** Two sweeps sent one recipient a message about one row. */
  predicate DoubleSent(w: World) {
    exists a, b :: a in w.log && b in w.log && a.row == b.row && a.recipient == b.recipient && a.sweep != b.sweep
  }

  predicate ToSend(w: World, k: Worker, row: nat) {
    k in w.sweeps && row in w.sweeps[k].pending
  }

  predicate Holding(w: World, k: Worker, row: nat) {
    k in w.sweeps && row in w.sweeps[k].marked
  }

  /** A sweep has read the row and may still send it, or has sent it and not committed. */
  predicate InHand(w: World, k: Worker, row: nat) {
    ToSend(w, k, row) || Holding(w, k, row)
  }

  /** The rows a read is about to take up are in the hands of another sweep. */
  predicate Overlaps(w: World, k: Worker, orgId: string, limit: nat)
    requires k in w.sweeps
  {
    exists l, row :: l in w.sweeps && l != k && row in Unsent(w.rows, w.sweeps[k], orgId, limit) && InHand(w, l, row)
  }

  /** The two faults: reading what an uncommitted sweep has in hand, and losing a sweep after a message has left. */
  predicate Fault(w: World, s: Step)
    requires Enabled(w, s)
  {
    match s
    case Read(k, orgId, limit) => Overlaps(w, k, orgId, limit)
    case Lose(k) => w.sweeps[k].marked != {}
    case _ => false
  }

  ghost predicate CleanRun(w: World, steps: seq<Step>)
    decreases |steps|
  {
    steps == [] || (Enabled(w, steps[0]) && !Fault(w, steps[0]) && CleanRun(Apply(w, steps[0]), steps[1..]))
  }

  /** A message about the row has been accepted. */
  predicate Accepted(w: World, row: nat) {
    exists a :: a in w.log && a.row == row
  }

  predicate IsUnsent(w: World, row: nat) {
    row < |w.rows| && w.rows[row].sentAt.None?
  }

  /** The mail has left and nobody will mark the row. */
  ghost predicate Forgotten(w: World, row: nat) {
    IsUnsent(w, row) && Accepted(w, row) && forall k :: !Holding(w, k, row)
  }

  predicate SentAgain(w: World, k: Worker, row: nat) {
    ToSend(w, k, row) && Accepted(w, row)
  }

  predicate Shared(w: World, k: Worker, l: Worker, row: nat) {
    ToSend(w, k, row) && InHand(w, l, row) && k != l
  }

  /** Something may be sent again. */
  ghost predicate Exposed(w: World) {
    || (exists row: nat :: Forgotten(w, row))
    || (exists k, row: nat :: SentAgain(w, k, row))
    || (exists k, l, row: nat :: Shared(w, k, l, row))
  }

  /** Every unsent row that was accepted is held by the sweep that will mark it, and no row is in hand twice or after it
      was marked. */
  ghost predicate Calm(w: World) {
    && (forall row: nat :: !Forgotten(w, row))
    && (forall k, row: nat :: !SentAgain(w, k, row))
    && (forall k, l, row: nat :: InHand(w, k, row) && InHand(w, l, row) ==> k == l)
    && (forall k, row: nat :: InHand(w, k, row) ==> IsUnsent(w, row))
  }

  predicate LoggedBy(w: World, row: nat, number: nat) {
    exists a :: a in w.log && a.row == row && a.sweep == number
  }

  ghost predicate NumberedApart(w: World) {
    && (forall a :: a in w.log ==> a.sweep < w.next)
    && (forall k :: k in w.sweeps ==> w.sweeps[k].number < w.next)
    && (forall k, l :: k in w.sweeps && l in w.sweeps && k != l ==> w.sweeps[k].number != w.sweeps[l].number)
  }

  ghost predicate HandsKnown(w: World) {
    && (forall k, row: nat :: InHand(w, k, row) ==> row < |w.rows| && w.rows[row].orgId in w.sweeps[k].orgs)
    && (forall k, row: nat :: ToSend(w, k, row) ==> !Holding(w, k, row))
  }

  /** A sweep holds exactly the rows it had messages accepted about. */
  ghost predicate MarksLogged(w: World) {
    forall k, row: nat :: k in w.sweeps ==> (Holding(w, k, row) <==> LoggedBy(w, row, w.sweeps[k].number))
  }

  ghost predicate LogInTable(w: World) {
    forall a :: a in w.log ==> a.row < |w.rows|
  }

  ghost predicate SentWasAccepted(w: World) {
    forall row: nat :: row < |w.rows| && w.rows[row].sentAt.Some? ==> Accepted(w, row)
  }

  /** What every run keeps, faults or not. */
  ghost predicate Valid(w: World) {
    NumberedApart(w) && HandsKnown(w) && MarksLogged(w) && LogInTable(w) && SentWasAccepted(w)
  }

  // ---------------------------------------------------------------- one step

  lemma UnsentExact(w: World, k: Worker, orgId: string, limit: nat, row: nat)
    requires k in w.sweeps && row in Unsent(w.rows, w.sweeps[k], orgId, limit)
    ensures IsUnsent(w, row) && w.rows[row].orgId == orgId && row !in w.sweeps[k].marked
  {
    PendingExact(Marked(w.rows, w.sweeps[k].marked, w.sweeps[k].began), orgId, 0, limit);
    assert IsPending(Marked(w.rows, w.sweeps[k].marked, w.sweeps[k].began), orgId, row);
  }

  /** Only a read gives a sweep rows to send. */
  lemma ToSendAfter(w: World, s: Step, k: Worker, row: nat)
    requires Enabled(w, s) && ToSend(Apply(w, s), k, row)
    ensures if s.Read? && s.worker == k then k in w.sweeps && row in Unsent(w.rows, w.sweeps[k], s.orgId, s.limit)
            else ToSend(w, k, row)
  {
  }

  /** Only mail makes a sweep hold rows, and only those it had to send. */
  lemma HoldingAfter(w: World, s: Step, k: Worker, row: nat)
    requires Enabled(w, s) && Holding(Apply(w, s), k, row)
    ensures k in w.sweeps
    ensures Holding(w, k, row) || (s.Mail? && s.worker == k && ToSend(w, k, row) && Reached(row, s.people, s.accepts))
  {
  }

  lemma LogAfter(w: World, s: Step, a: Acceptance)
    requires Enabled(w, s) && a in Apply(w, s).log && a !in w.log
    ensures s.Mail? && ToSend(w, s.worker, a.row) && a.sweep == w.sweeps[s.worker].number
    ensures Holding(Apply(w, s), s.worker, a.row)
  {
    assert a in Messages(w.sweeps[s.worker], s.people, s.accepts);
    assert Reached(a.row, s.people, s.accepts);
  }

  lemma AcceptedAfter(w: World, s: Step, row: nat)
    requires Enabled(w, s)
    ensures Accepted(w, row) ==> Accepted(Apply(w, s), row)
    ensures Accepted(Apply(w, s), row) && !Accepted(w, row) ==>
              s.Mail? && ToSend(w, s.worker, row) && Holding(Apply(w, s), s.worker, row)
  {
    var w' := Apply(w, s);
    if Accepted(w, row) {
      var a :| a in w.log && a.row == row;
      assert a in w'.log;
    } else if Accepted(w', row) {
      var a :| a in w'.log && a.row == row;
      LogAfter(w, s, a);
    }
  }

  lemma RowsAfter(w: World, s: Step)
    requires Enabled(w, s)
    ensures |w.rows| <= |Apply(w, s).rows|
    ensures forall i :: 0 <= i < |w.rows| ==> Apply(w, s).rows[i].orgId == w.rows[i].orgId
    ensures forall i: nat :: i < |w.rows| && Apply(w, s).rows[i].sentAt != w.rows[i].sentAt ==>
              s.Commit? && Holding(w, s.worker, i)
    ensures forall i :: |w.rows| <= i < |Apply(w, s).rows| ==> Apply(w, s).rows[i].sentAt.None?
    ensures s.Commit? ==> forall i: nat :: i < |w.rows| && Holding(w, s.worker, i) ==> Apply(w, s).rows[i].sentAt.Some?
  {
  }

  lemma StepKeepsNumbers(w: World, s: Step)
    requires NumberedApart(w) && Enabled(w, s)
    ensures NumberedApart(Apply(w, s))
  {
  }

  lemma OrgsGrow(w: World, s: Step, k: Worker)
    requires Enabled(w, s) && k in w.sweeps && k in Apply(w, s).sweeps
    ensures w.sweeps[k].orgs <= Apply(w, s).sweeps[k].orgs && Apply(w, s).sweeps[k].number == w.sweeps[k].number
    ensures s.Read? && s.worker == k ==> s.orgId in Apply(w, s).sweeps[k].orgs
  {
  }

  lemma StepKeepsHands(w: World, s: Step)
    requires HandsKnown(w) && Enabled(w, s)
    ensures HandsKnown(Apply(w, s))
  {
    var w' := Apply(w, s);
    RowsAfter(w, s);
    forall k, row: nat | InHand(w', k, row)
      ensures row < |w'.rows| && w'.rows[row].orgId in w'.sweeps[k].orgs
      ensures ToSend(w', k, row) ==> !Holding(w', k, row)
    {
      if Holding(w', k, row) { HoldingAfter(w, s, k, row); }
      if ToSend(w', k, row) {
        ToSendAfter(w, s, k, row);
        if s.Read? && s.worker == k { UnsentExact(w, k, s.orgId, s.limit, row); }
      }
      assert (s.Read? && s.worker == k && !Holding(w', k, row)) || InHand(w, k, row);
      OrgsGrow(w, s, k);
    }
  }

  lemma StepKeepsMarks(w: World, s: Step)
    requires NumberedApart(w) && MarksLogged(w) && Enabled(w, s)
    ensures MarksLogged(Apply(w, s))
  {
    var w' := Apply(w, s);
    forall k, row: nat | k in w'.sweeps ensures Holding(w', k, row) <==> LoggedBy(w', row, w'.sweeps[k].number) {
      if k !in w.sweeps {
        assert w'.log == w.log && w'.sweeps[k].number == w.next;
      } else {
        OrgsGrow(w, s, k);
        assert Holding(w, k, row) <==> LoggedBy(w, row, w.sweeps[k].number);
        if LoggedBy(w', row, w'.sweeps[k].number) {
          var a :| a in w'.log && a.row == row && a.sweep == w'.sweeps[k].number;
          if a !in w.log { LogAfter(w, s, a); }
        }
        if Holding(w', k, row) {
          HoldingAfter(w, s, k, row);
          if Holding(w, k, row) {
            var a :| a in w.log && a.row == row && a.sweep == w.sweeps[k].number;
            assert a in w'.log;
          } else {
            var p :| p in s.people && (row, p) in s.accepts;
            assert Acceptance(row, p, w.sweeps[k].number) in w'.log;
          }
        }
      }
    }
  }

  lemma StepKeepsLog(w: World, s: Step)
    requires HandsKnown(w) && LogInTable(w) && Enabled(w, s)
    ensures LogInTable(Apply(w, s))
  {
    RowsAfter(w, s);
    forall a | a in Apply(w, s).log ensures a.row < |Apply(w, s).rows| {
      if a !in w.log {
        LogAfter(w, s, a);
        assert InHand(w, s.worker, a.row);
      }
    }
  }

  lemma StepKeepsSent(w: World, s: Step)
    requires MarksLogged(w) && SentWasAccepted(w) && Enabled(w, s)
    ensures SentWasAccepted(Apply(w, s))
  {
    var w' := Apply(w, s);
    RowsAfter(w, s);
    forall row: nat | row < |w'.rows| && w'.rows[row].sentAt.Some? ensures Accepted(w', row) {
      if w.rows[row].sentAt.None? { assert LoggedBy(w, row, w.sweeps[s.worker].number); }
      AcceptedAfter(w, s, row);
    }
  }

  lemma StepKeepsValid(w: World, s: Step)
    requires Valid(w) && Enabled(w, s)
    ensures Valid(Apply(w, s))
  {
    StepKeepsNumbers(w, s);
    StepKeepsHands(w, s);
    StepKeepsMarks(w, s);
    StepKeepsLog(w, s);
    StepKeepsSent(w, s);
  }

  // ---------------------------------------------------------------- exposure begins exactly with a fault

  lemma NothingForgotten(w: World, s: Step, row: nat)
    requires Valid(w) && Calm(w) && Enabled(w, s) && !Fault(w, s)
    ensures !Forgotten(Apply(w, s), row)
  {
    var w' := Apply(w, s);
    RowsAfter(w, s);
    AcceptedAfter(w, s, row);
    if IsUnsent(w', row) && Accepted(w, row) {
      var a :| a in w.log && a.row == row;
      assert IsUnsent(w, row) && !Forgotten(w, row);
      var k :| Holding(w, k, row);
      assert Holding(w', k, row);
    }
  }

  lemma NothingSentAgain(w: World, s: Step, k: Worker, row: nat)
    requires Valid(w) && Calm(w) && Enabled(w, s) && !Fault(w, s)
    ensures !SentAgain(Apply(w, s), k, row)
  {
    if SentAgain(Apply(w, s), k, row) {
      ToSendAfter(w, s, k, row);
      AcceptedAfter(w, s, row);
      assert !SentAgain(w, k, row) && !Forgotten(w, row);
      if s.Read? && s.worker == k {
        UnsentExact(w, k, s.orgId, s.limit, row);
        var l :| Holding(w, l, row);
        assert InHand(w, l, row);
      } else {
        assert InHand(w, k, row) && InHand(w, s.worker, row);
      }
    }
  }

  lemma HandsAfter(w: World, s: Step, k: Worker, row: nat)
    requires Enabled(w, s) && InHand(Apply(w, s), k, row)
    ensures k in w.sweeps
    ensures InHand(w, k, row) || (s.Read? && s.worker == k && row in Unsent(w.rows, w.sweeps[k], s.orgId, s.limit))
    ensures !((s.Commit? || s.Lose?) && s.worker == k)
  {
    if ToSend(Apply(w, s), k, row) { ToSendAfter(w, s, k, row); } else { HoldingAfter(w, s, k, row); }
  }

  lemma HandsStayApart(w: World, s: Step, k: Worker, l: Worker, row: nat)
    requires Calm(w) && Enabled(w, s) && !Fault(w, s) && InHand(Apply(w, s), k, row)
    ensures InHand(Apply(w, s), l, row) ==> k == l
    ensures IsUnsent(Apply(w, s), row)
  {
    HandsAfter(w, s, k, row);
    RowsAfter(w, s);
    if InHand(Apply(w, s), l, row) { HandsAfter(w, s, l, row); }
    if !InHand(w, k, row) { UnsentExact(w, k, s.orgId, s.limit, row); }
    assert forall m :: Holding(w, m, row) ==> InHand(w, m, row);
  }

  lemma FaultExposes(w: World, s: Step)
    requires Valid(w) && Calm(w) && Enabled(w, s)
    ensures if Fault(w, s) then Exposed(Apply(w, s)) else Calm(Apply(w, s))
  {
    var w' := Apply(w, s);
    if !Fault(w, s) {
      forall row: nat ensures !Forgotten(w', row) { NothingForgotten(w, s, row); }
      forall k, row: nat ensures !SentAgain(w', k, row) { NothingSentAgain(w, s, k, row); }
      forall k, row: nat | InHand(w', k, row)
        ensures IsUnsent(w', row) && forall l :: InHand(w', l, row) ==> k == l
      {
        forall l | InHand(w', l, row) ensures k == l { HandsStayApart(w, s, k, l, row); }
        HandsStayApart(w, s, k, k, row);
      }
    } else if s.Read? {
      var l, row :| l in w.sweeps && l != s.worker && row in Unsent(w.rows, w.sweeps[s.worker], s.orgId, s.limit)
                    && InHand(w, l, row);
      assert Shared(w', s.worker, l, row);
    } else {
      var row :| row in w.sweeps[s.worker].marked;
      assert InHand(w, s.worker, row) && LoggedBy(w, row, w.sweeps[s.worker].number);
      forall k ensures !Holding(w', k, row) {
        if Holding(w', k, row) { assert InHand(w, k, row); }
      }
      assert Forgotten(w', row);
    }
  }

  /** Where all is calm, no step - faulty or not - sends twice or rewrites a `sent_at`. */
  lemma CalmStepIsSafe(w: World, s: Step)
    requires Valid(w) && Calm(w) && !DoubleSent(w) && Enabled(w, s)
    ensures !DoubleSent(Apply(w, s))
    ensures forall i :: 0 <= i < |w.rows| && w.rows[i].sentAt.Some? ==> Apply(w, s).rows[i].sentAt == w.rows[i].sentAt
  {
    var w' := Apply(w, s);
    if a, b :| a in w'.log && b in w'.log && a.row == b.row && a.recipient == b.recipient && a.sweep != b.sweep {
      if a !in w.log { LogAfter(w, s, a); }
      if b !in w.log { LogAfter(w, s, b); }
      assert s.Mail? && !SentAgain(w, s.worker, a.row);
      assert a in w.log || b in w.log ==> Accepted(w, a.row);
    }
    RowsAfter(w, s);
    forall i: nat | i < |w.rows| && w.rows[i].sentAt.Some? ensures w'.rows[i].sentAt == w.rows[i].sentAt {
      assert forall m :: Holding(w, m, i) ==> InHand(w, m, i);
    }
  }

  /** So a run without a fault sends nobody a message about a row twice, and sets each `sent_at` at most once. */
  lemma {:induction false} CleanRunSendsOnce(w: World, steps: seq<Step>)
    requires Valid(w) && Calm(w) && !DoubleSent(w) && CleanRun(w, steps) && Run(w, steps)
    ensures Valid(Final(w, steps)) && Calm(Final(w, steps)) && !DoubleSent(Final(w, steps))
    ensures |w.rows| <= |Final(w, steps).rows|
    ensures forall i :: 0 <= i < |w.rows| && w.rows[i].sentAt.Some? ==>
              Final(w, steps).rows[i].sentAt == w.rows[i].sentAt
    decreases |steps|
  {
    if steps != [] {
      StepKeepsValid(w, steps[0]);
      FaultExposes(w, steps[0]);
      CalmStepIsSafe(w, steps[0]);
      RowsAfter(w, steps[0]);
      CleanRunSendsOnce(Apply(w, steps[0]), steps[1..]);
    }
  }

  lemma BeginIsCalm()
    ensures Valid(BEGIN) && Calm(BEGIN) && !DoubleSent(BEGIN)
  {
  }

  // ---------------------------------------------------------------- an exposed world can send twice without a fault

  ghost predicate CanSendTwice(w: World) {
    exists steps :: CleanRun(w, steps) && Run(w, steps) && DoubleSent(Final(w, steps))
  }

  lemma {:induction false} CleanRunsCompose(w: World, a: seq<Step>, b: seq<Step>)
    requires CleanRun(w, a) && Run(w, a) && CleanRun(Final(w, a), b) && Run(Final(w, a), b)
    ensures CleanRun(w, a + b) && Run(w, a + b) && Final(w, a + b) == Final(Final(w, a), b)
    decreases |a|
  {
    if a == [] {
      assert a + b == b;
    } else {
      assert (a + b)[1..] == a[1..] + b;
      CleanRunsCompose(Apply(w, a[0]), a[1..], b);
    }
  }

  lemma OneStep(w: World, s: Step)
    requires Enabled(w, s) && !Fault(w, s)
    ensures CleanRun(w, [s]) && Run(w, [s]) && Final(w, [s]) == Apply(w, s)
  {
    assert [s][1..] == [];
    assert CleanRun(Apply(w, s), []) && Run(Apply(w, s), []);
  }

  lemma LaterSendsTwice(w: World, s: Step)
    requires Enabled(w, s) && !Fault(w, s) && CanSendTwice(Apply(w, s))
    ensures CanSendTwice(w)
  {
    var rest :| CleanRun(Apply(w, s), rest) && Run(Apply(w, s), rest) && DoubleSent(Final(Apply(w, s), rest));
    OneStep(w, s);
    CleanRunsCompose(w, [s], rest);
  }

  /** One message leaves, about one row, to one recipient. */
  function OneMail(k: Worker, row: nat, recipient: string): Step {
    Mail(k, [recipient], {(row, recipient)})
  }

  lemma OneMailLeaves(w: World, k: Worker, row: nat, recipient: string)
    requires ToSend(w, k, row)
    ensures var s := OneMail(k, row, recipient);
            && Enabled(w, s) && !Fault(w, s)
            && Acceptance(row, recipient, w.sweeps[k].number) in Apply(w, s).log && w.log <= Apply(w, s).log
            && forall l :: l != k && l in w.sweeps ==> l in Apply(w, s).sweeps && Apply(w, s).sweeps[l] == w.sweeps[l]
  {
    assert (row, recipient) in OneMail(k, row, recipient).accepts;
  }

  lemma SentAgainSendsTwice(w: World, k: Worker, row: nat)
    requires Valid(w) && SentAgain(w, k, row)
    ensures CanSendTwice(w)
  {
    var a :| a in w.log && a.row == row;
    assert LoggedBy(w, row, a.sweep);
    var s := OneMail(k, row, a.recipient);
    OneMailLeaves(w, k, row, a.recipient);
    OneStep(w, s);
    assert DoubleSent(Apply(w, s));
  }

  lemma SharedSendsTwice(w: World, k: Worker, l: Worker, row: nat)
    requires Valid(w) && Shared(w, k, l, row)
    ensures CanSendTwice(w)
  {
    if Holding(w, l, row) {
      assert LoggedBy(w, row, w.sweeps[l].number);
      SentAgainSendsTwice(w, k, row);
    } else {
      var s := OneMail(k, row, "someone");
      OneMailLeaves(w, k, row, "someone");
      StepKeepsValid(w, s);
      assert SentAgain(Apply(w, s), l, row);
      SentAgainSendsTwice(Apply(w, s), l, row);
      LaterSendsTwice(w, s);
    }
  }

  /** A sweep can drop what it has in hand without sending anything more. */
  lemma DropsHand(w: World, k: Worker, row: nat) returns (w': World)
    requires Valid(w) && k in w.sweeps && Forgotten(w, row)
    ensures Valid(w') && Forgotten(w', row) && w'.sweeps.Keys == w.sweeps.Keys && w'.sweeps[k].pending == []
    ensures CanSendTwice(w') ==> CanSendTwice(w)
  {
    var mail := Mail(k, [], {});
    StepKeepsValid(w, mail);
    AcceptedAfter(w, mail, row);
    w' := Apply(w, mail);
    forall l ensures !Holding(w', l, row) {
      assert !Holding(w, l, row);
      if Holding(w', l, row) { HoldingAfter(w, mail, l, row); }
    }
    if CanSendTwice(w') { LaterSendsTwice(w, mail); }
  }

  lemma Commits(w: World, k: Worker, row: nat) returns (w': World)
    requires Valid(w) && k in w.sweeps && w.sweeps[k].pending == [] && Forgotten(w, row)
    ensures Valid(w') && Forgotten(w', row) && w'.sweeps == w.sweeps - {k}
    ensures CanSendTwice(w') ==> CanSendTwice(w)
  {
    StepKeepsValid(w, Commit(k));
    AcceptedAfter(w, Commit(k), row);
    RowsAfter(w, Commit(k));
    w' := Apply(w, Commit(k));
    assert !Holding(w, k, row);
    forall l ensures !Holding(w', l, row) { assert !Holding(w, l, row); }
    if CanSendTwice(w') { LaterSendsTwice(w, Commit(k)); }
  }

  lemma {:induction false} AtLeastIndex(rows: seq<Note>, orgId: string, p: seq<nat>, k: nat)
    requires InOrder(rows, orgId, 0, p) && k < |p|
    ensures p[k] >= k
  {
    if k > 0 { AtLeastIndex(rows, orgId, p, k - 1); }
  }

  /** With a large enough limit a row is among those read. */
  lemma RowIsRead(rows: seq<Note>, row: nat)
    requires row < |rows| && rows[row].sentAt.None?
    ensures row in Pending(rows, rows[row].orgId, 0, row + 1)
  {
    var orgId := rows[row].orgId;
    var p := Pending(rows, orgId, 0, row + 1);
    PendingExact(rows, orgId, 0, row + 1);
    assert IsPending(rows, orgId, row);
    if row !in p { AtLeastIndex(rows, orgId, p, row); }
  }

  /** With no sweep under way a forgotten row is read again. */
  lemma ForgottenIsReadAgain(w: World, row: nat)
    requires Valid(w) && Forgotten(w, row) && w.sweeps == map[]
    ensures CanSendTwice(w)
  {
    var start, read := Start("worker", 0), Read("worker", w.rows[row].orgId, row + 1);
    var w1 := Apply(w, start);
    StepKeepsValid(w, start);
    AcceptedAfter(w, start, row);
    assert Marked(w.rows, {}, 0) == w.rows;
    RowIsRead(w.rows, row);
    assert w1.sweeps["worker"].marked == {} && w1.sweeps.Keys == {"worker"};
    StepKeepsValid(w1, read);
    AcceptedAfter(w1, read, row);
    SentAgainSendsTwice(Apply(w1, read), "worker", row);
    LaterSendsTwice(w1, read);
    LaterSendsTwice(w, start);
  }

  lemma {:induction false} ForgottenSendsTwice(w: World, row: nat)
    requires Valid(w) && Forgotten(w, row)
    ensures CanSendTwice(w)
    decreases |w.sweeps.Keys|
  {
    if w.sweeps == map[] {
      ForgottenIsReadAgain(w, row);
    } else {
      var k :| k in w.sweeps;
      var dropped := DropsHand(w, k, row);
      var w' := Commits(dropped, k, row);
      assert w'.sweeps.Keys == w.sweeps.Keys - {k};
      ForgottenSendsTwice(w', row);
    }
  }

  lemma ExposedSendsTwice(w: World)
    requires Valid(w) && Exposed(w)
    ensures CanSendTwice(w)
  {
    if row: nat :| Forgotten(w, row) {
      ForgottenSendsTwice(w, row);
    } else if k, row: nat :| SentAgain(w, k, row) {
      SentAgainSendsTwice(w, k, row);
    } else {
      var k, l, row: nat :| Shared(w, k, l, row);
      SharedSendsTwice(w, k, l, row);
    }
  }

  // ---------------------------------------------------------------- the exact condition

  /** After any run without a fault nothing has been sent twice; and one more step makes a double send possible - with
      no further fault - exactly if that step is a fault. */
  lemma DoubleSendExact(steps: seq<Step>, s: Step)
    requires CleanRun(BEGIN, steps) && Run(BEGIN, steps) && Enabled(Final(BEGIN, steps), s)
    ensures !DoubleSent(Final(BEGIN, steps)) && !DoubleSent(Apply(Final(BEGIN, steps), s))
    ensures CanSendTwice(Apply(Final(BEGIN, steps), s)) <==> Fault(Final(BEGIN, steps), s)
  {
    BeginIsCalm();
    CleanRunSendsOnce(BEGIN, steps);
    var w := Final(BEGIN, steps);
    var w' := Apply(w, s);
    FaultExposes(w, s);
    StepKeepsValid(w, s);
    CalmStepIsSafe(w, s);
    if Fault(w, s) {
      ExposedSendsTwice(w');
    } else {
      forall more | CleanRun(w', more) && Run(w', more) ensures !DoubleSent(Final(w', more)) {
        CleanRunSendsOnce(w', more);
      }
    }
  }

  /** No sweep reads an organisation that another one has read and not committed, and none is lost after its first
      message has left. */
  ghost predicate OneAtATime(w: World, steps: seq<Step>)
    requires Run(w, steps)
    decreases |steps|
  {
    steps == [] ||
    (&& (steps[0].Read? ==>
           forall l :: l in w.sweeps && l != steps[0].worker ==> steps[0].orgId !in w.sweeps[l].orgs)
     && (steps[0].Lose? ==> w.sweeps[steps[0].worker].marked == {})
     && OneAtATime(Apply(w, steps[0]), steps[1..]))
  }

  lemma {:induction false} OneAtATimeIsClean(w: World, steps: seq<Step>)
    requires Valid(w) && Run(w, steps) && OneAtATime(w, steps)
    ensures CleanRun(w, steps)
    decreases |steps|
  {
    if steps != [] {
      var s := steps[0];
      StepKeepsValid(w, s);
      if s.Read? && Fault(w, s) {
        var l, row :| l in w.sweeps && l != s.worker && row in Unsent(w.rows, w.sweeps[s.worker], s.orgId, s.limit)
                      && InHand(w, l, row);
        UnsentExact(w, s.worker, s.orgId, s.limit, row);
        assert false;
      }
      OneAtATimeIsClean(Apply(w, s), steps[1..]);
    }
  }

  /** As long as the sweeps of one organisation follow each other, commit before read, and none is lost after mail has
      left, nobody gets a message about a row twice. */
  lemma OneAtATimeSendsOnce(steps: seq<Step>)
    requires Run(BEGIN, steps) && OneAtATime(BEGIN, steps)
    ensures !DoubleSent(Final(BEGIN, steps))
  {
    BeginIsCalm();
    OneAtATimeIsClean(BEGIN, steps);
    CleanRunSendsOnce(BEGIN, steps);
  }

  /** A sweep of one organisation that nothing interrupts is the `Send` of the table. */
  lemma WholeSweepIsSend(w: World, k: Worker, now: int, orgId: string, limit: nat, people: seq<string>,
                         accepts: Accepts)
    requires k !in w.sweeps
    ensures var sweep := [Start(k, now), Read(k, orgId, limit), Mail(k, people, accepts), Commit(k)];
            && Run(w, sweep) && Final(w, sweep).sweeps == w.sweeps
            && Final(w, sweep).rows == Delivered(w.rows, Pending(w.rows, orgId, 0, limit), people, accepts, now)
  {
    var start, read, mail := Start(k, now), Read(k, orgId, limit), Mail(k, people, accepts);
    var w1 := Apply(w, start);
    assert Marked(w.rows, {}, now) == w.rows;
    var w2 := Apply(w1, read);
    assert w2.sweeps[k] == Sweep(w.next, now, {orgId}, Pending(w.rows, orgId, 0, limit), {});
    var w3 := Apply(w2, mail);
    var w4 := Apply(w3, Commit(k));
    assert w4.sweeps == w.sweeps;
    assert w4.rows == Delivered(w.rows, Pending(w.rows, orgId, 0, limit), people, accepts, now);
    var none: seq<Step> := [];
    assert Run(w4, none);
    assert [Commit(k)][1..] == none && Run(w3, [Commit(k)]) && Final(w3, [Commit(k)]) == w4;
    assert [mail, Commit(k)][1..] == [Commit(k)] && Run(w2, [mail, Commit(k)]) && Final(w2, [mail, Commit(k)]) == w4;
    assert [read, mail, Commit(k)][1..] == [mail, Commit(k)] && Run(w1, [read, mail, Commit(k)]);
    assert [start, read, mail, Commit(k)][1..] == [read, mail, Commit(k)];
  }

  // ---------------------------------------------------------------- both faults happen

  const ONE_NOTE := Note("one", "deadline.j7", "tender", 0, None, None)

  const TWO_NOTE := Note("two", "deadline.j7", "other", 0, None, None)

  const TO_ADA: Accepts := {(0, "ada")}

  /** A run from the beginning that ends in `w`. */
  ghost predicate Reaches(steps: seq<Step>, w: World) {
    Run(BEGIN, steps) && w == Final(BEGIN, steps)
  }

  lemma {:induction false} ExtendRun(w: World, steps: seq<Step>, s: Step)
    requires Run(w, steps) && Enabled(Final(w, steps), s)
    ensures Run(w, steps + [s]) && Final(w, steps + [s]) == Apply(Final(w, steps), s)
    decreases |steps|
  {
    if steps == [] {
      assert steps + [s] == [s] && [s][1..] == [];
    } else {
      assert (steps + [s])[1..] == steps[1..] + [s];
      ExtendRun(Apply(w, steps[0]), steps[1..], s);
    }
  }

  lemma Advance(steps: seq<Step>, w: World, s: Step) returns (steps': seq<Step>, w': World)
    requires Reaches(steps, w) && Enabled(w, s)
    ensures Reaches(steps', w') && steps' == steps + [s] && w' == Apply(w, s)
  {
    ExtendRun(BEGIN, steps, s);
    steps', w' := steps + [s], Apply(w, s);
  }

  /** Worker `k` starts, reads the unsent row of organisation `one`, and ada's server accepts the message. */
  lemma SendsOne(steps: seq<Step>, w: World, k: Worker, now: int) returns (steps': seq<Step>, w': World)
    requires Reaches(steps, w) && k !in w.sweeps && w.rows == [ONE_NOTE, TWO_NOTE]
    ensures Reaches(steps', w') && w'.rows == w.rows && w'.next == w.next + 1
    ensures w'.sweeps == w.sweeps[k := Sweep(w.next, now, {"one"}, [], {0})]
    ensures w'.log == w.log + {Acceptance(0, "ada", w.next)}
    ensures steps' == steps + [Start(k, now), Read(k, "one", 1), Mail(k, ["ada"], TO_ADA)]
  {
    var rows := w.rows;
    steps', w' := Advance(steps, w, Start(k, now));
    assert Marked(rows, {}, now) == rows;
    RowIsRead(rows, 0);
    PendingExact(rows, "one", 0, 1);
    assert Pending(rows, "one", 0, 1) == [0];
    steps', w' := Advance(steps', w', Read(k, "one", 1));
    var none: set<string> := {};
    assert none + {"one"} == {"one"};
    assert w'.sweeps[k] == Sweep(w.next, now, {"one"}, [0], {});
    assert (0, "ada") in TO_ADA && Reached(0, ["ada"], TO_ADA);
    assert Tried(w'.sweeps[k], ["ada"], TO_ADA) == Sweep(w.next, now, {"one"}, [], {0});
    assert Messages(w'.sweeps[k], ["ada"], TO_ADA) == {Acceptance(0, "ada", w.next)};
    steps', w' := Advance(steps', w', Mail(k, ["ada"], TO_ADA));
  }

  /** Nothing rolls back: a second worker reads the row while the first, which has sent it, is still at work on the next
      organisation.  The message goes out twice, and the second commit rewrites `sent_at`. */
  const OVERLAP: seq<Step> := [
    Change([ONE_NOTE, TWO_NOTE]),
    Start("a", 5), Read("a", "one", 1), Mail("a", ["ada"], TO_ADA), Read("a", "two", 1),
    Start("b", 9), Read("b", "one", 1), Mail("b", ["ada"], TO_ADA),
    Mail("a", [], {}), Commit("a"), Commit("b")]

  /** One worker sends the row of one organisation and is lost in the next; another one comes later. */
  const LOSS: seq<Step> := [
    Change([ONE_NOTE, TWO_NOTE]),
    Start("a", 5), Read("a", "one", 1), Mail("a", ["ada"], TO_ADA), Read("a", "two", 1), Lose("a"),
    Start("b", 9), Read("b", "one", 1), Mail("b", ["ada"], TO_ADA)]

  /** The first worker has sent a message for organisation `one` and read organisation `two`. */
  lemma OneSentTwoRead() returns (w: World)
    ensures Reaches(OVERLAP[..5], w) && OVERLAP[..5] == LOSS[..5]
    ensures w == World([ONE_NOTE, TWO_NOTE], map["a" := Sweep(0, 5, {"one", "two"}, [1], {0})],
                       {Acceptance(0, "ada", 0)}, 1)
  {
    var steps: seq<Step> := [];
    w := BEGIN;
    steps, w := Advance(steps, w, Change([ONE_NOTE, TWO_NOTE]));
    steps, w := SendsOne(steps, w, "a", 5);
    var seen := Marked(w.rows, {0}, 5);
    assert seen == [ONE_NOTE.(sentAt := Some(5)), TWO_NOTE];
    assert Pending(seen, "two", 2, 0) == [] && Pending(seen, "two", 1, 1) == [1];
    assert Pending(seen, "two", 0, 1) == [1];
    steps, w := Advance(steps, w, Read("a", "two", 1));
    assert {"one"} + {"two"} == {"one", "two"};
    assert w.sweeps == map["a" := Sweep(0, 5, {"one", "two"}, [1], {0})];
    assert steps == OVERLAP[..5] == LOSS[..5];
  }

  lemma OverlapSendsTwice()
    ensures Run(BEGIN, OVERLAP[..8]) && DoubleSent(Final(BEGIN, OVERLAP[..8]))
    ensures Run(BEGIN, OVERLAP) && Run(BEGIN, OVERLAP[..10])
    ensures Final(BEGIN, OVERLAP[..10]).rows == [ONE_NOTE.(sentAt := Some(5)), TWO_NOTE]
    ensures Final(BEGIN, OVERLAP).rows == [ONE_NOTE.(sentAt := Some(9)), TWO_NOTE]
  {
    var w := OneSentTwoRead();
    var steps := OVERLAP[..5];
    steps, w := SendsOne(steps, w, "b", 9);
    assert steps == OVERLAP[..8];
    assert Acceptance(0, "ada", 0) in w.log && Acceptance(0, "ada", 1) in w.log;
    steps, w := Advance(steps, w, Mail("a", [], {}));
    steps, w := Advance(steps, w, Commit("a"));
    assert steps == OVERLAP[..10] && w.rows == [ONE_NOTE.(sentAt := Some(5)), TWO_NOTE];
    steps, w := Advance(steps, w, Commit("b"));
    assert steps == OVERLAP;
  }

  lemma LossSendsTwice()
    ensures Run(BEGIN, LOSS) && DoubleSent(Final(BEGIN, LOSS))
    ensures Run(BEGIN, LOSS[..6]) && Final(BEGIN, LOSS[..6]).rows == [ONE_NOTE, TWO_NOTE]
  {
    var w := OneSentTwoRead();
    var steps := LOSS[..5];
    steps, w := Advance(steps, w, Lose("a"));
    assert steps == LOSS[..6] && w.rows == [ONE_NOTE, TWO_NOTE];
    steps, w := SendsOne(steps, w, "b", 9);
    assert steps == LOSS;
    assert Acceptance(0, "ada", 0) in w.log && Acceptance(0, "ada", 1) in w.log;
  }
}
