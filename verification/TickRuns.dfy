/**
 Alert ticks of several workers at once (alerts.py).

 `run_deadline_alerts` reads, organisation by organisation, the open tenders and the alerts already raised for them, and
 inserts what is due when its transaction commits.  Nothing locks what it read and no index forbids a second row, so two
 `notify.deadlines` jobs that overlap can raise one alert twice.
 */
module TickRuns {
  import opened Common
  import opened WorkingDays
  import opened DeadlineAlerts
  import opened Notifications
  import opened NR = NotificationRuns

  type Worker = string

  /** A tick under way: its instant, the tenders it has read, and the rows it is about to insert. */
  datatype Tick = Tick(now: int, read: set<TenderId>, notes: seq<Note>)

  datatype World = World(rows: seq<Note>, ticks: map<Worker, Tick>)

  datatype Step =
    | Change(rows: seq<Note>)                    // deliveries, acknowledgements, escalations, other notifications
    | Start(worker: Worker, now: int)
    | Read(worker: Worker, tenders: seq<Tender>)   // of one organisation
    | Commit(worker: Worker)
    | Lose(worker: Worker)

  ghost predicate SameAlerts(rows: seq<Note>, rows': seq<Note>) {
    forall id :: AlertsFor(rows', id) == AlertsFor(rows, id)
  }

  ghost predicate Enabled(w: World, s: Step) {
    match s
    case Change(rows) => SameAlerts(w.rows, rows)
    case Start(k, _) => k !in w.ticks
    case Read(k, tenders) =>
      k in w.ticks && IdsDistinct(tenders) && forall x :: x in tenders ==> x.id !in w.ticks[k].read
    case Commit(k) => k in w.ticks
    case Lose(k) => k in w.ticks
  }

  /** The rows a tick adds for the tenders it reads now. */
  function Due(w: World, k: Worker, tenders: seq<Tender>): seq<Note>
    requires k in w.ticks
  {
    AddedBy(tenders, w.ticks[k].now, SentOf(w.rows))
  }

  function Apply(w: World, s: Step): World
    requires Enabled(w, s)
  {
    match s
    case Change(rows) => w.(rows := rows)
    case Start(k, now) => w.(ticks := w.ticks[k := Tick(now, {}, [])])
    case Read(k, tenders) =>
      var tick := w.ticks[k];
      var ids := set x | x in tenders :: x.id;
      w.(ticks := w.ticks[k := Tick(tick.now, tick.read + ids, tick.notes + Due(w, k, tenders))])
    case Commit(k) => w.(rows := w.rows + w.ticks[k].notes, ticks := w.ticks - {k})
    case Lose(k) => w.(ticks := w.ticks - {k})
  }

  ghost predicate Run(w: World, steps: seq<Step>)
    decreases |steps|
  {
    steps == [] || (Enabled(w, steps[0]) && Run(Apply(w, steps[0]), steps[1..]))
  }

  function Final(w: World, steps: seq<Step>): World
    requires Run(w, steps)
    decreases |steps|
  {
    if steps == [] then w else Final(Apply(w, steps[0]), steps[1..])
  }

  const BEGIN := World.World([], map[])

  /** Everything but a tick is a change of that kind. */
  lemma OtherStepsKeepAlerts(w: NR.World, s: NR.Step)
    requires NR.Enabled(w, s) && !s.Raise?
    ensures SameAlerts(w.rows, NR.Apply(w, s).rows)
  {
    var w' := NR.Apply(w, s);
    RowsOnlyMature(w, s);
    forall id ensures AlertsFor(w'.rows, id) == AlertsFor(w.rows, id) {
      if s.Escalate? {
        EscalationsAreNoAlerts(w.rows, w.rows, s.now, id);
        AlertsForConcat(w.rows, Escalations(w.rows, w.rows, s.now), id);
      } else if s.RaiseOther? {
        assert [s.note][1..] == [];
        AlertsForConcat(w.rows, [s.note], id);
      } else {
        forall i | 0 <= i < |w.rows| ensures SameIdentity(w.rows[i], w'.rows[i]) {
          assert Matures(w.rows[i], w'.rows[i], s.now);
        }
        AlertsForKeepsIdentity(w.rows, w'.rows, id);
      }
    }
  }

  lemma ThreeSteps(w: World, a: Step, b: Step, c: Step)
    requires Enabled(w, a) && Enabled(Apply(w, a), b) && Enabled(Apply(Apply(w, a), b), c)
    ensures Run(w, [a, b, c]) && Final(w, [a, b, c]) == Apply(Apply(Apply(w, a), b), c)
  {
    assert [a, b, c][1..] == [b, c] && [b, c][1..] == [c] && [c][1..] == [];
    var w3 := Apply(Apply(Apply(w, a), b), c);
    assert Run(w3, []);
    assert Run(Apply(Apply(w, a), b), [c]) && Final(Apply(Apply(w, a), b), [c]) == w3;
    assert Run(Apply(w, a), [b, c]) && Final(Apply(w, a), [b, c]) == w3;
  }

  lemma ReadAfresh(w: World, k: Worker, now: int, tenders: seq<Tender>)
    requires k in w.ticks && w.ticks[k] == Tick(now, {}, []) && IdsDistinct(tenders)
    ensures Enabled(w, Read(k, tenders))
    ensures var w' := Apply(w, Read(k, tenders));
            && w'.rows == w.rows && w'.ticks.Keys == w.ticks.Keys
            && w'.ticks[k].notes == AddedBy(tenders, now, SentOf(w.rows))
            && w'.ticks == w.ticks[k := w'.ticks[k]]
  {
  }

  /** A tick of one organisation that nothing interrupts is the tick of the table. */
  lemma WholeTickIsRaise(w: World, k: Worker, now: int, tenders: seq<Tender>)
    requires k !in w.ticks && IdsDistinct(tenders)
    ensures var tick := [Start(k, now), Read(k, tenders), Commit(k)];
            Run(w, tick) && Final(w, tick) == w.(rows := Raised(w.rows, tenders, now))
  {
    var w1 := Apply(w, Start(k, now));
    ReadAfresh(w1, k, now, tenders);
    var w2 := Apply(w1, Read(k, tenders));
    assert w2.ticks - {k} == w.ticks;
    ThreeSteps(w, Start(k, now), Read(k, tenders), Commit(k));
  }

  /** A tick that is lost leaves the table as it was, and a later one makes up for it. */
  lemma LostTickIsMadeUp(w: World, k: Worker, now: int, tenders: seq<Tender>)
    requires k in w.ticks && IdsDistinct(tenders)
    ensures Enabled(w, Lose(k)) && Apply(w, Lose(k)) == w.(ticks := w.ticks - {k})
    ensures var w', tick := w.(ticks := w.ticks - {k}), [Start(k, now), Read(k, tenders), Commit(k)];
            Run(w', tick) && Final(w', tick) == w'.(rows := Raised(w.rows, tenders, now))
  {
    WholeTickIsRaise(w.(ticks := w.ticks - {k}), k, now, tenders);
  }

  // ---------------------------------------------------------------- when an alert is raised twice

  /** Some alert of some tender is on record twice. */
  ghost predicate RaisedTwice(w: World) {
    exists id, i, j :: 0 <= i < j < |AlertsFor(w.rows, id)| && AlertsFor(w.rows, id)[i] == AlertsFor(w.rows, id)[j]
  }

  /** A tick is about to insert an alert of the tender. */
  predicate About(w: World, k: Worker, id: TenderId) {
    k in w.ticks && AlertsFor(w.ticks[k].notes, id) != []
  }

  /** The fault: an alert comes due, in the eyes of a tick, for a tender that another one is about to raise. */
  ghost predicate Clashes(w: World, s: Step)
    requires Enabled(w, s)
  {
    s.Read? && exists l, id :: l != s.worker && About(w, l, id) && AlertsFor(Due(w, s.worker, s.tenders), id) != []
  }

  ghost predicate CleanRun(w: World, steps: seq<Step>)
    requires Run(w, steps)
    decreases |steps|
  {
    steps == [] || (!Clashes(w, steps[0]) && CleanRun(Apply(w, steps[0]), steps[1..]))
  }

  /** What a tick is about to insert for a tender is the next rung of its ladder. */
  predicate NextRung(alerts: seq<Kind>, added: seq<Kind>) {
    added == [] || (|alerts| < 4 && added == [LADDER[|alerts|]])
  }

  predicate HoldsNextRung(w: World, k: Worker, id: TenderId) {
    k in w.ticks ==>
      && NextRung(AlertsFor(w.rows, id), AlertsFor(w.ticks[k].notes, id))
      && (About(w, k, id) ==> id in w.ticks[k].read)
  }

  ghost predicate Climbing(w: World) {
    Laddered(w.rows) && forall k, id :: HoldsNextRung(w, k, id)
  }

  ghost predicate Apart(w: World) {
    forall k, l, id :: About(w, k, id) && About(w, l, id) ==> k == l
  }

  lemma DueIsNextRung(w: World, k: Worker, tenders: seq<Tender>, id: TenderId)
    requires Laddered(w.rows) && k in w.ticks && IdsDistinct(tenders)
    ensures NextRung(AlertsFor(w.rows, id), AlertsFor(Due(w, k, tenders), id))
    ensures AlertsFor(Due(w, k, tenders), id) != [] ==> exists x :: x in tenders && x.id == id
  {
    var alerts, now, sent := AlertsFor(w.rows, id), w.ticks[k].now, SentOf(w.rows);
    assert OnLadder(alerts);
    if id != "" {
      forall i | 0 <= i < 4 ensures (id, LADDER[i]) in sent <==> i < |alerts| { RecordIsLadder(w.rows, id, i); }
    }
    TickAddsNextRung(tenders, now, sent, id, |alerts|);
    if DueFor(tenders, id, now, |alerts|) {
      var x :| x in tenders && x.id == id && RungIsDue(x, now, |alerts|);
    }
  }

  /** What a tick holds for a tender after a step: what it held, or what it has just read. */
  lemma NotesAfter(w: World, s: Step, k: Worker, id: TenderId)
    requires Climbing(w) && Enabled(w, s) && k in Apply(w, s).ticks
    ensures var added := AlertsFor(Apply(w, s).ticks[k].notes, id);
            || added == []
            || (k in w.ticks && About(w, k, id) && added == AlertsFor(w.ticks[k].notes, id))
            || (s.Read? && k == s.worker && added == AlertsFor(Due(w, k, s.tenders), id)
                && NextRung(AlertsFor(w.rows, id), added) && id in Apply(w, s).ticks[k].read)
  {
    assert HoldsNextRung(w, k, id);
    if s.Read? && s.worker == k {
      AlertsForConcat(w.ticks[k].notes, Due(w, k, s.tenders), id);
      DueIsNextRung(w, k, s.tenders, id);
      if AlertsFor(Due(w, k, s.tenders), id) != [] {
        var x :| x in s.tenders && x.id == id;
        assert !About(w, k, id);
      }
    }
  }

  lemma RowsClimb(w: World, s: Step, id: TenderId)
    requires Climbing(w) && Enabled(w, s)
    ensures OnLadder(AlertsFor(Apply(w, s).rows, id))
    ensures AlertsFor(Apply(w, s).rows, id) == AlertsFor(w.rows, id) || (s.Commit? && About(w, s.worker, id))
  {
    assert OnLadder(AlertsFor(w.rows, id));
    if s.Commit? {
      var notes := w.ticks[s.worker].notes;
      AlertsForConcat(w.rows, notes, id);
      assert HoldsNextRung(w, s.worker, id);
      ClimbsOne(AlertsFor(w.rows, id), AlertsFor(notes, id));
    }
  }

  lemma StayApart(w: World, s: Step)
    requires Climbing(w) && Apart(w) && Enabled(w, s) && !Clashes(w, s)
    ensures Apart(Apply(w, s))
  {
    forall k, l, id | About(Apply(w, s), k, id) && About(Apply(w, s), l, id) ensures k == l {
      NotesAfter(w, s, k, id);
      NotesAfter(w, s, l, id);
    }
  }

  lemma StaysNextRung(w: World, s: Step, k: Worker, id: TenderId)
    requires Climbing(w) && Apart(w) && Enabled(w, s)
    ensures HoldsNextRung(Apply(w, s), k, id)
  {
    if k in Apply(w, s).ticks {
      NotesAfter(w, s, k, id);
      RowsClimb(w, s, id);
      assert HoldsNextRung(w, k, id);
      assert s.Commit? && About(w, s.worker, id) && About(w, k, id) ==> k == s.worker;
    }
  }

  /** Without a clash every tender stays on its ladder, however ticks overlap. */
  lemma CleanStepClimbs(w: World, s: Step)
    requires Climbing(w) && Apart(w) && Enabled(w, s) && !Clashes(w, s)
    ensures Climbing(Apply(w, s)) && Apart(Apply(w, s))
  {
    StayApart(w, s);
    forall id ensures OnLadder(AlertsFor(Apply(w, s).rows, id)) { RowsClimb(w, s, id); }
    forall k, id ensures HoldsNextRung(Apply(w, s), k, id) { StaysNextRung(w, s, k, id); }
  }

  lemma LadderedIsOnce(w: World)
    requires Laddered(w.rows)
    ensures !RaisedTwice(w)
  {
    forall id, i, j | 0 <= i < j < |AlertsFor(w.rows, id)|
      ensures AlertsFor(w.rows, id)[i] != AlertsFor(w.rows, id)[j]
    {
      assert OnLadder(AlertsFor(w.rows, id));
      RungsDiffer(AlertsFor(w.rows, id), i, j);
    }
  }

  lemma {:induction false} CleanRunClimbs(w: World, steps: seq<Step>)
    requires Climbing(w) && Apart(w) && Run(w, steps) && CleanRun(w, steps)
    ensures Climbing(Final(w, steps)) && Apart(Final(w, steps)) && !RaisedTwice(Final(w, steps))
    decreases |steps|
  {
    LadderedIsOnce(w);
    if steps != [] {
      CleanStepClimbs(w, steps[0]);
      CleanRunClimbs(Apply(w, steps[0]), steps[1..]);
    }
  }

  // ---------------------------------------------------------------- a clash can raise an alert twice

  ghost predicate CanRaiseTwice(w: World) {
    exists steps :: Run(w, steps) && CleanRun(w, steps) && RaisedTwice(Final(w, steps))
  }

  /** Once two ticks are about to raise an alert of one tender, their commits are enough. */
  lemma BothCommit(w: World, k: Worker, l: Worker, id: TenderId, rung: Kind)
    requires k != l && k in w.ticks && l in w.ticks
    requires AlertsFor(w.ticks[k].notes, id) == [rung] && AlertsFor(w.ticks[l].notes, id) == [rung]
    ensures var both := [Commit(k), Commit(l)];
            Run(w, both) && CleanRun(w, both) && RaisedTwice(Final(w, both))
  {
    var w1 := Apply(w, Commit(k));
    var w2 := Apply(w1, Commit(l));
    var none: seq<Step> := [];
    assert Run(w2, none) && CleanRun(w2, none);
    assert [Commit(l)][1..] == none && Run(w1, [Commit(l)]) && CleanRun(w1, [Commit(l)]);
    assert Final(w1, [Commit(l)]) == w2;
    assert [Commit(k), Commit(l)][1..] == [Commit(l)] && Run(w, [Commit(k), Commit(l)]);
    assert Final(w, [Commit(k), Commit(l)]) == w2;
    AlertsForConcat(w.rows, w.ticks[k].notes, id);
    AlertsForConcat(w1.rows, w.ticks[l].notes, id);
    var alerts, n := AlertsFor(w2.rows, id), |AlertsFor(w.rows, id)|;
    assert alerts[n] == rung && alerts[n + 1] == rung;
  }

  /** After any run without a clash no alert is on record twice, and each tender's alerts are a prefix of 14, 7, 3, 1;
      and one step more makes a second row possible - with no further clash - exactly if it is a clash. */
  lemma RaisedTwiceExact(steps: seq<Step>, s: Step)
    requires Run(BEGIN, steps) && CleanRun(BEGIN, steps) && Enabled(Final(BEGIN, steps), s)
    ensures Laddered(Final(BEGIN, steps).rows) && !RaisedTwice(Final(BEGIN, steps))
    ensures !RaisedTwice(Apply(Final(BEGIN, steps), s))
    ensures CanRaiseTwice(Apply(Final(BEGIN, steps), s)) <==> Clashes(Final(BEGIN, steps), s)
  {
    assert Climbing(BEGIN) && Apart(BEGIN);
    CleanRunClimbs(BEGIN, steps);
    var w := Final(BEGIN, steps);
    var w' := Apply(w, s);
    forall id ensures OnLadder(AlertsFor(w'.rows, id)) { RowsClimb(w, s, id); }
    LadderedIsOnce(w');
    if Clashes(w, s) {
      ClashIsEnough(w, s);
    } else {
      CleanStepClimbs(w, s);
      forall more | Run(w', more) && CleanRun(w', more) ensures !RaisedTwice(Final(w', more)) {
        CleanRunClimbs(w', more);
      }
    }
  }

  lemma ClashIsEnough(w: World, s: Step)
    requires Climbing(w) && Enabled(w, s) && Clashes(w, s)
    ensures CanRaiseTwice(Apply(w, s))
  {
    var l, id :| l != s.worker && About(w, l, id) && AlertsFor(Due(w, s.worker, s.tenders), id) != [];
    var k, w' := s.worker, Apply(w, s);
    DueIsNextRung(w, k, s.tenders, id);
    AlertsForConcat(w.ticks[k].notes, Due(w, k, s.tenders), id);
    var x :| x in s.tenders && x.id == id;
    assert HoldsNextRung(w, k, id) && HoldsNextRung(w, l, id);
    BothCommit(w', k, l, id, LADDER[|AlertsFor(w.rows, id)|]);
  }

  /** No tick reads a tender that another one has read and not committed. */
  ghost predicate OneAtATime(w: World, steps: seq<Step>)
    requires Run(w, steps)
    decreases |steps|
  {
    steps == [] ||
    (&& (steps[0].Read? ==>
           forall l, x :: l in w.ticks && l != steps[0].worker && x in steps[0].tenders ==> x.id !in w.ticks[l].read)
     && OneAtATime(Apply(w, steps[0]), steps[1..]))
  }

  lemma {:induction false} OneAtATimeIsClean(w: World, steps: seq<Step>)
    requires Climbing(w) && Apart(w) && Run(w, steps) && OneAtATime(w, steps)
    ensures CleanRun(w, steps)
    decreases |steps|
  {
    if steps != [] {
      var s := steps[0];
      if s.Read? {
        forall l, id | l != s.worker && About(w, l, id) ensures AlertsFor(Due(w, s.worker, s.tenders), id) == [] {
          DueIsNextRung(w, s.worker, s.tenders, id);
          assert HoldsNextRung(w, l, id);
        }
      }
      CleanStepClimbs(w, s);
      OneAtATimeIsClean(Apply(w, s), steps[1..]);
    }
  }

  /** As long as the ticks of one tender follow each other, each of its alerts is raised once. */
  lemma OneAtATimeRaisesOnce(steps: seq<Step>)
    requires Run(BEGIN, steps) && OneAtATime(BEGIN, steps)
    ensures Laddered(Final(BEGIN, steps).rows) && !RaisedTwice(Final(BEGIN, steps))
  {
    assert Climbing(BEGIN) && Apart(BEGIN);
    OneAtATimeIsClean(BEGIN, steps);
    CleanRunClimbs(BEGIN, steps);
  }

  // ---------------------------------------------------------------- it happens

  function Pursued(deadline: int): Tender {
    Tender("tender", "org", None, Some(deadline), Open)
  }

  function First(deadline: int): Note {
    Note("org", "deadline.j14", "tender", WorkingDaysBefore(deadline, 14), None, None)
  }

  lemma FirstAlertIsDue(deadline: int)
    ensures AddedBy([Pursued(deadline)], WorkingDaysBefore(deadline, 14), {}) == [First(deadline)]
  {
    var now, tender := WorkingDaysBefore(deadline, 14), Pursued(deadline);
    MoreNoticeIsEarlier(deadline, 0, 14);
    assert WorkingDaysBefore(deadline, 0) == deadline;
    assert [tender][1..] == [] && Selected([], now) == [];
    assert Selected([tender], now) == [tender];
    assert FirstDue("tender", deadline, now, {}, OFFSETS) == Some(14);
    assert DueAlerts([], now, {}) == [];
    assert DueAlerts([tender], now, {}) == AlertOf(tender, now, {});
  }

  lemma {:induction false} ExtendRun(w: World, steps: seq<Step>, s: Step)
    requires Run(w, steps) && Enabled(Final(w, steps), s)
    ensures Run(w, steps + [s]) && Final(w, steps + [s]) == Apply(Final(w, steps), s)
    decreases |steps|
  {
    if steps == [] {
      assert steps + [s] == [s] && [s][1..] == [];
    } else {
      assert (steps + [s])[1..] == steps[1..] + [s];
      ExtendRun(Apply(w, steps[0]), steps[1..], s);
    }
  }

  /** Two ticks read the same tenders before either has inserted its alerts. */
  function Overlapping(now: int, tenders: seq<Tender>): seq<Step> {
    [Start("a", now), Start("b", now), Read("a", tenders), Read("b", tenders), Commit("a"), Commit("b")]
  }

  /** The worlds that two overlapping ticks pass through. */
  lemma OverlappingRun(w: World, now: int, tenders: seq<Tender>)
    requires w.ticks == map[] && IdsDistinct(tenders)
    ensures Run(w, Overlapping(now, tenders))
    ensures var added := AddedBy(tenders, now, SentOf(w.rows));
            Final(w, Overlapping(now, tenders)) == w.(rows := w.rows + added + added)
  {
    var started := Apply(Apply(w, Start("a", now)), Start("b", now));
    ReadAfresh(started, "a", now, tenders);
    var half := Apply(started, Read("a", tenders));
    ReadAfresh(half, "b", now, tenders);
    var both := Apply(half, Read("b", tenders));
    var added := AddedBy(tenders, now, SentOf(w.rows));
    assert both.ticks.Keys == {"a", "b"} && both.ticks["a"].notes == added && both.ticks["b"].notes == added;
    var none: seq<Step> := [];
    ExtendRun(w, none, Start("a", now));
    var s1 := none + [Start("a", now)];
    ExtendRun(w, s1, Start("b", now));
    var s2 := s1 + [Start("b", now)];
    ExtendRun(w, s2, Read("a", tenders));
    var s3 := s2 + [Read("a", tenders)];
    ExtendRun(w, s3, Read("b", tenders));
    var s4 := s3 + [Read("b", tenders)];
    ExtendRun(w, s4, Commit("a"));
    var s5 := s4 + [Commit("a")];
    ExtendRun(w, s5, Commit("b"));
    assert s5 + [Commit("b")] == Overlapping(now, tenders);
  }

  /** Two ticks that overlap raise whatever rung of the tender is due - a J-3 alert, say - twice. */
  lemma AnyRungIsRaisedTwice(w: World, now: int, tender: Tender)
    requires w.ticks == map[] && tender.id != "" && OnLadder(AlertsFor(w.rows, tender.id))
    requires RungIsDue(tender, now, |AlertsFor(w.rows, tender.id)|)
    ensures Run(w, Overlapping(now, [tender]))
    ensures var alerts := AlertsFor(w.rows, tender.id);
            AlertsFor(Final(w, Overlapping(now, [tender])).rows, tender.id) ==
            alerts + [LADDER[|alerts|], LADDER[|alerts|]]
  {
    var alerts, sent := AlertsFor(w.rows, tender.id), SentOf(w.rows);
    var added := AddedBy([tender], now, sent);
    OverlappingRun(w, now, [tender]);
    forall i | 0 <= i < 4 ensures (tender.id, LADDER[i]) in sent <==> i < |alerts| {
      RecordIsLadder(w.rows, tender.id, i);
    }
    assert tender in [tender] && DueFor([tender], tender.id, now, |alerts|);
    TickAddsNextRung([tender], now, sent, tender.id, |alerts|);
    AlertsForConcat(w.rows, added, tender.id);
    AlertsForConcat(w.rows + added, added, tender.id);
  }

  lemma TwoRowsOneAlert(note: Note)
    requires note.tenderId == "tender" && note.kind == "deadline.j14"
    ensures AlertsFor([note, note], "tender") == ["deadline.j14", "deadline.j14"]
  {
    LadderKinds();
    assert LADDER[0] == "deadline.j14";
    assert [note][1..] == [] && [note, note][1..] == [note];
    assert AlertsFor([note], "tender") == ["deadline.j14"];
  }

  /** From the empty table: the same alert is inserted twice, and each row will be delivered. */
  lemma OverlappingTicksRaiseTwice(deadline: int)
    ensures var steps := Overlapping(WorkingDaysBefore(deadline, 14), [Pursued(deadline)]);
            && Run(BEGIN, steps) && RaisedTwice(Final(BEGIN, steps))
            && Final(BEGIN, steps).rows == [First(deadline), First(deadline)]
  {
    var now, tenders := WorkingDaysBefore(deadline, 14), [Pursued(deadline)];
    assert SentOf([]) == {};
    FirstAlertIsDue(deadline);
    OverlappingRun(BEGIN, now, tenders);
    var w := Final(BEGIN, Overlapping(now, tenders));
    assert w.rows == [First(deadline), First(deadline)];
    TwoRowsOneAlert(First(deadline));
    var alerts := AlertsFor(w.rows, "tender");
    assert alerts[0] == alerts[1];
  }
}
