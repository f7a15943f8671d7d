/**
 Escalation sweeps of several workers at once (alerts.py).

 The job that raises alerts ends with `escalate_unacknowledged`.  Organisation by organisation it reads the J-3 alerts
 that nobody acknowledged and whose tender has no escalation, and inserts one escalation for each; its inserts become
 visible when its transaction commits.  Nothing locks what it read, so two such jobs that overlap can escalate a tender
 twice; and if the J-3 alert of a tender is on record twice, as overlapping ticks can leave it, one sweep is enough.
 */
module EscalationRuns {
  import opened Common
  import opened DeadlineAlerts
  import opened Notifications
  import opened NR = NotificationRuns

  type Worker = string

  /** A sweep under way: its instant, the organisations it has read, and the escalations it is about to insert. */
  datatype Sweep = Sweep(now: int, orgs: set<string>, notes: seq<Note>)

  datatype World = World(rows: seq<Note>, sweeps: map<Worker, Sweep>)

  datatype Step =
    | Change(rows: seq<Note>)                    // ticks, deliveries, acknowledgements, other notifications
    | Start(worker: Worker, now: int)
    | Read(worker: Worker, orgId: string)
    | Commit(worker: Worker)
    | Lose(worker: Worker)

  /** What everything but a sweep does: rows keep what they are about, and no escalation is added. */
  predicate NoEscalations(rows: seq<Note>, rows': seq<Note>) {
    && |rows| <= |rows'|
    && (forall i :: 0 <= i < |rows| ==> SameIdentity(rows[i], rows'[i]) && rows[i].orgId == rows'[i].orgId)
    && (forall i :: |rows| <= i < |rows'| ==> rows'[i].kind != ESCALATED)
  }

  predicate Enabled(w: World, s: Step) {
    match s
    case Change(rows) => NoEscalations(w.rows, rows)
    case Start(k, _) => k !in w.sweeps
    case Read(k, orgId) => k in w.sweeps && orgId !in w.sweeps[k].orgs
    case Commit(k) => k in w.sweeps
    case Lose(k) => k in w.sweeps
  }

  function OfOrg(rows: seq<Note>, orgId: string): seq<Note> {
    if rows == [] then []
    else (if rows[0].orgId == orgId then [rows[0]] else []) + OfOrg(rows[1..], orgId)
  }

  /** The escalations that the rows of an organisation call for now. */
  function Due(w: World, k: Worker, orgId: string): seq<Note>
    requires k in w.sweeps
  {
    Escalations(w.rows, OfOrg(w.rows, orgId), w.sweeps[k].now)
  }

  function Apply(w: World, s: Step): World
    requires Enabled(w, s)
  {
    match s
    case Change(rows) => w.(rows := rows)
    case Start(k, now) => w.(sweeps := w.sweeps[k := Sweep(now, {}, [])])
    case Read(k, orgId) =>
      var sweep := w.sweeps[k];
      w.(sweeps := w.sweeps[k := Sweep(sweep.now, sweep.orgs + {orgId}, sweep.notes + Due(w, k, orgId))])
    case Commit(k) => w.(rows := w.rows + w.sweeps[k].notes, sweeps := w.sweeps - {k})
    case Lose(k) => w.(sweeps := w.sweeps - {k})
  }

  ghost predicate Run(w: World, steps: seq<Step>)
    decreases |steps|
  {
    steps == [] || (Enabled(w, steps[0]) && Run(Apply(w, steps[0]), steps[1..]))
  }

  function Final(w: World, steps: seq<Step>): World
    requires Run(w, steps)
    decreases |steps|
  {
    if steps == [] then w else Final(Apply(w, steps[0]), steps[1..])
  }

  const BEGIN := World.World([], map[])

  /** Everything but a sweep is a change of that kind. */
  lemma OtherStepsEscalateNothing(w: NR.World, s: NR.Step)
    requires NR.Enabled(w, s) && !s.Escalate?
    ensures NoEscalations(w.rows, NR.Apply(w, s).rows)
  {
    var w' := NR.Apply(w, s);
    RowsOnlyMature(w, s);
    forall i | 0 <= i < |w.rows| ensures SameIdentity(w.rows[i], w'.rows[i]) && w.rows[i].orgId == w'.rows[i].orgId {
      assert Matures(w.rows[i], w'.rows[i], s.now);
    }
    forall i | |w.rows| <= i < |w'.rows| ensures w'.rows[i].kind != ESCALATED {
      if s.Raise? {
        TickRaisesNoEscalation(w.rows, s.tenders, s.now, i);
        assert !IsEscalation(w'.rows, i);
      }
    }
  }

  // ---------------------------------------------------------------- what a read adds

  lemma {:induction false} OfOrgExact(rows: seq<Note>, orgId: string)
    ensures forall n :: n in OfOrg(rows, orgId) <==> n in rows && n.orgId == orgId
  {
    if rows != [] {
      OfOrgExact(rows[1..], orgId);
      assert rows == [rows[0]] + rows[1..];
    }
  }

  lemma {:induction false} OnlyOrg(rows: seq<Note>, orgId: string)
    requires forall n :: n in rows ==> n.orgId == orgId
    ensures OfOrg(rows, orgId) == rows
  {
    if rows != [] { OnlyOrg(rows[1..], orgId); }
  }

  lemma ThreeSteps(w: World, a: Step, b: Step, c: Step)
    requires Enabled(w, a) && Enabled(Apply(w, a), b) && Enabled(Apply(Apply(w, a), b), c)
    ensures Run(w, [a, b, c]) && Final(w, [a, b, c]) == Apply(Apply(Apply(w, a), b), c)
  {
    assert [a, b, c][1..] == [b, c] && [b, c][1..] == [c] && [c][1..] == [];
    var w3 := Apply(Apply(Apply(w, a), b), c);
    assert Run(w3, []);
    assert Run(Apply(Apply(w, a), b), [c]) && Final(Apply(Apply(w, a), b), [c]) == w3;
    assert Run(Apply(w, a), [b, c]) && Final(Apply(w, a), [b, c]) == w3;
  }

  /** Over the rows of one organisation, a sweep that nothing interrupts is the sweep of the table. */
  lemma WholeSweepIsEscalate(w: World, k: Worker, now: int, orgId: string)
    requires k !in w.sweeps && forall n :: n in w.rows ==> n.orgId == orgId
    ensures var sweep := [Start(k, now), Read(k, orgId), Commit(k)];
            Run(w, sweep) && Final(w, sweep) == w.(rows := Escalated(w.rows, now))
  {
    OnlyOrg(w.rows, orgId);
    var w1 := Apply(w, Start(k, now));
    var w2 := Apply(w1, Read(k, orgId));
    assert w2.sweeps[k].notes == Escalations(w.rows, w.rows, now) && w2.sweeps - {k} == w.sweeps;
    ThreeSteps(w, Start(k, now), Read(k, orgId), Commit(k));
  }

  /** A sweep that is lost leaves the table as it was, and a later one makes up for it. */
  lemma LostSweepIsMadeUp(w: World, k: Worker, now: int, orgId: string)
    requires k in w.sweeps && forall n :: n in w.rows ==> n.orgId == orgId
    ensures Enabled(w, Lose(k)) && Apply(w, Lose(k)) == w.(sweeps := w.sweeps - {k})
    ensures var w', sweep := w.(sweeps := w.sweeps - {k}), [Start(k, now), Read(k, orgId), Commit(k)];
            Run(w', sweep) && Final(w', sweep) == w'.(rows := Escalated(w.rows, now))
  {
    WholeSweepIsEscalate(w.(sweeps := w.sweeps - {k}), k, now, orgId);
  }

  /** A J-3 alert of the tender, in one of the organisations. */
  predicate HasJ3(rows: seq<Note>, id: TenderId, orgs: set<string>) {
    exists n :: n in rows && n.kind == J3 && n.tenderId == id && n.orgId in orgs
  }

  /** A row of the organisation that calls for an escalation. */
  predicate Calls(rows: seq<Note>, n: Note, orgId: string, now: int) {
    n.orgId == orgId && NeedsEscalation(rows, n, now)
  }

  predicate CallsIn(rows: seq<Note>, part: seq<Note>, orgId: string, now: int, id: TenderId) {
    exists n :: n in part && n.tenderId == id && Calls(rows, n, orgId, now)
  }

  predicate CallsFor(rows: seq<Note>, orgId: string, now: int, id: TenderId) {
    CallsIn(rows, rows, orgId, now, id)
  }

  /** Two different rows of `part` call for an escalation of one tender. */
  predicate TwoCall(rows: seq<Note>, part: seq<Note>, orgId: string, now: int) {
    exists i, j :: 0 <= i < j < |part| && part[i].tenderId == part[j].tenderId
                   && Calls(rows, part[i], orgId, now) && Calls(rows, part[j], orgId, now)
  }

  lemma EscalatedIffNeeded(rows: seq<Note>, todo: seq<Note>, now: int, id: TenderId)
    ensures HasEscalation(Escalations(rows, todo, now), id) <==>
            exists n :: n in todo && n.tenderId == id && NeedsEscalation(rows, n, now)
  {
    var extra := Escalations(rows, todo, now);
    if HasEscalation(extra, id) {
      var e :| e in extra && e.kind == ESCALATED && e.tenderId == id;
      var k :| 0 <= k < |extra| && extra[k] == e;
      EscalationsComeFromRows(rows, todo, now, k);
      var i: nat :| i < |todo| && NeedsEscalation(rows, todo[i], now) && e.tenderId == todo[i].tenderId;
      assert todo[i] in todo;
    }
    if n :| n in todo && n.tenderId == id && NeedsEscalation(rows, n, now) {
      NeededIsEscalated(rows, todo, now, n);
    }
  }

  /** A read finds a tender to escalate exactly if some row of the organisation calls for it. */
  lemma DueIffCalled(w: World, k: Worker, orgId: string, id: TenderId)
    requires k in w.sweeps
    ensures HasEscalation(Due(w, k, orgId), id) <==> CallsFor(w.rows, orgId, w.sweeps[k].now, id)
    ensures HasEscalation(Due(w, k, orgId), id) ==> !HasEscalation(w.rows, id) && HasJ3(w.rows, id, {orgId})
  {
    OfOrgExact(w.rows, orgId);
    EscalatedIffNeeded(w.rows, OfOrg(w.rows, orgId), w.sweeps[k].now, id);
  }

  lemma TwoCallFirstOrRest(rows: seq<Note>, part: seq<Note>, orgId: string, now: int)
    requires part != []
    ensures TwoCall(rows, part, orgId, now) <==>
            || TwoCall(rows, part[1..], orgId, now)
            || (Calls(rows, part[0], orgId, now) && CallsIn(rows, part[1..], orgId, now, part[0].tenderId))
  {
    var rest := part[1..];
    if TwoCall(rows, part, orgId, now) {
      var i, j :| 0 <= i < j < |part| && part[i].tenderId == part[j].tenderId
                  && Calls(rows, part[i], orgId, now) && Calls(rows, part[j], orgId, now);
      assert rest[j - 1] == part[j] && rest[j - 1] in rest;
      if i > 0 { assert rest[i - 1] == part[i]; }
    }
    if TwoCall(rows, rest, orgId, now) { TwoCallInRest(rows, part, orgId, now); }
    if n :| n in rest && n.tenderId == part[0].tenderId && Calls(rows, n, orgId, now) {
      var j :| 0 <= j < |rest| && rest[j] == n;
      assert part[j + 1] == n;
    }
  }

  lemma TwoCallInRest(rows: seq<Note>, part: seq<Note>, orgId: string, now: int)
    requires part != [] && TwoCall(rows, part[1..], orgId, now)
    ensures TwoCall(rows, part, orgId, now)
  {
    var rest := part[1..];
    var i, j :| 0 <= i < j < |rest| && rest[i].tenderId == rest[j].tenderId
                && Calls(rows, rest[i], orgId, now) && Calls(rows, rest[j], orgId, now);
    assert part[i + 1] == rest[i] && part[j + 1] == rest[j];
  }

  lemma SuffixOnce(e: Note, rest: seq<Note>)
    requires e.kind == ESCALATED
    ensures EscalatedOnce([e] + rest) <==> EscalatedOnce(rest) && !HasEscalation(rest, e.tenderId)
  {
    var all := [e] + rest;
    assert all[0] == e && forall i :: 0 <= i < |rest| ==> all[i + 1] == rest[i];
    if EscalatedOnce(all) {
      forall i, j | IsEscalation(rest, i) && IsEscalation(rest, j) && i < j
        ensures rest[i].tenderId != rest[j].tenderId
      {
        assert IsEscalation(all, i + 1) && IsEscalation(all, j + 1);
      }
      forall i | 0 <= i < |rest| && rest[i].kind == ESCALATED ensures rest[i].tenderId != e.tenderId {
        assert IsEscalation(all, 0) && IsEscalation(all, i + 1);
      }
    } else {
      var i, j :| IsEscalation(all, i) && IsEscalation(all, j) && i < j && all[i].tenderId == all[j].tenderId;
      assert IsEscalation(rest, j - 1) && rest[j - 1] in rest;
      if i > 0 { assert IsEscalation(rest, i - 1); }
    }
  }

  lemma EscalationsFirstOrRest(rows: seq<Note>, part: seq<Note>, orgId: string, now: int)
    requires part != []
    ensures Escalations(rows, OfOrg(part, orgId), now) ==
            (if Calls(rows, part[0], orgId, now)
             then [Note(orgId, ESCALATED, part[0].tenderId, now, None, None)] else [])
            + Escalations(rows, OfOrg(part[1..], orgId), now)
  {
    var todo, rest := OfOrg(part, orgId), OfOrg(part[1..], orgId);
    if part[0].orgId == orgId {
      assert todo[0] == part[0] && todo[1..] == rest;
    } else {
      assert todo == rest && [] + Escalations(rows, rest, now) == Escalations(rows, rest, now);
    }
  }

  /** The escalations for some rows name a tender twice exactly if two of the rows call for it. */
  lemma {:induction false} OnceIffNoTwoCall(rows: seq<Note>, part: seq<Note>, orgId: string, now: int)
    ensures EscalatedOnce(Escalations(rows, OfOrg(part, orgId), now)) <==> !TwoCall(rows, part, orgId, now)
  {
    if part != [] {
      var rest := Escalations(rows, OfOrg(part[1..], orgId), now);
      OnceIffNoTwoCall(rows, part[1..], orgId, now);
      TwoCallFirstOrRest(rows, part, orgId, now);
      EscalationsFirstOrRest(rows, part, orgId, now);
      if Calls(rows, part[0], orgId, now) {
        SuffixOnce(Note(orgId, ESCALATED, part[0].tenderId, now, None, None), rest);
        OfOrgExact(part[1..], orgId);
        EscalatedIffNeeded(rows, OfOrg(part[1..], orgId), now, part[0].tenderId);
      } else {
        assert [] + rest == rest;
      }
    }
  }

  lemma EscalationOfBoth(a: seq<Note>, b: seq<Note>, id: TenderId)
    ensures HasEscalation(a + b, id) <==> HasEscalation(a, id) || HasEscalation(b, id)
  {
    if HasEscalation(a, id) {
      var n :| n in a && n.kind == ESCALATED && n.tenderId == id;
      assert n in a + b;
    }
    if HasEscalation(b, id) {
      var n :| n in b && n.kind == ESCALATED && n.tenderId == id;
      assert n in a + b;
    }
  }

  predicate InBoth(a: seq<Note>, b: seq<Note>, id: TenderId) {
    HasEscalation(a, id) && HasEscalation(b, id)
  }

  /** Two lists are without a second escalation together exactly if each is and no tender is in both. */
  lemma OnceTogether(a: seq<Note>, b: seq<Note>)
    ensures EscalatedOnce(a + b) <==> EscalatedOnce(a) && EscalatedOnce(b) && forall id :: !InBoth(a, b, id)
  {
    var c := a + b;
    if EscalatedOnce(a) && EscalatedOnce(b) && forall id :: !InBoth(a, b, id) {
      forall i, j | IsEscalation(c, i) && IsEscalation(c, j) && i < j ensures c[i].tenderId != c[j].tenderId {
        if j < |a| {
          assert IsEscalation(a, i) && IsEscalation(a, j);
        } else if i >= |a| {
          assert IsEscalation(b, i - |a|) && IsEscalation(b, j - |a|);
        } else {
          assert a[i] in a && b[j - |a|] in b;
          assert !InBoth(a, b, a[i].tenderId);
        }
      }
    }
    if EscalatedOnce(c) { PartsOnce(a, b); }
  }

  lemma PartsOnce(a: seq<Note>, b: seq<Note>)
    requires EscalatedOnce(a + b)
    ensures EscalatedOnce(a) && EscalatedOnce(b) && forall id :: !InBoth(a, b, id)
  {
    var c := a + b;
    forall i, j | IsEscalation(a, i) && IsEscalation(a, j) && i < j ensures a[i].tenderId != a[j].tenderId {
      assert IsEscalation(c, i) && IsEscalation(c, j);
    }
    forall i, j | IsEscalation(b, i) && IsEscalation(b, j) && i < j ensures b[i].tenderId != b[j].tenderId {
      assert IsEscalation(c, |a| + i) && IsEscalation(c, |a| + j);
    }
    forall i, j | 0 <= i < |a| && 0 <= j < |b| && a[i].kind == ESCALATED && b[j].kind == ESCALATED
      ensures a[i].tenderId != b[j].tenderId
    {
      assert IsEscalation(c, i) && IsEscalation(c, |a| + j);
    }
  }

  // ---------------------------------------------------------------- when a tender is escalated twice

  /** A sweep is about to insert an escalation of the tender. */
  predicate About(w: World, k: Worker, id: TenderId) {
    k in w.sweeps && HasEscalation(w.sweeps[k].notes, id)
  }

  /** The faults of a read: a row calls for an escalation that an uncommitted sweep - the reading one included - is
      already about to insert, or two rows call for one tender. */
  ghost predicate Clashes(w: World, s: Step)
    requires Enabled(w, s)
  {
    s.Read? &&
    var now := w.sweeps[s.worker].now;
    || (exists l, id :: About(w, l, id) && CallsFor(w.rows, s.orgId, now, id))
    || TwoCall(w.rows, w.rows, s.orgId, now)
  }

  /** In terms of what the sweeps are about to insert: another sweep and this read name one tender, or this sweep would
      name one twice. */
  lemma ClashMeans(w: World, s: Step)
    requires Enabled(w, s) && s.Read? && EscalatedOnce(w.sweeps[s.worker].notes)
    ensures Clashes(w, s) <==>
            || (exists l, id :: l != s.worker && About(w, l, id) && HasEscalation(Due(w, s.worker, s.orgId), id))
            || !EscalatedOnce(w.sweeps[s.worker].notes + Due(w, s.worker, s.orgId))
  {
    var k := s.worker;
    var notes, due := w.sweeps[k].notes, Due(w, k, s.orgId);
    OnceTogether(notes, due);
    OnceIffNoTwoCall(w.rows, w.rows, s.orgId, w.sweeps[k].now);
    forall id ensures HasEscalation(due, id) <==> CallsFor(w.rows, s.orgId, w.sweeps[k].now, id) {
      DueIffCalled(w, k, s.orgId, id);
    }
    forall id ensures InBoth(notes, due, id) <==> About(w, k, id) && HasEscalation(due, id) {}
  }

  ghost predicate CleanRun(w: World, steps: seq<Step>)
    requires Run(w, steps)
    decreases |steps|
  {
    steps == [] || (!Clashes(w, steps[0]) && CleanRun(Apply(w, steps[0]), steps[1..]))
  }

  ghost predicate Apart(w: World) {
    forall k, l, id :: About(w, k, id) && About(w, l, id) ==> k == l
  }

  ghost predicate Steady(w: World) {
    && EscalatedOnce(w.rows) && Apart(w)
    && (forall k :: k in w.sweeps ==> EscalatedOnce(w.sweeps[k].notes))
    && (forall k, id :: About(w, k, id) ==> !HasEscalation(w.rows, id))
  }

  /** What a sweep is about to escalate after a step: what it was, or what it has just read. */
  lemma AboutAfter(w: World, s: Step, k: Worker, id: TenderId)
    requires Enabled(w, s) && About(Apply(w, s), k, id)
    ensures k in w.sweeps && !((s.Commit? || s.Lose?) && s.worker == k)
    ensures About(w, k, id) || (s.Read? && s.worker == k && HasEscalation(Due(w, k, s.orgId), id))
    ensures w.sweeps[k].orgs <= Apply(w, s).sweeps[k].orgs
    ensures s.Read? && s.worker == k ==> s.orgId in Apply(w, s).sweeps[k].orgs
  {
    if s.Read? && s.worker == k { EscalationOfBoth(w.sweeps[k].notes, Due(w, k, s.orgId), id); }
  }

  lemma ChangeKeepsEscalations(rows: seq<Note>, rows': seq<Note>, id: TenderId)
    requires NoEscalations(rows, rows')
    ensures HasEscalation(rows', id) <==> HasEscalation(rows, id)
  {
    if HasEscalation(rows, id) {
      var n :| n in rows && n.kind == ESCALATED && n.tenderId == id;
      var i :| 0 <= i < |rows| && rows[i] == n;
      assert SameIdentity(rows[i], rows'[i]) && rows'[i] in rows';
    }
    if HasEscalation(rows', id) {
      var n :| n in rows' && n.kind == ESCALATED && n.tenderId == id;
      var i :| 0 <= i < |rows'| && rows'[i] == n;
      assert SameIdentity(rows[i], rows'[i]) && rows[i] in rows;
    }
  }

  /** Only the commit of a sweep escalates. */
  lemma EscalatedAfter(w: World, s: Step, id: TenderId)
    requires Enabled(w, s)
    ensures HasEscalation(Apply(w, s).rows, id) <==>
            HasEscalation(w.rows, id) || (s.Commit? && About(w, s.worker, id))
  {
    if s.Commit? {
      EscalationOfBoth(w.rows, w.sweeps[s.worker].notes, id);
    } else if s.Change? {
      ChangeKeepsEscalations(w.rows, s.rows, id);
    }
  }

  lemma RowsStayOnce(w: World, s: Step)
    requires Steady(w) && Enabled(w, s)
    ensures EscalatedOnce(Apply(w, s).rows)
  {
    var rows' := Apply(w, s).rows;
    if s.Commit? {
      forall id ensures !InBoth(w.rows, w.sweeps[s.worker].notes, id) {
        assert About(w, s.worker, id) ==> !HasEscalation(w.rows, id);
      }
      OnceTogether(w.rows, w.sweeps[s.worker].notes);
    } else if s.Change? {
      forall i | IsEscalation(rows', i) ensures IsEscalation(w.rows, i) && w.rows[i].tenderId == rows'[i].tenderId {
        assert SameIdentity(w.rows[i], rows'[i]);
      }
    }
  }

  lemma StayApart(w: World, s: Step, k: Worker, l: Worker, id: TenderId)
    requires Steady(w) && Enabled(w, s) && !Clashes(w, s)
    requires About(Apply(w, s), k, id) && About(Apply(w, s), l, id)
    ensures k == l && !HasEscalation(Apply(w, s).rows, id)
  {
    AboutAfter(w, s, k, id);
    AboutAfter(w, s, l, id);
    EscalatedAfter(w, s, id);
    if s.Read? {
      DueIffCalled(w, s.worker, s.orgId, id);
      ClashMeans(w, s);
    }
  }

  /** Without a clash no tender is escalated twice, however sweeps overlap. */
  lemma CleanStepIsSteady(w: World, s: Step)
    requires Steady(w) && Enabled(w, s) && !Clashes(w, s)
    ensures Steady(Apply(w, s))
  {
    var w' := Apply(w, s);
    RowsStayOnce(w, s);
    if s.Read? { ClashMeans(w, s); }
    forall k, l, id | About(w', k, id) && About(w', l, id) ensures k == l { StayApart(w, s, k, l, id); }
    forall k, id | About(w', k, id) ensures !HasEscalation(w'.rows, id) { StayApart(w, s, k, k, id); }
  }

  lemma {:induction false} CleanRunIsSteady(w: World, steps: seq<Step>)
    requires Steady(w) && Run(w, steps) && CleanRun(w, steps)
    ensures Steady(Final(w, steps))
    decreases |steps|
  {
    if steps != [] {
      CleanStepIsSteady(w, steps[0]);
      CleanRunIsSteady(Apply(w, steps[0]), steps[1..]);
    }
  }

  ghost predicate CanEscalateTwice(w: World) {
    exists steps :: Run(w, steps) && CleanRun(w, steps) && !EscalatedOnce(Final(w, steps).rows)
  }

  lemma OneCommit(w: World, k: Worker)
    requires k in w.sweeps
    ensures Run(w, [Commit(k)]) && CleanRun(w, [Commit(k)])
    ensures Final(w, [Commit(k)]).rows == w.rows + w.sweeps[k].notes
  {
    var w1 := Apply(w, Commit(k));
    var none: seq<Step> := [];
    assert [Commit(k)][1..] == none && Run(w1, none) && CleanRun(w1, none);
  }

  lemma TwoCommits(w: World, k: Worker, l: Worker)
    requires k != l && k in w.sweeps && l in w.sweeps
    ensures Run(w, [Commit(k), Commit(l)]) && CleanRun(w, [Commit(k), Commit(l)])
    ensures Final(w, [Commit(k), Commit(l)]).rows == w.rows + w.sweeps[k].notes + w.sweeps[l].notes
  {
    OneCommit(Apply(w, Commit(k)), l);
    assert [Commit(k), Commit(l)][1..] == [Commit(l)];
  }

  /** One commit, or those of two sweeps, are then enough. */
  lemma ClashIsEnough(w: World, s: Step)
    requires Steady(w) && Enabled(w, s) && Clashes(w, s)
    ensures CanEscalateTwice(Apply(w, s))
  {
    var k, w' := s.worker, Apply(w, s);
    var rows, notes := w'.rows, w'.sweeps[k].notes;
    ClashMeans(w, s);
    if !EscalatedOnce(notes) {
      OneCommit(w', k);
      OnceTogether(rows, notes);
    } else {
      var l, id :| l != k && About(w, l, id) && HasEscalation(Due(w, k, s.orgId), id);
      TwoCommits(w', k, l);
      EscalationOfBoth(w.sweeps[k].notes, Due(w, k, s.orgId), id);
      EscalationOfBoth(rows, notes, id);
      assert InBoth(rows + notes, w'.sweeps[l].notes, id);
      OnceTogether(rows + notes, w'.sweeps[l].notes);
    }
  }

  /** Whatever ticks, deliveries and acknowledgements leave in the table: after any run without a clash each tender has
      at most one escalation; and one step more makes a second one possible - with no further clash - exactly if it is a
      clash. */
  lemma EscalatedTwiceExact(steps: seq<Step>, s: Step)
    requires Run(BEGIN, steps) && CleanRun(BEGIN, steps) && Enabled(Final(BEGIN, steps), s)
    ensures EscalatedOnce(Final(BEGIN, steps).rows) && EscalatedOnce(Apply(Final(BEGIN, steps), s).rows)
    ensures CanEscalateTwice(Apply(Final(BEGIN, steps), s)) <==> Clashes(Final(BEGIN, steps), s)
  {
    assert Steady(BEGIN);
    CleanRunIsSteady(BEGIN, steps);
    var w := Final(BEGIN, steps);
    var w' := Apply(w, s);
    RowsStayOnce(w, s);
    if Clashes(w, s) {
      ClashIsEnough(w, s);
    } else {
      CleanStepIsSteady(w, s);
      forall more | Run(w', more) && CleanRun(w', more) ensures EscalatedOnce(Final(w', more).rows) {
        CleanRunIsSteady(w', more);
      }
    }
  }

  // ---------------------------------------------------------------- sweeps one at a time

  /** Ticks that raise no alert twice leave at most one J-3 alert of a tender. */
  lemma LadderedIsDistinct(rows: seq<Note>)
    requires Laddered(rows)
    ensures DistinctJ3(rows)
  {
    forall i, j | 0 <= i < j < |rows| && rows[i].kind == J3 && rows[j].kind == J3
      ensures rows[i].tenderId != rows[j].tenderId
    {
      assert OnLadder(AlertsFor(rows, rows[i].tenderId));
      OneJ3(rows, i, j);
    }
  }

  lemma OneOrg(rows: seq<Note>, id: TenderId, orgs: set<string>, orgId: string)
    requires DistinctJ3(rows) && HasJ3(rows, id, orgs) && HasJ3(rows, id, {orgId})
    ensures orgId in orgs
  {
    var m :| m in rows && m.kind == J3 && m.tenderId == id && m.orgId in orgs;
    var n :| n in rows && n.kind == J3 && n.tenderId == id && n.orgId in {orgId};
    var i :| 0 <= i < |rows| && rows[i] == m;
    var j :| 0 <= j < |rows| && rows[j] == n;
  }

  /** What a sweep is about to escalate has its J-3 alert in an organisation it has read. */
  ghost predicate Rooted(w: World) {
    forall k, id :: About(w, k, id) ==> HasJ3(w.rows, id, w.sweeps[k].orgs)
  }

  lemma J3Stays(w: World, s: Step, id: TenderId, orgs: set<string>, more: set<string>)
    requires Enabled(w, s) && HasJ3(w.rows, id, orgs) && orgs <= more
    ensures HasJ3(Apply(w, s).rows, id, more)
  {
    var rows, rows' := w.rows, Apply(w, s).rows;
    var n :| n in rows && n.kind == J3 && n.tenderId == id && n.orgId in orgs;
    var i :| 0 <= i < |rows| && rows[i] == n;
    assert rows'[i] in rows' && (s.Change? ==> SameIdentity(rows[i], rows'[i]));
  }

  lemma StepKeepsRooted(w: World, s: Step)
    requires Rooted(w) && Enabled(w, s)
    ensures Rooted(Apply(w, s))
  {
    var w' := Apply(w, s);
    forall k, id | About(w', k, id) ensures HasJ3(w'.rows, id, w'.sweeps[k].orgs) {
      AboutAfter(w, s, k, id);
      if About(w, k, id) {
        J3Stays(w, s, id, w.sweeps[k].orgs, w'.sweeps[k].orgs);
      } else {
        DueIffCalled(w, k, s.orgId, id);
        J3Stays(w, s, id, {s.orgId}, w'.sweeps[k].orgs);
      }
    }
  }

  /** No sweep reads an organisation that another one has read and not committed, and no tender has two J-3 alerts. */
  ghost predicate OneAtATime(w: World, steps: seq<Step>)
    requires Run(w, steps)
    decreases |steps|
  {
    steps == [] ||
    (&& (steps[0].Read? ==>
           && DistinctJ3(w.rows)
           && forall l :: l in w.sweeps && l != steps[0].worker ==> steps[0].orgId !in w.sweeps[l].orgs)
     && OneAtATime(Apply(w, steps[0]), steps[1..]))
  }

  lemma ReadIsClean(w: World, s: Step)
    requires Rooted(w) && Enabled(w, s) && s.Read? && DistinctJ3(w.rows)
    requires forall l :: l in w.sweeps && l != s.worker ==> s.orgId !in w.sweeps[l].orgs
    ensures !Clashes(w, s)
  {
    forall l, id | About(w, l, id) ensures !CallsFor(w.rows, s.orgId, w.sweeps[s.worker].now, id) {
      if CallsFor(w.rows, s.orgId, w.sweeps[s.worker].now, id) {
        DueIffCalled(w, s.worker, s.orgId, id);
        OneOrg(w.rows, id, w.sweeps[l].orgs, s.orgId);
        assert false;
      }
    }
  }

  lemma {:induction false} OneAtATimeIsClean(w: World, steps: seq<Step>)
    requires Rooted(w) && Run(w, steps) && OneAtATime(w, steps)
    ensures CleanRun(w, steps)
    decreases |steps|
  {
    if steps != [] {
      if steps[0].Read? { ReadIsClean(w, steps[0]); }
      StepKeepsRooted(w, steps[0]);
      OneAtATimeIsClean(Apply(w, steps[0]), steps[1..]);
    }
  }

  /** As long as J-3 alerts are raised once and the sweeps of one organisation follow each other, each tender is
      escalated at most once. */
  lemma OneAtATimeEscalatesOnce(steps: seq<Step>)
    requires Run(BEGIN, steps) && OneAtATime(BEGIN, steps)
    ensures EscalatedOnce(Final(BEGIN, steps).rows)
  {
    OneAtATimeIsClean(BEGIN, steps);
    assert Steady(BEGIN);
    CleanRunIsSteady(BEGIN, steps);
  }

  // ---------------------------------------------------------------- both clashes happen

  /** A J-3 alert, delivered and unread. */
  const UNREAD := Note("org", J3, "tender", 0, Some(0), None)

  const A_DAY_LATER := ESCALATION_AFTER + 1

  const ESCALATION := Note("org", ESCALATED, "tender", A_DAY_LATER, None, None)

  lemma UnreadIsDue()
    ensures Escalations([UNREAD], OfOrg([UNREAD], "org"), A_DAY_LATER) == [ESCALATION]
    ensures Escalations([UNREAD, UNREAD], OfOrg([UNREAD, UNREAD], "org"), A_DAY_LATER) == [ESCALATION, ESCALATION]
  {
    var one, two := [UNREAD], [UNREAD, UNREAD];
    assert |J3| == 11 && |ESCALATED| == 18;
    assert one[1..] == [] && two[1..] == one;
    assert OfOrg([], "org") == [] && OfOrg(one, "org") == one && OfOrg(two, "org") == two;
    assert !HasEscalation(one, "tender") && !HasEscalation(two, "tender");
    assert Escalations(one, [], A_DAY_LATER) == [] && Escalations(two, [], A_DAY_LATER) == [];
    assert Escalations(two, one, A_DAY_LATER) == [ESCALATION];
  }

  lemma {:induction false} ExtendRun(w: World, steps: seq<Step>, s: Step)
    requires Run(w, steps) && Enabled(Final(w, steps), s)
    ensures Run(w, steps + [s]) && Final(w, steps + [s]) == Apply(Final(w, steps), s)
    decreases |steps|
  {
    if steps == [] {
      assert steps + [s] == [s] && [s][1..] == [];
    } else {
      assert (steps + [s])[1..] == steps[1..] + [s];
      ExtendRun(Apply(w, steps[0]), steps[1..], s);
    }
  }

  lemma Advance(steps: seq<Step>, w: World, s: Step) returns (steps': seq<Step>, w': World)
    requires Run(BEGIN, steps) && w == Final(BEGIN, steps) && Enabled(w, s)
    ensures Run(BEGIN, steps') && w' == Final(BEGIN, steps') && steps' == steps + [s] && w' == Apply(w, s)
  {
    ExtendRun(BEGIN, steps, s);
    steps', w' := steps + [s], Apply(w, s);
  }

  /** Two sweeps read the J-3 alert before either has inserted its escalation. */
  const TWO_SWEEPS: seq<Step> := [
    Change([UNREAD]), Start("a", A_DAY_LATER), Start("b", A_DAY_LATER), Read("a", "org"), Read("b", "org"), Commit("a"),
    Commit("b")]

  lemma BothRead() returns (w: World)
    ensures Run(BEGIN, TWO_SWEEPS[..5]) && w == Final(BEGIN, TWO_SWEEPS[..5]) && w.rows == [UNREAD]
    ensures "a" in w.sweeps && "b" in w.sweeps
    ensures w.sweeps["a"].notes == [ESCALATION] && w.sweeps["b"].notes == [ESCALATION]
  {
    var steps: seq<Step> := [];
    w := BEGIN;
    UnreadIsDue();
    steps, w := Advance(steps, w, Change([UNREAD]));
    steps, w := Advance(steps, w, Start("a", A_DAY_LATER));
    steps, w := Advance(steps, w, Start("b", A_DAY_LATER));
    steps, w := Advance(steps, w, Read("a", "org"));
    steps, w := Advance(steps, w, Read("b", "org"));
    assert steps == TWO_SWEEPS[..5];
  }

  lemma OverlappingSweepsEscalateTwice()
    ensures Run(BEGIN, TWO_SWEEPS) && Final(BEGIN, TWO_SWEEPS).rows == [UNREAD, ESCALATION, ESCALATION]
  {
    var w := BothRead();
    var steps := TWO_SWEEPS[..5];
    steps, w := Advance(steps, w, Commit("a"));
    steps, w := Advance(steps, w, Commit("b"));
    assert steps == TWO_SWEEPS;
  }

  /** The J-3 alert is on record twice, as two overlapping ticks can leave it, and one sweep comes by. */
  const ONE_SWEEP: seq<Step> := [
    Change([UNREAD, UNREAD]), Start("a", A_DAY_LATER), Read("a", "org"), Commit("a")]

  lemma OneSweepEscalatesTwice()
    ensures Run(BEGIN, ONE_SWEEP)
    ensures Final(BEGIN, ONE_SWEEP).rows == [UNREAD, UNREAD, ESCALATION, ESCALATION]
  {
    var steps: seq<Step> := [];
    var w := BEGIN;
    UnreadIsDue();
    steps, w := Advance(steps, w, Change([UNREAD, UNREAD]));
    steps, w := Advance(steps, w, Start("a", A_DAY_LATER));
    steps, w := Advance(steps, w, Read("a", "org"));
    assert w.sweeps["a"].notes == [ESCALATION, ESCALATION];
    steps, w := Advance(steps, w, Commit("a"));
    assert steps == ONE_SWEEP;
  }
}
