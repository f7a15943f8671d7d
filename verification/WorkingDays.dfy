/** Working-day arithmetic (alerts.py).  Instants are seconds; day 0 is a Monday. */
module WorkingDays {

  const DAY := 86400

  function DayOf(moment: int): int {
    moment / DAY
  }

  predicate IsWorkingDay(day: int) {
    day % 7 < 5
  }

  /** How many days off lie immediately before `day`. */
  function DaysOffBefore(day: int): nat {
    if day % 7 == 0 then 2 else if day % 7 == 6 then 1 else 0
  }

  function WorkingDaysBefore(moment: int, remaining: int): int
    decreases remaining, DaysOffBefore(DayOf(moment))
  {
    if remaining <= 0 then moment
    else
      var back := moment - DAY;
      assert DayOf(back) == DayOf(moment) - 1;
      WorkingDaysBefore(back, if IsWorkingDay(DayOf(back)) then remaining - 1 else remaining)
  }

  lemma OneDayBack(moment: int)
    ensures DayOf(moment - DAY) == DayOf(moment) - 1
    ensures !IsWorkingDay(DayOf(moment - DAY)) ==> DaysOffBefore(DayOf(moment - DAY)) < DaysOffBefore(DayOf(moment))
  {
  }

  method ComputeWorkingDaysBefore(deadline: int, workingDays: int) returns (moment: int)
    ensures moment == WorkingDaysBefore(deadline, workingDays)
  {
    var remaining := workingDays;
    moment := deadline;
    while remaining > 0
      invariant WorkingDaysBefore(moment, remaining) == WorkingDaysBefore(deadline, workingDays)
      decreases remaining, DaysOffBefore(DayOf(moment))
    {
      OneDayBack(moment);
      moment := moment - DAY;
      if IsWorkingDay(DayOf(moment)) {
        remaining := remaining - 1;
      }
    }
  }

  // ---------------------------------------------------------------- counting

  /** The number of working days in `[start, end)`. */
  function WorkingDaysIn(start: int, end: int): nat
    decreases end - start
  {
    if start >= end then 0 else WorkingDaysIn(start + 1, end) + if IsWorkingDay(start) then 1 else 0
  }

  lemma {:induction false} CountSplits(a: int, b: int, c: int)
    requires a <= b <= c
    ensures WorkingDaysIn(a, c) == WorkingDaysIn(a, b) + WorkingDaysIn(b, c)
    decreases b - a
  {
    if a < b { CountSplits(a + 1, b, c); }
  }

  /** The landing point of a countdown: a whole number of days back, on a working day, with exactly
      `workingDays` working days from it up to the deadline. */
  predicate LandsOn(deadline: int, workingDays: int, landing: int) {
    && landing < deadline && (deadline - landing) % DAY == 0
    && IsWorkingDay(DayOf(landing))
    && WorkingDaysIn(DayOf(landing), DayOf(deadline)) == workingDays
  }

  lemma {:induction false} CountdownLands(moment: int, remaining: int)
    requires remaining >= 1
    ensures LandsOn(moment, remaining, WorkingDaysBefore(moment, remaining))
    decreases remaining, DaysOffBefore(DayOf(moment))
  {
    var back, landing := moment - DAY, WorkingDaysBefore(moment, remaining);
    assert DayOf(back) == DayOf(moment) - 1;
    var rest := if IsWorkingDay(DayOf(back)) then remaining - 1 else remaining;
    assert WorkingDaysIn(DayOf(back), DayOf(moment)) == remaining - rest;
    if rest >= 1 {
      CountdownLands(back, rest);
      CountSplits(DayOf(landing), DayOf(back), DayOf(moment));
    }
  }

  /** In seconds: whole days of 86400 back, and to one of the first five days of a week that begins on a Monday. */
  lemma LandsOnAWeekday(deadline: int, workingDays: int, landing: int)
    requires LandsOn(deadline, workingDays, landing)
    ensures landing < deadline && landing % 86400 == deadline % 86400
    ensures landing / 86400 % 7 in {0, 1, 2, 3, 4}
  {
  }

  /** There is only one such landing point. */
  lemma LandingIsUnique(deadline: int, n: int, x: int, m: int, y: int)
    requires LandsOn(deadline, n, x) && LandsOn(deadline, m, y)
    ensures n == m ==> x == y
    ensures n < m <==> y < x
  {
    if y < x { EarlierCountsMore(deadline, n, x, m, y); }
    if x < y { EarlierCountsMore(deadline, m, y, n, x); }
  }

  lemma EarlierCountsMore(deadline: int, n: int, x: int, m: int, y: int)
    requires LandsOn(deadline, n, x) && LandsOn(deadline, m, y) && y < x
    ensures n < m
  {
    assert (x - y) % DAY == 0 && DayOf(y) < DayOf(x);
    CountSplits(DayOf(y), DayOf(x), DayOf(deadline));
    CountSplits(DayOf(y), DayOf(y) + 1, DayOf(x));
  }

  /** Alerts with more days' notice fire strictly earlier. */
  lemma MoreNoticeIsEarlier(deadline: int, n: int, m: int)
    requires 0 <= n < m
    ensures WorkingDaysBefore(deadline, m) < WorkingDaysBefore(deadline, n) <= deadline
  {
    CountdownLands(deadline, m);
    if n > 0 {
      CountdownLands(deadline, n);
      LandingIsUnique(deadline, n, WorkingDaysBefore(deadline, n), m, WorkingDaysBefore(deadline, m));
    }
  }

  /** Within one week, from the k-th day on. */
  lemma {:induction false} CountInWeek(start: int, end: int)
    requires start <= end && start % 7 + (end - start) <= 7
    ensures WorkingDaysIn(start, end) == UpToFive(start % 7 + (end - start)) - UpToFive(start % 7)
    decreases end - start
  {
    if start < end {
      if start % 7 < 6 { assert (start + 1) % 7 == start % 7 + 1; CountInWeek(start + 1, end); }
    }
  }

  function UpToFive(k: int): int {
    if k < 5 then k else 5
  }

  lemma AWeekHasFive(day: int)
    ensures WorkingDaysIn(day - 7, day) == 5
  {
    var k := day % 7;
    var monday := day - k;
    assert (day - 7) % 7 == k && monday % 7 == 0;
    CountInWeek(day - 7, monday);
    CountInWeek(monday, day);
    CountSplits(day - 7, monday, day);
  }

  /** Five more working days are exactly one week earlier. */
  lemma FiveMoreIsAWeek(deadline: int, n: int)
    requires n >= 1
    ensures WorkingDaysBefore(deadline, n + 5) == WorkingDaysBefore(deadline, n) - 7 * DAY
  {
    var x := WorkingDaysBefore(deadline, n);
    var y := x - 7 * DAY;
    CountdownLands(deadline, n);
    CountdownLands(deadline, n + 5);
    assert DayOf(y) == DayOf(x) - 7;
    AWeekHasFive(DayOf(x));
    CountSplits(DayOf(y), DayOf(x), DayOf(deadline));
    assert LandsOn(deadline, n + 5, y);
    LandingIsUnique(deadline, n + 5, y, n + 5, WorkingDaysBefore(deadline, n + 5));
  }

  /** Where a countdown lands, as a day and a time of day. */
  lemma LandingKeepsTime(deadline: int, n: int)
    requires n >= 1
    ensures var x := WorkingDaysBefore(deadline, n);
            && x == DayOf(x) * DAY + deadline % DAY && DayOf(x) < DayOf(deadline) && IsWorkingDay(DayOf(x))
            && WorkingDaysIn(DayOf(x), DayOf(deadline)) == n
  {
    CountdownLands(deadline, n);
    var x := WorkingDaysBefore(deadline, n);
    assert x == DayOf(x) * DAY + x % DAY && deadline == DayOf(deadline) * DAY + deadline % DAY;
    assert x % DAY == deadline % DAY;
  }

  /** A later deadline never lands on an earlier day, and on the same day exactly if no working day was gained. */
  lemma {:induction false} LaterDeadlineLaterDay(first: int, second: int, n: int)
    requires n >= 1 && first <= second
    ensures var x, y := DayOf(WorkingDaysBefore(first, n)), DayOf(WorkingDaysBefore(second, n));
            x <= y && (x == y <==> WorkingDaysIn(DayOf(first), DayOf(second)) == 0)
  {
    var x, y := DayOf(WorkingDaysBefore(first, n)), DayOf(WorkingDaysBefore(second, n));
    LandingKeepsTime(first, n);
    LandingKeepsTime(second, n);
    CountSplits(x, DayOf(first), DayOf(second));
    if y < x {
      CountSplits(y, x, DayOf(second));
      CountSplits(y, y + 1, x);
    } else if x < y {
      CountSplits(x, y, DayOf(second));
      CountSplits(x, x + 1, y);
    }
  }

  /** A later deadline moves an alert earlier exactly if it gains no working day and falls earlier in the day. */
  lemma LaterDeadlineEarlierAlert(first: int, second: int, n: int)
    requires n >= 1 && first <= second
    ensures WorkingDaysBefore(second, n) < WorkingDaysBefore(first, n) <==>
            WorkingDaysIn(DayOf(first), DayOf(second)) == 0 && second % DAY < first % DAY
  {
    LandingKeepsTime(first, n);
    LandingKeepsTime(second, n);
    LaterDeadlineLaterDay(first, second, n);
  }

  /** So a deadline moved later by whole days never moves an alert earlier. */
  lemma LaterDeadlineLaterAlert(deadline: int, days: nat, n: int)
    requires n >= 1
    ensures WorkingDaysBefore(deadline, n) <= WorkingDaysBefore(deadline + days * DAY, n)
  {
    assert (deadline + days * DAY) % DAY == deadline % DAY;
    LaterDeadlineEarlierAlert(deadline, deadline + days * DAY, n);
  }

  /** From Saturday 23:00 to Sunday 01:00 it does, by 22 hours. */
  lemma LaterByHoursCanBeEarlier(n: int)
    requires n >= 1
    ensures var saturday, sunday := 5 * DAY + 23 * 3600, 6 * DAY + 3600;
            saturday < sunday && WorkingDaysBefore(sunday, n) == WorkingDaysBefore(saturday, n) - 22 * 3600
  {
    var saturday, sunday := 5 * DAY + 23 * 3600, 6 * DAY + 3600;
    assert DayOf(saturday) == 5 && DayOf(sunday) == 6 && WorkingDaysIn(6, 6) == 0 && WorkingDaysIn(5, 6) == 0;
    LandingKeepsTime(saturday, n);
    LandingKeepsTime(sunday, n);
    LaterDeadlineLaterDay(saturday, sunday, n);
  }
}
