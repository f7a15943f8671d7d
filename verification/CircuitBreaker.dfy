/** The circuit breaker of one model (ai/gateway.py). */
module CircuitBreaker {
  import opened Common

  const FAILURE_THRESHOLD: nat := 5

  const RESET_SECONDS: real := 60.0

  datatype State = State(failures: nat, openedAt: Option<real>)

  const CLOSED := State(0, None)

  function AfterFailure(b: State, now: real): State {
    State(b.failures + 1, if b.failures + 1 >= FAILURE_THRESHOLD then Some(now) else b.openedAt)
  }

  /** `is_open`: whether the breaker refuses the call, and the breaker afterwards. */
  function Checked(b: State, now: real): (State, bool) {
    if b.openedAt.None? then (b, false)
    else if now - b.openedAt.value >= RESET_SECONDS then (CLOSED, false)
    else (b, true)
  }

  class Circuit {
    var failures: nat
    var openedAt: Option<real>

    constructor ()
      ensures Value() == CLOSED
    {
      failures, openedAt := 0, None;
    }

    function Value(): State
      reads this
    {
      State(failures, openedAt)
    }

    method RecordFailure(now: real)
      modifies this
      ensures Value() == AfterFailure(old(Value()), now)
    {
      failures := failures + 1;
      if failures >= FAILURE_THRESHOLD {
        openedAt := Some(now);
      }
    }

    method RecordSuccess()
      modifies this
      ensures Value() == CLOSED
    {
      failures, openedAt := 0, None;
    }

    method IsOpen(now: real) returns (open: bool)
      modifies this
      ensures (Value(), open) == Checked(old(Value()), now)
    {
      if openedAt.None? { return false; }
      if now - openedAt.value >= RESET_SECONDS {
        openedAt, failures := None, 0;
        return false;
      }
      return true;
    }
  }

  // ---------------------------------------------------------------- how failures are spaced

  predicate Ordered(streak: seq<real>, clock: real) {
    && (forall i :: 0 <= i < |streak| ==> streak[i] <= clock)
    && (forall i, j :: 0 <= i < j < |streak| ==> streak[i] <= streak[j])
  }

  /** `k` full budgets of five fit before position `i`. */
  predicate BudgetStarts(streak: seq<real>, i: int) {
    0 < i < |streak| && i % FAILURE_THRESHOLD == 0
  }

  ghost predicate Rested(streak: seq<real>) {
    forall i :: BudgetStarts(streak, i) ==> streak[i] - streak[i - 1] >= RESET_SECONDS
  }

  /** What a breaker knows about the failures since the last success: it is open exactly at a full budget,
      and after a reset it has rested for a minute. */
  ghost predicate Tracks(b: State, streak: seq<real>, clock: real) {
    && b.failures <= FAILURE_THRESHOLD && (b.openedAt.Some? <==> b.failures == FAILURE_THRESHOLD)
    && |streak| >= b.failures && (|streak| - b.failures) % FAILURE_THRESHOLD == 0
    && Ordered(streak, clock) && Rested(streak)
    && (b.openedAt.Some? ==> b.openedAt.value == streak[|streak| - 1])
    && (b.failures == 0 && streak != [] ==> clock - streak[|streak| - 1] >= RESET_SECONDS)
  }

  lemma CheckTracks(b: State, streak: seq<real>, clock: real, now: real)
    requires Tracks(b, streak, clock) && clock <= now
    ensures Tracks(Checked(b, now).0, streak, now)
    ensures Checked(b, now).1 <==> Checked(b, now).0.failures == FAILURE_THRESHOLD
  {
  }

  lemma FailureTracks(b: State, streak: seq<real>, clock: real, now: real)
    requires Tracks(b, streak, clock) && b.failures < FAILURE_THRESHOLD && clock <= now
    ensures Tracks(AfterFailure(b, now), streak + [now], now)
  {
  }

  /** Any six failures in a row take at least a minute. */
  lemma SixTakeAMinute(b: State, streak: seq<real>, clock: real, i: nat)
    requires Tracks(b, streak, clock) && i + 5 < |streak|
    ensures streak[i + 5] - streak[i] >= RESET_SECONDS
  {
    var k := i + 5 - (i + 5) % FAILURE_THRESHOLD;
    assert i < k <= i + 5 && k % FAILURE_THRESHOLD == 0;
    assert BudgetStarts(streak, k);
    assert streak[i] <= streak[k - 1] && streak[k] <= streak[i + 5] by {
      assert i == k - 1 || streak[i] <= streak[k - 1];
    }
  }

  // ---------------------------------------------------------------- what a reset grants

  /** The breaker after failures at `times`. */
  function Recorded(b: State, times: seq<real>): State {
    if times == [] then b else AfterFailure(Recorded(b, times[..|times| - 1]), times[|times| - 1])
  }

  /** Each of the calls that failed was let through, and none of them met another reset. */
  predicate LetThrough(b: State, times: seq<real>) {
    forall k :: 0 <= k < |times| ==> Checked(Recorded(b, times[..k]), times[k]) == (Recorded(b, times[..k]), false)
  }

  lemma {:induction false} RecordedSinceReset(times: seq<real>)
    ensures var b := Recorded(CLOSED, times);
            && b.failures == |times|
            && b.openedAt == if |times| >= FAILURE_THRESHOLD then Some(times[|times| - 1]) else None
  {
    if times != [] { RecordedSinceReset(times[..|times| - 1]); }
  }

  lemma SixthIsNotLetThrough(times: seq<real>)
    requires |times| > FAILURE_THRESHOLD
    ensures !LetThrough(CLOSED, times)
  {
    var five := Recorded(CLOSED, times[..FAILURE_THRESHOLD]);
    RecordedSinceReset(times[..FAILURE_THRESHOLD]);
    assert Checked(five, times[FAILURE_THRESHOLD]) != (five, false);
  }

  /** Half-open is not one trial call.  After a reset the breaker lets calls through until five of them have failed,
      whenever they do, and refuses exactly for the minute after the fifth. */
  lemma ResetGrantsAFreshBudget(b: State, reset: real, times: seq<real>, now: real)
    requires b.openedAt.Some? && reset - b.openedAt.value >= RESET_SECONDS
    requires LetThrough(Checked(b, reset).0, times) && (times != [] ==> now >= times[|times| - 1])
    requires forall i, j :: 0 <= i < j < |times| ==> times[i] <= times[j]
    ensures |times| <= FAILURE_THRESHOLD
    ensures Checked(Recorded(Checked(b, reset).0, times), now).1 <==>
            |times| == FAILURE_THRESHOLD && now - times[|times| - 1] < RESET_SECONDS
  {
    RecordedSinceReset(times);
    if |times| > FAILURE_THRESHOLD { SixthIsNotLetThrough(times); }
  }

  /** Any number of failures up to five is let through in that way, at once or spread out. */
  lemma FiveAreLetThrough(times: seq<real>)
    requires |times| <= FAILURE_THRESHOLD
    ensures LetThrough(CLOSED, times)
  {
    forall k | 0 <= k < |times|
      ensures Checked(Recorded(CLOSED, times[..k]), times[k]) == (Recorded(CLOSED, times[..k]), false)
    {
      RecordedSinceReset(times[..k]);
    }
  }
}
