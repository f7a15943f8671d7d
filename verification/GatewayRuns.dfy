/** What one gateway call may do, and what any sequence of calls adds up to (ai/gateway.py). */
module GatewayRuns {
  import opened Common
  import opened CircuitBreaker
  import opened LruStore
  import opened Gateway

  // ---------------------------------------------------------------- one call

  predicate Answers(env: Env, prompt: Prompt, c: Call, data: string) {
    var answer := env.provider(c.request, c.attempt);
    answer.Text? && env.validate(prompt.schema, answer.text) == Valid(data)
  }

  predicate Violates(env: Env, prompt: Prompt, c: Call, violation: string) {
    var answer := env.provider(c.request, c.attempt);
    answer.Text? && env.validate(prompt.schema, answer.text) == Invalid(violation)
  }

  /** `next` asks again, with the original message and what was wrong with the answer to `c`. */
  predicate HandsBack(env: Env, prompt: Prompt, user: string, c: Call, next: Call) {
    var answer := env.provider(c.request, c.attempt);
    && answer.Text? && env.validate(prompt.schema, answer.text).Invalid?
    && next.request == c.request.(message := Corrected(user, env.validate(prompt.schema, answer.text).violation))
  }

  /** The outcome is what the last of `calls` says; a violation is final only when the budget is spent. */
  predicate Decides(env: Env, prompt: Prompt, last: Call, spent: bool, outcome: Outcome) {
    match outcome
    case Answered(data, model, attempts, cached) =>
      Answers(env, prompt, last, data) && model == last.request.model && attempts == last.attempt && !cached
    case TransportFailed(model, error) =>
      env.provider(last.request, last.attempt) == Raised(error) && model == last.request.model
    case SchemaInvalid(violation) => Violates(env, prompt, last, violation) && spent
    case SchemaNotChecked(message) =>
      var answer := env.provider(last.request, last.attempt);
      answer.Text? && env.validate(prompt.schema, answer.text) == NotChecked(message)
    case CircuitOpen(_) => false
    case NotConfigured(_) => false
  }

  predicate WellMade(env: Env, prompt: Prompt, model: Model, user: string, message: string, first: nat,
                     calls: seq<Call>, outcome: Outcome)
  {
    && 1 <= |calls| && first + |calls| <= MAX_SCHEMA_RETRIES + 2
    && calls[0].request == Request(model, prompt.system, message)
    && (forall k :: 0 <= k < |calls| ==> calls[k].attempt == first + k && calls[k].request.model == model)
    && (forall k :: 1 <= k < |calls| ==> HandsBack(env, prompt, user, calls[k - 1], calls[k]))
    && Decides(env, prompt, calls[|calls| - 1], first + |calls| == MAX_SCHEMA_RETRIES + 2, outcome)
  }

  lemma {:induction false} AttemptsAreWellMade(prompt: Prompt, model: Model, user: string, message: string,
                                               attempt: nat, breakers: Breakers, env: Env, tick: nat)
    requires 1 <= attempt <= MAX_SCHEMA_RETRIES + 1
    ensures var r := Attempts(prompt, model, user, message, attempt, breakers, env, tick);
            WellMade(env, prompt, model, user, message, attempt, r.calls, r.outcome)
    decreases MAX_SCHEMA_RETRIES + 1 - attempt
  {
    var request := Request(model, prompt.system, message);
    var tried := TryOnce(prompt, request, attempt, BreakerOf(breakers, model), env, tick);
    if tried.verdict.Err? && attempt <= MAX_SCHEMA_RETRIES {
      var violation := tried.verdict.error;
      var after := breakers[model := tried.breaker];
      AttemptsAreWellMade(prompt, model, user, Corrected(user, violation), attempt + 1, after, env, tried.ticks);
      var rest := Attempts(prompt, model, user, Corrected(user, violation), attempt + 1, after, env, tried.ticks);
      var calls := [tried.call] + rest.calls;
      assert HandsBack(env, prompt, user, tried.call, rest.calls[0]);
      forall k | 1 <= k < |calls| ensures HandsBack(env, prompt, user, calls[k - 1], calls[k]) {
        assert k == 1 || HandsBack(env, prompt, user, rest.calls[k - 2], rest.calls[k - 1]);
      }
    }
  }

  /** The model a tier stands for in a call that asked for `tier` and got `model`. */
  function ModelAt(tier: Tier, model: Model, env: Env, t: Tier): Option<Model> {
    if t == tier then Some(model) else env.resolve(t)
  }

  /** The breaker of tier `t` is open when the call gets to it. */
  predicate Refused(tier: Tier, model: Model, breakers: Breakers, env: Env, tick: nat, t: Tier)
    requires Rank(t) <= Rank(tier)
  {
    && ModelAt(tier, model, env, t).Some?
    && Checked(BreakerOf(breakers, ModelAt(tier, model, env, t).value), env.clock(tick + Rank(tier) - Rank(t))).1
  }

  /** Tier `t` is where the call ends up: every tier from the requested one down to it is refused. */
  predicate Reaches(tier: Tier, model: Model, breakers: Breakers, env: Env, tick: nat, t: Tier) {
    && Rank(t) <= Rank(tier)
    && forall u :: Rank(t) < Rank(u) <= Rank(tier) ==> Refused(tier, model, breakers, env, tick, u)
  }

  /** What a call does that ends at tier `t`, standing for `m` and refused or not. */
  predicate EndsAt(env: Env, prompt: Prompt, user: string, t: Tier, m: Option<Model>, refused: bool, r: Reply) {
    match m
    case None => r.calls == [] && r.outcome == NotConfigured(t)
    case Some(found) =>
      if refused then r.calls == [] && t == S && r.outcome == CircuitOpen(found)
      else WellMade(env, prompt, found, user, user, 1, r.calls, r.outcome)
  }

  /** One tier down, with one reading of the clock spent, the same tiers are refused. */
  lemma OneTierDown(tier: Tier, model: Model, breakers: Breakers, env: Env, tick: nat, t: Tier)
    requires tier != S && Checked(BreakerOf(breakers, model), env.clock(tick)).1
    requires env.resolve(Fallback(tier).value).Some? && Rank(t) < Rank(tier)
    ensures var lower := Fallback(tier).value;
            var cheaper := env.resolve(lower).value;
            var after := breakers[model := Checked(BreakerOf(breakers, model), env.clock(tick)).0];
            && ModelAt(tier, model, env, t) == ModelAt(lower, cheaper, env, t)
            && Refused(tier, model, breakers, env, tick, t) == Refused(lower, cheaper, after, env, tick + 1, t)
  {
  }

  /** Only the tier of the prompt changes on the way down. */
  lemma SamePromptSameEnd(env: Env, p: Prompt, q: Prompt, user: string, t: Tier, m: Option<Model>, refused: bool,
                          r: Reply)
    requires q == p.(tier := q.tier) && EndsAt(env, q, user, t, m, refused, r)
    ensures EndsAt(env, p, user, t, m, refused, r)
  {
  }

  lemma ReachesThroughLower(tier: Tier, model: Model, breakers: Breakers, env: Env, tick: nat, t: Tier)
    requires tier != S && Checked(BreakerOf(breakers, model), env.clock(tick)).1
    requires env.resolve(Fallback(tier).value).Some?
    requires var after := breakers[model := Checked(BreakerOf(breakers, model), env.clock(tick)).0];
             Reaches(Fallback(tier).value, env.resolve(Fallback(tier).value).value, after, env, tick + 1, t)
    ensures Reaches(tier, model, breakers, env, tick, t)
  {
  }

  lemma ReachesLower(tier: Tier, model: Model, breakers: Breakers, env: Env, tick: nat)
    requires tier != S && Checked(BreakerOf(breakers, model), env.clock(tick)).1
    ensures Reaches(tier, model, breakers, env, tick, Fallback(tier).value)
  {
  }

  /** A call goes to the highest tier, from the requested one down, that its breaker admits - never up - and
      spends at most three transport calls, all on that tier's model. */
  lemma {:induction false} HighestAdmittedTier(prompt: Prompt, user: string, model: Model, breakers: Breakers, env: Env,
                                               tick: nat) returns (t: Tier)
    ensures Reaches(prompt.tier, model, breakers, env, tick, t)
    ensures EndsAt(env, prompt, user, t, ModelAt(prompt.tier, model, env, t),
                   Refused(prompt.tier, model, breakers, env, tick, t),
                   Uncached(prompt, user, model, breakers, env, tick))
    decreases Rank(prompt.tier)
  {
    var tier := prompt.tier;
    t := tier;
    var checked := Checked(BreakerOf(breakers, model), env.clock(tick));
    var after := breakers[model := checked.0];
    if !checked.1 {
      AttemptsAreWellMade(prompt, model, user, user, 1, after, env, tick + 1);
      return;
    }
    if tier == S { return; }
    var lower := Fallback(tier).value;
    if env.resolve(lower).None? {
      ReachesLower(tier, model, breakers, env, tick);
      return lower;
    }
    var cheaper, p := env.resolve(lower).value, prompt.(tier := lower);
    t := HighestAdmittedTier(p, user, cheaper, after, env, tick + 1);
    ReachesThroughLower(tier, model, breakers, env, tick, t);
    OneTierDown(tier, model, breakers, env, tick, t);
    SamePromptSameEnd(env, prompt, p, user, t, ModelAt(lower, cheaper, env, t),
                      Refused(lower, cheaper, after, env, tick + 1, t),
                      Uncached(p, user, cheaper, after, env, tick + 1));
  }

  // ---------------------------------------------------------------- any sequence of calls

  datatype World = World(breakers: Breakers, entries: seq<Entry>, log: seq<Call>, clock: real)

  datatype Step = Step(prompt: Prompt, user: string, allowCache: bool, env: Env)

  /** What does not change while a process lives: the capacity and the lifetime of cache entries. */
  datatype Settings = Settings(capacity: nat, ttl: real)

  /** `time.monotonic`. */
  ghost predicate Monotone(env: Env) {
    forall i: nat, j: nat :: i <= j ==> env.clock(i) <= env.clock(j)
  }

  ghost predicate Enabled(w: World, s: Step) {
    Monotone(s.env) && w.clock <= s.env.clock(0)
  }

  function ReplyTo(w: World, c: Settings, s: Step): (Reply, seq<Entry>) {
    Completed(s.prompt, s.user, s.allowCache, w.breakers, w.entries, c.capacity, c.ttl, s.env)
  }

  function Apply(w: World, c: Settings, s: Step): World {
    var (reply, entries) := ReplyTo(w, c, s);
    World(reply.breakers, entries, w.log + reply.calls, s.env.clock(reply.ticks))
  }

  ghost predicate Run(w: World, c: Settings, steps: seq<Step>)
    decreases |steps|
  {
    steps == [] || (Enabled(w, steps[0]) && Run(Apply(w, c, steps[0]), c, steps[1..]))
  }

  function Final(w: World, c: Settings, steps: seq<Step>): World
    decreases |steps|
  {
    if steps == [] then w else Final(Apply(w, c, steps[0]), c, steps[1..])
  }

  /** When the failures of a model since its last success happened. */
  function Streak(log: seq<Call>, m: Model): seq<real> {
    if log == [] then []
    else
      var last, earlier := log[|log| - 1], log[..|log| - 1];
      if last.request.model != m then Streak(earlier, m)
      else match last.failedAt
        case None => []
        case Some(at) => Streak(earlier, m) + [at]
  }

  /** Any six consecutive failures of a model in `streak` take a minute. */
  predicate SpacedAt(streak: seq<real>, i: nat) {
    i + 5 < |streak| ==> streak[i + 5] - streak[i] >= RESET_SECONDS
  }

  ghost predicate Spaced(streak: seq<real>) {
    forall i: nat :: SpacedAt(streak, i)
  }

  /** ... at every moment of the log, not only at its end. */
  ghost predicate AllSpaced(log: seq<Call>) {
    forall m, n: nat :: n <= |log| ==> Spaced(Streak(log[..n], m))
  }

  ghost predicate AllTracked(breakers: Breakers, log: seq<Call>, clock: real) {
    forall m :: Tracks(BreakerOf(breakers, m), Streak(log, m), clock)
  }

  lemma StreakGrows(log: seq<Call>, c: Call, m: Model)
    ensures Streak(log + [c], m) == if c.request.model != m then Streak(log, m)
                                    else match c.failedAt case None => [] case Some(at) => Streak(log, m) + [at]
  {
  }

  lemma TrackedIsSpaced(breakers: Breakers, log: seq<Call>, clock: real)
    requires AllTracked(breakers, log, clock)
    ensures forall m :: Spaced(Streak(log, m))
  {
    forall m ensures Spaced(Streak(log, m)) {
      forall i: nat ensures SpacedAt(Streak(log, m), i) {
        if i + 5 < |Streak(log, m)| { SixTakeAMinute(BreakerOf(breakers, m), Streak(log, m), clock, i); }
      }
    }
  }

  lemma AllSpacedGrows(log: seq<Call>, c: Call)
    requires AllSpaced(log) && forall m :: Spaced(Streak(log + [c], m))
    ensures AllSpaced(log + [c])
  {
    forall m, n: nat | n <= |log + [c]| ensures Spaced(Streak((log + [c])[..n], m)) {
      if n <= |log| {
        assert (log + [c])[..n] == log[..n];
      } else {
        assert (log + [c])[..n] == log + [c];
      }
    }
  }

  lemma CheckKeepsTracked(breakers: Breakers, log: seq<Call>, clock: real, model: Model, now: real)
    requires AllTracked(breakers, log, clock) && clock <= now
    ensures AllTracked(breakers[model := Checked(BreakerOf(breakers, model), now).0], log, now)
  {
  }

  /** How a finished transport call changes the breaker of its model. */
  predicate Records(c: Call, before: State, after: State, now: real) {
    match c.failedAt
    case None => after == CLOSED
    case Some(at) => at <= now && after == AfterFailure(before, at)
  }

  lemma RecordTracks(c: Call, before: State, after: State, streak: seq<real>, clock: real, now: real)
    requires Tracks(before, streak, clock) && clock <= now && Records(c, before, after, now)
    requires c.failedAt.Some? ==> clock <= c.failedAt.value && before.failures < FAILURE_THRESHOLD
    ensures Tracks(after, match c.failedAt case None => [] case Some(at) => streak + [at], now)
  {
    if c.failedAt.Some? { FailureTracks(before, streak, clock, c.failedAt.value); }
  }

  lemma LaterTracks(b: State, streak: seq<real>, clock: real, later: real)
    requires Tracks(b, streak, clock) && clock <= later
    ensures Tracks(b, streak, later)
  {
  }

  /** A call that may be recorded: its failure, if any, is no earlier than `clock` and met a closed breaker. */
  predicate Admitted(c: Call, before: State, clock: real) {
    c.failedAt.Some? ==> clock <= c.failedAt.value && before.failures < FAILURE_THRESHOLD
  }

  lemma CallTracks(breakers: Breakers, log: seq<Call>, clock: real, c: Call, after: State, now: real, m: Model)
    requires Tracks(BreakerOf(breakers, m), Streak(log, m), clock) && clock <= now
    requires Records(c, BreakerOf(breakers, c.request.model), after, now)
    requires Admitted(c, BreakerOf(breakers, c.request.model), clock)
    ensures Tracks(BreakerOf(breakers[c.request.model := after], m), Streak(log + [c], m), now)
  {
    StreakGrows(log, c, m);
    if m == c.request.model {
      RecordTracks(c, BreakerOf(breakers, m), after, Streak(log, m), clock, now);
    } else {
      LaterTracks(BreakerOf(breakers, m), Streak(log, m), clock, now);
    }
  }

  lemma CallKeepsTracked(breakers: Breakers, log: seq<Call>, clock: real, c: Call, after: State, now: real)
    requires AllTracked(breakers, log, clock) && AllSpaced(log) && clock <= now
    requires Records(c, BreakerOf(breakers, c.request.model), after, now)
    requires Admitted(c, BreakerOf(breakers, c.request.model), clock)
    ensures AllTracked(breakers[c.request.model := after], log + [c], now) && AllSpaced(log + [c])
  {
    forall m ensures Tracks(BreakerOf(breakers[c.request.model := after], m), Streak(log + [c], m), now) {
      CallTracks(breakers, log, clock, c, after, now, m);
    }
    TrackedIsSpaced(breakers[c.request.model := after], log + [c], now);
    AllSpacedGrows(log, c);
  }

  lemma TryRecords(prompt: Prompt, request: Request, attempt: nat, before: State, env: Env, tick: nat)
    requires Monotone(env)
    ensures var tried := TryOnce(prompt, request, attempt, before, env, tick);
            && Records(tried.call, before, tried.breaker, env.clock(tried.ticks))
            && tried.call.request == request && tick <= tried.ticks
            && (tried.call.failedAt.Some? ==> tried.call.failedAt.value == env.clock(tick))
            && (tried.verdict.Err? ==> tried.breaker == CLOSED)
  {
  }

  ghost predicate StaysTracked(r: Reply, log: seq<Call>, env: Env, tick: nat) {
    AllTracked(r.breakers, log + r.calls, env.clock(r.ticks)) && AllSpaced(log + r.calls) && tick <= r.ticks
  }

  lemma {:induction false} AttemptsKeepTracked(prompt: Prompt, model: Model, user: string, message: string,
                                               attempt: nat, breakers: Breakers, env: Env, tick: nat, log: seq<Call>,
                                               clock: real)
    requires 1 <= attempt <= MAX_SCHEMA_RETRIES + 1
    requires AllTracked(breakers, log, clock) && AllSpaced(log)
    requires BreakerOf(breakers, model).failures < FAILURE_THRESHOLD && Monotone(env) && clock <= env.clock(tick)
    ensures var r := Attempts(prompt, model, user, message, attempt, breakers, env, tick);
            StaysTracked(r, log, env, tick)
    decreases MAX_SCHEMA_RETRIES + 1 - attempt
  {
    var request := Request(model, prompt.system, message);
    var tried := TryOnce(prompt, request, attempt, BreakerOf(breakers, model), env, tick);
    var after, log', now := breakers[model := tried.breaker], log + [tried.call], env.clock(tried.ticks);
    TryRecords(prompt, request, attempt, BreakerOf(breakers, model), env, tick);
    CallKeepsTracked(breakers, log, clock, tried.call, tried.breaker, now);
    if tried.verdict.Err? && attempt <= MAX_SCHEMA_RETRIES {
      var next := Corrected(user, tried.verdict.error);
      AttemptsKeepTracked(prompt, model, user, next, attempt + 1, after, env, tried.ticks, log', now);
      var rest := Attempts(prompt, model, user, next, attempt + 1, after, env, tried.ticks);
      assert log + ([tried.call] + rest.calls) == log' + rest.calls;
    }
  }

  lemma {:induction false} UncachedKeepsTracked(prompt: Prompt, user: string, model: Model, breakers: Breakers,
                                                env: Env, tick: nat, log: seq<Call>, clock: real)
    requires AllTracked(breakers, log, clock) && AllSpaced(log) && Monotone(env) && clock <= env.clock(tick)
    ensures var r := Uncached(prompt, user, model, breakers, env, tick);
            StaysTracked(r, log, env, tick)
    decreases Rank(prompt.tier)
  {
    var checked := Checked(BreakerOf(breakers, model), env.clock(tick));
    var after := breakers[model := checked.0];
    AfterTheCheck(breakers, log, clock, model, env.clock(tick), env.clock(tick + 1));
    if !checked.1 {
      AttemptsKeepTracked(prompt, model, user, user, 1, after, env, tick + 1, log, env.clock(tick + 1));
    } else if prompt.tier != S && env.resolve(Fallback(prompt.tier).value).Some? {
      var lower := Fallback(prompt.tier).value;
      UncachedKeepsTracked(prompt.(tier := lower), user, env.resolve(lower).value, after, env, tick + 1, log,
                           env.clock(tick + 1));
    } else {
      assert log + [] == log;
    }
  }

  lemma AfterTheCheck(breakers: Breakers, log: seq<Call>, clock: real, model: Model, now: real, later: real)
    requires AllTracked(breakers, log, clock) && clock <= now <= later
    ensures var checked := Checked(BreakerOf(breakers, model), now);
            && AllTracked(breakers[model := checked.0], log, later)
            && (!checked.1 ==> checked.0.failures < FAILURE_THRESHOLD)
  {
    assert Tracks(BreakerOf(breakers, model), Streak(log, model), clock);
    CheckTracks(BreakerOf(breakers, model), Streak(log, model), clock, now);
    CheckKeepsTracked(breakers, log, clock, model, now);
    LaterStaysTracked(breakers[model := Checked(BreakerOf(breakers, model), now).0], log, now, later);
  }

  lemma LaterStaysTracked(breakers: Breakers, log: seq<Call>, clock: real, later: real)
    requires AllTracked(breakers, log, clock) && clock <= later
    ensures AllTracked(breakers, log, later)
  {
  }

  ghost predicate Inv(w: World) {
    AllTracked(w.breakers, w.log, w.clock) && AllSpaced(w.log)
  }

  lemma StepKeepsInv(w: World, c: Settings, s: Step)
    requires Inv(w) && Enabled(w, s)
    ensures Inv(Apply(w, c, s))
  {
    LaterStaysTracked(w.breakers, w.log, w.clock, s.env.clock(0));
    assert w.log + [] == w.log;
    if s.env.resolve(s.prompt.tier).Some? {
      UncachedKeepsTracked(s.prompt, s.user, s.env.resolve(s.prompt.tier).value, w.breakers, s.env, 0, w.log, w.clock);
    }
  }

  lemma {:induction false} RunKeepsInv(w: World, c: Settings, steps: seq<Step>)
    requires Inv(w) && Run(w, c, steps)
    ensures Inv(Final(w, c, steps))
    decreases |steps|
  {
    if steps != [] {
      StepKeepsInv(w, c, steps[0]);
      RunKeepsInv(Apply(w, c, steps[0]), c, steps[1..]);
    }
  }

  /** Over any sequence of calls - any prompts, providers and clock readings - every six failures of a model
      without a success between them are spread over a minute, and a breaker is open exactly at five. */
  lemma FailuresAreSpread(c: Settings, clock: real, steps: seq<Step>)
    requires Run(World(map[], [], [], clock), c, steps)
    ensures var w := Final(World(map[], [], [], clock), c, steps);
            && AllSpaced(w.log)
            && forall m :: m in w.breakers ==>
                 w.breakers[m].failures <= FAILURE_THRESHOLD
                 && (w.breakers[m].openedAt.Some? <==> w.breakers[m].failures == FAILURE_THRESHOLD)
  {
    var w0 := World(map[], [], [], clock);
    RunKeepsInv(w0, c, steps);
    var w := Final(w0, c, steps);
    forall m | m in w.breakers
      ensures w.breakers[m].failures <= FAILURE_THRESHOLD
      ensures w.breakers[m].openedAt.Some? <==> w.breakers[m].failures == FAILURE_THRESHOLD
    {
      assert Tracks(BreakerOf(w.breakers, m), Streak(w.log, m), w.clock);
    }
  }
}
