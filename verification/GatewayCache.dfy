/** What the response cache may serve in place of a model (ai/gateway.py, ai/cache.py). */
module GatewayCache {
  import opened Common
  import opened CircuitBreaker
  import opened LruStore
  import opened Gateway
  import GR = GatewayRuns

  lemma {:induction false} SuffixWithoutKey(es: seq<Entry>, n: nat, key: Key)
    requires n <= |es| && !HasKey(es, key)
    ensures !HasKey(es[n..], key)
  {
    if n > 0 {
      assert es[n..] == es[1..][n - 1..];
      SuffixWithoutKey(es[1..], n - 1, key);
    }
  }

  lemma SetThenGet(es: seq<Entry>, capacity: nat, key: Key, value: Value, ttl: real, setAt: real, getAt: real)
    requires capacity >= 1 && getAt < setAt + ttl
    ensures Answer(LruStore.Apply(es, capacity, Op.Set(key, setAt, value, ttl)), Op.Get(key, getAt)) == Some(value)
  {
    var others, e := Without(es, key), Entry(key, setAt + ttl, value);
    var n := if |others| + 1 > capacity then |others| + 1 - capacity else 0;
    assert Evicted(others + [e], capacity) == others[n..] + [e];
    WithoutKey(es, key, key);
    SuffixWithoutKey(others, n, key);
    AppendKey(others[n..], e, key);
  }

  function KeyOf(s: GR.Step, model: Model): Key {
    s.env.key(s.prompt.ref, s.prompt.system, s.user, model)
  }

  predicate SameQuestion(s: GR.Step, t: GR.Step) {
    && s.allowCache && t.allowCache && s.env.resolve(s.prompt.tier).Some?
    && t.env.resolve(t.prompt.tier) == s.env.resolve(s.prompt.tier)
    && KeyOf(t, t.env.resolve(t.prompt.tier).value) == KeyOf(s, s.env.resolve(s.prompt.tier).value)
  }

  // ---------------------------------------------------------------- which model an answer came from

  /** The requested model's breaker is open when the call begins. */
  predicate FallsBack(breakers: Breakers, model: Model, env: Env) {
    Checked(BreakerOf(breakers, model), env.clock(0)).1
  }

  /** An answer comes from the requested model if its breaker lets the call through, and otherwise from the model of
      a lower tier. */
  lemma AnsweringModel(prompt: Prompt, user: string, model: Model, breakers: Breakers, env: Env)
    requires Uncached(prompt, user, model, breakers, env, 0).outcome.Answered?
    ensures var giver := Uncached(prompt, user, model, breakers, env, 0).outcome.model;
            if FallsBack(breakers, model, env)
            then exists u :: Rank(u) < Rank(prompt.tier) && env.resolve(u) == Some(giver)
            else giver == model
  {
    var t := GR.HighestAdmittedTier(prompt, user, model, breakers, env, 0);
    assert GR.Refused(prompt.tier, model, breakers, env, 0, prompt.tier) == FallsBack(breakers, model, env);
  }

  /** Tier `t` is below the requested one, everything above it is refused and it is let through - its breaker checked at
      the reading of the clock that is its turn. */
  predicate FallsTo(tier: Tier, model: Model, breakers: Breakers, env: Env, t: Tier) {
    && Rank(t) < Rank(tier) && env.resolve(t).Some?
    && GR.Reaches(tier, model, breakers, env, 0, t) && !GR.Refused(tier, model, breakers, env, 0, t)
  }

  /** The requested model answers after all: without a fallback, or because the tier fallen back to is configured with
      the same model and its breaker has reset in the meantime. */
  predicate RequestedAnswers(tier: Tier, model: Model, breakers: Breakers, env: Env) {
    || !FallsBack(breakers, model, env)
    || exists t :: FallsTo(tier, model, breakers, env, t) && env.resolve(t).value == model
  }

  lemma OneTierIsFallenTo(tier: Tier, model: Model, breakers: Breakers, env: Env, t: Tier, u: Tier)
    requires FallsTo(tier, model, breakers, env, t) && FallsTo(tier, model, breakers, env, u)
    ensures t == u
  {
  }

  /** Whatever the tiers are configured with, the answer comes from the requested model exactly then. */
  lemma AttributionExact(prompt: Prompt, user: string, model: Model, breakers: Breakers, env: Env)
    requires Uncached(prompt, user, model, breakers, env, 0).outcome.Answered?
    ensures Uncached(prompt, user, model, breakers, env, 0).outcome.model == model <==>
            RequestedAnswers(prompt.tier, model, breakers, env)
  {
    var t := GR.HighestAdmittedTier(prompt, user, model, breakers, env, 0);
    assert GR.Refused(prompt.tier, model, breakers, env, 0, prompt.tier) == FallsBack(breakers, model, env);
    if FallsBack(breakers, model, env) {
      assert FallsTo(prompt.tier, model, breakers, env, t);
      forall u | FallsTo(prompt.tier, model, breakers, env, u) ensures u == t {
        OneTierIsFallenTo(prompt.tier, model, breakers, env, t, u);
      }
    }
  }

  /** So where every tier has a model of its own, exactly if no fallback takes place. */
  lemma AttributionToOwnModel(prompt: Prompt, user: string, model: Model, breakers: Breakers, env: Env)
    requires Uncached(prompt, user, model, breakers, env, 0).outcome.Answered?
    requires forall u :: Rank(u) < Rank(prompt.tier) ==> env.resolve(u) != Some(model)
    ensures Uncached(prompt, user, model, breakers, env, 0).outcome.model == model <==> !FallsBack(breakers, model, env)
  {
    AttributionExact(prompt, user, model, breakers, env);
  }

  // ---------------------------------------------------------------- and which one it is attributed to

  /** What a call does to the cache. */
  function OpsOfCall(w: GR.World, c: GR.Settings, s: GR.Step): seq<Op> {
    if !s.allowCache || s.env.resolve(s.prompt.tier).None? then []
    else
      var key := KeyOf(s, s.env.resolve(s.prompt.tier).value);
      var outcome := GR.ReplyTo(w, c, s).0.outcome;
      [Op.Get(key, s.env.getAt)]
      + if outcome.Answered? && !outcome.cached then [Op.Set(key, s.env.setAt, outcome.data, c.ttl)] else []
  }

  function OpsOf(w: GR.World, c: GR.Settings, steps: seq<GR.Step>): seq<Op>
    decreases |steps|
  {
    if steps == [] then [] else OpsOfCall(w, c, steps[0]) + OpsOf(GR.Apply(w, c, steps[0]), c, steps[1..])
  }

  lemma {:induction false} ExecConcat(es: seq<Entry>, capacity: nat, a: seq<Op>, b: seq<Op>)
    ensures Exec(es, capacity, a + b) == Exec(Exec(es, capacity, a), capacity, b)
    decreases |a|
  {
    if a == [] {
      assert a + b == b;
    } else {
      assert (a + b)[1..] == a[1..] + b;
      ExecConcat(LruStore.Apply(es, capacity, a[0]), capacity, a[1..], b);
    }
  }

  lemma CallIsItsOps(w: GR.World, c: GR.Settings, s: GR.Step)
    ensures GR.Apply(w, c, s).entries == Exec(w.entries, c.capacity, OpsOfCall(w, c, s))
  {
    if s.env.resolve(s.prompt.tier).Some? && s.allowCache {
      UncachedIsNotCached(s, s.env.resolve(s.prompt.tier).value, w.breakers);
      var key := KeyOf(s, s.env.resolve(s.prompt.tier).value);
      var get, outcome := Op.Get(key, s.env.getAt), GR.ReplyTo(w, c, s).0.outcome;
      var after := LruStore.Apply(w.entries, c.capacity, get);
      assert [get][1..] == [] && Exec(after, c.capacity, []) == after;
      if outcome.Answered? && !outcome.cached {
        var set_ := Op.Set(key, s.env.setAt, outcome.data, c.ttl);
        var last := LruStore.Apply(after, c.capacity, set_);
        assert [set_][1..] == [] && Exec(last, c.capacity, []) == last;
        ExecConcat(w.entries, c.capacity, [get], [set_]);
      }
    }
  }

  lemma {:induction false} CallsAreTheirOps(w: GR.World, c: GR.Settings, steps: seq<GR.Step>)
    ensures GR.Final(w, c, steps).entries == Exec(w.entries, c.capacity, OpsOf(w, c, steps))
    decreases |steps|
  {
    if steps != [] {
      var next := GR.Apply(w, c, steps[0]);
      CallIsItsOps(w, c, steps[0]);
      CallsAreTheirOps(next, c, steps[1..]);
      ExecConcat(w.entries, c.capacity, OpsOfCall(w, c, steps[0]), OpsOf(next, c, steps[1..]));
    }
  }

  lemma StaysInCache(es: seq<Entry>, capacity: nat, key: Key, value: Value, ttl: real, setAt: real, ops: seq<Op>,
                     getAt: real)
    requires Fits(es, capacity) && capacity >= 1 && getAt < setAt + ttl
    requires forall i :: 0 <= i < |ops| ==> ops[i].key != key && ops[i].now <= getAt
    requires var es0 := LruStore.Apply(es, capacity, Op.Set(key, setAt, value, ttl));
             |Touched(es0, capacity, ops, key)| < capacity
    ensures var es0 := LruStore.Apply(es, capacity, Op.Set(key, setAt, value, ttl));
            Answer(Exec(es0, capacity, ops), Op.Get(key, getAt)) == Some(value)
  {
    var touch, get := Op.Set(key, setAt, value, ttl), Op.Get(key, getAt);
    var es0 := LruStore.Apply(es, capacity, touch);
    MissMeansFullTurnover(es, capacity, touch, ops, get);
    FitsKept(es, capacity, touch);
    SetThenGet(es, capacity, key, value, ttl, setAt, getAt);
    HitsAreLatest(es0, capacity, key, value, ops, get);
  }

  /** The question of `s` comes again as `t`, after the calls of `between`: the entry has not expired, and fewer other
      keys than the capacity were set or hit. */
  ghost predicate AskedInTime(w: GR.World, c: GR.Settings, s: GR.Step, between: seq<GR.Step>, t: GR.Step) {
    && SameQuestion(s, t) && Fits(w.entries, c.capacity) && t.env.getAt < s.env.setAt + c.ttl
    && var after, key := GR.Apply(w, c, s), KeyOf(s, s.env.resolve(s.prompt.tier).value);
       var ops := OpsOf(after, c, between);
       && (forall i :: 0 <= i < |ops| ==> ops[i].key != key && ops[i].now <= t.env.getAt)
       && |Touched(after.entries, c.capacity, ops, key)| < c.capacity
  }

  /** An answer is cached under the requested model, whichever model gave it.  Asked again in time, whatever calls came
      in between, the gateway makes no call and attributes the answer to the requested model. */
  lemma AnswerIsServedAsRequested(w: GR.World, c: GR.Settings, s: GR.Step, between: seq<GR.Step>, t: GR.Step)
    requires AskedInTime(w, c, s, between, t)
    requires GR.ReplyTo(w, c, s).0.outcome.Answered? && !GR.ReplyTo(w, c, s).0.outcome.cached
    ensures var first, w' := GR.ReplyTo(w, c, s).0, GR.Final(GR.Apply(w, c, s), c, between);
            GR.ReplyTo(w', c, t).0 ==
            Reply(Answered(first.outcome.data, s.env.resolve(s.prompt.tier).value, 0, true), w'.breakers, [], 0)
  {
    var key := KeyOf(s, s.env.resolve(s.prompt.tier).value);
    var get := Op.Get(key, s.env.getAt);
    var es := LruStore.Apply(w.entries, c.capacity, get);
    FitsKept(w.entries, c.capacity, get);
    CallsAreTheirOps(GR.Apply(w, c, s), c, between);
    StaysInCache(es, c.capacity, key, GR.ReplyTo(w, c, s).0.outcome.data, c.ttl, s.env.setAt,
                 OpsOf(GR.Apply(w, c, s), c, between), t.env.getAt);
  }

  /** So the attribution is right exactly if the requested model answered when the answer was first given. */
  lemma CachedAttributionExact(w: GR.World, c: GR.Settings, s: GR.Step, between: seq<GR.Step>, t: GR.Step)
    requires AskedInTime(w, c, s, between, t)
    requires GR.ReplyTo(w, c, s).0.outcome.Answered? && !GR.ReplyTo(w, c, s).0.outcome.cached
    ensures var served := GR.ReplyTo(GR.Final(GR.Apply(w, c, s), c, between), c, t).0.outcome;
            && served.Answered? && served.cached
            && (served.model == GR.ReplyTo(w, c, s).0.outcome.model <==>
                RequestedAnswers(s.prompt.tier, s.env.resolve(s.prompt.tier).value, w.breakers, s.env))
  {
    AnswerIsServedAsRequested(w, c, s, between, t);
    AttributionExact(s.prompt, s.user, s.env.resolve(s.prompt.tier).value, w.breakers, s.env);
  }

  // ---------------------------------------------------------------- a run in which it is wrong

  function NameOf(tier: Tier): Model {
    match tier case L => "l" case M => "m" case S => "s"
  }

  /** A provider that is down or up, seen at one instant. */
  function At(up: bool, at: real): Env {
    Env((tier: Tier) => Some(NameOf(tier)), (schema: string, text: string) => Valid(text),
        (request: Request, attempt: nat) => if up then Text("answer") else Raised("down"),
        (n: nat) => at, at, at, (ref: string, system: string, user: string, model: Model) => model)
  }

  function Ask(up: bool, at: real): GR.Step {
    GR.Step(Prompt("prompt@v1", "", "", L), "question", true, At(up, at))
  }

  lemma FailingCall(w: GR.World, c: GR.Settings, k: nat)
    requires k < FAILURE_THRESHOLD && w.entries == [] && w.clock == 0.0
    requires BreakerOf(w.breakers, "l") == State(k, None) && "m" !in w.breakers
    ensures GR.Enabled(w, Ask(false, 0.0))
    ensures var w' := GR.Apply(w, c, Ask(false, 0.0));
            && w'.entries == [] && w'.clock == 0.0 && "m" !in w'.breakers
            && BreakerOf(w'.breakers, "l") == State(k + 1, if k + 1 == FAILURE_THRESHOLD then Some(0.0) else None)
  {
  }

  lemma {:induction false} FailingCalls(w: GR.World, c: GR.Settings, k: nat) returns (steps: seq<GR.Step>)
    requires k <= FAILURE_THRESHOLD && w.entries == [] && w.clock == 0.0 && "m" !in w.breakers
    requires BreakerOf(w.breakers, "l") == State(k, if k == FAILURE_THRESHOLD then Some(0.0) else None)
    ensures GR.Run(w, c, steps)
    ensures var w' := GR.Final(w, c, steps);
            && w'.entries == [] && w'.clock == 0.0 && "m" !in w'.breakers
            && BreakerOf(w'.breakers, "l") == State(FAILURE_THRESHOLD, Some(0.0))
    decreases FAILURE_THRESHOLD - k
  {
    if k == FAILURE_THRESHOLD {
      steps := [];
    } else {
      FailingCall(w, c, k);
      var rest := FailingCalls(GR.Apply(w, c, Ask(false, 0.0)), c, k + 1);
      steps := [Ask(false, 0.0)] + rest;
      assert steps[1..] == rest;
    }
  }

  lemma FallbackCall(w: GR.World, c: GR.Settings)
    requires w.entries == [] && w.clock == 0.0 && "m" !in w.breakers
    requires BreakerOf(w.breakers, "l") == State(FAILURE_THRESHOLD, Some(0.0))
    ensures GR.Enabled(w, Ask(true, 1.0))
    ensures GR.ReplyTo(w, c, Ask(true, 1.0)).0.outcome == Answered("answer", "m", 1, false)
  {
    var ask := Ask(true, 1.0);
    var fallen := ask.prompt.(tier := M);
    var after := w.breakers["l" := BreakerOf(w.breakers, "l")];
    assert Checked(BreakerOf(w.breakers, "l"), 1.0) == (BreakerOf(w.breakers, "l"), true);
    assert Uncached(ask.prompt, ask.user, "l", w.breakers, ask.env, 0) ==
           Uncached(fallen, ask.user, "m", after, ask.env, 1);
    assert Uncached(fallen, ask.user, "m", after, ask.env, 1).outcome == Answered("answer", "m", 1, false);
  }

  /** After five failures of the large model a medium one answers, and a second later that answer is attributed to the
      large one. */
  lemma FallbackIsMisattributed(c: GR.Settings)
    requires c.capacity >= 1 && c.ttl > 0.0
    ensures exists steps, s ::
              && GR.Run(GR.World(map[], [], [], 0.0), c, steps)
              && var w := GR.Final(GR.World(map[], [], [], 0.0), c, steps);
              && GR.Enabled(w, s) && GR.Enabled(GR.Apply(w, c, s), s)
              && GR.ReplyTo(w, c, s).0.outcome == Answered("answer", "m", 1, false)
              && GR.ReplyTo(GR.Apply(w, c, s), c, s).0.outcome == Answered("answer", "l", 0, true)
  {
    var w0 := GR.World(map[], [], [], 0.0);
    var steps := FailingCalls(w0, c, 0);
    var w, s := GR.Final(w0, c, steps), Ask(true, 1.0);
    FallbackCall(w, c);
    var none: seq<GR.Step> := [];
    assert OpsOf(GR.Apply(w, c, s), c, none) == [];
    assert Fits(w.entries, c.capacity);
    assert Touched(GR.Apply(w, c, s).entries, c.capacity, [], "l") == {};
    AnswerIsServedAsRequested(w, c, s, none, s);
  }

  // ---------------------------------------------------------------- nothing is invented

  /** The answers that models gave, by cache key. */
  function Given(w: GR.World, c: GR.Settings, steps: seq<GR.Step>): set<(Key, string)>
    decreases |steps|
  {
    if steps == [] then {}
    else
      var s, outcome := steps[0], GR.ReplyTo(w, c, steps[0]).0.outcome;
      (if outcome.Answered? && !outcome.cached && s.env.resolve(s.prompt.tier).Some?
       then {(KeyOf(s, s.env.resolve(s.prompt.tier).value), outcome.data)} else {})
      + Given(GR.Apply(w, c, s), c, steps[1..])
  }

  predicate CachedFrom(entries: seq<Entry>, given: set<(Key, string)>) {
    forall e :: e in entries ==> (e.key, e.value) in given
  }

  lemma {:induction false} FoundIsMember(es: seq<Entry>, key: Key)
    ensures Find(es, key).Some? ==> Find(es, key).value in es && Find(es, key).value.key == key
    ensures forall e :: e in Without(es, key) ==> e in es
  {
    if es != [] { FoundIsMember(es[1..], key); }
  }

  lemma OpKeepsSource(es: seq<Entry>, capacity: nat, op: Op, given: set<(Key, string)>)
    requires CachedFrom(es, given)
    ensures CachedFrom(LruStore.Apply(es, capacity, op), if op.Set? then given + {(op.key, op.value)} else given)
    ensures Answer(es, op).Some? ==> (op.key, Answer(es, op).value) in given
  {
    FoundIsMember(es, op.key);
  }

  lemma StepKeepsSource(w: GR.World, c: GR.Settings, s: GR.Step, given: set<(Key, string)>)
    requires CachedFrom(w.entries, given)
    ensures CachedFrom(GR.Apply(w, c, s).entries, given + Given(w, c, [s]))
    ensures var outcome := GR.ReplyTo(w, c, s).0.outcome;
            outcome.Answered? && outcome.cached ==> (KeyOf(s, outcome.model), outcome.data) in given
  {
    assert [s][1..] == [] && Given(GR.Apply(w, c, s), c, []) == {};
    if s.env.resolve(s.prompt.tier).Some? {
      var key := KeyOf(s, s.env.resolve(s.prompt.tier).value);
      var get := Op.Get(key, s.env.getAt);
      OpKeepsSource(w.entries, c.capacity, get, given);
      UncachedIsNotCached(s, s.env.resolve(s.prompt.tier).value, w.breakers);
      var outcome := GR.ReplyTo(w, c, s).0.outcome;
      if s.allowCache && outcome.Answered? && !outcome.cached {
        OpKeepsSource(LruStore.Apply(w.entries, c.capacity, get), c.capacity,
                      Op.Set(key, s.env.setAt, outcome.data, c.ttl), given);
      }
    }
  }

  lemma UncachedIsNotCached(s: GR.Step, model: Model, breakers: Breakers)
    ensures var outcome := Uncached(s.prompt, s.user, model, breakers, s.env, 0).outcome;
            outcome.Answered? ==>
              !outcome.cached && exists text :: s.env.validate(s.prompt.schema, text) == Valid(outcome.data)
  {
    var r := Uncached(s.prompt, s.user, model, breakers, s.env, 0);
    var t := GR.HighestAdmittedTier(s.prompt, s.user, model, breakers, s.env, 0);
    if r.outcome.Answered? {
      var last := r.calls[|r.calls| - 1];
      assert GR.Answers(s.env, s.prompt, last, r.outcome.data);
    }
  }

  /** After any sequence of calls, whatever the cache serves for a key is an answer some model gave for that key,
      validated then. */
  lemma {:induction false} CacheNeverInvents(w: GR.World, c: GR.Settings, steps: seq<GR.Step>, s: GR.Step,
                                             given: set<(Key, string)>)
    requires CachedFrom(w.entries, given)
    ensures var outcome := GR.ReplyTo(GR.Final(w, c, steps), c, s).0.outcome;
            outcome.Answered? && outcome.cached ==>
              (KeyOf(s, outcome.model), outcome.data) in given + Given(w, c, steps)
    decreases |steps|
  {
    if steps == [] {
      StepKeepsSource(w, c, s, given);
    } else {
      StepKeepsSource(w, c, steps[0], given);
      assert Given(w, c, steps) == Given(w, c, [steps[0]]) + Given(GR.Apply(w, c, steps[0]), c, steps[1..]) by {
        assert [steps[0]][1..] == [] && Given(GR.Apply(w, c, steps[0]), c, []) == {};
      }
      CacheNeverInvents(GR.Apply(w, c, steps[0]), c, steps[1..], s, given + Given(w, c, [steps[0]]));
    }
  }
}
