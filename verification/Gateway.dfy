/**
 The model gateway (ai/gateway.py): tier fallback, bounded schema retry, cache and circuit breakers.

 What the outside does during one call is an `Env`: any configuration, any provider, any validator and any
 sequence of clock readings.
 */
module Gateway {
  import opened Common
  import opened CircuitBreaker
  import opened LruStore

  type Model = string

  datatype Tier = S | M | L

  const MAX_SCHEMA_RETRIES: nat := 2

  datatype Prompt = Prompt(ref: string, system: string, schema: string, tier: Tier)

  datatype Request = Request(model: Model, system: string, message: string)

  datatype ProviderAnswer = Raised(error: string) | Text(text: string)

  /** A violation is handed back to the model; a schema the validator cannot check raises `NotImplementedError`. */
  datatype Validation = Valid(data: string) | Invalid(violation: string) | NotChecked(message: string)

  datatype Env = Env(
    resolve: Tier -> Option<Model>,                    // None: the tier has no configured model
    validate: (string, string) -> Validation,          // by schema and text
    provider: (Request, nat) -> ProviderAnswer,        // by request and attempt number
    clock: nat -> real,                                // the n-th reading of the gateway's clock
    getAt: real, setAt: real,                          // the cache's readings
    key: (string, string, string, Model) -> Key)       // hash of ref, system and user; then the model

  datatype Outcome =
    | Answered(data: string, model: Model, attempts: nat, cached: bool)
    | CircuitOpen(model: Model)
    | TransportFailed(model: Model, error: string)
    | SchemaInvalid(violation: string)
    | SchemaNotChecked(message: string)                // escapes the retry loop
    | NotConfigured(tier: Tier)

  /** One transport call: what was asked, and when it failed if it did. */
  datatype Call = Call(request: Request, attempt: nat, failedAt: Option<real>)

  type Breakers = map<Model, State>

  datatype Reply = Reply(outcome: Outcome, breakers: Breakers, calls: seq<Call>, ticks: nat)

  function Fallback(tier: Tier): Option<Tier> {
    match tier case L => Some(M) case M => Some(S) case S => None
  }

  function Rank(tier: Tier): nat {
    match tier case L => 2 case M => 1 case S => 0
  }

  function BreakerOf(breakers: Breakers, model: Model): State {
    if model in breakers then breakers[model] else CLOSED
  }

  const VIOLATION_INTRO := "\n\n---\nYour previous answer did not match the required JSON schema: "

  const RETRY_REQUEST := "\nReturn only valid JSON matching the schema. Do not explain."

  /** The user message with the last violation handed back; earlier violations are dropped. */
  function Corrected(user: string, violation: string): string {
    user + VIOLATION_INTRO + violation + RETRY_REQUEST
  }

  /** One transport call: the breaker and the clock afterwards, and either the outcome or a violation to hand back. */
  datatype Tried = Tried(call: Call, breaker: State, ticks: nat, verdict: Result<Outcome, string>)

  function TryOnce(prompt: Prompt, request: Request, attempt: nat, breaker: State, env: Env, tick: nat): Tried {
    match env.provider(request, attempt)
    case Raised(error) =>
      var now := env.clock(tick);
      Tried(Call(request, attempt, Some(now)), AfterFailure(breaker, now), tick + 1,
            Ok(TransportFailed(request.model, error)))
    case Text(text) =>
      Tried(Call(request, attempt, None), CLOSED, tick,
            match env.validate(prompt.schema, text)
            case Valid(data) => Ok(Answered(data, request.model, attempt, false))
            case NotChecked(message) => Ok(SchemaNotChecked(message))
            case Invalid(violation) => Err(violation))
  }

  /** The attempts left, from number `attempt` on, with `message` to be sent next. */
  function Attempts(prompt: Prompt, model: Model, user: string, message: string, attempt: nat, breakers: Breakers,
                    env: Env, tick: nat): Reply
    requires 1 <= attempt <= MAX_SCHEMA_RETRIES + 1
    decreases MAX_SCHEMA_RETRIES + 1 - attempt
  {
    var request, breaker := Request(model, prompt.system, message), BreakerOf(breakers, model);
    var tried := TryOnce(prompt, request, attempt, breaker, env, tick);
    var after := breakers[model := tried.breaker];
    match tried.verdict
    case Ok(outcome) => Reply(outcome, after, [tried.call], tried.ticks)
    case Err(violation) =>
      if attempt == MAX_SCHEMA_RETRIES + 1 then Reply(SchemaInvalid(violation), after, [tried.call], tried.ticks)
      else
        var rest := Attempts(prompt, model, user, Corrected(user, violation), attempt + 1, after, env, tried.ticks);
        rest.(calls := [tried.call] + rest.calls)
  }

  /** What a loop owes after the calls it has made: `goal` is those calls, and then `rest`. */
  predicate Continues(goal: Reply, calls: seq<Call>, rest: Reply) {
    goal == rest.(calls := calls + rest.calls)
  }

  function Uncached(prompt: Prompt, user: string, model: Model, breakers: Breakers, env: Env, tick: nat): Reply
    decreases Rank(prompt.tier)
  {
    var (checked, open) := Checked(BreakerOf(breakers, model), env.clock(tick));
    var after := breakers[model := checked];
    if open then
      match Fallback(prompt.tier)
      case None => Reply(CircuitOpen(model), after, [], tick + 1)
      case Some(tier) =>
        match env.resolve(tier)
        case None => Reply(NotConfigured(tier), after, [], tick + 1)
        case Some(cheaper) => Uncached(prompt.(tier := tier), user, cheaper, after, env, tick + 1)
    else Attempts(prompt, model, user, user, 1, after, env, tick + 1)
  }

  /** `complete`, with the cache: the reply and the cache entries afterwards. */
  function Completed(prompt: Prompt, user: string, allowCache: bool, breakers: Breakers, entries: seq<Entry>,
                     capacity: nat, ttl: real, env: Env): (Reply, seq<Entry>)
  {
    match env.resolve(prompt.tier)
    case None => (Reply(NotConfigured(prompt.tier), breakers, [], 0), entries)
    case Some(model) =>
      var key := env.key(prompt.ref, prompt.system, user, model);
      var get := Op.Get(key, env.getAt);
      var hit := if allowCache then Answer(entries, get) else None;
      var entries' := if allowCache then Apply(entries, capacity, get) else entries;
      if hit.Some? then (Reply(Answered(hit.value, model, 0, true), breakers, [], 0), entries')
      else
        var reply := Uncached(prompt, user, model, breakers, env, 0);
        (reply, if allowCache && reply.outcome.Answered?
                then Apply(entries', capacity, Op.Set(key, env.setAt, reply.outcome.data, ttl)) else entries')
  }

  // ---------------------------------------------------------------- the gateway, updated in place

  class Gateway {
    const cache: ResponseCache
    var circuits: map<Model, Circuit>

    constructor (cache: ResponseCache)
      ensures Valid() && States() == map[] && this.cache == cache && circuits == map[]
    {
      this.cache, this.circuits := cache, map[];
    }

    /** Every model has a breaker of its own. */
    ghost predicate Valid()
      reads this, circuits.Values
    {
      forall m, n :: m in circuits && n in circuits && m != n ==> circuits[m] != circuits[n]
    }

    ghost function States(): Breakers
      reads this, circuits.Values
    {
      map m | m in circuits :: circuits[m].Value()
    }

    /** `setdefault`. */
    method Ensure(model: Model)
      requires Valid()
      modifies this`circuits
      ensures Valid() && model in circuits && fresh(circuits.Values - old(circuits.Values))
      ensures forall m :: m in circuits && m != model ==> m in old(circuits) && circuits[m] == old(circuits[m])
      ensures States() == old(States())[model := BreakerOf(old(States()), model)]
    {
      if model !in circuits {
        var created := new Circuit();
        circuits := circuits[model := created];
      }
    }

    method IsOpen(model: Model, now: real) returns (open: bool)
      requires Valid() && model in circuits
      modifies circuits[model]
      ensures Valid() && (States()[model], open) == Checked(old(States()[model]), now)
      ensures States() == old(States())[model := States()[model]]
    {
      open := circuits[model].IsOpen(now);
    }

    method Try(prompt: Prompt, request: Request, attempt: nat, env: Env, tick: nat)
      returns (verdict: Result<Outcome, string>, call: Call, ticks: nat)
      requires Valid() && request.model in circuits
      modifies circuits[request.model]
      ensures Valid()
      ensures Tried(call, States()[request.model], ticks, verdict) ==
              TryOnce(prompt, request, attempt, old(States()[request.model]), env, tick)
      ensures States() == old(States())[request.model := States()[request.model]]
    {
      var circuit := circuits[request.model];
      match env.provider(request, attempt)
      case Raised(error) =>
        var now := env.clock(tick);
        circuit.RecordFailure(now);
        return Ok(TransportFailed(request.model, error)), Call(request, attempt, Some(now)), tick + 1;
      case Text(text) =>
        circuit.RecordSuccess();
        call, ticks := Call(request, attempt, None), tick;
        match env.validate(prompt.schema, text)
        case Valid(data) => verdict := Ok(Answered(data, request.model, attempt, false));
        case NotChecked(message) => verdict := Ok(SchemaNotChecked(message));
        case Invalid(violation) => verdict := Err(violation);
    }

    /** The attempts on one model. */
    method TryModel(prompt: Prompt, user: string, model: Model, env: Env, tick: nat)
      returns (outcome: Outcome, calls: seq<Call>, ticks: nat)
      requires Valid() && model in circuits
      modifies circuits[model]
      ensures Valid()
      ensures Reply(outcome, States(), calls, ticks) == Attempts(prompt, model, user, user, 1, old(States()), env, tick)
    {
      ghost var goal := Attempts(prompt, model, user, user, 1, States(), env, tick);
      var message := user;
      var attempt := 1;
      calls, ticks := [], tick;
      while true
        invariant 1 <= attempt <= MAX_SCHEMA_RETRIES + 1 && Valid()
        invariant Continues(goal, calls, Attempts(prompt, model, user, message, attempt, States(), env, ticks))
        decreases MAX_SCHEMA_RETRIES + 1 - attempt
      {
        var verdict, call;
        verdict, call, ticks := Try(prompt, Request(model, prompt.system, message), attempt, env, ticks);
        calls := calls + [call];
        match verdict
        case Ok(final) =>
          return final, calls, ticks;
        case Err(violation) =>
          if attempt == MAX_SCHEMA_RETRIES + 1 {
            return SchemaInvalid(violation), calls, ticks;
          }
          message := Corrected(user, violation);
          attempt := attempt + 1;
      }
    }

    method CompleteUncached(prompt: Prompt, user: string, model: Model, env: Env, tick: nat)
      returns (outcome: Outcome, calls: seq<Call>, ticks: nat)
      requires Valid()
      modifies this`circuits, circuits.Values
      ensures Valid() && fresh(circuits.Values - old(circuits.Values))
      ensures Reply(outcome, States(), calls, ticks) == Uncached(prompt, user, model, old(States()), env, tick)
      decreases Rank(prompt.tier)
    {
      Ensure(model);
      var open := IsOpen(model, env.clock(tick));
      assert States() == old(States())[model := Checked(BreakerOf(old(States()), model), env.clock(tick)).0];
      if !open {
        outcome, calls, ticks := TryModel(prompt, user, model, env, tick + 1);
        return;
      }
      match Fallback(prompt.tier)
      case None =>
        return CircuitOpen(model), [], tick + 1;
      case Some(tier) =>
        match env.resolve(tier)
        case None => return NotConfigured(tier), [], tick + 1;
        case Some(cheaper) =>
          outcome, calls, ticks := CompleteUncached(prompt.(tier := tier), user, cheaper, env, tick + 1);
    }

    method Complete(prompt: Prompt, user: string, allowCache: bool, env: Env)
      returns (outcome: Outcome, calls: seq<Call>, ticks: nat)
      requires Valid() && cache.store.Valid()
      modifies this`circuits, circuits.Values, cache, cache.store
      ensures Valid() && cache.store.Valid() && fresh(circuits.Values - old(circuits.Values))
      ensures (Reply(outcome, States(), calls, ticks), cache.store.entries) ==
              Completed(prompt, user, allowCache, old(States()), old(cache.store.entries), cache.store.maxEntries,
                        cache.ttl, env)
    {
      match env.resolve(prompt.tier)
      case None =>
        return NotConfigured(prompt.tier), [], 0;
      case Some(model) =>
        var key := env.key(prompt.ref, prompt.system, user, model);
        if allowCache {
          var hit := cache.Get(key, env.getAt);
          if hit.Some? {
            return Answered(hit.value, model, 0, true), [], 0;
          }
        }
        outcome, calls, ticks := CompleteUncached(prompt, user, model, env, 0);
        if allowCache && outcome.Answered? {
          cache.Set(key, outcome.data, env.setAt);
        }
    }
  }
}
