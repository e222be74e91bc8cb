/** The reliability executor: deadline, breaker checks, retries and failover around provider calls. */
module Executor {
  import opened Wrappers
  import opened Names
  import opened Scorer
  import opened Routing
  import opened CircuitBreakers
  import opened BreakerRegistry
  import opened Failover
  import opened Costs
  import opened Selections
  import Errors
  import Retry

  datatype Reply = Answer(usage: Option<Usage>) | Raised(failure: Errors.Failure)

  function ErrorOf(reply: Reply): Option<Errors.Failure> {
    if reply.Answer? then None else Some(reply.failure)
  }

  /** What came of one attempt at a provider, and when it started. */
  datatype Outcome = Outcome(provider: string, model: string, at: real, error: Option<Errors.Failure>)

  /**
   Everything outside the executor, as an arbitrary oracle. Only awaits take time: a chat call at most
   `maxChat`, a candidate discovery at most `maxDiscovery`, a sleep exactly as long as asked. While the
   executor waits, other requests use the shared breakers in any way.
   */
  class World {
    var now: real
    const maxChat: real
    const maxDiscovery: real
    /** Chat calls made for the request under study. */
    ghost var calls: nat
    /** How every refused look-up and every chat call went, and the usage the latest answer came with. */
    ghost var outcomes: seq<Outcome>
    ghost var usage: Option<Usage>
    /** The latest backoff slept through. */
    ghost var waited: real

    ghost predicate Valid() {
      maxChat >= 0.0 && maxDiscovery >= 0.0
    }

    constructor (now: real, maxChat: real, maxDiscovery: real)
      requires maxChat >= 0.0 && maxDiscovery >= 0.0
      ensures Valid() && this.now == now && calls == 0 && outcomes == []
    {
      this.now, this.maxChat, this.maxDiscovery := now, maxChat, maxDiscovery;
      calls, outcomes, usage := 0, [], None;
      waited := 0.0;
    }

    /** `registry.get`: the adapter, or the failure it raises. */
    method LookUp(provider: string, model: string) returns (refusal: Option<Errors.Failure>)
      modifies this`outcomes
      ensures outcomes == if refusal.Some? then old(outcomes) + [Outcome(provider, model, now, refusal)]
                          else old(outcomes)
    {
      refusal := *;
      if refusal.Some? {
        outcomes := outcomes + [Outcome(provider, model, now, refusal)];
      }
    }

    method Pass(limit: real)
      requires limit >= 0.0
      modifies this`now
      ensures old(now) <= now <= old(now) + limit
    {
      var d: real := *;
      if 0.0 <= d <= limit {
        now := now + d;
      }
    }

    method Chat(provider: string, model: string, registry: CircuitBreakerRegistry) returns (reply: Reply)
      requires Valid() && registry.Valid() && this !in registry.Repr
      modifies this, registry.Repr
      ensures old(now) <= now <= old(now) + maxChat
      ensures calls == old(calls) + 1
      ensures outcomes == old(outcomes) + [Outcome(provider, model, old(now), ErrorOf(reply))]
      ensures reply.Answer? ==> usage == reply.usage
      ensures waited == old(waited)
      ensures registry.Valid() && fresh(registry.Repr - old(registry.Repr))
      ensures registry.reported == old(registry.reported)
    {
      calls := calls + 1;
      ghost var start := now;
      Pass(maxChat);
      reply := *;
      outcomes := outcomes + [Outcome(provider, model, start, ErrorOf(reply))];
      if reply.Answer? {
        usage := reply.usage;
      }
    }

    method Sleep(delay: real, registry: CircuitBreakerRegistry)
      requires registry.Valid() && this !in registry.Repr
      modifies this`now, this`waited, registry.Repr
      ensures now == old(now) + (if delay > 0.0 then delay else 0.0) && waited == delay
      ensures registry.Valid() && fresh(registry.Repr - old(registry.Repr))
      ensures registry.reported == old(registry.reported)
    {
      if delay > 0.0 {
        now := now + delay;
      }
      waited := delay;
    }

    method Jitter(limit: real) returns (amount: real)
      ensures limit >= 0.0 ==> 0.0 <= amount <= limit
    {
      amount := *;
      if amount < 0.0 || amount > limit {
        amount := 0.0;
      }
    }
  }

  /** Discovers the candidates there are, again as an oracle, and remembers what it answered when. */
  class CandidateBuilder {
    ghost var discoveries: seq<Discovery>

    constructor ()
      ensures discoveries == []
    {
      discoveries := [];
    }

    method BuildCandidates(world: World, registry: CircuitBreakerRegistry) returns (candidates: seq<Candidate>)
      requires world.Valid() && registry.Valid() && world !in registry.Repr && this !in registry.Repr
      modifies this, world`now, registry.Repr
      ensures old(world.now) <= world.now <= old(world.now) + world.maxDiscovery
      ensures discoveries == old(discoveries) + [Discovery(candidates, registry.contents, world.now)]
      ensures registry.Valid() && fresh(registry.Repr - old(registry.Repr))
      ensures registry.reported == old(registry.reported)
    {
      world.Pass(world.maxDiscovery);
      candidates := *;
      discoveries := discoveries + [Discovery(candidates, registry.contents, world.now)];
    }
  }

  /** One attempt; `error` is empty when it succeeded, and `startedAt` is where its latency is counted from. */
  datatype AttemptRecord = AttemptRecord(
    provider: string,
    model: string,
    attemptNumber: nat,
    isFailover: bool,
    startedAt: real,
    error: Option<Errors.Failure>)

  /** The request's running state. */
  datatype Context = Context(
    deadline: real,
    original: string,
    attempted: set<string>,
    attempts: seq<AttemptRecord>,
    retryCount: nat,
    failoverAttempts: nat,
    failoverTriggered: bool)

  datatype Response = Response(
    usage: Option<Usage>,
    selectedProvider: string,
    selectedModel: string,
    failoverTriggered: bool,
    retryCount: nat,
    failoverAttempts: nat,
    breakerState: State)

  datatype ExecError =
    | DeadlineExceeded
    | CircuitOpen(provider: string)
    | FailoverExhausted
    | Provider(failure: Errors.Failure)

  /** After which the executor looks for another provider. */
  predicate CallsForFailover(e: ExecError) {
    e.CircuitOpen? || (e.Provider? && Errors.IsTransient(e.failure))
  }

  datatype ExecResult = Served(response: Response) | GaveUp(error: ExecError)

  /** How the retry loop at one provider ended. */
  datatype Ending =
    | Completed(usage: Option<Usage>, state: State)
    | Spent(last: Errors.Failure)
    | Permanent(failure: Errors.Failure)
    | OutOfTime

  /** How one round of the failover loop ended. */
  datatype Visit = Refused | Ended(result: ExecResult) | NoLuck(last: Errors.Failure)

  /** What a whole round of the failover loop leads to. */
  datatype Next = Over(result: ExecResult) | Onward(fallback: Candidate, error: ExecError)

  // ---------------------------------------------------------------- vocabulary of the contracts

  /** The providers of an attempt log, ignoring case. */
  function Providers(attempts: seq<AttemptRecord>): set<string> {
    set a | a in attempts :: Lower(a.provider)
  }

  /** The number of the latest attempt at its provider. */
  function LastNumber(attempts: seq<AttemptRecord>): nat {
    if attempts == [] then 0 else attempts[|attempts| - 1].attemptNumber
  }

  /** What an attempt log claims to have happened. */
  function OutcomesOf(attempts: seq<AttemptRecord>): (outcomes: seq<Outcome>)
    ensures |outcomes| == |attempts|
  {
    seq(|attempts|, i requires 0 <= i < |attempts| =>
          Outcome(attempts[i].provider, attempts[i].model, attempts[i].startedAt, attempts[i].error))
  }

  lemma OutcomesAppend(earlier: seq<Outcome>, attempts: seq<AttemptRecord>, log: seq<AttemptRecord>)
    ensures earlier + OutcomesOf(attempts) + OutcomesOf(log) == earlier + OutcomesOf(attempts + log)
  {
  }

  ghost predicate Transient(a: AttemptRecord) {
    a.error.Some? && Errors.IsTransient(a.error.value)
  }

  ghost predicate AllTransient(attempts: seq<AttemptRecord>) {
    forall i :: 0 <= i < |attempts| ==> Transient(attempts[i])
  }

  /** Attempts that fit in `providers` retry loops. */
  function MaxAttempts(maxRetries: nat, providers: nat): nat {
    if providers == 0 then 0 else MaxAttempts(maxRetries, providers - 1) + 1 + maxRetries
  }

  lemma {:induction false} MaxAttemptsIsProduct(maxRetries: nat, providers: nat)
    ensures MaxAttempts(maxRetries, providers) == (1 + maxRetries) * providers
  {
    if providers == 0 {
    } else {
      MaxAttemptsIsProduct(maxRetries, providers - 1);
    }
  }

  lemma {:induction false} MaxAttemptsGrows(maxRetries: nat, fewer: nat, more: nat)
    requires fewer <= more
    ensures MaxAttempts(maxRetries, fewer) <= MaxAttempts(maxRetries, more)
  {
    if fewer == more {
    } else {
      MaxAttemptsGrows(maxRetries, fewer, more - 1);
    }
  }

  /** `log` is what one provider's retry loop recorded. */
  ghost predicate LoopLog(log: seq<AttemptRecord>, provider: string, model: string, isFailover: bool) {
    forall i :: 0 <= i < |log| ==>
      && log[i].provider == provider && log[i].model == model
      && log[i].attemptNumber == i + 1 && log[i].isFailover == isFailover
  }

  /** The attempts of a loop that ended in `e`, given the retry budget. */
  ghost predicate EndsAs(log: seq<AttemptRecord>, e: Ending, maxRetries: nat) {
    && |log| <= 1 + maxRetries
    && match e
       case OutOfTime => AllTransient(log)
       case Spent(f) => |log| == 1 + maxRetries && AllTransient(log) && log[|log| - 1].error == Some(f)
       case Completed(_, _) => log != [] && AllTransient(log[..|log| - 1]) && log[|log| - 1].error == None
       case Permanent(f) =>
         && log != [] && AllTransient(log[..|log| - 1])
         && log[|log| - 1].error == Some(f) && !Errors.IsTransient(f)
  }

  /** The reports after a retry loop: it tells the provider's breaker of success or exhaustion, nothing else. */
  function WithReport(reports: seq<Report>, e: Ending, provider: string): seq<Report> {
    match e
    case Completed(_, _) => reports + [Good(provider)]
    case Spent(f) => reports + [Bad(provider, f)]
    case _ => reports
  }

  /** Every attempt started before the deadline. */
  ghost predicate Timely(attempts: seq<AttemptRecord>, deadline: real) {
    forall i :: 0 <= i < |attempts| ==> attempts[i].startedAt < deadline
  }

  /** No provider is started over: at each of them the attempt numbers only grow. */
  ghost predicate NeverRestarted(attempts: seq<AttemptRecord>) {
    forall i, j :: 0 <= i < j < |attempts| && Lower(attempts[i].provider) == Lower(attempts[j].provider) ==>
      attempts[i].attemptNumber < attempts[j].attemptNumber
  }

  ghost predicate Orderly(attempts: seq<AttemptRecord>, deadline: real) {
    Timely(attempts, deadline) && NeverRestarted(attempts)
  }

  /** A visit added attempts at this provider and model only, and at least one if it called it. */
  ghost predicate Added(earlier: seq<AttemptRecord>, attempts: seq<AttemptRecord>, provider: string, model: string,
                        called: bool) {
    && earlier <= attempts
    && (forall i :: |earlier| <= i < |attempts| ==> attempts[i].provider == provider && attempts[i].model == model)
    && Providers(attempts) == if called then Providers(earlier) + {Lower(provider)} else Providers(earlier)
  }

  lemma LogAdded(earlier: seq<AttemptRecord>, log: seq<AttemptRecord>, provider: string, model: string,
                 isFailover: bool, deadline: real)
    requires log != [] && LoopLog(log, provider, model, isFailover) && Timely(log, deadline)
    requires Orderly(earlier, deadline) && Lower(provider) !in Providers(earlier)
    ensures Orderly(earlier + log, deadline)
    ensures Added(earlier, earlier + log, provider, model, true)
  {
    ProvidersAfterVisit(earlier, log, provider, model, isFailover);
    forall i | 0 <= i < |earlier| ensures Lower(earlier[i].provider) != Lower(provider) {
      assert earlier[i] in earlier;
    }
  }

  /** `ctx` after a retry loop that recorded `log`: every attempt but the first was a retry. */
  function Extended(ctx: Context, log: seq<AttemptRecord>): Context {
    ctx.(attempts := ctx.attempts + log, retryCount := ctx.retryCount + if log == [] then 0 else |log| - 1)
  }

  /** One more record: the loop goes on after a transient failure, and may end in the four ways. */
  lemma RecordStep(ctx: Context, log: seq<AttemptRecord>, record: AttemptRecord, maxRetries: nat)
    requires LoopLog(log, record.provider, record.model, record.isFailover) && AllTransient(log)
    requires |log| <= maxRetries && record.attemptNumber == |log| + 1
    ensures var next := log + [record];
            && LoopLog(next, record.provider, record.model, record.isFailover)
            && Extended(ctx, next) == ctx.(attempts := ctx.attempts + log + [record],
                                           retryCount := ctx.retryCount + |log|)
            && (Transient(record) ==> AllTransient(next))
            && (record.error == None ==> forall u, state :: EndsAs(next, Completed(u, state), maxRetries))
            && (record.error.Some? && !Transient(record) ==> EndsAs(next, Permanent(record.error.value), maxRetries))
            && (Transient(record) && |log| == maxRetries ==> EndsAs(next, Spent(record.error.value), maxRetries))
  {
    var next := log + [record];
    assert next[..|next| - 1] == log;
    assert ctx.attempts + log + [record] == ctx.attempts + next;
  }

  class ReliabilityExecutor {
    const registry: CircuitBreakerRegistry
    const selector: FailoverSelector
    const builder: CandidateBuilder
    const policy: Retry.RetryPolicy
    const timeout: real
    const maxFailoverAttempts: nat

    constructor (registry: CircuitBreakerRegistry, selector: FailoverSelector, builder: CandidateBuilder,
                 policy: Retry.RetryPolicy, timeout: real, maxFailoverAttempts: nat)
      ensures this.registry == registry && this.selector == selector && this.builder == builder && this.policy == policy
      ensures this.timeout == timeout && this.maxFailoverAttempts == maxFailoverAttempts
    {
      this.registry, this.selector, this.builder, this.policy := registry, selector, builder, policy;
      this.timeout, this.maxFailoverAttempts := timeout, maxFailoverAttempts;
    }

    method Ask(provider: string, now: real) returns (admitted: bool)
      requires registry.Valid()
      modifies registry.Repr
      ensures registry.Valid() && fresh(registry.Repr - old(registry.Repr))
      ensures registry.reported == old(registry.reported)
      ensures admitted <==> Admits(At(old(registry.contents), provider), now, registry.config)
    {
      admitted := registry.CanExecute(provider, now);
    }

    /** Tells the breaker of a success and reads the state it is in afterwards. */
    method TellSuccess(provider: string, now: real) returns (state: State)
      requires registry.Valid()
      modifies registry.Repr
      ensures registry.Valid() && fresh(registry.Repr - old(registry.Repr))
      ensures registry.reported == old(registry.reported) + [Good(provider)]
      ensures var b := Succeeded(At(old(registry.contents), provider), now, registry.config);
              state == Resolve(b, now, registry.config).state
    {
      registry.RecordSuccess(provider, now);
      state := registry.GetState(provider, now);
    }

    method Backoff(retry: nat, world: World) returns (delay: real)
      ensures IsBackoff(retry, delay)
    {
      var amount := world.Jitter(0.15 * Retry.CappedDelay(policy, retry));
      delay := Retry.ComputeDelay(policy, retry, amount, selector.round);
      assert JitteredDelay(retry, amount, delay);
    }

    ghost predicate JitteredDelay(retry: nat, amount: real, delay: real) {
      var limit := 0.15 * Retry.CappedDelay(policy, retry);
      && (limit >= 0.0 ==> 0.0 <= amount <= limit)
      && delay == Retry.ComputeDelay(policy, retry, amount, selector.round)
    }

    /** A delay the retry policy can give before retry number `retry`. */
    ghost predicate IsBackoff(retry: nat, delay: real) {
      exists amount :: JitteredDelay(retry, amount, delay)
    }

    /** A backoff lies between the capped delay and 15 percent more, and never beyond the cap. */
    lemma BackoffRange(retry: nat, delay: real)
      requires IsBackoff(retry, delay) && Scorer.Monotone(selector.round)
      requires policy.baseDelay >= 0.0 && policy.maxDelay >= 0.0
      ensures var capped := Retry.CappedDelay(policy, retry);
              && selector.round(capped) <= delay <= selector.round(1.15 * capped)
              && delay <= selector.round(policy.maxDelay)
    {
      var amount :| JitteredDelay(retry, amount, delay);
      Retry.CappedIsNonNegative(policy, retry);
      Retry.BackoffGrowsToCap(policy, retry, amount, selector.round);
      Retry.DelayMeans(policy, retry, amount, selector.round);
    }

    /** Waiting for retry number `retry` would reach the deadline. */
    ghost predicate BackoffTooLong(retry: nat, now: real, deadline: real) {
      exists delay :: IsBackoff(retry, delay) && now + delay >= deadline
    }

    /** The deadline has passed, or the backoff due after `made` attempts at the provider would reach it. */
    ghost predicate NoTimeLeft(now: real, deadline: real, made: nat) {
      now >= deadline || (1 <= made <= policy.maxRetries && BackoffTooLong(made - 1, now, deadline))
    }

    /** Looks up the adapter and calls it, unless the look-up itself raises. */
    method CallProvider(provider: string, model: string, world: World) returns (reply: Reply)
      requires world.Valid() && registry.Valid() && world !in registry.Repr
      modifies world, registry.Repr
      ensures registry.Valid() && fresh(registry.Repr - old(registry.Repr))
      ensures registry.reported == old(registry.reported)
      ensures old(world.now) <= world.now <= old(world.now) + world.maxChat
      ensures old(world.calls) <= world.calls <= old(world.calls) + 1 && world.waited == old(world.waited)
      ensures world.outcomes == old(world.outcomes) + [Outcome(provider, model, old(world.now), ErrorOf(reply))]
      ensures reply.Answer? ==> world.usage == reply.usage
    {
      var refusal := world.LookUp(provider, model);
      if refusal.Some? {
        reply := Raised(refusal.value);
      } else {
        reply := world.Chat(provider, model, registry);
      }
    }

    /** Attempt number `index` and the reports it causes; `None` if there is no time for it. */
    method Attempt(index: nat, deadline: real, provider: string, model: string, world: World)
      returns (reply: Option<Reply>, state: State, startedAt: real)
      requires world.Valid() && registry.Valid() && world !in registry.Repr
      modifies world, registry.Repr
      ensures registry.Valid() && fresh(registry.Repr - old(registry.Repr))
      ensures index == 0 && old(world.now) < deadline ==> reply.Some?
      ensures world.now == old(world.now) || world.now < deadline + world.maxChat
      ensures old(world.calls) <= world.calls <= old(world.calls) + if reply.Some? then 1 else 0
      ensures reply.Some? ==> startedAt < deadline
      ensures index > 0 && reply.Some? ==> IsBackoff(index - 1, world.waited)
      ensures reply.None? ==> world.outcomes == old(world.outcomes)
      ensures reply.None? && index <= policy.maxRetries ==> NoTimeLeft(world.now, deadline, index)
      ensures reply.Some? ==>
                world.outcomes == old(world.outcomes) + [Outcome(provider, model, startedAt, ErrorOf(reply.value))]
      ensures reply.Some? && reply.value.Answer? ==> world.usage == reply.value.usage
      ensures registry.reported ==
                if reply.None? then old(registry.reported)
                else if reply.value.Answer? then old(registry.reported) + [Good(provider)]
                else if Errors.IsTransient(reply.value.failure) && index == policy.maxRetries then
                  old(registry.reported) + [Bad(provider, reply.value.failure)]
                else old(registry.reported)
    {
      state, startedAt := Closed, world.now;
      if world.now >= deadline {
        return None, state, startedAt;
      }
      if index > 0 {
        var delay := Backoff(index - 1, world);
        if world.now + delay >= deadline {
          return None, state, startedAt;
        }
        world.Sleep(delay, registry);
      }
      startedAt := world.now;
      var r := CallProvider(provider, model, world);
      match r {
        case Answer(_) =>
          state := TellSuccess(provider, world.now);
        case Raised(failure) =>
          if Errors.IsTransient(failure) && index == policy.maxRetries {
            registry.RecordFailure(provider, failure, world.now);
          }
      }
      reply := Some(r);
    }

    /** The retry loop at one provider, entered before the deadline; `log` is what it added. */
    method TryProvider(ctx: Context, provider: string, model: string, world: World)
      returns (after: Context, ending: Ending, ghost log: seq<AttemptRecord>)
      requires world.Valid() && registry.Valid() && world !in registry.Repr
      requires world.now < ctx.deadline
      modifies world, registry.Repr
      ensures registry.Valid() && fresh(registry.Repr - old(registry.Repr))
      ensures log != [] && LoopLog(log, provider, model, ctx.failoverTriggered)
      ensures EndsAs(log, ending, policy.maxRetries)
      ensures after == Extended(ctx, log)
      ensures registry.reported == WithReport(old(registry.reported), ending, provider)
      ensures world.outcomes == old(world.outcomes) + OutcomesOf(log)
      ensures ending.Completed? ==> world.usage == ending.usage
      ensures ending.OutOfTime? ==> NoTimeLeft(world.now, ctx.deadline, |log|)
      ensures ending.Permanent? ==>
                var f := ending.failure;
                || f.InvalidModel? || f.InvalidProvider? || f.ProviderDisabled? || f.ProviderAuth?
                || f.ValueError? || f.TypeError? || f.OtherError?
                || (f.ProviderStatus? && f.status !in {429, 500, 502, 503, 504})
      ensures world.calls <= old(world.calls) + |log| && Timely(log, ctx.deadline)
      ensures world.now < ctx.deadline + world.maxChat
    {
      after, log := ctx, [];
      for index := 0 to 1 + policy.maxRetries
        invariant registry.Valid() && fresh(registry.Repr - old(registry.Repr))
        invariant registry.reported == old(registry.reported)
        invariant |log| == index <= policy.maxRetries
        invariant LoopLog(log, provider, model, ctx.failoverTriggered) && AllTransient(log)
        invariant after == Extended(ctx, log)
        invariant world.outcomes == old(world.outcomes) + OutcomesOf(log)
        invariant world.calls <= old(world.calls) + index && Timely(log, ctx.deadline)
        invariant world.now < ctx.deadline + world.maxChat
        invariant index == 0 ==> world.now < ctx.deadline
      {
        var reply, state, startedAt := Attempt(index, ctx.deadline, provider, model, world);
        if reply.None? {
          return after, OutOfTime, log;
        }
        var record := AttemptRecord(provider, model, index + 1, ctx.failoverTriggered, startedAt, ErrorOf(reply.value));
        assert OutcomesOf([record]) == [Outcome(provider, model, startedAt, ErrorOf(reply.value))];
        OutcomesAppend(old(world.outcomes), log, [record]);
        RecordStep(ctx, log, record, policy.maxRetries);
        after := after.(attempts := after.attempts + [record], retryCount := ctx.retryCount + index);
        log := log + [record];
        if reply.value.Answer? {
          return after, Completed(reply.value.usage, state), log;
        }
        if !Errors.IsTransient(reply.value.failure) {
          Errors.TransientPartition(reply.value.failure);
          return after, Permanent(reply.value.failure), log;
        }
        if index == policy.maxRetries {
          return after, Spent(reply.value.failure), log;
        }
      }
      assert false;
    }

    ghost predicate Ready(world: World)
      reads registry, registry.Repr
    {
      && world.Valid() && registry.Valid() && registry.config.Valid()
      && world !in registry.Repr && builder !in registry.Repr
    }

    /** How this executor's selector chooses for a request. */
    ghost function RuleFor(request: ChatRequest): Rule
      requires ResolveMode(request, selector.defaultMode).Some?
    {
      Rule(request, selector.weightsOf(ResolveMode(request, selector.defaultMode).value), selector.round,
           registry.config)
    }

    /** Failover is off, the cap is reached, or the last selection of the request picked nobody. */
    ghost predicate NobodyLeft(request: ChatRequest, ctx: Context, error: ExecError, mine: seq<Selection>) {
      || request.failoverEnabled == Some(false)
      || (error.Provider? && ctx.failoverAttempts >= maxFailoverAttempts)
      || ctx.failoverAttempts > maxFailoverAttempts
      || (mine != [] && mine[|mine| - 1].picked == None)
    }

    /** `s` was made in this very moment, excluding `attempted`, and picked `fallback`. */
    ghost predicate SelectedNow(s: Selection, attempted: set<string>, fallback: Option<Candidate>, world: World)
      reads world, registry
    {
      && s.attempted == attempted && s.picked == fallback
      && s.after == registry.contents && s.discovery.at == world.now
      && (fallback.Some? ==> Lower(fallback.value.provider) !in attempted)
    }

    /** Waits for the candidates and lets the selector choose among those not tried yet. */
    method PickFallback(request: ChatRequest, attempted: set<string>, world: World)
      returns (fallback: Option<Candidate>, ghost s: Selection)
      requires Ready(world)
      requires ResolveMode(request, selector.defaultMode).Some?
      requires forall p :: p in attempted ==> Lower(p) == p
      modifies world`now, builder, registry.Repr
      ensures registry.Valid() && fresh(registry.Repr - old(registry.Repr))
      ensures registry.reported == old(registry.reported)
      ensures old(world.now) <= world.now <= old(world.now) + world.maxDiscovery
      ensures builder.discoveries == old(builder.discoveries) + [s.discovery] && WellChosen(s, RuleFor(request))
      ensures SelectedNow(s, attempted, fallback, world)
    {
      var discovered := builder.BuildCandidates(world, registry);
      ghost var discovery := Discovery(discovered, registry.contents, world.now);
      fallback := selector.SelectFallback(request, attempted, discovered, registry, world.now);
      s := Selection(attempted, discovery, fallback, registry.contents);
      if fallback.Some? {
        PickIsNew(s, RuleFor(request));
      }
    }

    /**
     The fallback to turn to, unless failover is off, used up, or finds nobody. `base` are the discoveries
     before the request, `before` and `mine` the request's selections before and after the call.
     */
    method NextProvider(request: ChatRequest, ctx: Context, capped: bool, initial: Target, world: World,
                        ghost base: seq<Discovery>, ghost before: seq<Selection>)
      returns (fallback: Option<Candidate>, ghost mine: seq<Selection>)
      requires Ready(world)
      requires ResolveMode(request, selector.defaultMode).Some?
      requires forall p :: p in ctx.attempted ==> Lower(p) == p
      requires Arrived(initial, before, ctx.attempted)
      requires builder.discoveries == base + DiscoveriesOf(before) && AllChosen(before, RuleFor(request))
      modifies world`now, builder, registry.Repr
      ensures registry.Valid() && fresh(registry.Repr - old(registry.Repr))
      ensures registry.reported == old(registry.reported)
      ensures old(world.now) <= world.now <= old(world.now) + world.maxDiscovery
      ensures builder.discoveries == base + DiscoveriesOf(mine) && AllChosen(mine, RuleFor(request))
      ensures if request.failoverEnabled == Some(false) || (capped && ctx.failoverAttempts >= maxFailoverAttempts) then
                fallback == None && mine == before
              else
                exists s :: mine == before + [s] && SelectedNow(s, ctx.attempted, fallback, world)
      ensures fallback.Some? ==> Lower(fallback.value.provider) !in ctx.attempted
    {
      mine := before;
      if request.failoverEnabled == Some(false) || (capped && ctx.failoverAttempts >= maxFailoverAttempts) {
        return None, mine;
      }
      ghost var s;
      fallback, s := PickFallback(request, ctx.attempted, world);
      ChosenAppend(before, s, RuleFor(request));
      mine := before + [s];
      DiscoveriesAppend(base, before, s);
    }

    /** A result that ends the request at once: an answer, a permanent failure, or no time left. */
    ghost predicate Final(result: ExecResult, ctx: Context, world: World)
      reads world
    {
      match result
      case Served(response) => response.usage == world.usage
      case GaveUp(DeadlineExceeded) => NoTimeLeft(world.now, ctx.deadline, LastNumber(ctx.attempts))
      case GaveUp(Provider(failure)) => !Errors.IsTransient(failure)
      case GaveUp(_) => false
    }

    /** The visit to a provider whose breaker said yes. `base` is what was reported before the request. */
    method VisitOpen(ctx: Context, provider: string, model: string, initial: string, world: World,
                     ghost base: seq<Report>, ghost reports: seq<Report>, ghost earlier: seq<Outcome>)
      returns (after: Context, visit: Visit, ghost told: seq<Report>)
      requires world.Valid() && registry.Valid() && world !in registry.Repr
      requires world.now < ctx.deadline
      requires Between(ctx, provider, initial, policy.maxRetries, reports)
      requires ctx.failoverAttempts <= maxFailoverAttempts
      requires registry.reported == base + reports && world.outcomes == earlier + OutcomesOf(ctx.attempts)
      requires Orderly(ctx.attempts, ctx.deadline)
      modifies world, registry.Repr
      ensures registry.Valid() && fresh(registry.Repr - old(registry.Repr))
      ensures registry.reported == base + told && world.outcomes == earlier + OutcomesOf(after.attempts)
      ensures !visit.Refused? && (visit.Ended? ==> Final(visit.result, after, world))
      ensures after.deadline == ctx.deadline && after.failoverAttempts == ctx.failoverAttempts
      ensures after.attempted == ctx.attempted + {Lower(provider)}
      ensures Added(ctx.attempts, after.attempts, provider, model, true)
      ensures world.calls <= old(world.calls) + |after.attempts| - |ctx.attempts|
      ensures Orderly(after.attempts, ctx.deadline)
      ensures world.now < ctx.deadline + world.maxChat
      ensures VisitedWell(after, visit, initial, policy.maxRetries, maxFailoverAttempts, told)
    {
      ghost var log;
      var ending: Ending;
      after := ctx.(attempted := ctx.attempted + {Lower(provider)});
      after, ending, log := TryProvider(after, provider, model, world);
      visit := VisitOf(ending, after, provider, model);
      told := WithReport(reports, ending, provider);
      assert WithReport(base + reports, ending, provider) == base + told;
      OutcomesAppend(earlier, ctx.attempts, log);
      VisitDone(ctx, after, log, provider, model, initial, policy.maxRetries, reports, ending, maxFailoverAttempts);
    }

    /** One round of the failover loop: ask the breaker, then try the provider. */
    method Visit(ctx: Context, provider: string, model: string, initial: string, world: World,
                 ghost base: seq<Report>, ghost reports: seq<Report>, ghost earlier: seq<Outcome>)
      returns (after: Context, visit: Visit, ghost told: seq<Report>)
      requires world.Valid() && registry.Valid() && world !in registry.Repr
      requires world.now < ctx.deadline
      requires Between(ctx, provider, initial, policy.maxRetries, reports)
      requires ctx.failoverAttempts <= maxFailoverAttempts
      requires registry.reported == base + reports && world.outcomes == earlier + OutcomesOf(ctx.attempts)
      requires Orderly(ctx.attempts, ctx.deadline)
      modifies world, registry.Repr
      ensures registry.Valid() && fresh(registry.Repr - old(registry.Repr))
      ensures registry.reported == base + told && world.outcomes == earlier + OutcomesOf(after.attempts)
      ensures visit.Refused? <==> !Admits(At(old(registry.contents), provider), old(world.now), registry.config)
      ensures visit.Ended? ==> Final(visit.result, after, world)
      ensures after.deadline == ctx.deadline && after.failoverAttempts == ctx.failoverAttempts
      ensures after.attempted == ctx.attempted + {Lower(provider)}
      ensures Added(ctx.attempts, after.attempts, provider, model, !visit.Refused?)
      ensures world.calls <= old(world.calls) + |after.attempts| - |ctx.attempts|
      ensures Orderly(after.attempts, ctx.deadline)
      ensures world.now < ctx.deadline + world.maxChat
      ensures VisitedWell(after, visit, initial, policy.maxRetries, maxFailoverAttempts, told)
    {
      var admitted := Ask(provider, world.now);
      if admitted {
        after, visit, told := VisitOpen(ctx, provider, model, initial, world, base, reports, earlier);
      } else {
        after := ctx.(attempted := ctx.attempted + {Lower(provider)});
        VisitRefused(ctx, after, provider, initial, policy.maxRetries, reports);
        return after, Refused, reports;
      }
    }

    /** Why a result is the final one. */
    ghost predicate Conclusive(request: ChatRequest, result: ExecResult, ctx: Context, mine: seq<Selection>,
                               world: World)
      reads world
    {
      || Final(result, ctx, world)
      || (result.GaveUp? && CallsForFailover(result.error) && NobodyLeft(request, ctx, result.error, mine))
    }

    /** Moves on from a provider that brought nothing but `error`, if there is somebody to move on to. */
    method TurnFrom(request: ChatRequest, ctx: Context, error: ExecError, capped: bool, initial: Target, world: World,
                    ghost told: seq<Report>, ghost base: seq<Discovery>, ghost before: seq<Selection>, ghost open: bool)
      returns (after: Context, next: Next, ghost mine: seq<Selection>)
      requires Ready(world)
      requires ResolveMode(request, selector.defaultMode).Some?
      requires Left(ctx, initial.provider, policy.maxRetries, told) && ctx.failoverAttempts <= maxFailoverAttempts
      requires Explains(error, ctx) && CallsForFailover(error) && capped == error.Provider?
      requires Arriving(ctx, initial, before, open, registry.config)
      requires builder.discoveries == base + DiscoveriesOf(before) && AllChosen(before, RuleFor(request))
      modifies world`now, builder, registry.Repr
      ensures registry.Valid() && fresh(registry.Repr - old(registry.Repr))
      ensures registry.reported == old(registry.reported)
      ensures old(world.now) <= world.now <= old(world.now) + world.maxDiscovery
      ensures after.deadline == ctx.deadline && after.attempts == ctx.attempts
      ensures builder.discoveries == base + DiscoveriesOf(mine) && AllChosen(mine, RuleFor(request))
      ensures request.failoverEnabled == Some(false) ==> mine == before
      ensures match next
              case Over(result) =>
                && after == ctx && result == GaveUp(error)
                && Settled(result, after, initial.provider, policy.maxRetries, maxFailoverAttempts, told)
                && NobodyLeft(request, after, error, mine) && Toured(after, initial, mine, open, registry.config)
              case Onward(fallback, e) =>
                && after.failoverAttempts == ctx.failoverAttempts + 1 && request.failoverEnabled != Some(false)
                && Between(after, fallback.provider, initial.provider, policy.maxRetries, told)
                && e == error && Explains(e, after)
                && Leaving(after, initial, TargetOf(fallback), mine, open, registry.contents, world.now,
                           registry.config)
    {
      var fallback;
      fallback, mine := NextProvider(request, ctx, capped, initial, world, base, before);
      if mine == before {
        ArrivingTours(ctx, initial, before, open, registry.config);
      } else {
        ghost var s :| mine == before + [s] && SelectedNow(s, ctx.attempted, fallback, world);
        SelectionLeaves(ctx, initial, before, s, open, registry.config);
      }
      if fallback.None? {
        LeftSettles(ctx, initial.provider, policy.maxRetries, told, error, maxFailoverAttempts);
        return ctx, Over(GaveUp(error)), mine;
      }
      Advance(ctx, fallback.value.provider, initial.provider, policy.maxRetries, told, error);
      return Turned(ctx), Onward(fallback.value, error), mine;
    }

    /** A visit to where the path leads. */
    method VisitNext(ctx: Context, target: Target, initial: Target, world: World,
                     ghost base: seq<Report>, ghost reports: seq<Report>, ghost earlier: seq<Outcome>,
                     ghost mine: seq<Selection>, ghost open: bool)
      returns (after: Context, visit: Visit, ghost told: seq<Report>)
      requires world.Valid() && registry.Valid() && world !in registry.Repr
      requires world.now < ctx.deadline
      requires Between(ctx, target.provider, initial.provider, policy.maxRetries, reports)
      requires ctx.failoverAttempts <= maxFailoverAttempts
      requires registry.reported == base + reports && world.outcomes == earlier + OutcomesOf(ctx.attempts)
      requires Orderly(ctx.attempts, ctx.deadline)
      requires Leaving(ctx, initial, target, mine, open, registry.contents, world.now, registry.config)
      modifies world, registry.Repr
      ensures registry.Valid() && fresh(registry.Repr - old(registry.Repr))
      ensures registry.reported == base + told && world.outcomes == earlier + OutcomesOf(after.attempts)
      ensures visit.Ended? ==> Final(visit.result, after, world)
      ensures visit.NoLuck? ==> Errors.IsTransient(visit.last)
      ensures after.deadline == ctx.deadline && after.failoverAttempts == ctx.failoverAttempts
      ensures |after.attempts| >= |ctx.attempts|
      ensures world.calls <= old(world.calls) + |after.attempts| - |ctx.attempts|
      ensures Orderly(after.attempts, ctx.deadline)
      ensures world.now < ctx.deadline + world.maxChat
      ensures VisitedWell(after, visit, initial.provider, policy.maxRetries, maxFailoverAttempts, told)
      ensures Arriving(after, initial, mine, open, registry.config)
    {
      ghost var contents, now := registry.contents, world.now;
      after, visit, told := Visit(ctx, target.provider, target.model, initial.provider, world, base, reports, earlier);
      VisitArrives(ctx, after, initial, target, mine, open, contents, now, !visit.Refused?, registry.config);
      if visit.NoLuck? {
        assert Transient(after.attempts[|after.attempts| - 1]);
      }
    }

    /** A visit and, when it brought nothing, the choice of the next provider. */
    method Round(request: ChatRequest, ctx: Context, target: Target, initial: Target, world: World,
                 ghost base: seq<Report>, ghost reports: seq<Report>, ghost earlier: seq<Outcome>,
                 ghost past: seq<Discovery>, ghost before: seq<Selection>, ghost open: bool)
      returns (after: Context, next: Next, ghost told: seq<Report>, ghost mine: seq<Selection>)
      requires Ready(world)
      requires ResolveMode(request, selector.defaultMode).Some?
      requires world.now < ctx.deadline
      requires Between(ctx, target.provider, initial.provider, policy.maxRetries, reports)
      requires ctx.failoverAttempts <= maxFailoverAttempts
      requires registry.reported == base + reports && world.outcomes == earlier + OutcomesOf(ctx.attempts)
      requires Orderly(ctx.attempts, ctx.deadline)
      requires Leaving(ctx, initial, target, before, open, registry.contents, world.now, registry.config)
      requires builder.discoveries == past + DiscoveriesOf(before) && AllChosen(before, RuleFor(request))
      modifies world, builder, registry.Repr
      ensures registry.Valid() && fresh(registry.Repr - old(registry.Repr))
      ensures registry.reported == base + told && world.outcomes == earlier + OutcomesOf(after.attempts)
      ensures after.deadline == ctx.deadline && |after.attempts| >= |ctx.attempts|
      ensures world.calls <= old(world.calls) + |after.attempts| - |ctx.attempts|
      ensures Orderly(after.attempts, ctx.deadline)
      ensures world.now < ctx.deadline + world.maxChat + world.maxDiscovery
      ensures builder.discoveries == past + DiscoveriesOf(mine) && AllChosen(mine, RuleFor(request))
      ensures request.failoverEnabled == Some(false) ==> mine == before
      ensures match next
              case Over(result) =>
                && after.failoverAttempts == ctx.failoverAttempts
                && Settled(result, after, initial.provider, policy.maxRetries, maxFailoverAttempts, told)
                && Conclusive(request, result, after, mine, world)
                && Toured(after, initial, mine, open, registry.config)
              case Onward(fallback, error) =>
                && after.failoverAttempts == ctx.failoverAttempts + 1 && request.failoverEnabled != Some(false)
                && Between(after, fallback.provider, initial.provider, policy.maxRetries, told)
                && Explains(error, after) && CallsForFailover(error)
                && Leaving(after, initial, TargetOf(fallback), mine, open, registry.contents, world.now,
                           registry.config)
    {
      var visit: Visit;
      after, visit, told := VisitNext(ctx, target, initial, world, base, reports, earlier, before, open);
      if visit.Ended? {
        ArrivingTours(after, initial, before, open, registry.config);
        return after, Over(visit.result), told, before;
      }
      var error := if visit.Refused? then CircuitOpen(target.provider) else Provider(visit.last);
      // Only a provider that was really tried makes the executor look at the cap first.
      after, next, mine := TurnFrom(request, after, error, visit.NoLuck?, initial, world, told, past, before, open);
    }

    /** Between two providers the request can end with any error that fits. */
    lemma Halt(ctx: Context, initial: Target, target: Target, mine: seq<Selection>, open: bool,
               contents: Breakers, now: real, reports: seq<Report>, error: ExecError)
      requires Between(ctx, target.provider, initial.provider, policy.maxRetries, reports) && Explains(error, ctx)
      requires ctx.failoverAttempts <= maxFailoverAttempts + 1
      requires Leaving(ctx, initial, target, mine, open, contents, now, registry.config)
      ensures Settled(GaveUp(error), ctx, initial.provider, policy.maxRetries, maxFailoverAttempts, reports)
      ensures Toured(ctx, initial, mine, open, registry.config)
    {
      BetweenSettles(ctx, target.provider, initial.provider, policy.maxRetries, reports, maxFailoverAttempts, error);
      LeavingTours(ctx, initial, target, mine, open, contents, now, registry.config);
    }

    /** One iteration of the failover loop: nothing is visited at or after the deadline. */
    method Iteration(request: ChatRequest, ctx: Context, target: Target, initial: Target, world: World,
                     ghost base: seq<Report>, ghost reports: seq<Report>, ghost earlier: seq<Outcome>,
                     ghost past: seq<Discovery>, ghost before: seq<Selection>, ghost open: bool)
      returns (after: Context, next: Next, ghost told: seq<Report>, ghost mine: seq<Selection>)
      requires Ready(world)
      requires ResolveMode(request, selector.defaultMode).Some?
      requires Between(ctx, target.provider, initial.provider, policy.maxRetries, reports)
      requires ctx.failoverAttempts <= maxFailoverAttempts
      requires registry.reported == base + reports && world.outcomes == earlier + OutcomesOf(ctx.attempts)
      requires Orderly(ctx.attempts, ctx.deadline)
      requires Leaving(ctx, initial, target, before, open, registry.contents, world.now, registry.config)
      requires builder.discoveries == past + DiscoveriesOf(before) && AllChosen(before, RuleFor(request))
      modifies world, builder, registry.Repr
      ensures registry.Valid() && fresh(registry.Repr - old(registry.Repr))
      ensures registry.reported == base + told && world.outcomes == earlier + OutcomesOf(after.attempts)
      ensures after.deadline == ctx.deadline && |after.attempts| >= |ctx.attempts|
      ensures world.calls <= old(world.calls) + |after.attempts| - |ctx.attempts|
      ensures Orderly(after.attempts, ctx.deadline)
      ensures world.now == old(world.now) || world.now < ctx.deadline + world.maxChat + world.maxDiscovery
      ensures builder.discoveries == past + DiscoveriesOf(mine) && AllChosen(mine, RuleFor(request))
      ensures request.failoverEnabled == Some(false) ==> mine == before
      ensures match next
              case Over(result) =>
                && after.failoverAttempts == ctx.failoverAttempts
                && Settled(result, after, initial.provider, policy.maxRetries, maxFailoverAttempts, told)
                && Conclusive(request, result, after, mine, world)
                && Toured(after, initial, mine, open, registry.config)
              case Onward(fallback, error) =>
                && after.failoverAttempts == ctx.failoverAttempts + 1 && request.failoverEnabled != Some(false)
                && Between(after, fallback.provider, initial.provider, policy.maxRetries, told)
                && Explains(error, after) && CallsForFailover(error)
                && Leaving(after, initial, TargetOf(fallback), mine, open, registry.contents, world.now,
                           registry.config)
    {
      if world.now >= ctx.deadline {
        Halt(ctx, initial, target, before, open, registry.contents, world.now, reports, DeadlineExceeded);
        return ctx, Over(GaveUp(DeadlineExceeded)), reports, before;
      }
      after, next, told, mine := Round(request, ctx, target, initial, world, base, reports, earlier, past, before,
                                       open);
    }

    /** The loop over the providers, from the first on. */
    method FailOver(request: ChatRequest, start: Context, initial: Target, world: World, ghost open: bool)
      returns (result: ExecResult, ctx: Context, ghost reports: seq<Report>, ghost mine: seq<Selection>)
      requires Ready(world) && ResolveMode(request, selector.defaultMode).Some?
      requires start == Context(start.deadline, start.original, {}, [], 0, 0, false)
      requires Between(start, initial.provider, initial.provider, policy.maxRetries, [])
      requires Leaving(start, initial, initial, [], open, registry.contents, world.now, registry.config)
      modifies world, builder, registry.Repr
      ensures registry.Valid() && fresh(registry.Repr - old(registry.Repr))
      ensures Settled(result, ctx, initial.provider, policy.maxRetries, maxFailoverAttempts, reports)
      ensures Conclusive(request, result, ctx, mine, world)
      ensures registry.reported == old(registry.reported) + reports
      ensures world.outcomes == old(world.outcomes) + OutcomesOf(ctx.attempts)
      ensures world.calls <= old(world.calls) + |ctx.attempts|
      ensures builder.discoveries == old(builder.discoveries) + DiscoveriesOf(mine) && AllChosen(mine, RuleFor(request))
      ensures Toured(ctx, initial, mine, open, registry.config)
      ensures request.failoverEnabled == Some(false) ==> mine == []
      ensures ctx.deadline == start.deadline && Orderly(ctx.attempts, ctx.deadline)
      ensures world.now == old(world.now) || world.now < ctx.deadline + world.maxChat + world.maxDiscovery
    {
      ctx, reports, mine := start, [], [];
      var target := initial;
      var lastError: Option<ExecError> := None;
      while ctx.failoverAttempts <= maxFailoverAttempts
        invariant registry.Valid() && fresh(registry.Repr - old(registry.Repr))
        invariant registry.reported == old(registry.reported) + reports
        invariant world.outcomes == old(world.outcomes) + OutcomesOf(ctx.attempts)
        invariant Between(ctx, target.provider, initial.provider, policy.maxRetries, reports)
        invariant ctx.failoverAttempts <= maxFailoverAttempts + 1
        invariant ctx.deadline == start.deadline
        invariant request.failoverEnabled == Some(false) ==> mine == []
        invariant ctx.failoverAttempts > 0 ==>
                    && lastError.Some? && Explains(lastError.value, ctx)
                    && CallsForFailover(lastError.value)
        invariant world.calls <= old(world.calls) + |ctx.attempts| && Orderly(ctx.attempts, ctx.deadline)
        invariant world.now == old(world.now) || world.now < ctx.deadline + world.maxChat + world.maxDiscovery
        invariant builder.discoveries == old(builder.discoveries) + DiscoveriesOf(mine)
        invariant AllChosen(mine, RuleFor(request))
        invariant Leaving(ctx, initial, target, mine, open, registry.contents, world.now, registry.config)
        decreases maxFailoverAttempts + 1 - ctx.failoverAttempts
      {
        var next: Next;
        ctx, next, reports, mine := Iteration(request, ctx, target, initial, world, old(registry.reported), reports,
                                              old(world.outcomes), old(builder.discoveries), mine, open);
        match next {
          case Over(outcome) =>
            return outcome, ctx, reports, mine;
          case Onward(fallback, error) =>
            lastError := Some(error);
            target := TargetOf(fallback);
        }
      }
      if lastError.Some? {
        Halt(ctx, initial, target, mine, open, registry.contents, world.now, reports, lastError.value);
        return GaveUp(lastError.value), ctx, reports, mine;
      }
      return GaveUp(FailoverExhausted), ctx, reports, mine;
    }

    /**
     `reports` are what the request told the breakers, and `mine` its selections.
     */
    method Execute(request: ChatRequest, initialProvider: string, initialModel: string, world: World)
      returns (result: ExecResult, ctx: Context, ghost reports: seq<Report>, ghost mine: seq<Selection>)
      requires Ready(world) && ResolveMode(request, selector.defaultMode).Some?
      modifies world, builder, registry.Repr
      ensures registry.Valid() && fresh(registry.Repr - old(registry.Repr))
      // Whatever the providers, the clock and the other requests do.
      ensures Settled(result, ctx, initialProvider, policy.maxRetries, maxFailoverAttempts, reports)
      ensures Conclusive(request, result, ctx, mine, world)
      ensures result.GaveUp? && result.error.Provider? ==>
                var f := result.error.failure;
                (|| f.ProviderTimeout? || f.ProviderUnavailable? || f.ProviderRateLimit? || f.NetworkError?
                 || (f.ProviderStatus? && f.status in {429, 500, 502, 503, 504})) ==>
                  NobodyLeft(request, ctx, result.error, mine)
      ensures registry.reported == old(registry.reported) + reports
      ensures world.outcomes == old(world.outcomes) + OutcomesOf(ctx.attempts)
      ensures world.calls <= old(world.calls) + |ctx.attempts|
      // The way from provider to provider.
      ensures builder.discoveries == old(builder.discoveries) + DiscoveriesOf(mine) && AllChosen(mine, RuleFor(request))
      ensures Toured(ctx, Target(initialProvider, initialModel), mine,
                     Admits(At(old(registry.contents), initialProvider), old(world.now), registry.config),
                     registry.config)
      ensures DistinctProviders(PathOf(Target(initialProvider, initialModel), mine))
      ensures request.failoverEnabled == Some(false) ==> mine == []
      // Time.
      ensures ctx.deadline == old(world.now) + timeout && Orderly(ctx.attempts, ctx.deadline)
      ensures world.now == old(world.now) || world.now < ctx.deadline + world.maxChat + world.maxDiscovery
    {
      var start := Context(world.now + timeout, initialProvider, {}, [], 0, 0, false);
      ghost var open := Admits(At(registry.contents, initialProvider), world.now, registry.config);
      var initial := Target(initialProvider, initialModel);
      Start(start, initialProvider, policy.maxRetries);
      StartLeaves(start, initial, open, registry.contents, world.now, registry.config);
      result, ctx, reports, mine := FailOver(request, start, initial, world, open);
      PathIsDistinct(initial, mine);
      if result.GaveUp? && result.error.Provider? {
        Errors.TransientPartition(result.error.failure);
      }
    }
  }

  // ---------------------------------------------------------------- the way from provider to provider

  /** Every attempt was made at a target of the path. */
  ghost predicate OnPath(attempts: seq<AttemptRecord>, path: seq<Target>) {
    forall i :: 0 <= i < |attempts| ==> Target(attempts[i].provider, attempts[i].model) in path
  }

  /** About to visit `next`: the last selection has just picked it, and all earlier picks are settled. */
  ghost predicate Leaving(ctx: Context, initial: Target, next: Target, mine: seq<Selection>, open: bool,
                          contents: Breakers, now: real, c: Config)
  {
    && Heading(initial, mine, ctx.attempted, next) && |mine| == ctx.failoverAttempts
    && OnPath(ctx.attempts, PathOf(initial, mine))
    && if mine == [] then ctx.attempts == [] && (open <==> Admits(At(contents, initial.provider), now, c))
       else
         && mine[|mine| - 1].after == contents && mine[|mine| - 1].discovery.at == now
         && CalledIfReadmitted(mine, |mine| - 1, Providers(ctx.attempts), c)
         && (Lower(initial.provider) in Providers(ctx.attempts) <==> open)
  }

  /** Every pick so far was visited. */
  ghost predicate Arriving(ctx: Context, initial: Target, mine: seq<Selection>, open: bool, c: Config) {
    && Arrived(initial, mine, ctx.attempted) && |mine| == ctx.failoverAttempts
    && OnPath(ctx.attempts, PathOf(initial, mine))
    && CalledIfReadmitted(mine, |mine|, Providers(ctx.attempts), c)
    && (Lower(initial.provider) in Providers(ctx.attempts) <==> open)
  }

  /**
   The way of a finished request. Each failover followed one pick, at most one further selection picked
   nobody, and all attempts were made along the path. Of the visited providers exactly those were called
   that their breakers admitted: all of the path, or all but a last pick that was never turned to.
   */
  ghost predicate Toured(ctx: Context, initial: Target, mine: seq<Selection>, open: bool, c: Config) {
    && Trail(initial, mine)
    && (|mine| == ctx.failoverAttempts || (|mine| == ctx.failoverAttempts + 1 && mine[|mine| - 1].picked == None))
    && (forall i :: 0 <= i < ctx.failoverAttempts ==> mine[i].picked.Some?)
    && OnPath(ctx.attempts, PathOf(initial, mine))
    && (|| (&& ctx.attempted == NamesOf(PathOf(initial, mine))
            && CalledIfReadmitted(mine, ctx.failoverAttempts, Providers(ctx.attempts), c)
            && (Lower(initial.provider) in Providers(ctx.attempts) <==> open))
        || (mine == [] && ctx.attempted == {} && ctx.attempts == [])
        || (&& mine != [] && |mine| == ctx.failoverAttempts && ctx.attempted == mine[|mine| - 1].attempted
            && CalledIfReadmitted(mine, |mine| - 1, Providers(ctx.attempts), c)
            && (Lower(initial.provider) in Providers(ctx.attempts) <==> open)))
  }

  lemma StartLeaves(ctx: Context, initial: Target, open: bool, contents: Breakers, now: real, c: Config)
    requires ctx == Context(ctx.deadline, ctx.original, {}, [], 0, 0, false)
    requires open <==> Admits(At(contents, initial.provider), now, c)
    ensures Leaving(ctx, initial, initial, [], open, contents, now, c) && Orderly(ctx.attempts, ctx.deadline)
  {
  }

  lemma LeavingTours(ctx: Context, initial: Target, next: Target, mine: seq<Selection>, open: bool,
                     contents: Breakers, now: real, c: Config)
    requires Leaving(ctx, initial, next, mine, open, contents, now, c)
    ensures Toured(ctx, initial, mine, open, c)
  {
  }

  lemma ArrivingTours(ctx: Context, initial: Target, mine: seq<Selection>, open: bool, c: Config)
    requires Arriving(ctx, initial, mine, open, c)
    ensures Toured(ctx, initial, mine, open, c)
  {
  }

  /** A visit that called its target exactly when the breaker admitted it settles the latest pick. */
  lemma VisitArrives(head: Context, ctx: Context, initial: Target, next: Target, mine: seq<Selection>, open: bool,
                     contents: Breakers, now: real, called: bool, c: Config)
    requires Leaving(head, initial, next, mine, open, contents, now, c)
    requires Providers(head.attempts) <= head.attempted && Lower(next.provider) !in head.attempted
    requires ctx.attempted == head.attempted + {Lower(next.provider)} && ctx.failoverAttempts == head.failoverAttempts
    requires Added(head.attempts, ctx.attempts, next.provider, next.model, called)
    requires called <==> Admits(At(contents, next.provider), now, c)
    ensures Arriving(ctx, initial, mine, open, c)
  {
    Arrive(initial, mine, head.attempted, next);
    if mine == [] {
    } else {
      VisitSettlesPick(initial, mine, Providers(head.attempts), called, c);
      InitialIsAttempted(initial, mine);
    }
  }

  lemma InitialIsAttempted(initial: Target, mine: seq<Selection>)
    requires Trail(initial, mine) && mine != []
    ensures Lower(initial.provider) in mine[|mine| - 1].attempted
  {
    InitialIsOnPath(initial, mine[..|mine| - 1]);
  }

  lemma {:induction false} InitialIsOnPath(initial: Target, mine: seq<Selection>)
    ensures initial in PathOf(initial, mine) && Lower(initial.provider) in NamesOf(PathOf(initial, mine))
  {
    if mine == [] {
    } else {
      InitialIsOnPath(initial, mine[..|mine| - 1]);
    }
  }

  /** A selection from where the request has arrived: it leaves for the pick, or has toured. */
  lemma SelectionLeaves(ctx: Context, initial: Target, mine: seq<Selection>, s: Selection, open: bool, c: Config)
    requires Arriving(ctx, initial, mine, open, c) && s.attempted == ctx.attempted
    requires s.picked.Some? ==> Lower(s.picked.value.provider) !in ctx.attempted
    ensures s.picked.None? ==> Toured(ctx, initial, mine + [s], open, c)
    ensures s.picked.Some? ==>
              Leaving(Turned(ctx), initial, TargetOf(s.picked.value), mine + [s], open, s.after, s.discovery.at, c)
  {
    var next := mine + [s];
    Select(initial, mine, s);
    assert next[..|mine|] == mine && next[|mine|] == s;
    if s.picked.None? {
      assert PathOf(initial, mine) + [] == PathOf(initial, mine);
    }
  }

  // ---------------------------------------------------------------- what holds between two providers

  /** One failure report for each of the providers, and nothing else. */
  ghost predicate OneFailureEach(reports: seq<Report>, providers: set<string>) {
    && |reports| == |providers|
    && (forall r :: r in reports ==> r.Bad? && Errors.IsTransient(r.failure))
    && (set r | r in reports :: Lower(r.provider)) == providers
  }

  /** The error the executor would end with fits what was tried last. */
  ghost predicate Explains(error: ExecError, ctx: Context) {
    && !error.FailoverExhausted?
    && (error.Provider? ==> ctx.attempts != [] && ctx.attempts[|ctx.attempts| - 1].error == Some(error.failure))
  }

  /** The state in which the executor turns to provider `next`: everybody called so far was exhausted. */
  ghost predicate Between(ctx: Context, next: string, initial: string, maxRetries: nat, reports: seq<Report>) {
    && AllTransient(ctx.attempts)
    && Providers(ctx.attempts) <= ctx.attempted
    && (forall p :: p in ctx.attempted ==> Lower(p) == p)
    && Lower(next) !in ctx.attempted
    && |ctx.attempted| == ctx.failoverAttempts
    && (ctx.failoverTriggered <==> ctx.failoverAttempts > 0)
    && (if ctx.failoverAttempts == 0 then next == initial else Lower(initial) in ctx.attempted)
    && |ctx.attempts| == ctx.retryCount + |Providers(ctx.attempts)|
    && |ctx.attempts| <= MaxAttempts(maxRetries, |Providers(ctx.attempts)|)
    && OneFailureEach(reports, Providers(ctx.attempts))
  }

  /** The state in which a provider was left without a result, and the next one is still to be chosen. */
  ghost predicate Left(ctx: Context, initial: string, maxRetries: nat, reports: seq<Report>) {
    && AllTransient(ctx.attempts)
    && Providers(ctx.attempts) <= ctx.attempted
    && (forall p :: p in ctx.attempted ==> Lower(p) == p)
    && |ctx.attempted| == ctx.failoverAttempts + 1
    && Lower(initial) in ctx.attempted
    && |ctx.attempts| == ctx.retryCount + |Providers(ctx.attempts)|
    && |ctx.attempts| <= MaxAttempts(maxRetries, |Providers(ctx.attempts)|)
    && OneFailureEach(reports, Providers(ctx.attempts))
  }

  /** The context once a fallback has been chosen. */
  function Turned(ctx: Context): Context {
    ctx.(failoverTriggered := true, failoverAttempts := ctx.failoverAttempts + 1)
  }

  lemma Start(ctx: Context, initial: string, maxRetries: nat)
    requires ctx == Context(ctx.deadline, ctx.original, {}, [], 0, 0, false)
    ensures Between(ctx, initial, initial, maxRetries, [])
  {
  }

  lemma Advance(ctx: Context, next: string, initial: string, maxRetries: nat, reports: seq<Report>, error: ExecError)
    requires Left(ctx, initial, maxRetries, reports) && Lower(next) !in ctx.attempted && Explains(error, ctx)
    ensures Between(Turned(ctx), next, initial, maxRetries, reports) && Explains(error, Turned(ctx))
  {
  }

  /** The bounds every outcome respects. */
  ghost predicate WithinBounds(ctx: Context, maxRetries: nat, maxFailoverAttempts: nat) {
    && |ctx.attempts| <= MaxAttempts(maxRetries, 1 + maxFailoverAttempts)
    && |ctx.attempted| <= 1 + maxFailoverAttempts && Providers(ctx.attempts) <= ctx.attempted
    && |ctx.attempts| == ctx.retryCount + |Providers(ctx.attempts)|
  }

  /** The outcome of a request, and what it leaves behind. */
  ghost predicate Settled(result: ExecResult, ctx: Context, initial: string, maxRetries: nat,
                          maxFailoverAttempts: nat, reports: seq<Report>)
  {
    && WithinBounds(ctx, maxRetries, maxFailoverAttempts)
    && match result
       case Served(response) => ServedWell(ctx, response, initial, maxFailoverAttempts, reports)
       case GaveUp(error) => GaveUpWell(ctx, error, reports)
  }

  ghost predicate VisitedWell(ctx: Context, visit: Visit, initial: string, maxRetries: nat,
                              maxFailoverAttempts: nat, reports: seq<Report>)
  {
    match visit
    case Refused => Left(ctx, initial, maxRetries, reports)
    case NoLuck(f) => Left(ctx, initial, maxRetries, reports) && Explains(Provider(f), ctx)
    case Ended(result) => Settled(result, ctx, initial, maxRetries, maxFailoverAttempts, reports)
  }

  /** What a retry loop's ending means for the request. */
  function VisitOf(e: Ending, ctx: Context, provider: string, model: string): Visit {
    match e
    case OutOfTime => Ended(GaveUp(DeadlineExceeded))
    case Permanent(failure) => Ended(GaveUp(Provider(failure)))
    case Completed(usage, state) =>
      Ended(Served(Response(usage, provider, model, ctx.failoverTriggered, ctx.retryCount, ctx.failoverAttempts,
                            state)))
    case Spent(failure) => NoLuck(failure)
  }

  /** Exactly the last attempt succeeded, at this provider and model; all before it failed transiently. */
  ghost predicate SuccessLast(attempts: seq<AttemptRecord>, provider: string, model: string) {
    && attempts != []
    && AllTransient(attempts[..|attempts| - 1])
    && var last := attempts[|attempts| - 1];
    last.error == None && last.provider == provider && last.model == model
  }

  /** One failure report for each other provider called, then one success report for the one that served. */
  ghost predicate SuccessReportedLast(reports: seq<Report>, called: set<string>, provider: string) {
    && reports != []
    && OneFailureEach(reports[..|reports| - 1], called - {Lower(provider)})
    && reports[|reports| - 1] == Good(provider)
  }

  /** What a served request leaves behind. */
  ghost predicate ServedWell(ctx: Context, r: Response, initial: string, maxFailoverAttempts: nat,
                             reports: seq<Report>) {
    && SuccessLast(ctx.attempts, r.selectedProvider, r.selectedModel)
    && SuccessReportedLast(reports, Providers(ctx.attempts), r.selectedProvider)
    && r.retryCount == ctx.retryCount && r.failoverAttempts == ctx.failoverAttempts
    && r.failoverAttempts <= maxFailoverAttempts
    && |ctx.attempted| == ctx.failoverAttempts + 1
    && (r.failoverTriggered <==> Lower(r.selectedProvider) != Lower(initial))
  }

  /** No attempt succeeded, and only the last one may have failed for good. */
  ghost predicate FailuresOnly(attempts: seq<AttemptRecord>) {
    attempts != [] ==> AllTransient(attempts[..|attempts| - 1]) && attempts[|attempts| - 1].error.Some?
  }

  /** What a request that was given up leaves behind. */
  ghost predicate GaveUpWell(ctx: Context, error: ExecError, reports: seq<Report>) {
    && FailuresOnly(ctx.attempts)
    && Explains(error, ctx)
    && (forall r :: r in reports ==> r.Bad? && Errors.IsTransient(r.failure)) && |reports| <= |Providers(ctx.attempts)|
    && ctx.failoverAttempts <= |ctx.attempted| <= ctx.failoverAttempts + 1
  }

  lemma SubsetSize<T>(a: set<T>, b: set<T>)
    requires a <= b
    ensures |a| <= |b|
  {
    assert b == a + (b - a);
  }

  lemma BetweenSettles(ctx: Context, next: string, initial: string, maxRetries: nat, reports: seq<Report>,
                       maxFailoverAttempts: nat, error: ExecError)
    requires Between(ctx, next, initial, maxRetries, reports) && Explains(error, ctx)
    requires ctx.failoverAttempts <= maxFailoverAttempts + 1
    ensures Settled(GaveUp(error), ctx, initial, maxRetries, maxFailoverAttempts, reports)
  {
    SubsetSize(Providers(ctx.attempts), ctx.attempted);
    MaxAttemptsGrows(maxRetries, |Providers(ctx.attempts)|, 1 + maxFailoverAttempts);
  }

  lemma LeftSettles(ctx: Context, initial: string, maxRetries: nat, reports: seq<Report>, error: ExecError,
                    maxFailoverAttempts: nat)
    requires Left(ctx, initial, maxRetries, reports) && Explains(error, ctx)
    requires ctx.failoverAttempts <= maxFailoverAttempts
    ensures Settled(GaveUp(error), ctx, initial, maxRetries, maxFailoverAttempts, reports)
  {
    SubsetSize(Providers(ctx.attempts), ctx.attempted);
    MaxAttemptsGrows(maxRetries, |Providers(ctx.attempts)|, 1 + maxFailoverAttempts);
  }

  /** `ctx` is `head` after a visit to `provider` that recorded `log` and ended in `e`. */
  ghost predicate Visited(head: Context, ctx: Context, log: seq<AttemptRecord>, provider: string, model: string,
                          e: Ending, maxRetries: nat)
  {
    && log != []
    && LoopLog(log, provider, model, head.failoverTriggered)
    && EndsAs(log, e, maxRetries)
    && ctx == Extended(head.(attempted := head.attempted + {Lower(provider)}), log)
  }

  lemma ProvidersAfterVisit(earlier: seq<AttemptRecord>, log: seq<AttemptRecord>, provider: string, model: string,
                            isFailover: bool)
    requires log != [] && LoopLog(log, provider, model, isFailover)
    ensures Providers(earlier + log) == Providers(earlier) + {Lower(provider)}
  {
    assert log[0] in earlier + log;
    forall a | a in earlier + log ensures a in earlier || a.provider == provider {
    }
    forall a | a in earlier ensures a in earlier + log {
    }
  }

  lemma VisitRefused(head: Context, ctx: Context, provider: string, initial: string, maxRetries: nat,
                     reports: seq<Report>)
    requires Between(head, provider, initial, maxRetries, reports)
    requires ctx == head.(attempted := head.attempted + {Lower(provider)})
    ensures Left(ctx, initial, maxRetries, reports)
  {
    LowerIsIdempotent(provider);
  }

  /** The sets after a visit that made attempts. */
  lemma VisitSets(head: Context, log: seq<AttemptRecord>, provider: string, model: string)
    requires log != [] && LoopLog(log, provider, model, head.failoverTriggered)
    requires Providers(head.attempts) <= head.attempted && Lower(provider) !in head.attempted
    ensures Providers(head.attempts + log) == Providers(head.attempts) + {Lower(provider)}
    ensures Providers(head.attempts + log) <= head.attempted + {Lower(provider)}
    ensures |Providers(head.attempts + log)| == |Providers(head.attempts)| + 1
    ensures |head.attempted + {Lower(provider)}| == |head.attempted| + 1
  {
    ProvidersAfterVisit(head.attempts, log, provider, model, head.failoverTriggered);
  }

  /** One visit keeps all counts in step. */
  lemma VisitCounts(head: Context, ctx: Context, log: seq<AttemptRecord>, provider: string, model: string,
                    initial: string, maxRetries: nat, reports: seq<Report>, e: Ending)
    requires Between(head, provider, initial, maxRetries, reports)
    requires Visited(head, ctx, log, provider, model, e, maxRetries)
    ensures Providers(ctx.attempts) == Providers(head.attempts) + {Lower(provider)} <= ctx.attempted
    ensures |Providers(ctx.attempts)| == |Providers(head.attempts)| + 1
    ensures |ctx.attempts| == ctx.retryCount + |Providers(ctx.attempts)|
    ensures |ctx.attempts| <= MaxAttempts(maxRetries, |Providers(ctx.attempts)|)
    ensures |ctx.attempted| == ctx.failoverAttempts + 1 && Lower(initial) in ctx.attempted
  {
    VisitSets(head, log, provider, model);
  }

  lemma VisitWithin(head: Context, ctx: Context, log: seq<AttemptRecord>, provider: string, model: string,
                    initial: string, maxRetries: nat, reports: seq<Report>, e: Ending, maxFailoverAttempts: nat)
    requires Between(head, provider, initial, maxRetries, reports)
    requires Visited(head, ctx, log, provider, model, e, maxRetries)
    requires head.failoverAttempts <= maxFailoverAttempts
    ensures WithinBounds(ctx, maxRetries, maxFailoverAttempts)
  {
    VisitCounts(head, ctx, log, provider, model, initial, maxRetries, reports, e);
    SubsetSize(Providers(ctx.attempts), ctx.attempted);
    MaxAttemptsGrows(maxRetries, |Providers(ctx.attempts)|, 1 + maxFailoverAttempts);
  }

  lemma LastOfLog(earlier: seq<AttemptRecord>, log: seq<AttemptRecord>)
    requires log != []
    ensures (earlier + log)[..|earlier + log| - 1] == earlier + log[..|log| - 1]
    ensures (earlier + log)[|earlier + log| - 1] == log[|log| - 1]
  {
  }

  lemma FailuresExtend(earlier: seq<AttemptRecord>, log: seq<AttemptRecord>)
    requires AllTransient(earlier) && log != [] && FailuresOnly(log)
    ensures FailuresOnly(earlier + log)
  {
    LastOfLog(earlier, log);
  }

  lemma VisitFailed(head: Context, ctx: Context, log: seq<AttemptRecord>, provider: string, model: string,
                    initial: string, maxRetries: nat, reports: seq<Report>, e: Ending)
    requires Between(head, provider, initial, maxRetries, reports)
    requires Visited(head, ctx, log, provider, model, e, maxRetries)
    requires e.Permanent? || e.OutOfTime?
    ensures GaveUpWell(ctx, if e.Permanent? then Provider(e.failure) else DeadlineExceeded,
                       WithReport(reports, e, provider))
  {
    VisitSets(head, log, provider, model);
    FailuresExtend(head.attempts, log);
    LastOfLog(head.attempts, log);
  }

  lemma SuccessExtends(earlier: seq<AttemptRecord>, log: seq<AttemptRecord>, provider: string, model: string)
    requires AllTransient(earlier) && SuccessLast(log, provider, model)
    ensures SuccessLast(earlier + log, provider, model)
  {
    LastOfLog(earlier, log);
  }

  lemma SuccessReport(reports: seq<Report>, others: set<string>, provider: string)
    requires OneFailureEach(reports, others) && Lower(provider) !in others
    ensures SuccessReportedLast(reports + [Good(provider)], others + {Lower(provider)}, provider)
  {
    var after := reports + [Good(provider)];
    assert after[..|after| - 1] == reports;
    assert others + {Lower(provider)} - {Lower(provider)} == others;
  }

  lemma VisitServed(head: Context, ctx: Context, log: seq<AttemptRecord>, provider: string, model: string,
                    initial: string, maxRetries: nat, reports: seq<Report>, e: Ending, maxFailoverAttempts: nat)
    requires Between(head, provider, initial, maxRetries, reports)
    requires Visited(head, ctx, log, provider, model, e, maxRetries)
    requires head.failoverAttempts <= maxFailoverAttempts && e.Completed?
    ensures VisitOf(e, ctx, provider, model).Ended? && VisitOf(e, ctx, provider, model).result.Served?
    ensures ServedWell(ctx, VisitOf(e, ctx, provider, model).result.response, initial, maxFailoverAttempts,
                       WithReport(reports, e, provider))
  {
    VisitSets(head, log, provider, model);
    SuccessExtends(head.attempts, log, provider, model);
    SuccessReport(reports, Providers(head.attempts), provider);
  }

  lemma OneMoreFailure(reports: seq<Report>, providers: set<string>, provider: string, f: Errors.Failure)
    requires OneFailureEach(reports, providers) && Lower(provider) !in providers && Errors.IsTransient(f)
    ensures OneFailureEach(reports + [Bad(provider, f)], providers + {Lower(provider)})
  {
    var after := reports + [Bad(provider, f)];
    assert after[|reports|] == Bad(provider, f);
    assert forall r :: r in after <==> r in reports || r == Bad(provider, f);
    assert (set r | r in after :: Lower(r.provider)) == (set r | r in reports :: Lower(r.provider)) + {Lower(provider)};
  }

  lemma VisitSpent(head: Context, ctx: Context, log: seq<AttemptRecord>, provider: string, model: string,
                   initial: string, maxRetries: nat, reports: seq<Report>, e: Ending)
    requires Between(head, provider, initial, maxRetries, reports)
    requires Visited(head, ctx, log, provider, model, e, maxRetries) && e.Spent?
    ensures Left(ctx, initial, maxRetries, WithReport(reports, e, provider))
    ensures Explains(Provider(e.last), ctx)
  {
    VisitCounts(head, ctx, log, provider, model, initial, maxRetries, reports, e);
    OneMoreFailure(reports, Providers(head.attempts), provider, e.last);
    LowerIsIdempotent(provider);
    LastOfLog(head.attempts, log);
  }

  lemma VisitConcludes(head: Context, ctx: Context, log: seq<AttemptRecord>, provider: string, model: string,
                       initial: string, maxRetries: nat, reports: seq<Report>, e: Ending, maxFailoverAttempts: nat)
    requires Between(head, provider, initial, maxRetries, reports)
    requires Visited(head, ctx, log, provider, model, e, maxRetries)
    requires head.failoverAttempts <= maxFailoverAttempts
    ensures VisitedWell(ctx, VisitOf(e, ctx, provider, model), initial, maxRetries, maxFailoverAttempts,
                        WithReport(reports, e, provider))
  {
    match e
    case Spent(_) =>
      VisitSpent(head, ctx, log, provider, model, initial, maxRetries, reports, e);
    case Completed(_, _) =>
      VisitWithin(head, ctx, log, provider, model, initial, maxRetries, reports, e, maxFailoverAttempts);
      VisitServed(head, ctx, log, provider, model, initial, maxRetries, reports, e, maxFailoverAttempts);
    case _ =>
      VisitWithin(head, ctx, log, provider, model, initial, maxRetries, reports, e, maxFailoverAttempts);
      VisitFailed(head, ctx, log, provider, model, initial, maxRetries, reports, e);
  }

  lemma VisitDone(head: Context, ctx: Context, log: seq<AttemptRecord>, provider: string, model: string,
                  initial: string, maxRetries: nat, reports: seq<Report>, e: Ending, maxFailoverAttempts: nat)
    requires Between(head, provider, initial, maxRetries, reports)
    requires Visited(head, ctx, log, provider, model, e, maxRetries)
    requires head.failoverAttempts <= maxFailoverAttempts
    requires Orderly(head.attempts, head.deadline) && Timely(log, head.deadline)
    ensures VisitedWell(ctx, VisitOf(e, ctx, provider, model), initial, maxRetries, maxFailoverAttempts,
                        WithReport(reports, e, provider))
    ensures Orderly(ctx.attempts, head.deadline) && Added(head.attempts, ctx.attempts, provider, model, true)
    ensures LastNumber(ctx.attempts) == |log| && |ctx.attempts| == |head.attempts| + |log|
  {
    LastOfLog(head.attempts, log);
    LogAdded(head.attempts, log, provider, model, head.failoverTriggered, head.deadline);
    VisitConcludes(head, ctx, log, provider, model, initial, maxRetries, reports, e, maxFailoverAttempts);
  }
}
