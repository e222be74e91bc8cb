/** Budget handling around one chat completion: downgrade, reserve, execute, reconcile or release. */
module ChatServices {
  import opened Wrappers
  import opened Names
  import opened Calendar
  import opened Ordering
  import opened Budgets
  import opened Scorer
  import opened Routing
  import opened Costs
  import Failover
  import Executor
  import Selections

  /** Catalog price of a provider's model. */
  type Catalog = (string, string) -> Price

  // ---------------------------------------------------------------- downgrade

  datatype Downgrade = Chosen(provider: string, model: string, cost: real, downgraded: bool) | NothingAffordable

  /** The downgrade path compares capabilities ignoring case, but not blanks. */
  predicate HasCapabilities(c: Candidate, required: seq<string>) {
    forall r :: r in required ==> exists cap :: cap in c.capabilities && Lower(cap) == Lower(r)
  }

  /** The request being downgraded, its original target, and how candidates are priced. */
  datatype Quote = Quote(
    request: ChatRequest,
    provider: string,
    model: string,
    estimate: real,
    catalog: Catalog,
    round: real -> real)
  {
    function CostOf(c: Candidate): real {
      EstimateCost(request, catalog(c.provider, c.model), round)
    }

    /** Healthy, another target than the original, capable, and within `remaining`. */
    predicate Affords(c: Candidate, remaining: real) {
      && c.isHealthy
      && !(c.provider == provider && c.model == model)
      && HasCapabilities(c, request.requiredCapabilities)
      && CostOf(c) <= remaining
    }

    function Affordable(cs: seq<Candidate>, remaining: real): seq<Candidate> {
      Filter(c => Affords(c, remaining), cs)
    }
  }

  /** The scorer's own weights, used when no routing mode supplies any. */
  const DEFAULT_WEIGHTS: Weights := Weights(0.30, 0.30, 0.20, 0.20)

  /** The downgrade decision against the row `b`, read without a lock. */
  function DowngradeSpec(b: Option<Budget>, q: Quote, discovered: seq<Candidate>, round: real -> real): Downgrade {
    if b.None? || !b.value.enabled || q.estimate <= RemainingAmount(b.value) then
      Chosen(q.provider, q.model, q.estimate, false)
    else
      var pool := q.Affordable(discovered, RemainingAmount(b.value));
      if pool == [] then NothingAffordable
      else
        RankedNonEmpty(pool, DEFAULT_WEIGHTS, round);
        var best := Ranked(pool, DEFAULT_WEIGHTS, round)[0].candidate;
        Chosen(best.provider, best.model, q.CostOf(best), true)
  }

  method AttemptBudgetDowngrade(row: BudgetRow?, q: Quote, discovered: seq<Candidate>, round: real -> real)
    returns (d: Downgrade)
    ensures d == DowngradeSpec(if row == null then None else Some(row.View()), q, discovered, round)
  {
    if row == null || !row.enabled {
      return Chosen(q.provider, q.model, q.estimate, false);
    }
    var remaining := RemainingAmount(row.View());
    if q.estimate <= remaining {
      return Chosen(q.provider, q.model, q.estimate, false);
    }
    var affordable: seq<Candidate> := [];
    for i := 0 to |discovered|
      invariant affordable == q.Affordable(discovered[..i], remaining)
    {
      assert discovered[..i + 1][..i] == discovered[..i];
      if q.Affords(discovered[i], remaining) {
        affordable := affordable + [discovered[i]];
      }
    }
    assert discovered[..|discovered|] == discovered;
    if affordable == [] {
      return NothingAffordable;
    }
    var ranked := ScoreCandidates(affordable, DEFAULT_WEIGHTS, round);
    RankedNonEmpty(affordable, DEFAULT_WEIGHTS, round);
    var best := ranked[0].candidate;
    d := Chosen(best.provider, best.model, q.CostOf(best), true);
  }

  /** A downgrade may choose a healthy, capable candidate other than the target that costs no more than is left. */
  lemma AffordsMeans(q: Quote, c: Candidate, remaining: real)
    ensures q.Affords(c, remaining) <==>
              && c.isHealthy
              && (c.provider != q.provider || c.model != q.model)
              && (forall r :: r in q.request.requiredCapabilities ==>
                    exists cap :: cap in c.capabilities && Lower(cap) == Lower(r))
              && EstimateCost(q.request, q.catalog(c.provider, c.model), q.round) <= remaining
  {
  }

  /**
   Without an active row, and whenever the estimate fits, the request keeps its target and its estimate;
   otherwise it gets the first by health 0.30, success 0.30, latency 0.20 and cost 0.20 of those it can afford.
   */
  lemma DowngradeKeepsWhatFits(row: Option<Budget>, q: Quote, discovered: seq<Candidate>, round: real -> real)
    requires q.estimate >= 0.0
    ensures var d := DowngradeSpec(row, q, discovered, round);
            if row.None? || !row.value.enabled || q.estimate == 0.0
               || row.value.usage + row.value.reserved + q.estimate <= row.value.limit
            then d == Chosen(q.provider, q.model, q.estimate, false)
            else
              var pool := q.Affordable(discovered, RemainingAmount(row.value));
              var ranked := Ranked(pool, Weights(0.30, 0.30, 0.20, 0.20), round);
              if pool == [] then d == NothingAffordable
              else
                && ranked != []
                && var best := ranked[0].candidate; d == Chosen(best.provider, best.model, q.CostOf(best), true)
  {
    if row.Some? {
      RankedNonEmpty(q.Affordable(discovered, RemainingAmount(row.value)), Weights(0.30, 0.30, 0.20, 0.20), round);
    }
  }

  /** Only the downgrade action ever changes the target. */
  lemma DecideMeans(row: Option<Budget>, q: Quote, action: Policy, discovered: seq<Candidate>, round: real -> real)
    ensures action == Policy.Downgrade ==>
              Decide(row, q, action, discovered, round) == DowngradeSpec(row, q, discovered, round)
    ensures action != Policy.Downgrade ==>
              Decide(row, q, action, discovered, round) == Chosen(q.provider, q.model, q.estimate, false)
  {
  }

  lemma AffordableMembers(q: Quote, discovered: seq<Candidate>, remaining: real)
    ensures forall c :: c in q.Affordable(discovered, remaining) <==> c in discovered && q.Affords(c, remaining)
  {
    FilterMembers(c => q.Affords(c, remaining), discovered);
  }

  /** A chosen cost always fits what is left, and nothing is chosen only when nothing fits. */
  lemma DowngradeIsExact(b: Budget, q: Quote, discovered: seq<Candidate>, round: real -> real)
    requires b.enabled
    ensures var d := DowngradeSpec(Some(b), q, discovered, round);
            var remaining := RemainingAmount(b);
            && (d.Chosen? ==> d.cost <= remaining)
            && (d.NothingAffordable? <==>
                  q.estimate > remaining && forall c :: c in discovered ==> !q.Affords(c, remaining))
            && (d.Chosen? && d.downgraded ==>
                exists c :: c in discovered && q.Affords(c, remaining)
                  && c.provider == d.provider && c.model == d.model && d.cost == q.CostOf(c)
                  && (Realistic(discovered) && Monotone(round) ==>
                      forall e :: e in discovered && q.Affords(e, remaining) ==> !Dominates(e, c)))
  {
    var remaining := RemainingAmount(b);
    var pool := q.Affordable(discovered, remaining);
    FilterMembers(c => q.Affords(c, remaining), discovered);
    if q.estimate > remaining && pool != [] {
      Failover.Ranking(pool, DEFAULT_WEIGHTS, round);
      var best := Ranked(pool, DEFAULT_WEIGHTS, round)[0].candidate;
      assert best in discovered && q.Affords(best, remaining);
      if Realistic(discovered) && Monotone(round) {
        WinnerIsParetoOptimal(pool, DEFAULT_WEIGHTS, round);
      }
    } else if pool != [] {
      assert pool[0] in discovered;
    } else {
      assert forall c :: c in discovered && q.Affords(c, remaining) ==> c in pool;
    }
  }

  /**
   Reserving a downgraded cost on the unchanged row succeeds exactly when a rollover comes first
   or the row was not over its limit to begin with.
   */
  lemma DowngradedCostIsReservable(b: Budget, q: Quote, discovered: seq<Candidate>, round: real -> real,
                                   due: Option<Span>)
    requires b.enabled && b.policy != Warn && b.limit >= 0.0 && b.usage >= 0.0 && b.reserved >= 0.0
    requires DowngradeSpec(Some(b), q, discovered, round).Chosen?
    requires DowngradeSpec(Some(b), q, discovered, round).cost >= 0.0
    ensures !Rejects(b, DowngradeSpec(Some(b), q, discovered, round).cost, due) <==>
              due.Some? || b.usage + b.reserved <= b.limit
  {
    DowngradeIsExact(b, q, discovered, round);
  }

  /** A row one dollar over its limit: even a free request passes the downgrade check and is then rejected. */
  lemma DowngradedCostCanBeRejected(b: Budget, q: Quote, discovered: seq<Candidate>, round: real -> real)
    requires b.enabled && b.policy == Policy.Downgrade && b.limit == 10.0 && b.usage == 11.0 && b.reserved == 0.0
    requires q.estimate == 0.0
    ensures DowngradeSpec(Some(b), q, discovered, round) == Chosen(q.provider, q.model, 0.0, false)
    ensures Rejects(b, 0.0, None)
  {
  }

  // ---------------------------------------------------------------- completion

  datatype Completion =
    | Answered(response: Executor.Response, estimate: real, actual: real)
    | Failed(error: Executor.ExecError, estimate: real)
    | OverBudget

  /** The target whose cost the request holds: the policy's downgrade choice, or the routed target. */
  function Decide(row: Option<Budget>, q: Quote, action: Policy, discovered: seq<Candidate>, round: real -> real)
    : Downgrade
  {
    if action == Policy.Downgrade then DowngradeSpec(row, q, discovered, round)
    else Chosen(q.provider, q.model, q.estimate, false)
  }

  predicate Active(row: Option<Budget>) {
    row.Some? && row.value.enabled
  }

  /** Whether the request goes ahead. */
  predicate Admits(row: Option<Budget>, d: Downgrade, now: DateTime)
    requires now.Valid()
  {
    d.Chosen? && (Active(row) ==> !Rejects(row.value, d.cost, DuePeriod(row.value, now)))
  }

  /** The answer of a completion fits the decision `d` taken on the row. */
  predicate Consistent(row: Option<Budget>, d: Downgrade, c: Completion, now: DateTime)
    requires now.Valid()
  {
    && (c.OverBudget? <==> !Admits(row, d, now))
    && (!c.OverBudget? ==> d.Chosen? && c.estimate == d.cost >= 0.0)
    && (c.Answered? ==> c.actual >= 0.0)
  }

  function Hold(row: Option<Budget>, estimate: real, now: DateTime): Option<Budget>
    requires now.Valid()
  {
    if Active(row) then Some(Reserve(row.value, estimate, DuePeriod(row.value, now))) else row
  }

  function Undo(row: Option<Budget>, c: Completion): Option<Budget> {
    if !Active(row) then row
    else match c
      case OverBudget => row
      case Failed(_, estimate) => Some(Release(row.value, estimate))
      case Answered(_, estimate, actual) => Some(Reconcile(row.value, estimate, actual))
  }

  /** What a completion does to the row: exactly one hold, undone exactly once by the same amount. */
  function RowAfter(row: Option<Budget>, c: Completion, now: DateTime): Option<Budget>
    requires now.Valid()
  {
    if c.OverBudget? then row else Undo(Hold(row, c.estimate, now), c)
  }

  /** Left alone, a completion returns its whole hold and charges only what was served. */
  lemma HoldIsReturned(b: Budget, d: Downgrade, c: Completion, now: DateTime)
    requires now.Valid() && b.enabled && b.reserved >= 0.0 && b.usage >= 0.0
    requires Consistent(Some(b), d, c, now)
    ensures var rolled := Rollover(b, DuePeriod(b, now));
            RowAfter(Some(b), c, now) == Some(match c
                                              case OverBudget => b
                                              case Failed(_, _) => rolled
                                              case Answered(_, _, actual) => rolled.(usage := rolled.usage + actual))
  {
  }

  /** An answer with token counts adds exactly their price to the usage: each kind at its own price per thousand. */
  lemma UsageGrowsByPrices(b: Budget, d: Downgrade, c: Completion, now: DateTime, p: Price)
    requires now.Valid() && b.enabled && b.reserved >= 0.0 && b.usage >= 0.0
    requires Consistent(Some(b), d, c, now) && c.Answered?
    requires c.actual == ActualCost(c.response.usage, c.estimate, p, x => x)
    requires c.response.usage.Some?
    requires Known(c.response.usage.value.prompt) + Known(c.response.usage.value.completion) > 0
    ensures var before, after := Rollover(b, DuePeriod(b, now)), RowAfter(Some(b), c, now);
            && after.Some? && after.value.reserved == before.reserved
            && (after.value.usage - before.usage) * 1000.0
               == Known(c.response.usage.value.prompt) as real * p.input
                  + Known(c.response.usage.value.completion) as real * p.output
  {
    HoldIsReturned(b, d, c, now);
    ActualMeans(c.response.usage, c.estimate, p);
  }

  /** When a completion goes ahead, what it holds, and what settling it does, for an active row. */
  lemma RowMeans(b: Budget, d: Downgrade, c: Completion, now: DateTime)
    requires now.Valid() && b.enabled && b.reserved >= 0.0 && b.usage >= 0.0 && (d.Chosen? ==> d.cost >= 0.0)
    ensures var rolled := Rollover(b, DuePeriod(b, now));
            && (Admits(Some(b), d, now) <==>
                  d.Chosen? && (b.policy == Policy.Warn || rolled.usage + rolled.reserved + d.cost <= b.limit))
            && (Admits(Some(b), d, now) ==>
                  Hold(Some(b), d.cost, now) == Some(rolled.(reserved := rolled.reserved + d.cost)))
    ensures Admits(None, d, now) <==> d.Chosen?
    ensures Undo(None, c) == None && Undo(Some(b.(enabled := false)), c) == Some(b.(enabled := false))
    ensures c.Failed? && 0.0 <= c.estimate <= b.reserved ==>
              Undo(Some(b), c) == Some(b.(reserved := b.reserved - c.estimate))
    ensures c.Answered? && 0.0 <= c.estimate <= b.reserved && c.actual >= 0.0 ==>
              Undo(Some(b), c) == Some(b.(reserved := b.reserved - c.estimate, usage := b.usage + c.actual))
  {
  }

  class ChatService {
    const executor: Executor.ReliabilityExecutor
    const budget: BudgetService
    const catalog: Catalog
    const round: real -> real
    const warningPercent: real

    constructor (executor: Executor.ReliabilityExecutor, budget: BudgetService, catalog: Catalog,
                 round: real -> real, warningPercent: real)
      ensures this.executor == executor && this.budget == budget && this.catalog == catalog
      ensures this.round == round && this.warningPercent == warningPercent
    {
      this.executor, this.budget, this.catalog := executor, budget, catalog;
      this.round, this.warningPercent := round, warningPercent;
    }

    /** Pick the target and hold its estimated cost; nothing is held when the request does not fit. */
    method Admit(q: Quote, action: Policy, discovered: seq<Candidate>, now: DateTime)
      returns (admitted: bool, target: Downgrade)
      requires now.Valid() && (forall c :: q.CostOf(c) >= 0.0) && q.estimate >= 0.0
      modifies budget.row
      ensures target == Decide(old(RowView()), q, action, discovered, executor.selector.round)
      ensures admitted <==> Admits(old(RowView()), target, now)
      ensures RowView() == if admitted then Hold(old(RowView()), target.cost, now) else old(RowView())
      ensures admitted ==> target.cost >= 0.0
    {
      target := Chosen(q.provider, q.model, q.estimate, false);
      if action == Policy.Downgrade {
        target := AttemptBudgetDowngrade(budget.row, q, discovered, executor.selector.round);
        if target.NothingAffordable? {
          return false, target;
        }
      }
      var reservation := budget.CheckAndReserve(target.cost, warningPercent, now);
      admitted := !reservation.BudgetExceeded?;
    }

    /** After the provider run: charge what was served, or only give the hold back. */
    method Settle(result: Executor.ExecResult, estimate: real) returns (c: Completion)
      requires estimate >= 0.0
      requires budget.row != null ==> budget.row.reserved >= 0.0
      modifies budget.row
      ensures c == (match result
                    case GaveUp(error) => Failed(error, estimate)
                    case Served(response) =>
                      Answered(response, estimate,
                               ActualCost(response.usage, estimate,
                                          catalog(response.selectedProvider, response.selectedModel), round)))
      ensures RowView() == Undo(old(RowView()), c)
    {
      match result {
        case GaveUp(error) =>
          if estimate > 0.0 {
            budget.ReleaseReservation(estimate);
          }
          return Failed(error, estimate);
        case Served(response) =>
          var price := catalog(response.selectedProvider, response.selectedModel);
          var actual := ActualCost(response.usage, estimate, price, round);
          budget.ReconcileCost(estimate, actual);
          return Answered(response, estimate, actual);
      }
    }

    /** All attempts were made on the way that starts at `target`, and an answer came from the last of them. */
    ghost predicate StartedAt(result: Executor.ExecResult, ctx: Executor.Context, mine: seq<Selections.Selection>,
                              target: Selections.Target)
    {
      && Executor.OnPath(ctx.attempts, Selections.PathOf(target, mine))
      && (result.Served? ==>
            Executor.SuccessLast(ctx.attempts, result.response.selectedProvider, result.response.selectedModel))
    }

    /** The provider run; a policy that forbids fallback sends a copy of the request with failover switched off. */
    method Serve(request: ChatRequest, provider: string, model: string, fallbackAllowed: bool, world: Executor.World)
      returns (result: Executor.ExecResult, ghost ctx: Executor.Context, ghost mine: seq<Selections.Selection>)
      requires executor.Ready(world) && ResolveMode(request, executor.selector.defaultMode).Some?
      modifies world, executor.builder, executor.registry.Repr
      ensures executor.registry.Valid() && fresh(executor.registry.Repr - old(executor.registry.Repr))
      ensures !fallbackAllowed ==> executor.builder.discoveries == old(executor.builder.discoveries)
      ensures executor.builder.discoveries == old(executor.builder.discoveries) + Selections.DiscoveriesOf(mine)
      ensures world.outcomes == old(world.outcomes) + Executor.OutcomesOf(ctx.attempts)
      ensures StartedAt(result, ctx, mine, Selections.Target(provider, model))
    {
      var forbid := !fallbackAllowed && request.failoverEnabled != Some(false);
      var sent := if forbid then request.(failoverEnabled := Some(false)) else request;
      var served, trip, _, picks := executor.Execute(sent, provider, model, world);
      return served, trip, picks;
    }

    /**
     From the routed target to the settled budget, with budgets enabled. `action` is the team policy's
     budget action; `discovered` are the candidates the downgrade path finds; `now` is the time of the
     reservation. `fallbackAllowed` is the team policy's switch.
     */
    method Complete(request: ChatRequest, target: string, targetModel: string, action: Policy, fallbackAllowed: bool,
                    discovered: seq<Candidate>, now: DateTime, world: Executor.World)
      returns (c: Completion, ghost ctx: Executor.Context, ghost mine: seq<Selections.Selection>)
      requires now.Valid() && executor.Ready(world)
      requires ResolveMode(request, executor.selector.defaultMode).Some?
      requires budget.row != null ==> budget.row !in executor.registry.Repr && budget.row.reserved >= 0.0
      requires Scorer.Monotone(round) && round(0.0) == 0.0 && forall p, m :: catalog(p, m).Valid()
      modifies budget.row, world, executor.builder, executor.registry.Repr
      ensures executor.registry.Valid() && fresh(executor.registry.Repr - old(executor.registry.Repr))
      ensures var decided := Decide(old(RowView()), QuoteFor(request, target, targetModel), action, discovered,
                                    executor.selector.round);
              Consistent(old(RowView()), decided, c, now)
      ensures !c.OverBudget? && action != Policy.Downgrade ==>
                c.estimate == EstimateCost(request, catalog(target, targetModel), round)
      ensures RowView() == RowAfter(old(RowView()), c, now)
      ensures c.OverBudget? ==>
                && world.outcomes == old(world.outcomes)
                && executor.builder.discoveries == old(executor.builder.discoveries)
      ensures !c.OverBudget? ==>
                var decided := Decide(old(RowView()), QuoteFor(request, target, targetModel), action, discovered,
                                      executor.selector.round);
                && world.outcomes == old(world.outcomes) + Executor.OutcomesOf(ctx.attempts)
                && var held := Selections.Target(decided.provider, decided.model);
                Executor.OnPath(ctx.attempts, Selections.PathOf(held, mine))
      ensures c.Answered? ==>
                Executor.SuccessLast(ctx.attempts, c.response.selectedProvider, c.response.selectedModel)
      ensures c.Answered? ==>
                c.actual == ActualCost(c.response.usage, c.estimate,
                                       catalog(c.response.selectedProvider, c.response.selectedModel), round)
    {
      var q := QuoteFor(request, target, targetModel);
      QuotesAreNonNegative(q);
      var admitted, decided := Admit(q, action, discovered, now);
      if !admitted {
        ctx, mine := *, [];
        return OverBudget, ctx, mine;
      }
      var result;
      result, ctx, mine := Serve(request, decided.provider, decided.model, fallbackAllowed, world);
      c := Settle(result, decided.cost);
      if c.Answered? {
        CostsAreNonNegative(request, c.response.usage, c.estimate,
                            catalog(c.response.selectedProvider, c.response.selectedModel), round);
      }
    }

    function QuoteFor(request: ChatRequest, provider: string, model: string): (q: Quote)
      ensures q.request == request && q.provider == provider && q.model == model
      ensures q.catalog == catalog && q.round == round
      ensures q.estimate == EstimateCost(request, catalog(provider, model), round)
    {
      Quote(request, provider, model, EstimateCost(request, catalog(provider, model), round), catalog, round)
    }

    function RowView(): Option<Budget>
      reads this, budget.row
    {
      if budget.row == null then None else Some(budget.row.View())
    }
  }

  lemma QuotesAreNonNegative(q: Quote)
    requires Scorer.Monotone(q.round) && q.round(0.0) == 0.0 && (forall p, m :: q.catalog(p, m).Valid())
    requires q.estimate == EstimateCost(q.request, q.catalog(q.provider, q.model), q.round)
    ensures q.estimate >= 0.0 && forall c: Candidate :: q.CostOf(c) >= 0.0
  {
    CostsAreNonNegative(q.request, None, 0.0, q.catalog(q.provider, q.model), q.round);
    forall c: Candidate ensures q.CostOf(c) >= 0.0 {
      CostsAreNonNegative(q.request, None, 0.0, q.catalog(c.provider, c.model), q.round);
    }
  }
}
