/** What a chat completion does to the budget row, as a run of the shared row's state machine. */
module CompletionRuns {
  import opened Wrappers
  import opened Calendar
  import opened Budgets
  import opened BudgetProtocol
  import opened ChatServices
  import opened Costs
  import Routing
  import Scorer

  // ---------------------------------------------------------------- completions as events

  /** The event by which an admitted completion undoes its hold. */
  function Closing(i: nat, c: Completion): Event
    requires !c.OverBudget?
  {
    match c
    case Answered(_, _, actual) => ProviderSucceeded(i, actual)
    case Failed(_, _) => ProviderFailed(i)
  }

  /** Wherever in a run it happens, holding the estimate is the machine's reservation step. */
  lemma HoldIsStep(m: Machine, i: nat, now: DateTime)
    requires now.Valid() && m.row.enabled
    requires Enabled(m, TryReserve(i, DuePeriod(m.row, now)))
    ensures var estimate := m.requests[i].estimate;
            var next := Step(m, TryReserve(i, DuePeriod(m.row, now)));
            && Some(next.row) == Hold(Some(m.row), estimate, now)
            && i < |next.requests|
            && next.requests[i] ==
                 if Admits(Some(m.row), Chosen("", "", estimate, false), now) then Holding(estimate, true) else Refused
  {
    AgeAllKeeps(m.requests);
  }

  /** Wherever in a run it happens, settling a completion is the machine's closing step for the amount held. */
  lemma UndoIsStep(m: Machine, i: nat, c: Completion)
    requires m.row.enabled && i < |m.requests| && m.requests[i].Holding?
    requires !c.OverBudget? && c.estimate == m.requests[i].estimate && (c.Answered? ==> c.actual >= 0.0)
    ensures Enabled(m, Closing(i, c))
    ensures var next := Step(m, Closing(i, c));
            && Some(next.row) == Undo(Some(m.row), c)
            && i < |next.requests| && next.requests[i] == if c.Answered? then Charged(c.actual) else Dropped
  {
  }

  /** The events of one completion from arrival to settlement, as the next request of `m`. */
  function Schedule(m: Machine, d: Downgrade, c: Completion, now: DateTime): seq<Event>
    requires now.Valid()
  {
    if d.NothingAffordable? then []
    else
      var i := |m.requests|;
      [Arrive(d.cost)] + [TryReserve(i, DuePeriod(m.row, now))] + if c.OverBudget? then [] else [Closing(i, c)]
  }

  lemma OpeningIsRun(m: Machine, estimate: real, now: DateTime)
    requires now.Valid() && m.row.enabled && estimate >= 0.0
    ensures var i := |m.requests|;
            var s := Run(m, [Arrive(estimate)] + [TryReserve(i, DuePeriod(m.row, now))]);
            && Some(s.row) == Hold(Some(m.row), estimate, now) && s.row.enabled
            && |s.requests| == i + 1
            && s.requests[i] ==
                 if Admits(Some(m.row), Chosen("", "", estimate, false), now) then Holding(estimate, true) else Refused
  {
    var i, due := |m.requests|, DuePeriod(m.row, now);
    var arrived := m.(requests := m.requests + [Waiting(estimate)]);
    RunSnoc(m, [], Arrive(estimate));
    assert [] + [Arrive(estimate)] == [Arrive(estimate)];
    RunSnoc(m, [Arrive(estimate)], TryReserve(i, due));
    AgeAllKeeps(arrived.requests);
    HoldIsStep(arrived, i, now);
  }

  /** From any state of the shared row, an undisturbed completion is a run of the machine ending in the same row. */
  lemma CompletionIsRun(m: Machine, d: Downgrade, c: Completion, now: DateTime)
    requires now.Valid() && m.row.enabled && Consistent(Some(m.row), d, c, now)
    requires (d.Chosen? ==> d.cost >= 0.0) && (c.Answered? ==> c.actual >= 0.0)
    ensures var s := Run(m, Schedule(m, d, c, now));
            && Some(s.row) == RowAfter(Some(m.row), c, now)
            && (d.Chosen? ==> |s.requests| == |m.requests| + 1 && s.requests[|m.requests|] == FinalPhase(c))
  {
    if d.Chosen? {
      var i := |m.requests|;
      var opening := [Arrive(d.cost)] + [TryReserve(i, DuePeriod(m.row, now))];
      OpeningIsRun(m, d.cost, now);
      if c.OverBudget? {
        assert opening + [] == opening;
      } else {
        UndoIsStep(Run(m, opening), i, c);
        RunSnoc(m, opening, Closing(i, c));
      }
    }
  }

  function FinalPhase(c: Completion): Phase {
    match c
    case OverBudget => Refused
    case Failed(_, _) => Dropped
    case Answered(_, _, actual) => Charged(actual)
  }

  // ---------------------------------------------------------------- priced runs

  /** One request with the price of its target and the usage its answer came with. */
  datatype Order = Order(request: Routing.ChatRequest, price: Price, usage: Option<Usage>) {
    function Estimate(round: real -> real): real {
      EstimateCost(request, price, round)
    }

    function Actual(round: real -> real): real {
      ActualCost(usage, Estimate(round), price, round)
    }

    /** Served at its own price, within the safety margin of its estimate. */
    ghost predicate Honest() {
      price.Valid() && (usage.Some? ==> WithinMargin(request, usage.value))
    }
  }

  /** The cost calculator priced every arrival and every charge of the run; `orders` are in order of arrival. */
  ghost predicate Priced(m: Machine, events: seq<Event>, orders: seq<Order>, round: real -> real) {
    forall k :: 0 <= k < |events| ==>
      match events[k]
      case Arrive(estimate) =>
        var i := |Run(m, events[..k]).requests|;
        i < |orders| && estimate == orders[i].Estimate(round)
      case ProviderSucceeded(i, actual) => i < |orders| && actual == orders[i].Actual(round)
      case _ => true
  }

  lemma PricedPrefix(m: Machine, events: seq<Event>, n: nat, orders: seq<Order>, round: real -> real)
    requires n <= |events| && Priced(m, events, orders, round)
    ensures Priced(m, events[..n], orders, round)
  {
    assert forall k :: 0 <= k < n ==> events[..n][k] == events[k] && events[..n][..k] == events[..k];
  }

  /** A request still waiting or holding stands for its order's estimate. */
  ghost predicate StandsFor(p: Phase, o: Order, round: real -> real) {
    p.Waiting? || p.Holding? ==> p.estimate == o.Estimate(round)
  }

  lemma StepStandsFor(m: Machine, e: Event, i: nat, o: Order, round: real -> real)
    requires Enabled(m, e) && i < |m.requests| && StandsFor(m.requests[i], o, round)
    ensures i < |Step(m, e).requests| && StandsFor(Step(m, e).requests[i], o, round)
  {
    AgeAllKeeps(m.requests);
  }

  lemma StepArrivals(m: Machine, e: Event)
    requires Enabled(m, e)
    ensures if e.Arrive? then Step(m, e).requests == m.requests + [Waiting(e.estimate)]
            else |Step(m, e).requests| == |m.requests|
  {
    AgeAllKeeps(m.requests);
  }

  lemma {:induction false} HoldsFollowOrders(m: Machine, events: seq<Event>, orders: seq<Order>, round: real -> real,
                                             i: nat)
    requires Initial(m) && Priced(m, events, orders, round) && i < |Run(m, events).requests|
    ensures i < |orders| && StandsFor(Run(m, events).requests[i], orders[i], round)
  {
    if events == [] {
    } else {
      var front, e := events[..|events| - 1], events[|events| - 1];
      var s := Run(m, front);
      PricedPrefix(m, events, |front|, orders, round);
      if i < |s.requests| {
        HoldsFollowOrders(m, front, orders, round, i);
        if Enabled(s, e) {
          StepStandsFor(s, e, i, orders[i], round);
        }
      } else {
        StepArrivals(s, e);
        assert events[|front|] == e;
      }
    }
  }

  /** Charged by the cost calculator, honest requests never cost more than they hold. */
  lemma HonestOrdersNeverOverrun(m: Machine, events: seq<Event>, orders: seq<Order>, round: real -> real)
    requires Initial(m) && Priced(m, events, orders, round) && Scorer.Monotone(round)
    requires forall o :: o in orders ==> o.Honest()
    ensures NeverOverruns(m, events)
  {
    forall k | 0 <= k < |events| && events[k].ProviderSucceeded?
      ensures var s := Run(m, events[..k]);
              events[k].who < |s.requests| && s.requests[events[k].who].Holding? ==>
                events[k].actual <= s.requests[events[k].who].estimate
    {
      var s, i := Run(m, events[..k]), events[k].who;
      if i < |s.requests| && s.requests[i].Holding? {
        PricedPrefix(m, events, k, orders, round);
        HoldsFollowOrders(m, events[..k], orders, round, i);
        assert orders[i] in orders;
        EstimateCoversActual(orders[i].request, orders[i].usage, orders[i].price, round);
      }
    }
  }

  /**
   Over every interleaving of honest requests under BLOCK or DOWNGRADE, usage plus what is in flight
   stays within the limit, up to what the last rollover found in flight.
   */
  lemma HonestSpendIsBounded(m: Machine, events: seq<Event>, orders: seq<Order>, round: real -> real)
    requires Initial(m) && m.row.policy != Warn && Priced(m, events, orders, round) && Scorer.Monotone(round)
    requires forall o :: o in orders ==> o.Honest()
    ensures var s := Run(m, events);
            s.row.usage + InFlight(s) <= m.row.limit + s.carried
  {
    HonestOrdersNeverOverrun(m, events, orders, round);
    SpendIsBoundedWithoutOverrun(m, events);
  }
}
