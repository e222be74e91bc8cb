/**
 Any number of chat requests interleaving their reserve / reconcile / release
 transactions on one shared, always-enabled budget row.
 */
module BudgetProtocol {
  import opened Wrappers
  import opened Calendar
  import opened Budgets

  /** Where one request stands. `current` is cleared by a rollover committed while the hold is open. */
  datatype Phase =
    | Waiting(estimate: real)
    | Holding(estimate: real, current: bool)
    | Refused
    | Charged(actual: real)
    | Dropped

  /**
   `carried`:  estimates in flight when the last rollover was committed.
   `overrun`:  sum of max(0, actual - estimate) reconciled since that rollover.
   `spent`:    sum of actual costs reconciled since that rollover.
   `drained`:  stale estimates given back since the last rollover or moment with nothing in flight.
   `disturbed`: a rollover was committed with an amount in flight, and some amount was in flight ever since.
   */
  datatype Machine = Machine(
    row: Budget,
    requests: seq<Phase>,
    carried: real,
    overrun: real,
    spent: real,
    drained: real,
    disturbed: bool)

  datatype Event =
    | Arrive(estimate: real)
    | TryReserve(who: nat, due: Option<Span>)
    | ProviderSucceeded(who: nat, actual: real)
    | ProviderFailed(who: nat)

  predicate Enabled(m: Machine, e: Event) {
    match e
    case Arrive(estimate) => estimate >= 0.0
    case TryReserve(i, _) => i < |m.requests| && m.requests[i].Waiting?
    case ProviderSucceeded(i, actual) => i < |m.requests| && m.requests[i].Holding? && actual >= 0.0
    case ProviderFailed(i) => i < |m.requests| && m.requests[i].Holding?
  }

  /** The estimate a request holds against the row. */
  function Held(p: Phase): real {
    if p.Holding? then p.estimate else 0.0
  }

  function FreshHeld(p: Phase): real {
    if p.Holding? && p.current then p.estimate else 0.0
  }

  function Total(ps: seq<Phase>, weight: Phase -> real): real {
    if ps == [] then 0.0 else Total(ps[..|ps| - 1], weight) + weight(ps[|ps| - 1])
  }

  function InFlight(m: Machine): real {
    Total(m.requests, Held)
  }

  predicate Idle(ps: seq<Phase>) {
    forall i :: 0 <= i < |ps| ==> !ps[i].Holding?
  }

  function Age(p: Phase): Phase {
    if p.Holding? then p.(current := false) else p
  }

  function AgeAll(ps: seq<Phase>): seq<Phase> {
    if ps == [] then [] else AgeAll(ps[..|ps| - 1]) + [Age(ps[|ps| - 1])]
  }

  /** Bookkeeping for a rollover that is about to be committed. */
  function CommitRollover(m: Machine, due: Option<Span>): Machine {
    if due.Some? then
      Machine(Rollover(m.row, due), AgeAll(m.requests), InFlight(m), 0.0, 0.0, 0.0, InFlight(m) > 0.0)
    else m
  }

  /** Closes request `i`'s hold with `row` as the new row. */
  function Settle(m: Machine, i: nat, outcome: Phase, row: Budget): Machine
    requires i < |m.requests| && m.requests[i].Holding?
  {
    var rest := m.requests[i := outcome];
    m.(row := row,
       requests := rest,
       drained := if Total(rest, Held) > 0.0 then m.drained + m.requests[i].estimate - FreshHeld(m.requests[i])
                  else 0.0,
       disturbed := m.disturbed && Total(rest, Held) > 0.0)
  }

  function Step(m: Machine, e: Event): Machine
    requires Enabled(m, e)
  {
    match e
    case Arrive(estimate) =>
      m.(requests := m.requests + [Waiting(estimate)])
    case TryReserve(i, due) =>
      var estimate := m.requests[i].estimate;
      if Rejects(m.row, estimate, due) then
        m.(requests := m.requests[i := Refused])
      else
        AgeAllKeeps(m.requests);
        var r := CommitRollover(m, due);
        r.(row := Reserve(m.row, estimate, due), requests := r.requests[i := Holding(estimate, true)])
    case ProviderSucceeded(i, actual) =>
      var estimate := m.requests[i].estimate;
      Settle(m, i, Charged(actual), Reconcile(m.row, estimate, actual))
      .(spent := m.spent + actual, overrun := m.overrun + Max(0.0, actual - estimate))
    case ProviderFailed(i) =>
      Settle(m, i, Dropped, Release(m.row, m.requests[i].estimate))
  }

  /** A run schedules any events in any order; an event that is not possible is skipped. */
  function Run(m: Machine, events: seq<Event>): Machine {
    if events == [] then m
    else
      var before := Run(m, events[..|events| - 1]);
      var e := events[|events| - 1];
      if Enabled(before, e) then Step(before, e) else before
  }

  /** A newly created budget with nothing in flight. */
  predicate Initial(m: Machine) {
    && m.row.limit >= 0.0 && m.row.usage == 0.0 && m.row.reserved == 0.0
    && m.requests == []
    && m.carried == m.overrun == m.spent == m.drained == 0.0
    && !m.disturbed
  }

  // ---------------------------------------------------------------- sums

  lemma {:induction false} AgeAllKeeps(ps: seq<Phase>)
    ensures |AgeAll(ps)| == |ps|
    ensures forall i :: 0 <= i < |ps| ==> AgeAll(ps)[i] == Age(ps[i])
  {
    if ps == [] {
    } else {
      AgeAllKeeps(ps[..|ps| - 1]);
    }
  }

  /** A rollover neither opens nor closes a hold, but no hold is current after it. */
  lemma {:induction false} AgeAllTotals(ps: seq<Phase>)
    ensures Total(AgeAll(ps), Held) == Total(ps, Held)
    ensures Total(AgeAll(ps), FreshHeld) == 0.0
  {
    if ps == [] {
    } else {
      var front, last := ps[..|ps| - 1], ps[|ps| - 1];
      AgeAllTotals(front);
      TotalAppend(AgeAll(front), Age(last), Held);
      TotalAppend(AgeAll(front), Age(last), FreshHeld);
    }
  }

  lemma {:induction false} TotalUpdate(ps: seq<Phase>, i: nat, p: Phase, weight: Phase -> real)
    requires i < |ps|
    ensures Total(ps[i := p], weight) == Total(ps, weight) - weight(ps[i]) + weight(p)
  {
    var last := |ps| - 1;
    if i < last {
      assert ps[i := p][..last] == ps[..last][i := p];
      TotalUpdate(ps[..last], i, p, weight);
    } else {
      assert ps[i := p][..last] == ps[..last];
    }
  }

  lemma TotalAppend(ps: seq<Phase>, p: Phase, weight: Phase -> real)
    ensures Total(ps + [p], weight) == Total(ps, weight) + weight(p)
  {
    assert (ps + [p])[..|ps|] == ps;
  }

  /** No request holds a negative amount. */
  ghost predicate NonNegative(ps: seq<Phase>) {
    forall i :: 0 <= i < |ps| ==> (ps[i].Holding? || ps[i].Waiting?) ==> ps[i].estimate >= 0.0
  }

  lemma {:induction false} TotalsOrdered(ps: seq<Phase>)
    requires NonNegative(ps)
    ensures 0.0 <= Total(ps, FreshHeld) <= Total(ps, Held)
    ensures Idle(ps) ==> Total(ps, Held) == 0.0
  {
    if ps == [] {
    } else {
      var front := ps[..|ps| - 1];
      assert forall i :: 0 <= i < |front| ==> front[i] == ps[i];
      TotalsOrdered(front);
    }
  }

  lemma AgedShape(ps: seq<Phase>)
    requires NonNegative(ps)
    ensures NonNegative(AgeAll(ps))
  {
    AgeAllKeeps(ps);
  }

  // ---------------------------------------------------------------- invariant

  /**
   The figures every interleaving keeps, where `held` is in flight and `promised` the part of it that
   belongs to the current period. `reserved` falls short of `promised` by at most the stale estimates
   given back, and of everything in flight exactly when disturbed; the last line is the
   spending bound of the two enforcing policies.
   */
  ghost predicate Figures(m: Machine, held: real, promised: real) {
    && m.row.limit >= 0.0
    && m.overrun >= 0.0
    && m.row.usage == m.spent >= 0.0
    && 0.0 <= m.row.reserved <= promised <= m.row.reserved + m.drained
    && 0.0 <= m.drained <= m.carried - (held - promised)
    && (!m.disturbed ==> m.drained == 0.0 && promised == held)
    && (m.disturbed ==> m.row.reserved < held)
    && (m.row.policy != Warn ==> m.row.usage + held <= m.row.limit + m.carried + m.overrun)
  }

  ghost predicate Bounded(m: Machine) {
    && NonNegative(m.requests)
    && Figures(m, InFlight(m), Total(m.requests, FreshHeld))
  }

  lemma SettleKeeps(m: Machine, i: nat, outcome: Phase, actual: real)
    requires Bounded(m) && i < |m.requests| && m.requests[i].Holding? && actual >= 0.0
    requires outcome.Charged? || outcome.Dropped?
    ensures var estimate := m.requests[i].estimate;
            var next := Settle(m, i, outcome, Reconcile(m.row, estimate, actual))
                        .(spent := m.spent + actual, overrun := m.overrun + Max(0.0, actual - estimate));
            && Bounded(next)
            && InFlight(next) == InFlight(m) - estimate
  {
    var rest := m.requests[i := outcome];
    TotalUpdate(m.requests, i, outcome, Held);
    TotalUpdate(m.requests, i, outcome, FreshHeld);
    TotalsOrdered(rest);
    TotalsOrdered(m.requests);
  }

  lemma RolloverKeeps(m: Machine, due: Option<Span>)
    requires Bounded(m)
    ensures Bounded(CommitRollover(m, due))
    ensures InFlight(CommitRollover(m, due)) == InFlight(m)
  {
    if due.Some? {
      var next := CommitRollover(m, due);
      AgeAllTotals(m.requests);
      AgedShape(m.requests);
      TotalsOrdered(m.requests);
      assert Figures(next, InFlight(m), 0.0);
    }
  }

  lemma RefuseKeeps(m: Machine, i: nat)
    requires Bounded(m) && i < |m.requests| && m.requests[i].Waiting?
    ensures Bounded(m.(requests := m.requests[i := Refused]))
  {
    TotalUpdate(m.requests, i, Refused, Held);
    TotalUpdate(m.requests, i, Refused, FreshHeld);
  }

  /** Granting a hold that fits keeps the bound, because in-flight <= reserved + carried. */
  lemma GrantKeeps(m: Machine, i: nat, row: Budget)
    requires Bounded(m) && i < |m.requests| && m.requests[i].Waiting?
    requires row == m.row.(reserved := m.row.reserved + m.requests[i].estimate)
    requires m.row.policy != Warn ==> !WouldExceed(m.row, m.requests[i].estimate)
    ensures Bounded(m.(row := row, requests := m.requests[i := Holding(m.requests[i].estimate, true)]))
  {
    var hold := Holding(m.requests[i].estimate, true);
    TotalUpdate(m.requests, i, hold, Held);
    TotalUpdate(m.requests, i, hold, FreshHeld);
  }

  lemma ReserveKeeps(m: Machine, i: nat, due: Option<Span>)
    requires Bounded(m) && Enabled(m, TryReserve(i, due))
    ensures Bounded(Step(m, TryReserve(i, due)))
  {
    if Rejects(m.row, m.requests[i].estimate, due) {
      RefuseKeeps(m, i);
    } else {
      RolloverKeeps(m, due);
      var r := CommitRollover(m, due);
      assert r.requests[i] == m.requests[i] by { AgeAllKeeps(m.requests); }
      GrantKeeps(r, i, Reserve(m.row, m.requests[i].estimate, due));
    }
  }

  lemma StepKeeps(m: Machine, e: Event)
    requires Bounded(m) && Enabled(m, e)
    ensures Bounded(Step(m, e))
  {
    match e
    case Arrive(estimate) =>
      TotalAppend(m.requests, Waiting(estimate), Held);
      TotalAppend(m.requests, Waiting(estimate), FreshHeld);
    case TryReserve(i, due) =>
      ReserveKeeps(m, i, due);
    case ProviderSucceeded(i, actual) =>
      SettleKeeps(m, i, Charged(actual), actual);
    case ProviderFailed(i) =>
      SettleKeeps(m, i, Dropped, 0.0);
  }

  lemma {:induction false} RunKeeps(m: Machine, events: seq<Event>)
    requires Bounded(m)
    ensures Bounded(Run(m, events))
  {
    if events == [] {
    } else {
      var front := events[..|events| - 1];
      RunKeeps(m, front);
      var e := events[|events| - 1];
      if Enabled(Run(m, front), e) {
        StepKeeps(Run(m, front), e);
      }
    }
  }

  // ---------------------------------------------------------------- theorems

  /**
   Over every interleaving under BLOCK or DOWNGRADE, what was charged plus what is still promised
   stays within the limit, up to the estimates a rollover found in flight and reconciled overruns.
   */
  lemma SpendIsBounded(m: Machine, events: seq<Event>)
    requires Initial(m) && m.row.policy != Warn
    ensures var s := Run(m, events);
            s.row.usage + InFlight(s) <= m.row.limit + s.carried + s.overrun
  {
    RunKeeps(m, events);
    RunFixesLimit(m, events);
  }

  /**
   Conservation under every policy: `reserved` never exceeds what current-period holds promise and
   falls short of it by at most the stale estimates given back; `usage` is what was charged this period.
   `reserved` is all that is in flight exactly when no rollover disturbed the holds now open.
   */
  lemma ReservationsAreConserved(m: Machine, events: seq<Event>)
    requires Initial(m)
    ensures var s := Run(m, events);
            var promised := Total(s.requests, FreshHeld);
            && 0.0 <= s.row.reserved <= promised <= InFlight(s)
            && promised - s.row.reserved <= s.drained
            && s.drained + (InFlight(s) - promised) <= s.carried
            && s.row.usage == s.spent
            && (s.row.reserved == InFlight(s) <==> !s.disturbed)
            && (Idle(s.requests) ==> s.row.reserved == 0.0)
  {
    RunKeeps(m, events);
    var s := Run(m, events);
    TotalsOrdered(s.requests);
  }

  /** In state `m` event `e` commits a rollover. */
  predicate CommitsRollover(m: Machine, e: Event) {
    Enabled(m, e) && e.TryReserve? && e.due.Some? && !Rejects(m.row, m.requests[e.who].estimate, e.due)
  }

  lemma StepDisturbs(m: Machine, e: Event)
    requires Bounded(m) && Enabled(m, e)
    ensures Step(m, e).disturbed <==>
              InFlight(Step(m, e)) > 0.0 && (m.disturbed || (CommitsRollover(m, e) && InFlight(m) > 0.0))
  {
    match e
    case Arrive(estimate) =>
      TotalAppend(m.requests, Waiting(estimate), Held);
    case TryReserve(i, due) =>
      AgeAllKeeps(m.requests);
      AgeAllTotals(m.requests);
      TotalUpdate(m.requests, i, Refused, Held);
      TotalUpdate(m.requests, i, Holding(m.requests[i].estimate, true), Held);
      TotalUpdate(AgeAll(m.requests), i, Holding(m.requests[i].estimate, true), Held);
    case _ =>
  }

  /** Event `k` committed a rollover with an amount in flight, and some amount has been in flight ever since. */
  ghost predicate Disturbs(m: Machine, events: seq<Event>, k: nat) {
    && k < |events| && CommitsRollover(Run(m, events[..k]), events[k])
    && forall j :: k <= j <= |events| ==> InFlight(Run(m, events[..j])) > 0.0
  }

  lemma DisturbsSnoc(m: Machine, front: seq<Event>, e: Event, k: nat)
    ensures Disturbs(m, front + [e], k) <==>
              && InFlight(Run(m, front + [e])) > 0.0
              && (|| Disturbs(m, front, k)
                  || (k == |front| && CommitsRollover(Run(m, front), e) && InFlight(Run(m, front)) > 0.0))
  {
    var events := front + [e];
    assert events[..|events|] == events && events[..|front|] == front && front[..|front|] == front;
    assert forall j :: 0 <= j <= |front| ==> events[..j] == front[..j];
  }

  /** The flag is what its name says, in terms of the events alone. */
  lemma {:induction false} DisturbedIff(m: Machine, events: seq<Event>)
    requires Initial(m)
    ensures Run(m, events).disturbed <==> exists k: nat :: Disturbs(m, events, k)
  {
    if events == [] {
    } else {
      var front, e := events[..|events| - 1], events[|events| - 1];
      var s := Run(m, front);
      DisturbedIff(m, front);
      RunKeeps(m, front);
      if Enabled(s, e) {
        StepDisturbs(s, e);
      }
      assert events == front + [e];
      forall k: nat {
        DisturbsSnoc(m, front, e, k);
      }
      assert Disturbs(m, events, |front|) <==>
               InFlight(Run(m, events)) > 0.0 && CommitsRollover(s, e) && InFlight(s) > 0.0;
      assert s.disturbed ==> InFlight(s) > 0.0;
    }
  }

  lemma {:induction false} RunFixesLimit(m: Machine, events: seq<Event>)
    ensures Run(m, events).row.limit == m.row.limit && Run(m, events).row.policy == m.row.policy
  {
    if events == [] {
    } else {
      RunFixesLimit(m, events[..|events| - 1]);
    }
  }

  predicate Finished(p: Phase) {
    p.Charged? || p.Dropped? || p.Refused?
  }

  lemma StepKeepsFinished(m: Machine, e: Event, i: nat)
    requires i < |m.requests| && Finished(m.requests[i]) && Enabled(m, e)
    ensures i < |Step(m, e).requests| && Step(m, e).requests[i] == m.requests[i]
  {
    AgeAllKeeps(m.requests);
    if e.TryReserve? {
      assert i != e.who;
    }
  }

  /** A settled request is never settled, charged or released again. */
  lemma {:induction false} SettledOnce(m: Machine, events: seq<Event>, i: nat)
    requires i < |m.requests| && Finished(m.requests[i])
    ensures i < |Run(m, events).requests| && Run(m, events).requests[i] == m.requests[i]
  {
    if events == [] {
    } else {
      var before := Run(m, events[..|events| - 1]);
      SettledOnce(m, events[..|events| - 1], i);
      if Enabled(before, events[|events| - 1]) {
        StepKeepsFinished(before, events[|events| - 1], i);
      }
    }
  }

  /**
   What the bounds are made of. A committed rollover carries over what is in flight and starts the other
   figures anew; an answer adds its actual cost, and to the overrun what it cost beyond its estimate.
   */
  lemma FiguresMean(m: Machine, e: Event)
    requires Enabled(m, e)
    ensures var next := Step(m, e);
            if CommitsRollover(m, e) then
              next.carried == InFlight(m) && next.overrun == 0.0 && next.spent == 0.0
            else if e.ProviderSucceeded? then
              var estimate := m.requests[e.who].estimate;
              && next.carried == m.carried && next.spent == m.spent + e.actual
              && next.overrun == m.overrun + if e.actual > estimate then e.actual - estimate else 0.0
            else next.carried == m.carried && next.overrun == m.overrun && next.spent == m.spent
  {
  }

  /** What is in flight is the sum of the open holds. */
  lemma InFlightMeans(m: Machine, p: Phase)
    ensures InFlight(m.(requests := [])) == 0.0
    ensures InFlight(m.(requests := m.requests + [p])) == InFlight(m) + if p.Holding? then p.estimate else 0.0
  {
    TotalAppend(m.requests, p, Held);
  }

  /** In state `m` event `e` places a hold for request `i`. */
  predicate Grants(m: Machine, e: Event, i: nat) {
    Enabled(m, e) && e.TryReserve? && e.who == i && !Rejects(m.row, m.requests[i].estimate, e.due)
  }

  /** In state `m` event `e` undoes the hold of request `i`. */
  predicate Undoes(m: Machine, e: Event, i: nat) {
    Enabled(m, e) && (e.ProviderSucceeded? || e.ProviderFailed?) && e.who == i
  }

  /** How often a kind of event took effect in a run. */
  function Times(m: Machine, events: seq<Event>, kind: (Machine, Event) -> bool): nat {
    if events == [] then 0
    else
      var front := events[..|events| - 1];
      Times(m, front, kind) + if kind(Run(m, front), events[|events| - 1]) then 1 else 0
  }

  function GrantsTo(i: nat): (Machine, Event) -> bool {
    (m: Machine, e: Event) => Grants(m, e, i)
  }

  function UndoesOf(i: nat): (Machine, Event) -> bool {
    (m: Machine, e: Event) => Undoes(m, e, i)
  }

  predicate Undone(p: Phase) {
    p.Charged? || p.Dropped?
  }

  lemma StepPhase(m: Machine, e: Event, i: nat)
    requires Enabled(m, e) && i < |m.requests|
    ensures i < |Step(m, e).requests|
    ensures var p, q := m.requests[i], Step(m, e).requests[i];
            if Grants(m, e, i) then p.Waiting? && q.Holding?
            else if Undoes(m, e, i) then p.Holding? && Undone(q)
            else (q.Holding? <==> p.Holding?) && (Undone(q) <==> Undone(p))
  {
    AgeAllKeeps(m.requests);
  }

  /** However requests interleave, one is held at most once, and each hold is undone once or still open. */
  lemma {:induction false} HoldsAreUndoneOnce(m: Machine, events: seq<Event>, i: nat)
    requires Initial(m)
    ensures var s := Run(m, events);
            && Times(m, events, GrantsTo(i))
               == (if i < |s.requests| && (s.requests[i].Holding? || Undone(s.requests[i])) then 1 else 0)
            && Times(m, events, UndoesOf(i))
               == (if i < |s.requests| && Undone(s.requests[i]) then 1 else 0)
  {
    if events == [] {
    } else {
      var front, e := events[..|events| - 1], events[|events| - 1];
      var s := Run(m, front);
      HoldsAreUndoneOnce(m, front, i);
      if Enabled(s, e) && i < |s.requests| {
        StepPhase(s, e, i);
      } else if Enabled(s, e) {
        AgeAllKeeps(s.requests);
      }
    }
  }

  /** No event of the run charges more than the request had reserved. */
  ghost predicate NeverOverruns(m: Machine, events: seq<Event>) {
    forall k :: 0 <= k < |events| && events[k].ProviderSucceeded? ==>
      var s := Run(m, events[..k]);
      events[k].who < |s.requests| && s.requests[events[k].who].Holding? ==>
        events[k].actual <= s.requests[events[k].who].estimate
  }

  lemma {:induction false} NoOverrunStaysZero(m: Machine, events: seq<Event>)
    requires Initial(m) && NeverOverruns(m, events)
    ensures Run(m, events).overrun == 0.0
  {
    if events == [] {
    } else {
      var front := events[..|events| - 1];
      forall k | 0 <= k < |front| ensures front[..k] == events[..k] && front[k] == events[k] {
      }
      NoOverrunStaysZero(m, front);
      assert events[|events| - 1] == events[|front|];
    }
  }

  /** With honest estimates the only slack left is what the last rollover found in flight. */
  lemma SpendIsBoundedWithoutOverrun(m: Machine, events: seq<Event>)
    requires Initial(m) && m.row.policy != Warn && NeverOverruns(m, events)
    ensures var s := Run(m, events);
            s.row.usage + InFlight(s) <= m.row.limit + s.carried
  {
    SpendIsBounded(m, events);
    NoOverrunStaysZero(m, events);
  }

  lemma TotalPair(p: Phase, q: Phase, weight: Phase -> real)
    ensures Total([p, q], weight) == weight(p) + weight(q)
  {
    TotalAppend([], p, weight);
    TotalAppend([p], q, weight);
    assert [] + [p] == [p] && [p] + [q] == [p, q];
  }

  lemma RunSnoc(m: Machine, front: seq<Event>, e: Event)
    ensures Run(m, front + [e]) == var s := Run(m, front); if Enabled(s, e) then Step(s, e) else s
  {
    assert (front + [e])[..|front|] == front;
  }

  /** Two requests arrive, one takes a hold of the whole limit, and after a rollover so does the other. */
  function Overlap(next: Span): seq<Event> {
    [Arrive(10.0)] + [Arrive(10.0)] + [TryReserve(0, None)] + [TryReserve(1, Some(next))]
  }

  lemma FirstHold(m: Machine) returns (s: Machine)
    requires Initial(m) && m.row.policy == Block && m.row.limit == 10.0
    ensures s == Run(m, [Arrive(10.0)] + [Arrive(10.0)] + [TryReserve(0, None)])
    ensures s.requests == [Holding(10.0, true), Waiting(10.0)] && s.row == m.row.(reserved := 10.0)
  {
    RunSnoc(m, [], Arrive(10.0));
    assert [] + [Arrive(10.0)] == [Arrive(10.0)];
    RunSnoc(m, [Arrive(10.0)], Arrive(10.0));
    var waiting := Run(m, [Arrive(10.0)] + [Arrive(10.0)]);
    assert waiting == m.(requests := [Waiting(10.0), Waiting(10.0)]);
    RunSnoc(m, [Arrive(10.0)] + [Arrive(10.0)], TryReserve(0, None));
    s := Step(waiting, TryReserve(0, None));
    assert s.requests == [Holding(10.0, true), Waiting(10.0)];
  }

  lemma SecondHold(m: Machine, next: Span)
    requires m.requests == [Holding(10.0, true), Waiting(10.0)]
    requires m.row.policy == Block && m.row.limit == 10.0
    ensures var s := Step(m, TryReserve(1, Some(next)));
            && s.requests == [Holding(10.0, false), Holding(10.0, true)] && InFlight(s) == 20.0
            && s.row.usage == 0.0 && s.row.reserved == 10.0 && s.row.limit == 10.0 && s.carried == 10.0
  {
    AgeAllKeeps(m.requests);
    AgeAllTotals(m.requests);
    TotalPair(m.requests[0], m.requests[1], Held);
    TotalPair(Holding(10.0, false), Holding(10.0, true), Held);
    assert AgeAll(m.requests) == [Holding(10.0, false), Waiting(10.0)];
  }

  /**
   The `carried` term is needed: with a rollover between two holds of the whole limit, `reserved`
   is half of what is in flight, and charging both exactly as estimated spends twice the limit.
   */
  lemma CarriedTermIsNeeded(m: Machine, next: Span)
    requires Initial(m) && m.row.policy == Block && m.row.limit == 10.0
    ensures var mid := Run(m, Overlap(next));
            var s := Run(m, Overlap(next) + [ProviderSucceeded(0, 10.0)] + [ProviderSucceeded(1, 10.0)]);
            && mid.row.reserved == 10.0 && InFlight(mid) == 20.0
            && s.overrun == 0.0 && s.row.usage == 20.0 == m.row.limit + s.carried
  {
    var first := FirstHold(m);
    RunSnoc(m, [Arrive(10.0)] + [Arrive(10.0)] + [TryReserve(0, None)], TryReserve(1, Some(next)));
    SecondHold(first, next);
    NoOverrunStaysZero(m, Overlap(next));
    RunSnoc(m, Overlap(next), ProviderSucceeded(0, 10.0));
    RunSnoc(m, Overlap(next) + [ProviderSucceeded(0, 10.0)], ProviderSucceeded(1, 10.0));
  }
}
