/** The three-state circuit breaker of one provider, and the registry of all of them. */
module CircuitBreakers {
  import opened Wrappers
  import Errors

  datatype State = Closed | Open | HalfOpen

  datatype Breaker = Breaker(state: State, failures: nat, lastFailure: Option<real>, trials: nat)

  /** Failure threshold, cooldown in seconds, and probes a half-open breaker lets through. */
  datatype Config = Config(threshold: nat, cooldown: real, halfOpenTrials: nat) {
    ghost predicate Valid() {
      threshold >= 1 && cooldown > 0.0
    }
  }

  const FRESH: Breaker := Breaker(Closed, 0, None, 0)

  // ---------------------------------------------------------------- the state machine

  /** An open breaker whose cooldown has passed becomes half-open, with no probe used. */
  function Resolve(b: Breaker, now: real, c: Config): Breaker {
    if b.state == Open && b.lastFailure.Some? && now - b.lastFailure.value >= c.cooldown then
      b.(state := HalfOpen, trials := 0)
    else b
  }

  predicate Admits(b: Breaker, now: real, c: Config) {
    var r := Resolve(b, now, c);
    r.state == Closed || (r.state == HalfOpen && r.trials < c.halfOpenTrials)
  }

  /** Asking uses up a probe of a half-open breaker. */
  function Probed(b: Breaker, now: real, c: Config): Breaker {
    var r := Resolve(b, now, c);
    if r.state == HalfOpen && r.trials < c.halfOpenTrials then r.(trials := r.trials + 1) else r
  }

  function Succeeded(b: Breaker, now: real, c: Config): Breaker {
    var r := Resolve(b, now, c);
    match r.state
    case HalfOpen => FRESH
    case Closed => r.(failures := 0)
    case Open => r
  }

  /** A counted failure. The failure time is set first, so an open breaker starts its cooldown again. */
  function Failed(b: Breaker, now: real, c: Config): Breaker {
    var r := Resolve(b.(lastFailure := Some(now)), now, c);
    match r.state
    case HalfOpen => r.(state := Open)
    case Closed =>
      var n := r.failures + 1;
      r.(failures := n, state := if n >= c.threshold then Open else Closed)
    case Open => r
  }

  function Tripped(b: Breaker, now: real, c: Config): Breaker {
    b.(state := Open, lastFailure := Some(now), failures := c.threshold)
  }

  // ---------------------------------------------------------------- histories

  /** What can happen to a breaker; uncounted failures leave no trace. */
  datatype Event =
    | Probe(at: real)
    | Look(at: real)
    | Success(at: real)
    | Failure(at: real)
    | Trip(at: real)
    | Reset(at: real)

  function Step(b: Breaker, e: Event, c: Config): Breaker {
    match e
    case Probe(at) => Probed(b, at, c)
    case Look(at) => Resolve(b, at, c)
    case Success(at) => Succeeded(b, at, c)
    case Failure(at) => Failed(b, at, c)
    case Trip(at) => Tripped(b, at, c)
    case Reset(_) => FRESH
  }

  function Run(b: Breaker, h: seq<Event>, c: Config): Breaker {
    if h == [] then b else Step(Run(b, h[..|h| - 1], c), h[|h| - 1], c)
  }

  ghost predicate Chronological(h: seq<Event>) {
    forall i, j :: 0 <= i <= j < |h| ==> h[i].at <= h[j].at
  }

  ghost predicate NotAfter(h: seq<Event>, now: real) {
    forall i :: 0 <= i < |h| ==> h[i].at <= now
  }

  // ---------------------------------------------------------------- specification by history

  /** When the provider was last hit by a counted failure or a trip. */
  function LastHit(h: seq<Event>): Option<real> {
    if h == [] then None
    else
      var e := h[|h| - 1];
      if e.Failure? || e.Trip? then Some(e.at) else LastHit(h[..|h| - 1])
  }

  /** Counted failures since the last success or reset. */
  function Streak(h: seq<Event>): nat {
    if h == [] then 0
    else
      var e := h[|h| - 1];
      if e.Success? || e.Reset? then 0
      else Streak(h[..|h| - 1]) + if e.Failure? then 1 else 0
  }

  predicate Cooled(h: seq<Event>, now: real, c: Config) {
    LastHit(h).Some? && now - LastHit(h).value >= c.cooldown
  }

  /**
   Whether the provider is held to be down: brought down by a trip or a full streak of failures,
   brought back by a reset, or by a success once the cooldown since the last hit has passed.
   */
  predicate Down(h: seq<Event>, c: Config) {
    if h == [] then false
    else
      var front, e := h[..|h| - 1], h[|h| - 1];
      match e
      case Trip(_) => true
      case Reset(_) => false
      case Failure(_) => Down(front, c) || Streak(front) + 1 >= c.threshold
      case Success(at) => Down(front, c) && !Cooled(front, at, c)
      case _ => Down(front, c)
  }

  /** Requests made of the provider after its cooldown, since the last outcome. */
  function Requested(h: seq<Event>, c: Config): nat {
    if h == [] then 0
    else
      var front, e := h[..|h| - 1], h[|h| - 1];
      match e
      case Probe(at) => Requested(front, c) + if Down(front, c) && Cooled(front, at, c) then 1 else 0
      case Look(_) => Requested(front, c)
      case _ => 0
  }

  function SpecState(h: seq<Event>, now: real, c: Config): State {
    if !Down(h, c) then Closed else if Cooled(h, now, c) then HalfOpen else Open
  }

  /** The specification of `can_execute`, without any counter. */
  predicate Allowed(h: seq<Event>, now: real, c: Config) {
    !Down(h, c) || (Cooled(h, now, c) && Requested(h, c) < c.halfOpenTrials)
  }

  function Min(a: nat, b: nat): nat {
    if a <= b then a else b
  }

  /** The incremental breaker `b` stands for the history `h`. */
  ghost predicate Represents(b: Breaker, h: seq<Event>, c: Config) {
    if !Down(h, c) then
      b.state == Closed && b.failures == Streak(h) < c.threshold
    else
      && b.state != Closed
      && b.failures == c.threshold
      && LastHit(h).Some? && b.lastFailure == LastHit(h)
      && (b.state == Open ==> Requested(h, c) == 0)
      && (b.state == HalfOpen ==> b.trials == Min(c.halfOpenTrials, Requested(h, c)) && Cooled(h, h[|h| - 1].at, c))
  }

  lemma StepRepresents(b: Breaker, h: seq<Event>, e: Event, c: Config)
    requires c.Valid() && Represents(b, h, c) && NotAfter(h, e.at)
    ensures Represents(Step(b, e, c), h + [e], c)
  {
    var next := h + [e];
    assert next[..|next| - 1] == h && next[|next| - 1] == e;
  }

  /** The incremental breaker refines the specification by history. */
  lemma {:induction false} BreakerRefinesHistory(h: seq<Event>, c: Config)
    requires c.Valid() && Chronological(h)
    ensures Represents(Run(FRESH, h, c), h, c)
  {
    if h == [] {
    } else {
      var front, e := h[..|h| - 1], h[|h| - 1];
      assert Chronological(front) && NotAfter(front, e.at);
      BreakerRefinesHistory(front, c);
      StepRepresents(Run(FRESH, front, c), front, e, c);
      assert front + [e] == h;
    }
  }

  /** At every later time the breaker shows the specified state and gives the specified answer. */
  lemma AnswersFollowHistory(h: seq<Event>, now: real, c: Config)
    requires c.Valid() && Chronological(h) && NotAfter(h, now)
    ensures var b := Run(FRESH, h, c);
            && Resolve(b, now, c).state == SpecState(h, now, c)
            && (Admits(b, now, c) <==> Allowed(h, now, c))
            && (Resolve(b, now, c).state == Closed ==> b.failures == Streak(h) < c.threshold)
            && (Resolve(b, now, c).state != Closed ==> b.failures == c.threshold && b.lastFailure.Some?)
  {
    BreakerRefinesHistory(h, c);
  }

  /** A provider goes down only by a trip or by the threshold-th failure without a success between. */
  lemma OpensOnlyOnFullStreak(h: seq<Event>, e: Event, c: Config)
    requires c.Valid() && Chronological(h + [e])
    requires !Down(h, c) && Down(h + [e], c)
    ensures e.Trip? || (e.Failure? && Streak(h) + 1 == c.threshold == Streak(h + [e]))
  {
    assert (h + [e])[..|h|] == h;
    assert Chronological(h) by {
      assert forall i :: 0 <= i < |h| ==> h[i] == (h + [e])[i];
    }
    BreakerRefinesHistory(h, c);
  }

  // ---------------------------------------------------------------- episodes

  /** Nobody reports an outcome. */
  ghost predicate OutcomeFree(h: seq<Event>) {
    forall i :: 0 <= i < |h| ==> h[i].Probe? || h[i].Look?
  }

  /** Probes of `later` that were let through, after `h`. */
  function AdmittedAfter(h: seq<Event>, later: seq<Event>, c: Config): nat {
    if later == [] then 0
    else
      var front, e := later[..|later| - 1], later[|later| - 1];
      AdmittedAfter(h, front, c) + if e.Probe? && Admits(Run(FRESH, h + front, c), e.at, c) then 1 else 0
  }

  lemma {:induction false} OutcomeFreeStaysDown(h: seq<Event>, later: seq<Event>, c: Config)
    requires Down(h, c) && OutcomeFree(later)
    ensures Down(h + later, c) && LastHit(h + later) == LastHit(h)
  {
    if later == [] {
      assert h + later == h;
    } else {
      var front, e := later[..|later| - 1], later[|later| - 1];
      OutcomeFreeStaysDown(h, front, c);
      assert (h + later)[..|h + later| - 1] == h + front;
    }
  }

  lemma EarlierEvents(h: seq<Event>, later: seq<Event>, i: nat)
    requires Chronological(h + later) && i < |later|
    ensures Chronological(h + later[..i]) && NotAfter(h + later[..i], later[i].at)
  {
    var before := h + later[..i];
    assert forall k :: 0 <= k < |before| ==> before[k] == (h + later)[k];
    assert later[i] == (h + later)[|h| + i];
  }

  /** While the provider is down, nobody is admitted before the cooldown since the last hit has passed. */
  lemma NobodyDuringCooldown(h: seq<Event>, later: seq<Event>, i: nat, c: Config)
    requires c.Valid() && Chronological(h + later) && Down(h, c) && OutcomeFree(later)
    requires i < |later| && !Cooled(h, later[i].at, c)
    ensures !Admits(Run(FRESH, h + later[..i], c), later[i].at, c)
  {
    OutcomeFreeStaysDown(h, later[..i], c);
    EarlierEvents(h, later, i);
    AnswersFollowHistory(h + later[..i], later[i].at, c);
  }

  /**
   While the provider is down and no outcome is reported, exactly min(trials, requests) probes
   are let through, however long the episode lasts.
   */
  lemma {:induction false} EpisodeIsBounded(h: seq<Event>, later: seq<Event>, c: Config)
    requires c.Valid() && Chronological(h + later) && Down(h, c) && OutcomeFree(later)
    ensures Min(c.halfOpenTrials, Requested(h + later, c))
         == Min(c.halfOpenTrials, Requested(h, c)) + AdmittedAfter(h, later, c)
    ensures AdmittedAfter(h, later, c) <= c.halfOpenTrials
  {
    if later == [] {
      assert h + later == h;
    } else {
      var n := |later| - 1;
      var front, e := later[..n], later[n];
      EarlierEvents(h, later, n);
      EpisodeIsBounded(h, front, c);
      OutcomeFreeStaysDown(h, front, c);
      AnswersFollowHistory(h + front, e.at, c);
      assert (h + later)[..|h + later| - 1] == h + front;
    }
  }

  /** Half-open with every probe used up. */
  predicate Exhausted(b: Breaker, c: Config) {
    b.state == HalfOpen && b.trials >= c.halfOpenTrials
  }

  /**
   An exhausted breaker refuses at every time, however late, and stays exhausted
   until somebody reports an outcome, trips it or resets it.
   */
  lemma {:induction false} ExhaustedIsStuck(b: Breaker, later: seq<Event>, now: real, c: Config)
    requires Exhausted(b, c) && OutcomeFree(later)
    ensures Run(b, later, c) == b
    ensures !Admits(Run(b, later, c), now, c)
  {
    if later == [] {
    } else {
      ExhaustedIsStuck(b, later[..|later| - 1], now, c);
    }
  }

  // ---------------------------------------------------------------- objects

  class ProviderCircuitBreaker {
    const provider: string
    const config: Config
    var state: State
    var failureCount: nat
    var lastFailureTime: Option<real>
    var halfOpenTrialCount: nat

    constructor (provider: string, config: Config)
      ensures this.provider == provider && this.config == config && View() == FRESH
    {
      this.provider, this.config := provider, config;
      state, failureCount, lastFailureTime, halfOpenTrialCount := Closed, 0, None, 0;
    }

    function View(): Breaker
      reads this
    {
      Breaker(state, failureCount, lastFailureTime, halfOpenTrialCount)
    }

    method ResolveState(now: real) returns (s: State)
      modifies this
      ensures View() == Resolve(old(View()), now, config) && s == state
    {
      if state == Open {
        if lastFailureTime.Some? {
          var elapsed := now - lastFailureTime.value;
          if elapsed >= config.cooldown {
            state := HalfOpen;
            halfOpenTrialCount := 0;
          }
        }
      }
      return state;
    }

    method CanExecute(now: real) returns (allowed: bool)
      modifies this
      ensures View() == Probed(old(View()), now, config)
      ensures allowed <==> Admits(old(View()), now, config)
    {
      var st := ResolveState(now);
      if st == Closed {
        return true;
      }
      if st == HalfOpen {
        if halfOpenTrialCount < config.halfOpenTrials {
          halfOpenTrialCount := halfOpenTrialCount + 1;
          return true;
        }
        return false;
      }
      return false;
    }

    method RecordSuccess(now: real)
      modifies this
      ensures View() == Succeeded(old(View()), now, config)
    {
      var st := ResolveState(now);
      if st == HalfOpen {
        state := Closed;
        failureCount := 0;
        halfOpenTrialCount := 0;
        lastFailureTime := None;
      } else if st == Closed {
        failureCount := 0;
      }
    }

    method RecordFailure(failure: Errors.Failure, now: real)
      modifies this
      ensures View() == if Errors.IsBreakerFailure(failure) then Failed(old(View()), now, config) else old(View())
    {
      if !Errors.IsBreakerFailure(failure) {
        return;
      }
      lastFailureTime := Some(now);
      var st := ResolveState(now);
      if st == HalfOpen {
        state := Open;
      } else if st == Closed {
        failureCount := failureCount + 1;
        if failureCount >= config.threshold {
          state := Open;
        }
      }
    }

    method ForceOpen(now: real)
      modifies this
      ensures View() == Tripped(old(View()), now, config)
    {
      state := Open;
      lastFailureTime := Some(now);
      failureCount := config.threshold;
    }

    method Clear()
      modifies this
      ensures View() == FRESH
    {
      state := Closed;
      failureCount := 0;
      halfOpenTrialCount := 0;
      lastFailureTime := None;
    }
  }
}
