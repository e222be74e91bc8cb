/** Choosing the next provider after a failure, and what the choice costs half-open breakers. */
module Failover {
  import opened Wrappers
  import opened Names
  import opened Ordering
  import opened Scorer
  import opened Routing
  import opened CircuitBreakers
  import opened BreakerRegistry

  function LowerAll(names: set<string>): set<string> {
    set n | n in names :: Lower(n)
  }

  function NotAttempted(cs: seq<Candidate>, attempted: set<string>): seq<Candidate> {
    Filter((c: Candidate) => Lower(c.provider) !in LowerAll(attempted), cs)
  }

  /** Asks every candidate's breaker in turn; each question may use up a probe. */
  function Screen(all: Breakers, cs: seq<Candidate>, now: real, c: Config): (Breakers, seq<Candidate>) {
    if cs == [] then (all, [])
    else
      var (asked, open) := Screen(all, cs[..|cs| - 1], now, c);
      var last := cs[|cs| - 1];
      var b := At(asked, last.provider);
      (Set(asked, last.provider, Probed(b, now, c)), open + if Admits(b, now, c) then [last] else [])
  }

  lemma ScreenSnoc(all: Breakers, cs: seq<Candidate>, x: Candidate, now: real, c: Config)
    ensures var (asked, open) := Screen(all, cs, now, c);
            var b := At(asked, x.provider);
            Screen(all, cs + [x], now, c)
            == (Set(asked, x.provider, Probed(b, now, c)), open + if Admits(b, now, c) then [x] else [])
  {
    assert (cs + [x])[..|cs|] == cs;
  }

  /** The best of the candidates whose breakers answered yes. */
  function Choose(open: seq<Candidate>, r: ChatRequest, w: Weights, round: real -> real): Option<Candidate> {
    var pool := PreferHealthy(Capable(open, r.requiredCapabilities));
    RankedNonEmpty(pool, w, round);
    if pool == [] then None else Some(Ranked(pool, w, round)[0].candidate)
  }

  /** The selector's breaker filter: a comprehension whose condition has a side effect. */
  method AskBreakers(eligible: seq<Candidate>, registry: CircuitBreakerRegistry, now: real)
    returns (available: seq<Candidate>)
    requires registry.Valid()
    modifies registry.Repr
    ensures registry.Valid() && fresh(registry.Repr - old(registry.Repr)) && registry.reported == old(registry.reported)
    ensures (registry.contents, available) == Screen(old(registry.contents), eligible, now, registry.config)
  {
    available := [];
    for i := 0 to |eligible|
      invariant registry.Valid() && fresh(registry.Repr - old(registry.Repr))
      invariant registry.reported == old(registry.reported)
      invariant (registry.contents, available) == Screen(old(registry.contents), eligible[..i], now, registry.config)
    {
      assert eligible[..i] + [eligible[i]] == eligible[..i + 1];
      ScreenSnoc(old(registry.contents), eligible[..i], eligible[i], now, registry.config);
      assert available + [] == available;
      var allowed := registry.CanExecute(eligible[i].provider, now);
      if allowed {
        available := available + [eligible[i]];
      }
    }
    assert eligible[..|eligible|] == eligible;
  }

  class FailoverSelector {
    const defaultMode: string
    const weightsOf: string -> Weights
    const round: real -> real

    constructor (defaultMode: string, weightsOf: string -> Weights, round: real -> real)
      ensures this.defaultMode == defaultMode && this.weightsOf == weightsOf && this.round == round
    {
      this.defaultMode, this.weightsOf, this.round := defaultMode, weightsOf, round;
    }

    /** The request's routing mode was validated before its first provider was chosen. */
    method SelectFallback(r: ChatRequest, attempted: set<string>, discovered: seq<Candidate>,
                          registry: CircuitBreakerRegistry, now: real) returns (fallback: Option<Candidate>)
      requires registry.Valid() && ResolveMode(r, defaultMode).Some?
      modifies registry.Repr
      ensures registry.Valid() && fresh(registry.Repr - old(registry.Repr))
      ensures registry.reported == old(registry.reported)
      ensures var screened := Screen(old(registry.contents), NotAttempted(discovered, attempted), now, registry.config);
              && registry.contents == screened.0
              && fallback == Choose(screened.1, r, weightsOf(ResolveMode(r, defaultMode).value), round)
    {
      if discovered == [] {
        return None;
      }
      var eligible := NotAttempted(discovered, attempted);
      if eligible == [] {
        return None;
      }
      var available := AskBreakers(eligible, registry, now);
      if available == [] {
        return None;
      }
      if r.requiredCapabilities != [] {
        available := FilterByCapabilities(available, r.requiredCapabilities);
        if available == [] {
          return None;
        }
      }
      var pool := PreferHealthy(available);
      var ranked := ScoreCandidates(pool, weightsOf(ResolveMode(r, defaultMode).value), round);
      RankedNonEmpty(pool, weightsOf(ResolveMode(r, defaultMode).value), round);
      fallback := Some(ranked[0].candidate);
    }
  }

  // ---------------------------------------------------------------- what the screening does to breakers

  /** How many of the screened candidates share the provider's breaker. */
  function Sharing(cs: seq<Candidate>, provider: string): nat {
    if cs == [] then 0
    else Sharing(cs[..|cs| - 1], provider) + if KeyOf(cs[|cs| - 1].provider) == KeyOf(provider) then 1 else 0
  }

  /** A breaker after `n` questions at one instant. */
  function ProbedTimes(b: Breaker, n: nat, now: real, c: Config): Breaker {
    var r := Resolve(b, now, c);
    if n == 0 then b
    else if r.state == HalfOpen && r.trials < c.halfOpenTrials then r.(trials := Min(c.halfOpenTrials, r.trials + n))
    else r
  }

  lemma {:induction false} ScreenProbes(all: Breakers, cs: seq<Candidate>, provider: string, now: real, c: Config)
    requires c.Valid()
    ensures At(Screen(all, cs, now, c).0, provider) == ProbedTimes(At(all, provider), Sharing(cs, provider), now, c)
  {
    if cs == [] {
    } else {
      ScreenProbes(all, cs[..|cs| - 1], provider, now, c);
    }
  }

  lemma {:induction false} ScreenKeepsMembers(all: Breakers, cs: seq<Candidate>, now: real, c: Config)
    requires c.Valid()
    ensures forall x :: x in Screen(all, cs, now, c).1 ==>
              x in cs && Sharing(cs, x.provider) > 0 && Admits(At(all, x.provider), now, c)
  {
    if cs == [] {
    } else {
      var front, last := cs[..|cs| - 1], cs[|cs| - 1];
      ScreenKeepsMembers(all, front, now, c);
      ScreenProbes(all, front, last.provider, now, c);
      if Admits(ProbedTimes(At(all, last.provider), Sharing(front, last.provider), now, c), now, c) {
        ProbingNeverAdmits(At(all, last.provider), Sharing(front, last.provider), now, c);
      }
      forall x | x in Screen(all, cs, now, c).1
        ensures x in cs && Sharing(cs, x.provider) > 0 && Admits(At(all, x.provider), now, c)
      {
        assert x in Screen(all, front, now, c).1 || x == last;
        assert x in front ==> x in cs;
      }
    }
  }

  /** Asking a breaker before never makes it say yes. */
  lemma ProbingNeverAdmits(b: Breaker, n: nat, now: real, c: Config)
    requires c.Valid() && Admits(ProbedTimes(b, n, now, c), now, c)
    ensures Admits(b, now, c)
  {
  }

  lemma {:induction false} KeptWasAdmitted(all: Breakers, cs: seq<Candidate>, now: real, c: Config, x: Candidate)
    returns (k: nat)
    requires c.Valid() && x in Screen(all, cs, now, c).1
    ensures k < |cs| && KeptAt(all, cs, now, c, k) && cs[k] == x
  {
    var front := cs[..|cs| - 1];
    if x in Screen(all, front, now, c).1 {
      k := KeptWasAdmitted(all, front, now, c, x);
      KeptInFront(all, cs, now, c, k);
    } else {
      k := |cs| - 1;
      KeptLast(all, cs, now, c);
    }
  }

  lemma {:induction false} AdmittedIsKept(all: Breakers, cs: seq<Candidate>, now: real, c: Config, k: nat)
    requires c.Valid() && k < |cs| && KeptAt(all, cs, now, c, k)
    ensures cs[k] in Screen(all, cs, now, c).1
  {
    var front := cs[..|cs| - 1];
    if k < |front| {
      KeptInFront(all, cs, now, c, k);
      AdmittedIsKept(all, front, now, c, k);
    } else {
      KeptLast(all, cs, now, c);
    }
  }

  /** Exactly the candidates are kept whose breaker admits after the questions asked for those before them. */
  lemma ScreenKeepsIff(all: Breakers, cs: seq<Candidate>, now: real, c: Config, x: Candidate)
    requires c.Valid()
    ensures x in Screen(all, cs, now, c).1 <==>
              exists k :: 0 <= k < |cs| && KeptAt(all, cs, now, c, k) && cs[k] == x
  {
    if x in Screen(all, cs, now, c).1 {
      var k := KeptWasAdmitted(all, cs, now, c, x);
    }
    if k :| 0 <= k < |cs| && KeptAt(all, cs, now, c, k) && cs[k] == x {
      AdmittedIsKept(all, cs, now, c, k);
    }
  }

  lemma KeptInFront(all: Breakers, cs: seq<Candidate>, now: real, c: Config, k: nat)
    requires k + 1 < |cs|
    ensures KeptAt(all, cs, now, c, k) <==> KeptAt(all, cs[..|cs| - 1], now, c, k)
  {
    assert cs[..|cs| - 1][..k] == cs[..k];
  }

  lemma KeptLast(all: Breakers, cs: seq<Candidate>, now: real, c: Config)
    requires c.Valid() && cs != []
    ensures var front, last := cs[..|cs| - 1], cs[|cs| - 1];
            KeptAt(all, cs, now, c, |front|) <==> Admits(At(Screen(all, front, now, c).0, last.provider), now, c)
  {
    ScreenProbes(all, cs[..|cs| - 1], cs[|cs| - 1].provider, now, c);
  }

  predicate KeptAt(all: Breakers, cs: seq<Candidate>, now: real, c: Config, k: nat)
    requires k < |cs|
  {
    var provider := cs[k].provider;
    Admits(ProbedTimes(At(all, provider), Sharing(cs[..k], provider), now, c), now, c)
  }

  /** A closed breaker loses no candidate. */
  lemma ClosedAreKept(all: Breakers, cs: seq<Candidate>, now: real, c: Config, x: Candidate)
    requires c.Valid() && x in cs && At(all, x.provider).state == Closed
    ensures x in Screen(all, cs, now, c).1
  {
    ScreenKeepsIff(all, cs, now, c, x);
    var k :| 0 <= k < |cs| && cs[k] == x;
    assert KeptAt(all, cs, now, c, k);
  }

  /** Exactly the providers attempted before are left out, in any case. */
  lemma NotAttemptedMembers(cs: seq<Candidate>, attempted: set<string>)
    ensures forall c :: c in NotAttempted(cs, attempted) <==>
              c in cs && forall p :: p in attempted ==> Lower(p) != Lower(c.provider)
  {
    FilterMembers((c: Candidate) => Lower(c.provider) !in LowerAll(attempted), cs);
  }

  /** Whom the choice among the admitted may fall on: capable, and healthy unless no capable one is. */
  ghost predicate Choosable(e: Candidate, open: seq<Candidate>, required: seq<string>) {
    && e in open && Supports(e, required)
    && (e.isHealthy || forall d :: d in open && Supports(d, required) ==> !d.isHealthy)
  }

  /** Nobody is chosen exactly when nobody admitted is capable. */
  lemma ChooseNobodyIff(open: seq<Candidate>, r: ChatRequest, w: Weights, round: real -> real)
    ensures Choose(open, r, w, round) == None <==> forall e :: e in open ==> !Supports(e, r.requiredCapabilities)
  {
    PoolMembers(open, r.requiredCapabilities);
  }

  /**
   A fallback is a discovered, capable candidate of a provider not tried before, healthy unless no admitted
   capable one is, and dominated by no other such candidate.
   */
  lemma FallbackIsEligible(all: Breakers, discovered: seq<Candidate>, attempted: set<string>, r: ChatRequest,
                           w: Weights, round: real -> real, now: real, c: Config)
    requires c.Valid()
    requires Choose(Screen(all, NotAttempted(discovered, attempted), now, c).1, r, w, round).Some?
    ensures var open := Screen(all, NotAttempted(discovered, attempted), now, c).1;
            var best := Choose(open, r, w, round).value;
            && best in open && best in discovered
            && Lower(best.provider) !in LowerAll(attempted)
            && Supports(best, r.requiredCapabilities)
            && (best.isHealthy || forall e :: e in open && Supports(e, r.requiredCapabilities) ==> !e.isHealthy)
            && (Realistic(discovered) && NonNegative(w) && Monotone(round) ==>
                forall e :: Choosable(e, open, r.requiredCapabilities) ==> !Dominates(e, best))
  {
    var eligible := NotAttempted(discovered, attempted);
    var open := Screen(all, eligible, now, c).1;
    var pool := PreferHealthy(Capable(open, r.requiredCapabilities));
    FilterMembers((c: Candidate) => Lower(c.provider) !in LowerAll(attempted), discovered);
    ScreenKeepsMembers(all, eligible, now, c);
    PoolMembers(open, r.requiredCapabilities);
    Ranking(pool, w, round);
    if Realistic(discovered) && NonNegative(w) && Monotone(round) {
      WinnerIsParetoOptimal(pool, w, round);
    }
  }

  lemma Ranking(pool: seq<Candidate>, w: Weights, round: real -> real)
    requires pool != []
    ensures |Ranked(pool, w, round)| == |pool|
    ensures Ranked(pool, w, round)[0].candidate in pool
  {
    var scored := ScoreAll(pool, BoundsOf(pool), NormalizeWeights(w), round);
    Ordering.SortPermutes(Before, scored);
    Ordering.InMultiset(Ranked(pool, w, round), scored, 0);
  }

  /**
   The executor asks the chosen provider's breaker once more. It is let through exactly when the breaker
   is closed, or half-open with probes to spare after all the questions the selection itself asked.
   */
  lemma RecheckAdmitsIff(all: Breakers, eligible: seq<Candidate>, x: Candidate, now: real, c: Config)
    requires c.Valid() && x in Screen(all, eligible, now, c).1
    ensures var before := Resolve(At(all, x.provider), now, c);
            Admits(At(Screen(all, eligible, now, c).0, x.provider), now, c) <==>
              || before.state == Closed
              || (before.state == HalfOpen && before.trials + Sharing(eligible, x.provider) < c.halfOpenTrials)
  {
    ScreenKeepsMembers(all, eligible, now, c);
    ScreenProbes(all, eligible, x.provider, now, c);
  }

  /**
   With no probe to spare the selection itself exhausts a half-open breaker: the chosen provider is
   refused now and, whoever asks and however late, until some outcome is reported. With the default of
   one probe this happens to every half-open provider the selector picks.
   */
  lemma SelectionStarvesHalfOpen(all: Breakers, eligible: seq<Candidate>, x: Candidate, now: real, c: Config,
                                 later: seq<Event>, after: real)
    requires c.Valid() && x in Screen(all, eligible, now, c).1 && OutcomeFree(later)
    requires var before := Resolve(At(all, x.provider), now, c);
             before.state == HalfOpen && before.trials + Sharing(eligible, x.provider) >= c.halfOpenTrials
    ensures !Admits(Run(At(Screen(all, eligible, now, c).0, x.provider), later, c), after, c)
    ensures c.halfOpenTrials == 1 ==> Resolve(At(all, x.provider), now, c).trials == 0
  {
    ScreenKeepsMembers(all, eligible, now, c);
    ScreenProbes(all, eligible, x.provider, now, c);
    ExhaustedIsStuck(At(Screen(all, eligible, now, c).0, x.provider), later, after, c);
  }

  /** With one probe to give, every half-open provider the selection keeps is refused from then on. */
  lemma SingleTrialStarves(all: Breakers, eligible: seq<Candidate>, x: Candidate, now: real, c: Config,
                           later: seq<Event>, after: real)
    requires c.Valid() && c.halfOpenTrials == 1 && x in Screen(all, eligible, now, c).1 && OutcomeFree(later)
    requires Resolve(At(all, x.provider), now, c).state == HalfOpen
    ensures !Admits(Run(At(Screen(all, eligible, now, c).0, x.provider), later, c), after, c)
  {
    ScreenKeepsMembers(all, eligible, now, c);
    SelectionStarvesHalfOpen(all, eligible, x, now, c, later, after);
  }

  const GROQ: Candidate := Candidate("groq", "llama-3", [], true, 0.5, 200.0, None, 1.0)

  /** Open since second 0 after five failures; the cooldown is 30 seconds and one probe is allowed. */
  const RECOVERING: Breakers := map[KeyOf("groq") := Breaker(Open, 5, Some(0.0), 0)]

  const DEFAULTS: Config := Config(5, 30.0, 1)

  /** The only candidate's cooldown is just over: the selector picks it, and nobody is ever let through to it. */
  lemma RecoveringProviderIsStarved(r: ChatRequest, w: Weights, round: real -> real, later: seq<Event>, after: real)
    requires r.requiredCapabilities == [] && OutcomeFree(later)
    ensures var (asked, open) := Screen(RECOVERING, [GROQ], 30.0, DEFAULTS);
            && Choose(open, r, w, round) == Some(GROQ)
            && !Admits(Run(At(asked, "groq"), later, DEFAULTS), after, DEFAULTS)
  {
    ScreenSnoc(RECOVERING, [], GROQ, 30.0, DEFAULTS);
    assert [] + [GROQ] == [GROQ];
    var open := Screen(RECOVERING, [GROQ], 30.0, DEFAULTS).1;
    assert open == [GROQ];
    PoolMembers(open, []);
    Ranking(PreferHealthy(Capable(open, [])), w, round);
    SingleTrialStarves(RECOVERING, [GROQ], GROQ, 30.0, DEFAULTS, later, after);
  }
}
