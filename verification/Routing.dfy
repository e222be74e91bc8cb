/** The routing engine: mode resolution, candidate filters and the final choice. */
module Routing {
  import opened Wrappers
  import opened Names
  import opened Ordering
  import opened Scorer

  /** The parts of a chat request that routing, costing and failover read. */
  datatype ChatRequest = ChatRequest(
    provider: Option<string>,
    model: string,
    routingMode: Option<string>,
    requiredCapabilities: seq<string>,
    failoverEnabled: Option<bool>,
    messageLengths: seq<nat>,
    maxTokens: Option<nat>)

  predicate Given(s: Option<string>) {
    s.Some? && s.value != ""
  }

  const VALID_MODES: set<string> :=
    {"manual", "auto", "lowest_cost", "lowest_latency", "best_available", "capability_based"}

  /** The effective mode, or `None` for an unknown one. */
  function ResolveMode(r: ChatRequest, defaultMode: string): Option<string> {
    if Given(r.routingMode) then
      var mode := Lower(r.routingMode.value);
      if mode in VALID_MODES then Some(mode) else None
    else if Given(r.provider) && r.model != "" && Lower(r.model) != "auto" then Some("manual")
    else if r.requiredCapabilities != [] then Some("capability_based")
    else Some(defaultMode)
  }

  function Normal(capability: string): string {
    Strip(Lower(capability))
  }

  /** Every non-blank required capability is among the candidate's, ignoring case and outer blanks. */
  predicate Supports(c: Candidate, required: seq<string>) {
    forall r :: r in required && Strip(r) != "" ==> exists cap :: cap in c.capabilities && Normal(cap) == Normal(r)
  }

  function Capable(cs: seq<Candidate>, required: seq<string>): seq<Candidate> {
    if required == [] then cs else Filter(c => Supports(c, required), cs)
  }

  method FilterByCapabilities(cs: seq<Candidate>, required: seq<string>) returns (filtered: seq<Candidate>)
    ensures filtered == Filter(c => Supports(c, required), cs)
  {
    var wanted := set r | r in required && Strip(r) != "" :: Normal(r);
    filtered := [];
    for i := 0 to |cs|
      invariant filtered == Filter(c => Supports(c, required), cs[..i])
    {
      var offered := set cap | cap in cs[i].capabilities :: Normal(cap);
      assert cs[..i + 1][..i] == cs[..i];
      assert wanted <= offered <==> Supports(cs[i], required) by {
        if Supports(cs[i], required) {
          forall w | w in wanted ensures w in offered {
            var r :| r in required && Strip(r) != "" && Normal(r) == w;
          }
        }
        if wanted <= offered {
          forall r | r in required && Strip(r) != ""
            ensures exists cap :: cap in cs[i].capabilities && Normal(cap) == Normal(r)
          {
            assert Normal(r) in offered;
          }
        }
      }
      if wanted <= offered {
        filtered := filtered + [cs[i]];
      }
    }
    assert cs[..|cs|] == cs;
  }

  /** Healthy candidates if there are any, else all of them. */
  function PreferHealthy(cs: seq<Candidate>): seq<Candidate> {
    var healthy := Filter((c: Candidate) => c.isHealthy, cs);
    if healthy != [] then healthy else cs
  }

  function OfRequestedProvider(cs: seq<Candidate>, r: ChatRequest): seq<Candidate> {
    if Given(r.provider) && Lower(r.provider.value) != "auto" then
      Filter((c: Candidate) => Lower(c.provider) == Lower(r.provider.value), cs)
    else cs
  }

  /** The candidates `route` scores. */
  function RoutingPool(discovered: seq<Candidate>, r: ChatRequest): seq<Candidate> {
    PreferHealthy(Capable(OfRequestedProvider(discovered, r), r.requiredCapabilities))
  }

  datatype RouteResult =
    | Decision(provider: string, model: string, mode: string, score: real)
    | InvalidRoutingMode
    | InvalidManualRouting
    | NoRoutableProvider
    | NoCapableProvider

  function RouteSpec(r: ChatRequest, defaultMode: string, registered: string -> bool, discovered: seq<Candidate>,
                     weightsOf: string -> Weights, round: real -> real): RouteResult
  {
    var mode := ResolveMode(r, defaultMode);
    if mode.None? then InvalidRoutingMode
    else if mode.value == "manual" then
      if !Given(r.provider) || r.model == "" || Lower(r.model) == "auto" then InvalidManualRouting
      else if !registered(r.provider.value) then NoRoutableProvider
      else Decision(r.provider.value, r.model, "manual", 1.0)
    else
      var named := OfRequestedProvider(discovered, r);
      if named == [] then NoRoutableProvider
      else if Capable(named, r.requiredCapabilities) == [] then NoCapableProvider
      else
        var pool := RoutingPool(discovered, r);
        RankedNonEmpty(pool, weightsOf(mode.value), round);
        var best := Ranked(pool, weightsOf(mode.value), round)[0];
        Decision(best.candidate.provider, best.candidate.model, mode.value, best.total)
  }

  lemma RankedNonEmpty(pool: seq<Candidate>, w: Weights, round: real -> real)
    ensures |Ranked(pool, w, round)| == |pool|
  {
    if pool != [] {
      SortPermutes(Before, ScoreAll(pool, BoundsOf(pool), NormalizeWeights(w), round));
    }
  }

  method Route(r: ChatRequest, defaultMode: string, registered: string -> bool, discovered: seq<Candidate>,
               weightsOf: string -> Weights, round: real -> real) returns (result: RouteResult)
    ensures result == RouteSpec(r, defaultMode, registered, discovered, weightsOf, round)
  {
    var mode := ResolveMode(r, defaultMode);
    if mode.None? {
      return InvalidRoutingMode;
    }
    if mode.value == "manual" {
      if !Given(r.provider) || r.model == "" || Lower(r.model) == "auto" {
        return InvalidManualRouting;
      }
      if !registered(r.provider.value) {
        return NoRoutableProvider;
      }
      return Decision(r.provider.value, r.model, "manual", 1.0);
    }
    var candidates := discovered;
    if candidates == [] {
      return NoRoutableProvider;
    }
    if Given(r.provider) && Lower(r.provider.value) != "auto" {
      candidates := OfRequestedProvider(candidates, r);
      if candidates == [] {
        return NoRoutableProvider;
      }
    }
    if r.requiredCapabilities != [] {
      candidates := FilterByCapabilities(candidates, r.requiredCapabilities);
      if candidates == [] {
        return NoCapableProvider;
      }
    }
    candidates := PreferHealthy(candidates);
    var ranked := ScoreCandidates(candidates, weightsOf(mode.value), round);
    RankedNonEmpty(candidates, weightsOf(mode.value), round);
    var best := ranked[0];
    result := Decision(best.candidate.provider, best.candidate.model, mode.value, best.total);
  }

  /** What a required capability asks for: the same word, in any case and with any blanks around it. */
  lemma SupportsMeans(c: Candidate, required: seq<string>)
    ensures Supports(c, required) <==>
              forall r :: r in required && Strip(r) != "" ==>
                exists cap :: cap in c.capabilities && Strip(Lower(cap)) == Strip(Lower(r))
  {
  }

  /** Exactly the capable candidates are scored, and of them the healthy ones alone if there are any. */
  lemma PoolMembers(cs: seq<Candidate>, required: seq<string>)
    ensures forall c :: c in PreferHealthy(Capable(cs, required)) <==>
              && c in cs && Supports(c, required)
              && (c.isHealthy || forall d :: d in cs && Supports(d, required) ==> !d.isHealthy)
    ensures PreferHealthy(Capable(cs, required)) == [] <==> forall d :: d in cs ==> !Supports(d, required)
  {
    var capable := Capable(cs, required);
    var healthy := Filter((c: Candidate) => c.isHealthy, capable);
    FilterMembers(c => Supports(c, required), cs);
    FilterMembers((c: Candidate) => c.isHealthy, capable);
    assert forall c :: c in capable <==> c in cs && Supports(c, required);
    if healthy == [] {
      forall d | d in cs && Supports(d, required) ensures !d.isHealthy {
        assert d in capable;
      }
      assert capable != [] ==> capable[0] in capable;
    } else {
      assert healthy[0] in healthy;
    }
  }

  /** A candidate of the provider the request names, if it names one. */
  predicate Requested(c: Candidate, r: ChatRequest) {
    r.provider.Some? && r.provider.value != "" && Lower(r.provider.value) != "auto" ==>
      Lower(c.provider) == Lower(r.provider.value)
  }

  lemma RequestedMembers(cs: seq<Candidate>, r: ChatRequest)
    ensures forall c :: c in OfRequestedProvider(cs, r) <==> c in cs && Requested(c, r)
    ensures OfRequestedProvider(cs, r) == [] <==> forall c :: c in cs ==> !Requested(c, r)
  {
    if Given(r.provider) && Lower(r.provider.value) != "auto" {
      FilterMembers((c: Candidate) => Lower(c.provider) == Lower(r.provider.value), cs);
    }
    var named := OfRequestedProvider(cs, r);
    assert named != [] ==> named[0] in named;
    assert cs != [] ==> cs[0] in cs;
  }

  /** In which mode a request is routed; a mode the gateway does not know is refused. */
  lemma ModeTaken(r: ChatRequest, defaultMode: string)
    ensures r.routingMode.Some? && r.routingMode.value != "" ==>
              var mode := Lower(r.routingMode.value);
              if mode == "manual" || mode == "auto" || mode == "lowest_cost" || mode == "lowest_latency"
                 || mode == "best_available" || mode == "capability_based"
              then ResolveMode(r, defaultMode) == Some(mode) else ResolveMode(r, defaultMode) == None
    ensures r.routingMode.None? || r.routingMode.value == "" ==>
              ResolveMode(r, defaultMode) ==
                if r.provider.Some? && r.provider.value != "" && r.model != "" && Lower(r.model) != "auto"
                then Some("manual")
                else if |r.requiredCapabilities| > 0 then Some("capability_based")
                else Some(defaultMode)
  {
  }

  /** Manual routing takes the named provider and model unscored, if both are named and the provider is registered. */
  lemma ManualRoute(r: ChatRequest, defaultMode: string, registered: string -> bool, discovered: seq<Candidate>,
                    weightsOf: string -> Weights, round: real -> real)
    requires ResolveMode(r, defaultMode) == Some("manual")
    ensures var d := RouteSpec(r, defaultMode, registered, discovered, weightsOf, round);
            var complete := r.provider.Some? && r.provider.value != "" && r.model != "" && Lower(r.model) != "auto";
            && (!complete ==> d == InvalidManualRouting)
            && (complete && registered(r.provider.value) ==> d == Decision(r.provider.value, r.model, "manual", 1.0))
            && (complete && !registered(r.provider.value) ==> d == NoRoutableProvider)
  {
  }

  /** When scored routing fails, and that it fails in no other way. */
  lemma RouteFailsIff(r: ChatRequest, defaultMode: string, registered: string -> bool, discovered: seq<Candidate>,
                      weightsOf: string -> Weights, round: real -> real)
    requires ResolveMode(r, defaultMode) != Some("manual")
    ensures var d := RouteSpec(r, defaultMode, registered, discovered, weightsOf, round);
            && (d == InvalidRoutingMode <==> ResolveMode(r, defaultMode) == None)
            && (d == NoRoutableProvider <==>
                  ResolveMode(r, defaultMode).Some? && forall c :: c in discovered ==> !Requested(c, r))
            && (d == NoCapableProvider <==>
                  && ResolveMode(r, defaultMode).Some? && (exists c :: c in discovered && Requested(c, r))
                  && forall c :: c in discovered && Requested(c, r) ==> !Supports(c, r.requiredCapabilities))
            && !d.InvalidManualRouting?
  {
    var named := OfRequestedProvider(discovered, r);
    RequestedMembers(discovered, r);
    PoolMembers(named, r.requiredCapabilities);
    FilterMembers(c => Supports(c, r.requiredCapabilities), named);
    var capable := Capable(named, r.requiredCapabilities);
    assert capable != [] ==> capable[0] in capable;
    assert forall c :: c in capable <==> c in named && Supports(c, r.requiredCapabilities);
  }

  /** Whom scored routing may choose: of the requested provider, capable, and healthy unless no such candidate is. */
  ghost predicate Eligible(c: Candidate, discovered: seq<Candidate>, r: ChatRequest) {
    && c in discovered && Requested(c, r) && Supports(c, r.requiredCapabilities)
    && (c.isHealthy
        || forall e :: e in discovered && Requested(e, r) && Supports(e, r.requiredCapabilities) ==> !e.isHealthy)
  }

  /**
   A routed (not manual) winner was discovered, has the requested provider and every required
   capability, is healthy unless nothing eligible is, and is dominated by no other such candidate.
   */
  lemma RouteIsSound(r: ChatRequest, defaultMode: string, registered: string -> bool, discovered: seq<Candidate>,
                     weightsOf: string -> Weights, round: real -> real)
    requires Realistic(discovered) && Monotone(round) && forall m :: NonNegative(weightsOf(m))
    requires ResolveMode(r, defaultMode) != Some("manual")
    requires RouteSpec(r, defaultMode, registered, discovered, weightsOf, round).Decision?
    ensures var d := RouteSpec(r, defaultMode, registered, discovered, weightsOf, round);
            && ResolveMode(r, defaultMode) == Some(d.mode)
            && exists c :: Eligible(c, discovered, r) && c.provider == d.provider && c.model == d.model
                 && (forall e :: Eligible(e, discovered, r) ==> !Dominates(e, c))
                 && var bounds, shares := BoundsOf(RoutingPool(discovered, r)), NormalizeWeights(weightsOf(d.mode));
                 d.score == Score(c, bounds, shares, round).total
    ensures forall e :: e in RoutingPool(discovered, r) <==> Eligible(e, discovered, r)
  {
    var named, pool := OfRequestedProvider(discovered, r), RoutingPool(discovered, r);
    var w := weightsOf(ResolveMode(r, defaultMode).value);
    RequestedMembers(discovered, r);
    PoolMembers(named, r.requiredCapabilities);
    WinnerIsParetoOptimal(pool, w, round);
    WinnerIsScored(pool, w, round);
    var best := Ranked(pool, w, round)[0].candidate;
    assert best in pool && Eligible(best, discovered, r);
  }
}
