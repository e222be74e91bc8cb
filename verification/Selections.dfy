/** The fallback selections of one request, in order, and the path of providers they lead along. */
module Selections {
  import opened Wrappers
  import opened Names
  import opened Scorer
  import opened Routing
  import opened CircuitBreakers
  import opened BreakerRegistry
  import opened Failover

  datatype Target = Target(provider: string, model: string)

  function TargetOf(c: Candidate): Target {
    Target(c.provider, c.model)
  }

  /** What a selection depends on besides discovery and breakers. */
  datatype Rule = Rule(request: ChatRequest, weights: Weights, round: real -> real, config: Config)

  /** The candidates found at some moment, and the breakers then. */
  datatype Discovery = Discovery(found: seq<Candidate>, before: Breakers, at: real)

  /** One selection: what it excluded, what it chose from, whom it picked, and the breakers after it. */
  datatype Selection = Selection(
    attempted: set<string>,
    discovery: Discovery,
    picked: Option<Candidate>,
    after: Breakers)

  function DiscoveriesOf(ss: seq<Selection>): (ds: seq<Discovery>)
    ensures |ds| == |ss|
  {
    seq(|ss|, i requires 0 <= i < |ss| => ss[i].discovery)
  }

  lemma DiscoveriesAppend(earlier: seq<Discovery>, ss: seq<Selection>, s: Selection)
    ensures earlier + DiscoveriesOf(ss) + [s.discovery] == earlier + DiscoveriesOf(ss + [s])
  {
  }

  /** The selector's choice among the discovered candidates not attempted before. */
  ghost predicate WellChosen(s: Selection, rule: Rule) {
    var (asked, open) := Screen(s.discovery.before, NotAttempted(s.discovery.found, s.attempted), s.discovery.at,
                                rule.config);
    s.after == asked && s.picked == Choose(open, rule.request, rule.weights, rule.round)
  }

  ghost predicate AllChosen(ss: seq<Selection>, rule: Rule) {
    forall i {:trigger WellChosen(ss[i], rule)} :: 0 <= i < |ss| ==> WellChosen(ss[i], rule)
  }

  ghost predicate AllPicked(ss: seq<Selection>) {
    forall i :: 0 <= i < |ss| ==> ss[i].picked.Some?
  }

  /** The initial target and every pick after it. */
  function PathOf(initial: Target, ss: seq<Selection>): seq<Target> {
    if ss == [] then [initial]
    else
      var last := ss[|ss| - 1];
      PathOf(initial, ss[..|ss| - 1]) + if last.picked.Some? then [TargetOf(last.picked.value)] else []
  }

  function NamesOf(path: seq<Target>): set<string> {
    set t | t in path :: Lower(t.provider)
  }

  /**
   Every selection excludes exactly the providers on the path so far and picks none of them;
   only the last selection may pick nobody.
   */
  ghost predicate Trail(initial: Target, ss: seq<Selection>) {
    if ss == [] then true
    else
      var front, last := ss[..|ss| - 1], ss[|ss| - 1];
      && Trail(initial, front) && AllPicked(front)
      && last.attempted == NamesOf(PathOf(initial, front))
      && (last.picked.Some? ==> Lower(last.picked.value.provider) !in last.attempted)
  }

  /** The request is about to visit `next`, having attempted what the last selection excluded. */
  ghost predicate Heading(initial: Target, ss: seq<Selection>, attempted: set<string>, next: Target) {
    && Trail(initial, ss) && AllPicked(ss)
    && if ss == [] then attempted == {} && next == initial
       else attempted == ss[|ss| - 1].attempted && next == TargetOf(ss[|ss| - 1].picked.value)
  }

  /** The request has visited the whole path. */
  ghost predicate Arrived(initial: Target, ss: seq<Selection>, attempted: set<string>) {
    Trail(initial, ss) && AllPicked(ss) && attempted == NamesOf(PathOf(initial, ss))
  }

  lemma NamesAppend(path: seq<Target>, t: Target)
    ensures NamesOf(path + [t]) == NamesOf(path) + {Lower(t.provider)}
  {
    assert forall x :: x in path + [t] <==> x in path || x == t;
  }

  lemma Arrive(initial: Target, ss: seq<Selection>, attempted: set<string>, next: Target)
    requires Heading(initial, ss, attempted, next)
    ensures Arrived(initial, ss, attempted + {Lower(next.provider)})
    ensures next in PathOf(initial, ss)
  {
    if ss == [] {
      NamesAppend([], initial);
      assert [] + [initial] == [initial];
    } else {
      NamesAppend(PathOf(initial, ss[..|ss| - 1]), next);
    }
  }

  lemma Select(initial: Target, ss: seq<Selection>, s: Selection)
    requires Arrived(initial, ss, s.attempted)
    requires s.picked.Some? ==> Lower(s.picked.value.provider) !in s.attempted
    ensures Trail(initial, ss + [s])
    ensures s.picked.Some? ==> Heading(initial, ss + [s], s.attempted, TargetOf(s.picked.value))
    ensures forall t :: t in PathOf(initial, ss) ==> t in PathOf(initial, ss + [s])
  {
    assert (ss + [s])[..|ss|] == ss;
  }

  lemma ChosenAppend(ss: seq<Selection>, s: Selection, rule: Rule)
    requires AllChosen(ss, rule) && WellChosen(s, rule)
    ensures AllChosen(ss + [s], rule)
  {
  }

  /** No provider occurs twice, in any spelling of its case. */
  ghost predicate DistinctProviders(path: seq<Target>) {
    forall i, j :: 0 <= i < j < |path| ==> Lower(path[i].provider) != Lower(path[j].provider)
  }

  lemma DistinctAppend(path: seq<Target>, t: Target)
    requires DistinctProviders(path) && Lower(t.provider) !in NamesOf(path)
    ensures DistinctProviders(path + [t])
  {
    forall i | 0 <= i < |path| ensures Lower(path[i].provider) != Lower(t.provider) {
      assert path[i] in path;
    }
  }

  lemma {:induction false} PathIsDistinct(initial: Target, ss: seq<Selection>)
    requires Trail(initial, ss)
    ensures DistinctProviders(PathOf(initial, ss))
  {
    if ss == [] {
    } else {
      var front, last := ss[..|ss| - 1], ss[|ss| - 1];
      PathIsDistinct(initial, front);
      if last.picked.Some? {
        DistinctAppend(PathOf(initial, front), TargetOf(last.picked.value));
      } else {
        assert PathOf(initial, front) + [] == PathOf(initial, front);
      }
    }
  }

  /** A pick is the target after those its selection excluded. */
  lemma {:induction false} PicksFollow(initial: Target, ss: seq<Selection>, i: nat)
    requires Trail(initial, ss) && i < |ss| && ss[i].picked.Some?
    ensures |PathOf(initial, ss)| > i + 1
    ensures PathOf(initial, ss)[i + 1] == TargetOf(ss[i].picked.value)
    ensures ss[i].attempted == NamesOf(PathOf(initial, ss)[..i + 1])
  {
    var front := ss[..|ss| - 1];
    PathLength(initial, front);
    if i < |front| {
      PicksFollow(initial, front, i);
      assert PathOf(initial, ss)[..i + 1] == PathOf(initial, front)[..i + 1];
    } else {
      assert PathOf(initial, ss)[..i + 1] == PathOf(initial, front);
    }
  }

  lemma {:induction false} PathLength(initial: Target, ss: seq<Selection>)
    requires AllPicked(ss)
    ensures |PathOf(initial, ss)| == |ss| + 1
  {
    if ss == [] {
    } else {
      PathLength(initial, ss[..|ss| - 1]);
    }
  }

  // ---------------------------------------------------------------- which picks are really tried

  /** The executor's own question to the breaker of a pick, right after the selection, is answered yes. */
  ghost predicate Readmitted(s: Selection, c: Config)
    requires s.picked.Some?
  {
    Admits(At(s.after, s.picked.value.provider), s.discovery.at, c)
  }

  /** Of the first `n` picks exactly those were called that their breakers admitted once more. */
  ghost predicate CalledIfReadmitted(ss: seq<Selection>, n: nat, called: set<string>, c: Config) {
    && n <= |ss|
    && forall i :: 0 <= i < n ==>
         && ss[i].picked.Some?
         && (Lower(ss[i].picked.value.provider) in called <==> Readmitted(ss[i], c))
  }

  /** A visit to the latest pick settles it and leaves the earlier ones settled. */
  lemma VisitSettlesPick(initial: Target, ss: seq<Selection>, called: set<string>, callable: bool, c: Config)
    requires ss != [] && Trail(initial, ss) && AllPicked(ss)
    requires CalledIfReadmitted(ss, |ss| - 1, called, c)
    requires called <= ss[|ss| - 1].attempted && (callable <==> Readmitted(ss[|ss| - 1], c))
    ensures var name := Lower(ss[|ss| - 1].picked.value.provider);
            CalledIfReadmitted(ss, |ss|, if callable then called + {name} else called, c)
  {
    var last := ss[|ss| - 1];
    forall i | 0 <= i < |ss| - 1 ensures Lower(ss[i].picked.value.provider) != Lower(last.picked.value.provider) {
      PicksAreOnPath(initial, ss[..|ss| - 1], i);
    }
  }

  lemma {:induction false} PicksAreOnPath(initial: Target, ss: seq<Selection>, i: nat)
    requires Trail(initial, ss) && AllPicked(ss) && i < |ss|
    ensures Lower(ss[i].picked.value.provider) in NamesOf(PathOf(initial, ss))
  {
    PicksFollow(initial, ss, i);
    assert PathOf(initial, ss)[i + 1] in PathOf(initial, ss);
  }

  /**
   What a pick is, and when the executor gets through to it: an eligible, undominated candidate, called
   exactly when its breaker was closed, or half-open with probes to spare after the selection's own questions.
   */
  lemma PickIsSound(s: Selection, rule: Rule)
    requires rule.config.Valid() && WellChosen(s, rule) && s.picked.Some?
    ensures var best := s.picked.value;
            && best in s.discovery.found && Lower(best.provider) !in LowerAll(s.attempted)
            && Supports(best, rule.request.requiredCapabilities)
    ensures var eligible := NotAttempted(s.discovery.found, s.attempted);
            var open := Screen(s.discovery.before, eligible, s.discovery.at, rule.config).1;
            && Choosable(s.picked.value, open, rule.request.requiredCapabilities)
            && (Realistic(s.discovery.found) && NonNegative(rule.weights) && Monotone(rule.round) ==>
                  forall e :: Choosable(e, open, rule.request.requiredCapabilities) ==> !Dominates(e, s.picked.value))
    ensures var provider := s.picked.value.provider;
            var breaker := Resolve(At(s.discovery.before, provider), s.discovery.at, rule.config);
            var questions := Sharing(NotAttempted(s.discovery.found, s.attempted), provider);
            Readmitted(s, rule.config) <==>
              || breaker.state == Closed
              || (breaker.state == HalfOpen && breaker.trials + questions < rule.config.halfOpenTrials)
  {
    FallbackIsEligible(s.discovery.before, s.discovery.found, s.attempted, rule.request, rule.weights, rule.round,
                       s.discovery.at, rule.config);
    RecheckAdmitsIff(s.discovery.before, NotAttempted(s.discovery.found, s.attempted), s.picked.value, s.discovery.at,
                     rule.config);
  }

  /** A selection picks nobody exactly when no candidate it was admitted to has every required capability. */
  lemma PicksNobodyIff(s: Selection, rule: Rule)
    requires WellChosen(s, rule)
    ensures s.picked == None <==>
              var eligible := NotAttempted(s.discovery.found, s.attempted);
              var open := Screen(s.discovery.before, eligible, s.discovery.at, rule.config).1;
              forall e :: e in open ==> !Supports(e, rule.request.requiredCapabilities)
  {
    var eligible := NotAttempted(s.discovery.found, s.attempted);
    var open := Screen(s.discovery.before, eligible, s.discovery.at, rule.config).1;
    ChooseNobodyIff(open, rule.request, rule.weights, rule.round);
  }

  lemma PickIsNew(s: Selection, rule: Rule)
    requires rule.config.Valid() && WellChosen(s, rule) && s.picked.Some?
    requires forall p :: p in s.attempted ==> Lower(p) == p
    ensures Lower(s.picked.value.provider) !in s.attempted
  {
    PickIsSound(s, rule);
    var name := Lower(s.picked.value.provider);
    assert name in s.attempted ==> Lower(name) in LowerAll(s.attempted);
  }
}
