/** Ranking of routing candidates: normalised weighted scores and a total-order sort. */
module Scorer {
  import opened Wrappers
  import opened Ordering

  datatype Candidate = Candidate(
    provider: string,
    model: string,
    capabilities: seq<string>,
    isHealthy: bool,
    cost: real,
    baselineLatency: real,
    runtimeLatency: Option<real>,
    successRate: real)
  {
    function EffectiveLatency(): real {
      if runtimeLatency.Some? && runtimeLatency.value > 0.0 then runtimeLatency.value else baselineLatency
    }

    function Health(): real {
      if isHealthy then 1.0 else 0.0
    }
  }

  datatype Weights = Weights(health: real, success: real, latency: real, cost: real)

  datatype Breakdown = Breakdown(health: real, success: real, latency: real, cost: real)

  datatype Scored = Scored(candidate: Candidate, total: real, breakdown: Breakdown)

  /** `round(x, 4)`: nothing is assumed of it beyond monotonicity. */
  ghost predicate Monotone(round: real -> real) {
    forall x, y :: x <= y ==> round(x) <= round(y)
  }

  // ---------------------------------------------------------------- pool bounds

  /** The smallest value of `f` over the pool. */
  function Least(pool: seq<Candidate>, f: Candidate -> real): real
    requires pool != []
  {
    var last := pool[|pool| - 1];
    if |pool| == 1 then f(last)
    else
      var m := Least(pool[..|pool| - 1], f);
      if f(last) < m then f(last) else m
  }

  lemma {:induction false} LeastIsLeast(pool: seq<Candidate>, f: Candidate -> real)
    requires pool != []
    ensures exists i :: 0 <= i < |pool| && f(pool[i]) == Least(pool, f)
    ensures forall i :: 0 <= i < |pool| ==> Least(pool, f) <= f(pool[i])
  {
    var last := |pool| - 1;
    if last > 0 {
      var front := pool[..last];
      LeastIsLeast(front, f);
      var i :| 0 <= i < |front| && f(front[i]) == Least(front, f);
      assert pool[i] == front[i];
      assert forall k :: 0 <= k < last ==> pool[k] == front[k];
      assert Least(pool, f) == f(pool[last]) || Least(pool, f) == f(pool[i]);
    } else {
      assert Least(pool, f) == f(pool[0]);
    }
  }

  function LatencyOf(c: Candidate): real { c.EffectiveLatency() }

  function CostOf(c: Candidate): real { c.cost }

  function Negated(f: Candidate -> real): Candidate -> real { c => -f(c) }

  function Paid(pool: seq<Candidate>): seq<Candidate> {
    Filter((c: Candidate) => c.cost > 0.0, pool)
  }

  datatype Bounds = Bounds(minLatency: real, maxLatency: real, minCost: real, maxCost: real, minPaidCost: real)

  function BoundsOf(pool: seq<Candidate>): Bounds
    requires pool != []
  {
    var paid := Paid(pool);
    Bounds(Least(pool, LatencyOf), -Least(pool, Negated(LatencyOf)),
           Least(pool, CostOf), -Least(pool, Negated(CostOf)),
           if paid == [] then 0.0 else Least(paid, CostOf))
  }

  lemma PaidMembers(pool: seq<Candidate>)
    ensures forall c :: c in Paid(pool) <==> c in pool && c.cost > 0.0
  {
    FilterMembers((c: Candidate) => c.cost > 0.0, pool);
  }

  lemma LeastIgnoresOrder(xs: seq<Candidate>, ys: seq<Candidate>, f: Candidate -> real)
    requires xs != [] && ys != [] && forall c :: c in xs <==> c in ys
    ensures Least(xs, f) == Least(ys, f)
  {
    LeastIsLeast(xs, f);
    LeastIsLeast(ys, f);
    var i :| 0 <= i < |xs| && f(xs[i]) == Least(xs, f);
    var j :| 0 <= j < |ys| && f(ys[j]) == Least(ys, f);
    assert xs[i] in ys && ys[j] in xs;
  }

  /** The bounds depend only on which candidates are in the pool. */
  lemma BoundsIgnoreOrder(xs: seq<Candidate>, ys: seq<Candidate>)
    requires xs != [] && ys != [] && forall c :: c in xs <==> c in ys
    ensures BoundsOf(xs) == BoundsOf(ys)
  {
    LeastIgnoresOrder(xs, ys, LatencyOf);
    LeastIgnoresOrder(xs, ys, Negated(LatencyOf));
    LeastIgnoresOrder(xs, ys, CostOf);
    LeastIgnoresOrder(xs, ys, Negated(CostOf));
    PaidMembers(xs);
    PaidMembers(ys);
    var p, q := Paid(xs), Paid(ys);
    assert p != [] ==> p[0] in q;
    assert q != [] ==> q[0] in p;
    if p != [] {
      LeastIgnoresOrder(p, q, CostOf);
    }
  }

  // ---------------------------------------------------------------- scores

  function NormalizeWeights(w: Weights): Weights {
    var total := w.health + w.success + w.latency + w.cost;
    if total <= 0.0 then Weights(0.25, 0.25, 0.25, 0.25)
    else Weights(w.health / total, w.success / total, w.latency / total, w.cost / total)
  }

  function Clamp(x: real): real {
    var low := if x < 1.0 then x else 1.0;
    if low > 0.0 then low else 0.0
  }

  function LatencyScore(latency: real, b: Bounds): real {
    if b.maxLatency == b.minLatency then 1.0
    else if latency > 0.0 then b.minLatency / latency else 1.0
  }

  function CostScore(cost: real, b: Bounds): real {
    if b.maxCost == b.minCost || cost == 0.0 then 1.0
    else if b.minCost == 0.0 && b.minPaidCost > 0.0 then
      var scaled := 0.75 * (b.minPaidCost / cost);
      if scaled > 0.05 then scaled else 0.05
    else if b.minCost > 0.0 then b.minCost / cost
    else 1.0
  }

  function Factors(c: Candidate, b: Bounds): Breakdown {
    Breakdown(c.Health(), Clamp(c.successRate), LatencyScore(c.EffectiveLatency(), b), CostScore(c.cost, b))
  }

  function Weigh(f: Breakdown, w: Weights): real {
    f.health * w.health + f.success * w.success + f.latency * w.latency + f.cost * w.cost
  }

  function Score(c: Candidate, b: Bounds, w: Weights, round: real -> real): Scored {
    var f := Factors(c, b);
    Scored(c, round(Clamp(Weigh(f, w))), Breakdown(round(f.health), round(f.success), round(f.latency), round(f.cost)))
  }

  function ScoreAll(cs: seq<Candidate>, b: Bounds, w: Weights, round: real -> real): seq<Scored> {
    Map(c => Score(c, b, w, round), cs)
  }

  // ---------------------------------------------------------------- the sort key

  predicate RealLess(x: real, y: real) { x < y }

  predicate CharLess(x: char, y: char) { x < y }

  function Figures(s: Scored): seq<real> {
    [-s.total, -s.candidate.Health(), -s.candidate.successRate, s.candidate.EffectiveLatency(), s.candidate.cost]
  }

  /** Ranks strictly before: the seven components of the sort key, in order. */
  predicate Before(a: Scored, b: Scored) {
    || LexLess(RealLess, Figures(a), Figures(b))
    || (Figures(a) == Figures(b) && (
          || LexLess(CharLess, a.candidate.provider, b.candidate.provider)
          || (a.candidate.provider == b.candidate.provider && LexLess(CharLess, a.candidate.model, b.candidate.model))))
  }

  /** The ranking the scorer returns, best first. */
  function Ranked(pool: seq<Candidate>, w: Weights, round: real -> real): seq<Scored> {
    if pool == [] then [] else Sort(Before, ScoreAll(pool, BoundsOf(pool), NormalizeWeights(w), round))
  }

  method ScoreCandidates(pool: seq<Candidate>, w: Weights, round: real -> real) returns (ranked: seq<Scored>)
    ensures ranked == Ranked(pool, w, round)
  {
    if pool == [] {
      return [];
    }
    var weights := NormalizeWeights(w);
    var bounds := BoundsOf(pool);
    var scored: seq<Scored> := [];
    for i := 0 to |pool|
      invariant scored == ScoreAll(pool[..i], bounds, weights, round)
    {
      scored := scored + [Score(pool[i], bounds, weights, round)];
    }
    assert pool[..|pool|] == pool;
    ranked := Sort(Before, scored);
  }

  // ---------------------------------------------------------------- the order

  lemma BeforeIrreflexive(a: Scored)
    ensures !Before(a, a)
  {
    LexIrreflexive(RealLess, Figures(a));
    LexIrreflexive(CharLess, a.candidate.provider);
    LexIrreflexive(CharLess, a.candidate.model);
  }

  lemma BeforeTransitive(a: Scored, b: Scored, c: Scored)
    requires Before(a, b) && Before(b, c)
    ensures Before(a, c)
  {
    if LexLess(RealLess, Figures(a), Figures(b)) && LexLess(RealLess, Figures(b), Figures(c)) {
      LexTransitive(RealLess, Figures(a), Figures(b), Figures(c));
    }
    var p, q, r := a.candidate.provider, b.candidate.provider, c.candidate.provider;
    if LexLess(CharLess, p, q) && LexLess(CharLess, q, r) {
      LexTransitive(CharLess, p, q, r);
    }
    var s, t, u := a.candidate.model, b.candidate.model, c.candidate.model;
    if LexLess(CharLess, s, t) && LexLess(CharLess, t, u) {
      LexTransitive(CharLess, s, t, u);
    }
  }

  predicate SameKey(a: Scored, b: Scored) {
    && Figures(a) == Figures(b)
    && a.candidate.provider == b.candidate.provider
    && a.candidate.model == b.candidate.model
  }

  lemma BeforeConnected(a: Scored, b: Scored)
    ensures Before(a, b) || SameKey(a, b) || Before(b, a)
  {
    LexConnected(RealLess, Figures(a), Figures(b));
    LexConnected(CharLess, a.candidate.provider, b.candidate.provider);
    LexConnected(CharLess, a.candidate.model, b.candidate.model);
  }

  lemma BeforeIsStrictWeakOrder()
    ensures StrictWeakOrder(Before)
  {
    forall a: Scored ensures !Before(a, a) { BeforeIrreflexive(a); }
    forall a: Scored, b: Scored, c: Scored | Before(a, b) && Before(b, c) ensures Before(a, c) {
      BeforeTransitive(a, b, c);
    }
    forall a: Scored, b: Scored, c: Scored | Before(a, c) ensures Before(a, b) || Before(b, c) {
      BeforeConnected(a, b);
      if Before(b, a) {
        BeforeTransitive(b, a, c);
      }
    }
  }

  // ---------------------------------------------------------------- permutation invariance

  /** No (provider, model) pair occurs twice. */
  ghost predicate DistinctTargets(pool: seq<Candidate>) {
    forall i, j :: 0 <= i < j < |pool| ==> pool[i].provider != pool[j].provider || pool[i].model != pool[j].model
  }

  lemma ScoredComparable(pool: seq<Candidate>, b: Bounds, w: Weights, round: real -> real)
    requires DistinctTargets(pool)
    ensures var s := ScoreAll(pool, b, w, round);
            forall i, j :: 0 <= i < j < |s| ==> Before(s[i], s[j]) || Before(s[j], s[i])
  {
    var s := ScoreAll(pool, b, w, round);
    forall i, j | 0 <= i < j < |s| ensures Before(s[i], s[j]) || Before(s[j], s[i]) {
      BeforeConnected(s[i], s[j]);
    }
  }

  /** Ranking is a function of the set of candidates: any order of discovery gives the same sequence. */
  lemma RankingIgnoresOrder(xs: seq<Candidate>, ys: seq<Candidate>, w: Weights, round: real -> real)
    requires multiset(xs) == multiset(ys) && DistinctTargets(xs) && DistinctTargets(ys)
    ensures Ranked(xs, w, round) == Ranked(ys, w, round)
  {
    if xs == [] || ys == [] {
      assert |multiset(ys)| == |ys| && |multiset(xs)| == |xs|;
    } else {
      forall c ensures c in xs <==> c in ys {
        assert c in multiset(xs) <==> c in multiset(ys);
      }
      BoundsIgnoreOrder(xs, ys);
      var b, n := BoundsOf(xs), NormalizeWeights(w);
      MapPermutes(c => Score(c, b, n, round), xs, ys);
      SortPermutes(Before, ScoreAll(xs, b, n, round));
      SortPermutes(Before, ScoreAll(ys, b, n, round));
      BeforeIsStrictWeakOrder();
      ScoredComparable(xs, b, n, round);
      ScoredComparable(ys, b, n, round);
      SortStrict(Before, ScoreAll(xs, b, n, round));
      SortStrict(Before, ScoreAll(ys, b, n, round));
      SortedIsUnique(Before, Ranked(xs, w, round), Ranked(ys, w, round));
    }
  }

  // ---------------------------------------------------------------- Pareto optimality

  predicate AtLeastAsGood(a: Candidate, b: Candidate) {
    && a.Health() >= b.Health()
    && a.successRate >= b.successRate
    && a.EffectiveLatency() <= b.EffectiveLatency()
    && a.cost <= b.cost
  }

  predicate Dominates(a: Candidate, b: Candidate) {
    && AtLeastAsGood(a, b)
    && (|| a.Health() > b.Health()
        || a.successRate > b.successRate
        || a.EffectiveLatency() < b.EffectiveLatency()
        || a.cost < b.cost)
  }

  /** What the catalog guarantees of its figures. */
  ghost predicate Realistic(pool: seq<Candidate>) {
    forall c :: c in pool ==> c.EffectiveLatency() > 0.0 && c.cost >= 0.0
  }

  ghost predicate NonNegative(w: Weights) {
    w.health >= 0.0 && w.success >= 0.0 && w.latency >= 0.0 && w.cost >= 0.0
  }

  lemma ProductSign(d: real, x: real)
    requires d * x >= 0.0 && x > 0.0
    ensures d >= 0.0
  {
  }

  lemma QuotientOrder(part: real, x: real, y: real)
    requires part >= 0.0 && 0.0 < x <= y
    ensures part / x >= part / y >= 0.0
    ensures part <= x ==> part / x <= 1.0
  {
    var s, t := part / x, part / y;
    assert s * x == part && t * y == part;
    ProductSign(t, y);
    ProductOrder(y, x, t);
    assert (s - t) * x == s * x - t * x;
    ProductSign(s - t, x);
    if part <= x {
      assert (1.0 - s) * x == x - s * x;
      ProductSign(1.0 - s, x);
    }
  }

  lemma LatencyFollowsQuality(b: Bounds, x: real, y: real)
    requires 0.0 < b.minLatency && 0.0 < x <= y
    ensures LatencyScore(x, b) >= LatencyScore(y, b)
  {
    QuotientOrder(b.minLatency, x, y);
  }

  lemma CostFollowsQuality(b: Bounds, x: real, y: real)
    requires 0.0 <= b.minCost <= x <= y
    requires x > 0.0 ==> 0.0 <= b.minPaidCost <= x
    requires y > 0.0 ==> 0.0 <= b.minPaidCost <= y
    ensures CostScore(x, b) >= CostScore(y, b)
  {
    if x > 0.0 {
      QuotientOrder(b.minPaidCost, x, y);
      QuotientOrder(b.minCost, x, y);
    } else if y > 0.0 {
      QuotientOrder(b.minPaidCost, y, y);
      QuotientOrder(b.minCost, y, y);
    }
  }

  lemma BoundsBelow(pool: seq<Candidate>, c: Candidate)
    requires c in pool && Realistic(pool)
    ensures var b := BoundsOf(pool);
            && 0.0 < b.minLatency && 0.0 <= b.minCost <= c.cost
            && (c.cost > 0.0 ==> 0.0 <= b.minPaidCost <= c.cost)
  {
    LeastIsLeast(pool, LatencyOf);
    LeastIsLeast(pool, CostOf);
    PaidMembers(pool);
    if c.cost > 0.0 {
      assert c in Paid(pool);
      LeastIsLeast(Paid(pool), CostOf);
    }
  }

  lemma FactorsFollowQuality(a: Candidate, b: Candidate, pool: seq<Candidate>)
    requires a in pool && b in pool && Realistic(pool) && AtLeastAsGood(a, b)
    ensures var f, g := Factors(a, BoundsOf(pool)), Factors(b, BoundsOf(pool));
            f.health >= g.health && f.success >= g.success && f.latency >= g.latency && f.cost >= g.cost
  {
    var n := BoundsOf(pool);
    BoundsBelow(pool, a);
    BoundsBelow(pool, b);
    LatencyFollowsQuality(n, a.EffectiveLatency(), b.EffectiveLatency());
    CostFollowsQuality(n, a.cost, b.cost);
  }

  lemma NormalizedNonNegative(w: Weights)
    requires NonNegative(w)
    ensures NonNegative(NormalizeWeights(w))
  {
    var total := w.health + w.success + w.latency + w.cost;
    if total > 0.0 {
      QuotientOrder(w.health, total, total);
      QuotientOrder(w.success, total, total);
      QuotientOrder(w.latency, total, total);
      QuotientOrder(w.cost, total, total);
    }
  }

  lemma WeighFollowsFactors(f: Breakdown, g: Breakdown, w: Weights)
    requires NonNegative(w)
    requires f.health >= g.health && f.success >= g.success && f.latency >= g.latency && f.cost >= g.cost
    ensures Weigh(f, w) >= Weigh(g, w)
  {
    ProductOrder(f.health, g.health, w.health);
    ProductOrder(f.success, g.success, w.success);
    ProductOrder(f.latency, g.latency, w.latency);
    ProductOrder(f.cost, g.cost, w.cost);
  }

  lemma ProductOrder(x: real, y: real, w: real)
    requires x >= y && w >= 0.0
    ensures x * w >= y * w
  {
    assert (x - y) * w >= 0.0;
  }

  lemma BetterScoreRanksFirst(s: Scored, t: Scored)
    requires s.total >= t.total && Dominates(s.candidate, t.candidate)
    ensures Before(s, t)
  {
    var f, g := Figures(s), Figures(t);
    assert f[0] <= g[0] && f[1] <= g[1] && f[2] <= g[2] && f[3] <= g[3] && f[4] <= g[4];
    assert f[1] < g[1] || f[2] < g[2] || f[3] < g[3] || f[4] < g[4];
    SmallerFiguresFirst(f, g);
  }

  /** A dominating candidate ranks strictly first, whatever the weights, clamping and rounding do. */
  lemma DominatorRanksFirst(a: Candidate, b: Candidate, pool: seq<Candidate>, w: Weights, round: real -> real)
    requires a in pool && b in pool && Realistic(pool) && NonNegative(w) && Monotone(round) && Dominates(a, b)
    ensures var n := NormalizeWeights(w);
            Before(Score(a, BoundsOf(pool), n, round), Score(b, BoundsOf(pool), n, round))
  {
    var n := NormalizeWeights(w);
    FactorsFollowQuality(a, b, pool);
    NormalizedNonNegative(w);
    WeighFollowsFactors(Factors(a, BoundsOf(pool)), Factors(b, BoundsOf(pool)), n);
    BetterScoreRanksFirst(Score(a, BoundsOf(pool), n, round), Score(b, BoundsOf(pool), n, round));
  }

  lemma {:induction false} SmallerFiguresFirst(f: seq<real>, g: seq<real>)
    requires |f| == |g|
    requires forall i :: 0 <= i < |f| ==> f[i] <= g[i]
    requires exists i :: 0 <= i < |f| && f[i] < g[i]
    ensures LexLess(RealLess, f, g)
  {
    if f[0] < g[0] {
    } else {
      var i :| 0 <= i < |f| && f[i] < g[i];
      assert f[1..][i - 1] < g[1..][i - 1];
      SmallerFiguresFirst(f[1..], g[1..]);
    }
  }

  /** The ranking lists exactly the pool, and its winner is dominated by nobody in it. */
  lemma WinnerIsParetoOptimal(pool: seq<Candidate>, w: Weights, round: real -> real)
    requires pool != [] && Realistic(pool) && NonNegative(w) && Monotone(round)
    ensures Ranked(pool, w, round) != []
    ensures Ranked(pool, w, round)[0].candidate in pool
    ensures forall c :: c in pool ==> !Dominates(c, Ranked(pool, w, round)[0].candidate)
  {
    var b, n := BoundsOf(pool), NormalizeWeights(w);
    var scored := ScoreAll(pool, b, n, round);
    BeforeIsStrictWeakOrder();
    FirstIsUnbeaten(Before, scored);
    var best := Ranked(pool, w, round)[0];
    var i :| 0 <= i < |scored| && scored[i] == best;
    assert best == Score(pool[i], b, n, round);
    forall c | c in pool ensures !Dominates(c, best.candidate) {
      var k :| 0 <= k < |pool| && pool[k] == c;
      assert !Before(scored[k], best);
      if Dominates(c, best.candidate) {
        DominatorRanksFirst(c, best.candidate, pool, w, round);
        assert false;
      }
    }
  }

  lemma WinnerIsScored(pool: seq<Candidate>, w: Weights, round: real -> real)
    requires pool != []
    ensures Ranked(pool, w, round) != []
    ensures var best := Ranked(pool, w, round)[0];
            best.candidate in pool && best == Score(best.candidate, BoundsOf(pool), NormalizeWeights(w), round)
  {
    var scored := ScoreAll(pool, BoundsOf(pool), NormalizeWeights(w), round);
    BeforeIsStrictWeakOrder();
    FirstIsUnbeaten(Before, scored);
    var i :| 0 <= i < |scored| && scored[i] == Ranked(pool, w, round)[0];
    assert Ranked(pool, w, round)[0].candidate == pool[i];
  }
}
