/** What the scores mean: each factor, each weight and each part of the sort key for itself. */
module ScoreMeaning {
  import opened Wrappers
  import opened Ordering
  import opened Scorer

  // ---------------------------------------------------------------- weights

  /** Raising one factor raises the sum by that much times the weight of the same name. */
  lemma WeightsBelong(f: Breakdown, w: Weights, d: real)
    ensures Weigh(f.(health := f.health + d), w) == Weigh(f, w) + d * w.health
    ensures Weigh(f.(success := f.success + d), w) == Weigh(f, w) + d * w.success
    ensures Weigh(f.(latency := f.latency + d), w) == Weigh(f, w) + d * w.latency
    ensures Weigh(f.(cost := f.cost + d), w) == Weigh(f, w) + d * w.cost
    ensures Weigh(Breakdown(0.0, 0.0, 0.0, 0.0), w) == 0.0
  {
    Distribute(f.health, d, w.health);
    Distribute(f.success, d, w.success);
    Distribute(f.latency, d, w.latency);
    Distribute(f.cost, d, w.cost);
  }

  lemma Distribute(x: real, d: real, w: real)
    ensures (x + d) * w == x * w + d * w
  {
  }

  lemma ShareOf(part: real, total: real)
    requires total > 0.0
    ensures part / total * total == part
    ensures part / total == 1.0 <==> part == total
    ensures part == 0.0 ==> part / total == 0.0
  {
    var q := part / total;
    assert q * total == part;
    FactorOf(q, total);
  }

  lemma FactorOf(q: real, x: real)
    requires x > 0.0
    ensures q == 1.0 <==> q * x == x
    ensures q * x <= 0.75 * x ==> q <= 0.75
    ensures q * x == 0.0 ==> q == 0.0
  {
    assert (q - 1.0) * x == q * x - x;
    assert (0.75 - q) * x == 0.75 * x - q * x;
    if q > 0.75 {
      PositiveTimes(q - 0.75, x);
    }
    if q != 1.0 {
      NonZeroTimes(q - 1.0, x);
    }
    if q != 0.0 {
      NonZeroTimes(q, x);
    }
  }

  lemma PositiveTimes(d: real, x: real)
    requires d > 0.0 && x > 0.0
    ensures d * x > 0.0
  {
  }

  lemma NonZeroTimes(d: real, x: real)
    requires d != 0.0 && x > 0.0
    ensures d * x != 0.0
  {
  }

  /** Normalising keeps the proportions of the weights and makes them add up to one; no weight means a quarter each. */
  lemma SharesOfWeights(w: Weights)
    ensures var total := w.health + w.success + w.latency + w.cost;
            var n := NormalizeWeights(w);
            && n.health + n.success + n.latency + n.cost == 1.0
            && (if total > 0.0 then
                  && n.health * total == w.health && n.success * total == w.success
                  && n.latency * total == w.latency && n.cost * total == w.cost
                else n.health == n.success == n.latency == n.cost)
  {
    var total := w.health + w.success + w.latency + w.cost;
    if total > 0.0 {
      ShareOf(w.health, total);
      ShareOf(w.success, total);
      ShareOf(w.latency, total);
      ShareOf(w.cost, total);
      SharesOfTotal(w.health, w.success, w.latency, w.cost, total);
    }
  }

  lemma SharesOfTotal(a: real, b: real, c: real, d: real, total: real)
    requires total > 0.0 && a + b + c + d == total
    ensures a / total + b / total + c / total + d / total == 1.0
  {
    AddShares(a, b, total);
    AddShares(a + b, c, total);
    AddShares(a + b + c, d, total);
  }

  lemma AddShares(a: real, b: real, total: real)
    requires total > 0.0
    ensures a / total + b / total == (a + b) / total
  {
  }

  // ---------------------------------------------------------------- factors

  /** The measured latency if there is one, else the catalog's. */
  lemma EffectiveLatencyMeans(c: Candidate)
    ensures c.runtimeLatency.Some? && c.runtimeLatency.value > 0.0 ==> c.EffectiveLatency() == c.runtimeLatency.value
    ensures c.runtimeLatency.None? || c.runtimeLatency.value <= 0.0 ==> c.EffectiveLatency() == c.baselineLatency
    ensures c.Health() == if c.isHealthy then 1.0 else 0.0
  {
  }

  ghost predicate IsMinimum(pool: seq<Candidate>, f: Candidate -> real, m: real) {
    (exists c :: c in pool && f(c) == m) && forall c :: c in pool ==> m <= f(c)
  }

  /** The bounds are the extremes of latency and cost over the pool, and of the costs that are not zero. */
  lemma BoundsMean(pool: seq<Candidate>)
    requires pool != []
    ensures var b := BoundsOf(pool);
            && IsMinimum(pool, (c: Candidate) => c.EffectiveLatency(), b.minLatency)
            && IsMinimum(pool, (c: Candidate) => -c.EffectiveLatency(), -b.maxLatency)
            && IsMinimum(pool, (c: Candidate) => c.cost, b.minCost)
            && IsMinimum(pool, (c: Candidate) => -c.cost, -b.maxCost)
            && (if exists c :: c in pool && c.cost > 0.0 then
                  && (exists c :: c in pool && c.cost > 0.0 && c.cost == b.minPaidCost)
                  && forall c :: c in pool && c.cost > 0.0 ==> b.minPaidCost <= c.cost
                else b.minPaidCost == 0.0)
  {
    MinimumOf(pool, LatencyOf, (c: Candidate) => c.EffectiveLatency());
    MinimumOf(pool, Negated(LatencyOf), (c: Candidate) => -c.EffectiveLatency());
    MinimumOf(pool, CostOf, (c: Candidate) => c.cost);
    MinimumOf(pool, Negated(CostOf), (c: Candidate) => -c.cost);
    PaidMembers(pool);
    var paid := Paid(pool);
    if paid != [] {
      assert paid[0] in paid;
      MinimumOf(paid, CostOf, CostOf);
      var m :| m in paid && CostOf(m) == Least(paid, CostOf);
    }
  }

  lemma MinimumOf(pool: seq<Candidate>, f: Candidate -> real, g: Candidate -> real)
    requires pool != [] && forall c :: f(c) == g(c)
    ensures IsMinimum(pool, g, Least(pool, f))
  {
    LeastIsLeast(pool, f);
    var i :| 0 <= i < |pool| && f(pool[i]) == Least(pool, f);
    assert pool[i] in pool && g(pool[i]) == Least(pool, f);
  }

  /** The fastest candidate over this one; all of one speed score full. */
  lemma LatencyScoreMeans(latency: real, b: Bounds)
    requires latency > 0.0
    ensures if b.maxLatency == b.minLatency then LatencyScore(latency, b) == 1.0
            else LatencyScore(latency, b) * latency == b.minLatency
  {
    ShareOf(b.minLatency, latency);
  }

  /**
   Free candidates and pools of one price score full. Next to free ones a paid candidate scores three
   quarters of the cheapest paid price over its own, at least 0.05; else the cheapest price over its own.
   */
  lemma CostScoreMeans(cost: real, b: Bounds)
    requires 0.0 <= b.minCost <= cost && b.maxCost >= cost && (cost > 0.0 ==> 0.0 < b.minPaidCost <= cost)
    ensures var score := CostScore(cost, b);
            if cost == 0.0 || b.maxCost == b.minCost then score == 1.0
            else if b.minCost == 0.0 then
              if 0.75 * b.minPaidCost > 0.05 * cost then score * cost == 0.75 * b.minPaidCost else score == 0.05
            else score * cost == b.minCost
  {
    if cost > 0.0 {
      ShareOf(b.minPaidCost, cost);
      ShareOf(b.minCost, cost);
      FloorMeans(b.minPaidCost / cost, cost, b.minPaidCost);
    }
  }

  lemma FloorMeans(q: real, cost: real, paid: real)
    requires cost > 0.0 && q * cost == paid
    ensures 0.75 * q > 0.05 <==> 0.75 * paid > 0.05 * cost
    ensures 0.75 * q * cost == 0.75 * paid
  {
    var d := 0.75 * q - 0.05;
    assert d * cost == 0.75 * paid - 0.05 * cost;
    if d > 0.0 {
      PositiveTimes(d, cost);
    } else if d < 0.0 {
      PositiveTimes(-d, cost);
      assert -d * cost == -(d * cost);
    }
  }

  /** The success rate itself where it is a rate. */
  lemma ClampMeans(x: real)
    ensures 0.0 <= Clamp(x) <= 1.0
    ensures 0.0 <= x <= 1.0 ==> Clamp(x) == x
    ensures x < 0.0 ==> Clamp(x) == 0.0
    ensures x > 1.0 ==> Clamp(x) == 1.0
  {
  }

  predicate InUnit(x: real) {
    0.0 <= x <= 1.0
  }

  lemma FactorsInUnit(c: Candidate, pool: seq<Candidate>)
    requires c in pool && Realistic(pool)
    ensures var f := Factors(c, BoundsOf(pool));
            InUnit(f.health) && InUnit(f.success) && InUnit(f.latency) && InUnit(f.cost)
  {
    BoundsBelow(pool, c);
    LeastIsLeast(pool, LatencyOf);
    var b := BoundsOf(pool);
    QuotientOrder(b.minLatency, c.EffectiveLatency(), c.EffectiveLatency());
    if c.cost > 0.0 {
      QuotientOrder(b.minPaidCost, c.cost, c.cost);
      QuotientOrder(b.minCost, c.cost, c.cost);
    }
  }

  /**
   A score belongs to its candidate and shows each factor under its own name; the total is the weighted sum
   of the factors, and clamping it never changes anything.
   */
  lemma ScoreMeans(c: Candidate, pool: seq<Candidate>, w: Weights, round: real -> real)
    requires c in pool && Realistic(pool) && NonNegative(w)
    ensures var b, n := BoundsOf(pool), NormalizeWeights(w);
            var f, s := Factors(c, b), Score(c, b, n, round);
            && s.candidate == c && s.total == round(Weigh(f, n))
            && s.breakdown.health == round(if c.isHealthy then 1.0 else 0.0)
            && s.breakdown.success == round(Clamp(c.successRate))
            && s.breakdown.latency == round(LatencyScore(c.EffectiveLatency(), b))
            && s.breakdown.cost == round(CostScore(c.cost, b))
            && f == Breakdown(if c.isHealthy then 1.0 else 0.0, Clamp(c.successRate),
                              LatencyScore(c.EffectiveLatency(), b), CostScore(c.cost, b))
  {
    FactorsInUnit(c, pool);
    NormalizedNonNegative(w);
    SharesAddUp(w);
    WeighBelow(Factors(c, BoundsOf(pool)), NormalizeWeights(w));
  }

  /** For any bounds and weights the total is the weighted sum, cut off below 0 and above 1, and then rounded. */
  lemma TotalMeans(c: Candidate, b: Bounds, w: Weights, round: real -> real)
    ensures var sum, total := Weigh(Factors(c, b), w), Score(c, b, w, round).total;
            && (0.0 <= sum <= 1.0 ==> total == round(sum))
            && (sum > 1.0 ==> total == round(1.0))
            && (sum < 0.0 ==> total == round(0.0))
    ensures 0.0 <= Score(c, b, w, x => x).total <= 1.0
  {
  }

  lemma SharesAddUp(w: Weights)
    ensures var n := NormalizeWeights(w); n.health + n.success + n.latency + n.cost == 1.0
  {
    SharesOfWeights(w);
  }

  lemma WeighBelow(f: Breakdown, n: Weights)
    requires InUnit(f.health) && InUnit(f.success) && InUnit(f.latency) && InUnit(f.cost) && NonNegative(n)
    ensures 0.0 <= Weigh(f, n) <= n.health + n.success + n.latency + n.cost
  {
    WeighFollowsFactors(f, Breakdown(0.0, 0.0, 0.0, 0.0), n);
    WeighFollowsFactors(Breakdown(1.0, 1.0, 1.0, 1.0), f, n);
  }

  // ---------------------------------------------------------------- the order

  /** At the first place where two names differ the smaller character decides; a proper prefix comes first. */
  lemma {:induction false} NamesCompare(p: string, q: string)
    ensures LexLess(CharLess, p, q) <==>
              exists k: nat :: k < |q| && k <= |p| && p[..k] == q[..k] && (k == |p| || p[k] < q[k])
  {
    if p == "" || q == "" {
      assert p == "" && q != "" ==> p[..0] == q[..0];
    } else {
      NamesCompare(p[1..], q[1..]);
      if p[0] == q[0] && LexLess(CharLess, p[1..], q[1..]) {
        var k: nat :| k < |q[1..]| && k <= |p[1..]| && p[1..][..k] == q[1..][..k]
                      && (k == |p[1..]| || p[1..][k] < q[1..][k]);
        assert p[..k + 1] == [p[0]] + p[1..][..k] && q[..k + 1] == [q[0]] + q[1..][..k];
        assert p[..k + 1] == q[..k + 1];
      } else if p[0] < q[0] {
        assert p[..0] == q[..0];
      }
      if k: nat :| k < |q| && k <= |p| && p[..k] == q[..k] && (k == |p| || p[k] < q[k]) {
        if k > 0 {
          assert p[0] == p[..k][0] == q[..k][0] == q[0];
          assert p[1..][..k - 1] == p[..k][1..] == q[..k][1..] == q[1..][..k - 1];
        }
      }
    }
  }

  /** The seven parts of the sort key, one after the other. */
  lemma KeyOrder(a: Scored, b: Scored)
    ensures var x, y := a.candidate, b.candidate;
            Before(a, b) <==>
              || a.total > b.total
              || (a.total == b.total && (
                    || (x.isHealthy && !y.isHealthy)
                    || (x.isHealthy == y.isHealthy && (
                          || x.successRate > y.successRate
                          || (x.successRate == y.successRate && (
                                || x.EffectiveLatency() < y.EffectiveLatency()
                                || (x.EffectiveLatency() == y.EffectiveLatency() && (
                                      || x.cost < y.cost
                                      || (x.cost == y.cost && (
                                            || LexLess(CharLess, x.provider, y.provider)
                                            || (x.provider == y.provider
                                                && LexLess(CharLess, x.model, y.model))))))))))))
  {
    var f, g := Figures(a), Figures(b);
    LexStep(f, g);
    LexStep(f[1..], g[1..]);
    LexStep(f[2..], g[2..]);
    LexStep(f[3..], g[3..]);
    LexStep(f[4..], g[4..]);
    assert f[1..][1..] == f[2..] && f[2..][1..] == f[3..] && f[3..][1..] == f[4..] && f[4..][1..] == [];
    assert g[1..][1..] == g[2..] && g[2..][1..] == g[3..] && g[3..][1..] == g[4..] && g[4..][1..] == [];
    assert f == g <==> f[0] == g[0] && f[1] == g[1] && f[2] == g[2] && f[3] == g[3] && f[4] == g[4];
  }

  lemma LexStep(f: seq<real>, g: seq<real>)
    requires f != [] && g != []
    ensures LexLess(RealLess, f, g) <==> f[0] < g[0] || (f[0] == g[0] && LexLess(RealLess, f[1..], g[1..]))
  {
  }

  // ---------------------------------------------------------------- what the winner is best at

  ghost predicate StrictlyMonotone(round: real -> real) {
    forall x, y :: x < y ==> round(x) < round(y)
  }

  /** Nobody's total is higher than the winner's. */
  lemma WinnerHasTopTotal(pool: seq<Candidate>, w: Weights, round: real -> real)
    requires pool != []
    ensures Ranked(pool, w, round) != []
    ensures var best := Ranked(pool, w, round)[0];
            && best.candidate in pool
            && best == Score(best.candidate, BoundsOf(pool), NormalizeWeights(w), round)
            && forall c :: c in pool ==> best.total >= Score(c, BoundsOf(pool), NormalizeWeights(w), round).total
  {
    var b, n := BoundsOf(pool), NormalizeWeights(w);
    var scored := ScoreAll(pool, b, n, round);
    BeforeIsStrictWeakOrder();
    FirstIsUnbeaten(Before, scored);
    var best := Ranked(pool, w, round)[0];
    var i :| 0 <= i < |scored| && scored[i] == best;
    assert best == Score(pool[i], b, n, round) && best.candidate == pool[i];
    forall c | c in pool ensures best.total >= Score(c, b, n, round).total {
      var k :| 0 <= k < |pool| && pool[k] == c;
      assert !Before(scored[k], best);
      KeyOrder(scored[k], best);
    }
  }

  /** With a faithful rounding the winner's weighted sum of factors is the highest. */
  lemma WinnerHasTopSum(pool: seq<Candidate>, w: Weights, round: real -> real, c: Candidate)
    requires c in pool && Realistic(pool) && NonNegative(w) && StrictlyMonotone(round)
    ensures Ranked(pool, w, round) != []
    ensures var best := Ranked(pool, w, round)[0].candidate;
            && best in pool
            && var b, n := BoundsOf(pool), NormalizeWeights(w);
            Weigh(Factors(best, b), n) >= Weigh(Factors(c, b), n)
  {
    WinnerHasTopTotal(pool, w, round);
    ScoreMeans(c, pool, w, round);
    ScoreMeans(Ranked(pool, w, round)[0].candidate, pool, w, round);
  }

  lemma OnlyWeight(w: Weights)
    requires NonNegative(w) && w.health + w.success + w.latency + w.cost > 0.0
    ensures w.success == w.latency == w.cost == 0.0 ==> NormalizeWeights(w) == Weights(1.0, 0.0, 0.0, 0.0)
    ensures w.health == w.latency == w.cost == 0.0 ==> NormalizeWeights(w) == Weights(0.0, 1.0, 0.0, 0.0)
    ensures w.health == w.success == w.cost == 0.0 ==> NormalizeWeights(w) == Weights(0.0, 0.0, 1.0, 0.0)
    ensures w.health == w.success == w.latency == 0.0 ==> NormalizeWeights(w) == Weights(0.0, 0.0, 0.0, 1.0)
  {
    var total := w.health + w.success + w.latency + w.cost;
    ShareOf(w.health, total);
    ShareOf(w.success, total);
    ShareOf(w.latency, total);
    ShareOf(w.cost, total);
  }

  lemma WeighOnly(f: Breakdown)
    ensures Weigh(f, Weights(1.0, 0.0, 0.0, 0.0)) == f.health
    ensures Weigh(f, Weights(0.0, 1.0, 0.0, 0.0)) == f.success
    ensures Weigh(f, Weights(0.0, 0.0, 1.0, 0.0)) == f.latency
    ensures Weigh(f, Weights(0.0, 0.0, 0.0, 1.0)) == f.cost
  {
  }

  /** With all weight on one factor nobody beats the winner in it. */
  lemma WinnerHasTopFactor(pool: seq<Candidate>, w: Weights, round: real -> real, c: Candidate)
    requires c in pool && Realistic(pool) && NonNegative(w) && StrictlyMonotone(round)
    requires w.health + w.success + w.latency + w.cost > 0.0
    ensures Ranked(pool, w, round) != [] && Ranked(pool, w, round)[0].candidate in pool
    ensures var top, other := Factors(Ranked(pool, w, round)[0].candidate, BoundsOf(pool)), Factors(c, BoundsOf(pool));
            && (w.success == w.latency == w.cost == 0.0 ==> top.health >= other.health)
            && (w.health == w.latency == w.cost == 0.0 ==> top.success >= other.success)
            && (w.health == w.success == w.cost == 0.0 ==> top.latency >= other.latency)
            && (w.health == w.success == w.latency == 0.0 ==> top.cost >= other.cost)
  {
    WinnerHasTopSum(pool, w, round, c);
    OnlyWeight(w);
    WeighOnly(Factors(Ranked(pool, w, round)[0].candidate, BoundsOf(pool)));
    WeighOnly(Factors(c, BoundsOf(pool)));
  }

  /** With all weight on cost the winner costs least. */
  lemma CheapestWins(pool: seq<Candidate>, w: Weights, round: real -> real)
    requires pool != [] && Realistic(pool) && StrictlyMonotone(round)
    requires w.cost > 0.0 && w.health == w.success == w.latency == 0.0
    ensures Ranked(pool, w, round) != []
    ensures forall c :: c in pool ==> Ranked(pool, w, round)[0].candidate.cost <= c.cost
  {
    LeastIsLeast(pool, CostOf);
    var i :| 0 <= i < |pool| && CostOf(pool[i]) == Least(pool, CostOf);
    WinnerHasTopFactor(pool, w, round, pool[i]);
    FullCostScore(pool, pool[i]);
    FullCostScore(pool, Ranked(pool, w, round)[0].candidate);
    FactorsInUnit(Ranked(pool, w, round)[0].candidate, pool);
  }

  lemma FullCostScore(pool: seq<Candidate>, c: Candidate)
    requires c in pool && Realistic(pool)
    ensures CostScore(c.cost, BoundsOf(pool)) == 1.0 <==> c.cost == BoundsOf(pool).minCost
  {
    var b := BoundsOf(pool);
    BoundsMean(pool);
    BoundsBelow(pool, c);
    assert -b.maxCost <= -c.cost;
    if c.cost > 0.0 {
      assert b.minPaidCost > 0.0;
    }
    FullScore(c.cost, b);
  }

  lemma FullScore(cost: real, b: Bounds)
    requires 0.0 <= b.minCost <= cost && b.maxCost >= cost && (cost > 0.0 ==> 0.0 < b.minPaidCost <= cost)
    ensures CostScore(cost, b) == 1.0 <==> cost == b.minCost
  {
    CostScoreMeans(cost, b);
    if cost > 0.0 && b.maxCost != b.minCost {
      FullRatio(CostScore(cost, b), cost, b.minCost, b.minPaidCost);
    }
  }

  lemma FullRatio(score: real, cost: real, cheapest: real, paid: real)
    requires cost > 0.0 && paid <= cost
    requires if cheapest == 0.0 then score == 0.05 || score * cost == 0.75 * paid else score * cost == cheapest
    ensures score == 1.0 <==> cost == cheapest
  {
    if cheapest != 0.0 {
      UnitRatio(score, cost, cheapest);
    } else if score != 0.05 {
      RatioBelow(score, cost, paid);
    }
  }

  lemma UnitRatio(score: real, cost: real, product: real)
    requires cost > 0.0 && score * cost == product
    ensures score == 1.0 <==> product == cost
  {
    FactorOf(score, cost);
    var d := score - 1.0;
    assert d * cost == product - cost;
    if d != 0.0 {
      NonZeroTimes(d, cost);
    }
  }

  lemma RatioBelow(score: real, cost: real, paid: real)
    requires cost > 0.0 && paid <= cost && score * cost == 0.75 * paid
    ensures score <= 0.75
  {
    FactorOf(score, cost);
  }

  /** With all weight on latency the winner is fastest. */
  lemma FastestWins(pool: seq<Candidate>, w: Weights, round: real -> real)
    requires pool != [] && Realistic(pool) && StrictlyMonotone(round)
    requires w.latency > 0.0 && w.health == w.success == w.cost == 0.0
    ensures Ranked(pool, w, round) != []
    ensures forall c :: c in pool ==> Ranked(pool, w, round)[0].candidate.EffectiveLatency() <= c.EffectiveLatency()
  {
    LeastIsLeast(pool, LatencyOf);
    var i :| 0 <= i < |pool| && LatencyOf(pool[i]) == Least(pool, LatencyOf);
    WinnerHasTopFactor(pool, w, round, pool[i]);
    FullLatencyScore(pool, pool[i]);
    FullLatencyScore(pool, Ranked(pool, w, round)[0].candidate);
    FactorsInUnit(Ranked(pool, w, round)[0].candidate, pool);
  }

  lemma FullLatencyScore(pool: seq<Candidate>, c: Candidate)
    requires c in pool && Realistic(pool)
    ensures LatencyScore(c.EffectiveLatency(), BoundsOf(pool)) == 1.0 <==>
              c.EffectiveLatency() == BoundsOf(pool).minLatency
  {
    var b := BoundsOf(pool);
    BoundsMean(pool);
    assert -b.maxLatency <= -c.EffectiveLatency();
    BoundsBelow(pool, c);
    LeastIsLeast(pool, LatencyOf);
    FullSpeed(c.EffectiveLatency(), b);
  }

  lemma FullSpeed(latency: real, b: Bounds)
    requires 0.0 < b.minLatency <= latency <= b.maxLatency
    ensures LatencyScore(latency, b) == 1.0 <==> latency == b.minLatency
  {
    if b.maxLatency != b.minLatency {
      ShareOf(b.minLatency, latency);
    }
  }

  /** With all weight on health the winner is healthy if anybody is; with all on success none has a better rate. */
  lemma HealthiestWins(pool: seq<Candidate>, w: Weights, round: real -> real)
    requires pool != [] && Realistic(pool) && StrictlyMonotone(round) && NonNegative(w) && w.latency == w.cost == 0.0
    ensures Ranked(pool, w, round) != []
    ensures w.health > 0.0 && w.success == 0.0 ==>
              forall c :: c in pool && c.isHealthy ==> Ranked(pool, w, round)[0].candidate.isHealthy
    ensures w.success > 0.0 && w.health == 0.0 ==>
              forall c :: c in pool ==> Clamp(Ranked(pool, w, round)[0].candidate.successRate) >= Clamp(c.successRate)
  {
    WinnerHasTopTotal(pool, w, round);
    forall c | c in pool
      ensures w.health > 0.0 && w.success == 0.0 && c.isHealthy ==> Ranked(pool, w, round)[0].candidate.isHealthy
      ensures w.success > 0.0 && w.health == 0.0 ==>
                Clamp(Ranked(pool, w, round)[0].candidate.successRate) >= Clamp(c.successRate)
    {
      if w.health + w.success > 0.0 {
        WinnerHasTopFactor(pool, w, round, c);
      }
    }
  }
}
