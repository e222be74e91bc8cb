/** Rolling runtime statistics of one (provider, model) target. */
module Stats {
  import opened Wrappers

  const WINDOW: nat := 50

  datatype Outcome = Success(latency: real) | Failure

  // ---------------------------------------------------------------- what the numbers mean

  /** The newest `n` elements. */
  function Newest<T>(xs: seq<T>, n: nat): seq<T> {
    if |xs| <= n then xs else xs[|xs| - n..]
  }

  /** Appending to a deque of bounded length. */
  function Push<T>(xs: seq<T>, x: T, n: nat): seq<T> {
    Newest(xs + [x], n)
  }

  function Flags(history: seq<Outcome>): (flags: seq<bool>)
    ensures |flags| == |history| && forall k :: 0 <= k < |history| ==> flags[k] == history[k].Success?
  {
    seq(|history|, k requires 0 <= k < |history| => history[k].Success?)
  }

  function Latencies(history: seq<Outcome>): seq<real> {
    if history == [] then []
    else
      var last := history[|history| - 1];
      Latencies(history[..|history| - 1]) + if last.Success? then [last.latency] else []
  }

  function CountTrue(flags: seq<bool>): nat {
    if flags == [] then 0 else CountTrue(flags[..|flags| - 1]) + if flags[|flags| - 1] then 1 else 0
  }

  function Sum(xs: seq<real>): real {
    if xs == [] then 0.0 else Sum(xs[..|xs| - 1]) + xs[|xs| - 1]
  }

  /** The exponential moving average with weight 0.2 for the newest measurement. */
  function Smoothed(xs: seq<real>): real
    requires xs != []
  {
    if |xs| == 1 then xs[0] else 0.2 * xs[|xs| - 1] + 0.8 * Smoothed(xs[..|xs| - 1])
  }

  function RateOf(flags: seq<bool>): real {
    if flags == [] then 1.0 else CountTrue(flags) as real / |flags| as real
  }

  // ---------------------------------------------------------------- properties

  lemma PushIsNewest<T>(all: seq<T>, x: T, n: nat)
    ensures Push(Newest(all, n), x, n) == Newest(all + [x], n)
  {
  }

  lemma HistorySnoc(history: seq<Outcome>, o: Outcome)
    ensures Flags(history + [o]) == Flags(history) + [o.Success?]
    ensures Latencies(history + [o]) == Latencies(history) + if o.Success? then [o.latency] else []
  {
    assert (history + [o])[..|history|] == history;
  }

  lemma {:induction false} CountIsBounded(flags: seq<bool>)
    ensures CountTrue(flags) <= |flags|
    ensures CountTrue(flags) == |flags| <==> forall k :: 0 <= k < |flags| ==> flags[k]
  {
    if flags == [] {
    } else {
      CountIsBounded(flags[..|flags| - 1]);
    }
  }

  /** The rate is a proportion, and it is full exactly when no call failed among the newest fifty. */
  lemma RateIsProportion(history: seq<Outcome>)
    ensures 0.0 <= RateOf(Newest(Flags(history), WINDOW)) <= 1.0
    ensures RateOf(Newest(Flags(history), WINDOW)) == 1.0
       <==> forall k :: 0 <= k < |history| && |history| - 50 <= k ==> history[k].Success?
  {
    RateOfFlags(Newest(Flags(history), WINDOW));
    NewestFlags(history);
  }

  lemma RateOfFlags(flags: seq<bool>)
    ensures 0.0 <= RateOf(flags) <= 1.0
    ensures RateOf(flags) == 1.0 <==> forall k :: 0 <= k < |flags| ==> flags[k]
  {
    CountIsBounded(flags);
    if flags != [] {
      ProportionOf(CountTrue(flags), |flags|);
    }
  }

  lemma NewestFlags(history: seq<Outcome>)
    ensures (forall k :: 0 <= k < |Newest(Flags(history), WINDOW)| ==> Newest(Flags(history), WINDOW)[k])
       <==> forall k :: 0 <= k < |history| && |history| - WINDOW <= k ==> history[k].Success?
  {
    var flags := Newest(Flags(history), WINDOW);
    var skipped := |history| - |flags|;
    assert forall k :: 0 <= k < |flags| ==> flags[k] == history[skipped + k].Success?;
    assert forall k :: skipped <= k < |history| ==> history[k].Success? == flags[k - skipped];
  }

  lemma ProportionOf(n: nat, d: nat)
    requires n <= d && d > 0
    ensures 0.0 <= n as real / d as real <= 1.0
    ensures n as real / d as real == 1.0 <==> n == d
  {
    var q := n as real / d as real;
    assert q * d as real == n as real;
    RatioOne(n as real, d as real);
  }

  lemma RatioOne(x: real, d: real)
    requires d > 0.0
    ensures x / d == 1.0 <==> x == d
  {
    var q := x / d;
    assert q * d == x;
  }

  predicate Within(xs: seq<real>, low: real, high: real) {
    forall k :: 0 <= k < |xs| ==> low <= xs[k] <= high
  }

  lemma {:induction false} SumIsBounded(xs: seq<real>, low: real, high: real)
    requires Within(xs, low, high)
    ensures low * |xs| as real <= Sum(xs) <= high * |xs| as real
  {
    if xs == [] {
    } else {
      var n := |xs| - 1;
      SumIsBounded(xs[..n], low, high);
      assert |xs| as real == n as real + 1.0;
      assert low * (n as real + 1.0) == low * n as real + low && high * (n as real + 1.0) == high * n as real + high;
    }
  }

  function Mean(xs: seq<real>): real
    requires xs != []
  {
    Sum(xs) / |xs| as real
  }

  /** The mean times the number of measurements is their sum, and it lies between any bounds of theirs. */
  lemma MeanMeans(xs: seq<real>)
    ensures xs != [] ==> Mean(xs) * |xs| as real == Sum(xs)
    ensures xs != [] ==> forall low, high :: Within(xs, low, high) ==> low <= Mean(xs) <= high
  {
    if xs != [] {
      Restore(Sum(xs), |xs| as real);
      forall low, high | Within(xs, low, high) ensures low <= Mean(xs) <= high {
        MeanIsBounded(xs, low, high);
      }
    }
  }

  lemma MeanIsBounded(xs: seq<real>, low: real, high: real)
    requires xs != [] && Within(xs, low, high)
    ensures low <= Sum(xs) / |xs| as real <= high
  {
    SumIsBounded(xs, low, high);
    QuotientBetween(Sum(xs), |xs| as real, low, high);
  }

  lemma QuotientBetween(x: real, d: real, low: real, high: real)
    requires d > 0.0 && low * d <= x <= high * d
    ensures low <= x / d <= high
  {
    var q := x / d;
    assert q * d == x;
    assert (q - low) * d >= 0.0 && (high - q) * d >= 0.0;
  }

  lemma {:induction false} SmoothedIsBounded(xs: seq<real>, low: real, high: real)
    requires xs != [] && Within(xs, low, high)
    ensures low <= Smoothed(xs) <= high
  {
    if |xs| == 1 {
    } else {
      SmoothedIsBounded(xs[..|xs| - 1], low, high);
    }
  }

  // ---------------------------------------------------------------- the tracker's record

  function Ema(average: Option<real>, latency: real): real {
    if average.None? then latency else 0.2 * latency + 0.8 * average.value
  }

  predicate CountsMatch(flags: seq<bool>, total: nat, successful: nat, failed: nat, recent: seq<bool>) {
    && total == |flags| && successful == CountTrue(flags) && failed == |flags| - CountTrue(flags)
    && recent == Newest(flags, WINDOW)
  }

  predicate MeasuresMatch(latencies: seq<real>, last: Option<real>, average: Option<real>, recent: seq<real>) {
    && recent == Newest(latencies, WINDOW)
    && last == (if latencies == [] then None else Some(latencies[|latencies| - 1]))
    && average == (if latencies == [] then None else Some(Smoothed(latencies)))
  }

  class ModelStats {
    var totalRequests: nat
    var successfulRequests: nat
    var failedRequests: nat
    var lastLatency: Option<real>
    var averageLatency: Option<real>
    var recentOutcomes: seq<bool>
    var recentLatencies: seq<real>
    /** Every outcome ever recorded, oldest first. */
    ghost var history: seq<Outcome>

    ghost predicate Valid()
      reads this
    {
      && CountsMatch(Flags(history), totalRequests, successfulRequests, failedRequests, recentOutcomes)
      && MeasuresMatch(Latencies(history), lastLatency, averageLatency, recentLatencies)
    }

    constructor ()
      ensures Valid() && history == []
    {
      totalRequests, successfulRequests, failedRequests := 0, 0, 0;
      lastLatency, averageLatency := None, None;
      recentOutcomes, recentLatencies, history := [], [], [];
    }

    method RecordSuccess(latency: real)
      requires Valid()
      modifies this
      ensures Valid() && history == old(history) + [Success(latency)]
    {
      HistorySnoc(history, Success(latency));
      CountsSnoc(Flags(history), true, totalRequests, successfulRequests, failedRequests, recentOutcomes);
      MeasuresSnoc(Latencies(history), latency, lastLatency, averageLatency, recentLatencies);
      totalRequests, successfulRequests := totalRequests + 1, successfulRequests + 1;
      lastLatency := Some(latency);
      recentOutcomes := Push(recentOutcomes, true, WINDOW);
      recentLatencies := Push(recentLatencies, latency, WINDOW);
      averageLatency := Some(Ema(averageLatency, latency));
      history := history + [Success(latency)];
    }

    method RecordFailure()
      requires Valid()
      modifies this
      ensures Valid() && history == old(history) + [Failure]
    {
      HistorySnoc(history, Failure);
      assert Latencies(history) + [] == Latencies(history);
      CountsSnoc(Flags(history), false, totalRequests, successfulRequests, failedRequests, recentOutcomes);
      totalRequests, failedRequests := totalRequests + 1, failedRequests + 1;
      recentOutcomes := Push(recentOutcomes, false, WINDOW);
      history := history + [Failure];
    }

    function SuccessRate(): (rate: real)
      requires Valid()
      reads this
      ensures rate == RateOf(Newest(Flags(history), 50))
    {
      RateOf(recentOutcomes)
    }

    /** The mean of the newest measurements; failures never age a measurement out. */
    function Latency(): (latency: Option<real>)
      requires Valid()
      reads this
      ensures latency.Some? <==> exists k :: 0 <= k < |history| && history[k].Success?
      ensures latency.Some? ==>
                var window := Newest(Latencies(history), 50);
                latency.value * |window| as real == Sum(window)
      ensures latency.Some? ==> forall low, high :: Within(Newest(Latencies(history), WINDOW), low, high) ==>
                                  low <= latency.value <= high
    {
      LatenciesExist(history);
      MeanMeans(recentLatencies);
      if recentLatencies != [] then Some(Mean(recentLatencies)) else lastLatency
    }
  }

  lemma CountsSnoc(flags: seq<bool>, flag: bool, total: nat, successful: nat, failed: nat, recent: seq<bool>)
    requires CountsMatch(flags, total, successful, failed, recent)
    ensures CountsMatch(flags + [flag], total + 1, successful + (if flag then 1 else 0),
                        failed + (if flag then 0 else 1),
                        Push(recent, flag, WINDOW))
  {
    assert (flags + [flag])[..|flags|] == flags;
    PushIsNewest(flags, flag, WINDOW);
  }

  lemma MeasuresSnoc(xs: seq<real>, x: real, last: Option<real>, average: Option<real>, recent: seq<real>)
    requires MeasuresMatch(xs, last, average, recent)
    ensures MeasuresMatch(xs + [x], Some(x), Some(Ema(average, x)), Push(recent, x, WINDOW))
  {
    assert (xs + [x])[..|xs|] == xs;
    PushIsNewest(xs, x, WINDOW);
  }

  lemma {:induction false} LatenciesExist(history: seq<Outcome>)
    ensures Latencies(history) != [] <==> exists k :: 0 <= k < |history| && history[k].Success?
  {
    if history == [] {
    } else {
      var front := history[..|history| - 1];
      LatenciesExist(front);
      if exists k :: 0 <= k < |history| && history[k].Success? {
        var k :| 0 <= k < |history| && history[k].Success?;
        assert k < |front| ==> front[k].Success?;
      }
      if Latencies(front) != [] {
        var k :| 0 <= k < |front| && front[k].Success?;
        assert history[k].Success?;
      }
    }
  }

  // ---------------------------------------------------------------- what the figures mean

  lemma {:induction false} CountIsCardinality(flags: seq<bool>)
    ensures CountTrue(flags) == |set i | 0 <= i < |flags| && flags[i]|
  {
    var hits := set i | 0 <= i < |flags| && flags[i];
    if flags == [] {
      assert hits == {};
    } else {
      var n := |flags| - 1;
      CountIsCardinality(flags[..n]);
      var before := set i | 0 <= i < n && flags[..n][i];
      assert hits == if flags[n] then before + {n} else before;
    }
  }

  /** The rate times the number of outcomes is the number of successes; without any outcome it is full. */
  lemma RateMeans(flags: seq<bool>)
    ensures RateOf(flags) * |flags| as real == |set i | 0 <= i < |flags| && flags[i]| as real
    ensures flags == [] ==> RateOf(flags) == 1.0
  {
    CountIsCardinality(flags);
    if flags != [] {
      Restore(CountTrue(flags) as real, |flags| as real);
    }
  }

  lemma Restore(x: real, d: real)
    requires d > 0.0
    ensures x / d * d == x
  {
  }

  /** One more outcome adds one to the outcomes, and a success alone one to the successes. */
  lemma OneMoreOutcome(flags: seq<bool>, flag: bool)
    ensures RateOf(flags + [flag]) * (|flags| + 1) as real
         == RateOf(flags) * |flags| as real + if flag then 1.0 else 0.0
  {
    assert (flags + [flag])[..|flags|] == flags;
    Restore(CountTrue(flags + [flag]) as real, (|flags| + 1) as real);
    if flags != [] {
      Restore(CountTrue(flags) as real, |flags| as real);
    }
  }

  lemma {:induction false} SumAppends(xs: seq<real>, ys: seq<real>)
    ensures Sum(xs + ys) == Sum(xs) + Sum(ys)
  {
    if ys == [] {
      assert xs + ys == xs;
    } else {
      SumAppends(xs, ys[..|ys| - 1]);
      assert (xs + ys)[..|xs + ys| - 1] == xs + ys[..|ys| - 1];
    }
  }

  lemma SumOfOne(x: real)
    ensures Sum([x]) == x
  {
    assert [x][..0] == [];
  }

  /** The newest measurement weighs a fifth in the moving average, everything before it four fifths. */
  lemma NewestWeighsOneFifth(xs: seq<real>, x: real)
    ensures 5.0 * Smoothed(xs + [x]) == if xs == [] then 5.0 * x else x + 4.0 * Smoothed(xs)
  {
    assert (xs + [x])[..|xs|] == xs;
  }

  /** The newest elements of a sequence are its last ones, as many as asked for if there are so many. */
  lemma NewestMeans<T>(xs: seq<T>, n: nat)
    ensures |Newest(xs, n)| == if |xs| < n then |xs| else n
    ensures forall k :: 0 <= k < |Newest(xs, n)| ==> Newest(xs, n)[k] == xs[|xs| - |Newest(xs, n)| + k]
  {
  }

  /** The measurements are those of the successes, in their order. */
  lemma LatenciesMean(history: seq<Outcome>, latency: real)
    ensures Latencies([]) == []
    ensures Latencies(history + [Success(latency)]) == Latencies(history) + [latency]
    ensures Latencies(history + [Failure]) == Latencies(history)
  {
    HistorySnoc(history, Success(latency));
    HistorySnoc(history, Failure);
    assert Latencies(history) + [] == Latencies(history);
  }
}
