/** Deterministic assignment of experiment arms by hash bucket. */
module Experiments {
  import opened Wrappers

  datatype Arm = Arm(name: string, provider: string, model: string, weight: int)

  datatype Experiment = Experiment(enabled: bool, arms: seq<Arm>)

  const BUCKETS: nat := 10_000
  const WORDS: nat := 0x1_0000_0000

  /** Buckets owned by the first `k` arms: a hundred for every unit of weight. */
  function Threshold(arms: seq<Arm>, k: nat): int
    requires k <= |arms|
  {
    if k == 0 then 0 else Threshold(arms, k - 1) + arms[k - 1].weight * (BUCKETS / 100)
  }

  /** What the policy schema enforces of the weights. */
  ghost predicate ValidWeights(arms: seq<Arm>) {
    && arms != []
    && (forall i :: 0 <= i < |arms| ==> arms[i].weight > 0)
    && Threshold(arms, |arms|) == 100 * 100
  }

  /** Bucket `b` lies in the block of arm `k`. */
  predicate Owns(arms: seq<Arm>, k: nat, b: int) {
    k < |arms| && Threshold(arms, k) <= b < Threshold(arms, k + 1)
  }

  lemma {:induction false} ThresholdsGrow(arms: seq<Arm>, k: nat, l: nat)
    requires (forall i :: 0 <= i < |arms| ==> arms[i].weight > 0) && k <= l <= |arms|
    ensures Threshold(arms, k) + (l - k) <= Threshold(arms, l)
  {
    if k == l {
    } else {
      ThresholdsGrow(arms, k, l - 1);
    }
  }

  /** The first arm whose cumulative threshold exceeds the bucket, else the last arm. */
  method SelectArm(arms: seq<Arm>, word: nat) returns (selected: nat, fellThrough: bool)
    requires arms != []
    ensures selected < |arms|
    ensures !fellThrough ==>
              && word % BUCKETS < Threshold(arms, selected + 1)
              && forall k :: 0 < k <= selected ==> word % BUCKETS >= Threshold(arms, k)
    ensures fellThrough ==>
              && selected == |arms| - 1
              && forall k :: 0 < k <= |arms| ==> word % BUCKETS >= Threshold(arms, k)
    ensures ValidWeights(arms) ==> !fellThrough && Owns(arms, selected, word % BUCKETS)
  {
    var bucket := word % BUCKETS;
    var cumulative := 0;
    selected, fellThrough := |arms| - 1, true;
    for i := 0 to |arms|
      invariant cumulative == Threshold(arms, i)
      invariant selected == |arms| - 1 && fellThrough
      invariant forall k :: 0 < k <= i ==> bucket >= Threshold(arms, k)
    {
      cumulative := cumulative + arms[i].weight * (BUCKETS / 100);
      if bucket < cumulative {
        selected, fellThrough := i, false;
        break;
      }
    }
  }

  /** No experiment, a disabled one or one without arms assigns nothing. */
  method Assign(experiment: Option<Experiment>, word: nat) returns (arm: Option<Arm>)
    ensures arm.Some? <==> experiment.Some? && experiment.value.enabled && experiment.value.arms != []
    ensures arm.Some? && ValidWeights(experiment.value.arms) ==>
              exists k: nat :: Owns(experiment.value.arms, k, word % BUCKETS) && arm.value == experiment.value.arms[k]
  {
    if experiment.None? || !experiment.value.enabled || experiment.value.arms == [] {
      return None;
    }
    var k, _ := SelectArm(experiment.value.arms, word);
    return Some(experiment.value.arms[k]);
  }

  /** The blocks partition the buckets: every bucket has exactly one owner, and block sizes follow the weights. */
  lemma BlocksPartitionBuckets(arms: seq<Arm>, b: nat)
    requires ValidWeights(arms) && b < BUCKETS
    ensures exists k: nat :: Owns(arms, k, b) && forall l: nat :: Owns(arms, l, b) ==> l == k
    ensures forall k: nat :: k < |arms| ==> Threshold(arms, k + 1) - Threshold(arms, k) == 100 * arms[k].weight
    ensures Threshold(arms, 0) == 0 && Threshold(arms, |arms|) == BUCKETS
  {
    var k := FindOwner(arms, b, |arms|);
    forall l: nat | Owns(arms, l, b) ensures l == k {
      if l < k {
        ThresholdsGrow(arms, l + 1, k);
      } else if l > k {
        ThresholdsGrow(arms, k + 1, l);
      }
    }
  }

  lemma {:induction false} FindOwner(arms: seq<Arm>, b: nat, upTo: nat) returns (k: nat)
    requires upTo <= |arms| && b < Threshold(arms, upTo)
    ensures Owns(arms, k, b)
  {
    if b >= Threshold(arms, upTo - 1) {
      k := upTo - 1;
    } else {
      k := FindOwner(arms, b, upTo - 1);
    }
  }

  // ---------------------------------------------------------------- fairness over all digests

  /** Digest words below `n` whose bucket lies in [lo, hi). */
  function WordsIn(n: nat, lo: int, hi: int): nat {
    if n == 0 then 0 else WordsIn(n - 1, lo, hi) + if lo <= (n - 1) % BUCKETS < hi then 1 else 0
  }

  function Overlap(r: nat, lo: int, hi: int): int {
    if r <= lo then 0 else if r <= hi then r - lo else hi - lo
  }

  /** Full rounds of the buckets, plus what the last, partial one covers. */
  lemma {:induction false} WordsByRounds(n: nat, lo: int, hi: int)
    requires 0 <= lo <= hi <= BUCKETS
    ensures WordsIn(n, lo, hi) == n / BUCKETS * (hi - lo) + Overlap(n % BUCKETS, lo, hi)
  {
    if n == 0 {
    } else {
      WordsByRounds(n - 1, lo, hi);
      NextWord(n);
      RoundStep((n - 1) / BUCKETS, (n - 1) % BUCKETS, lo, hi);
    }
  }

  /** The next word falls into the next bucket, or starts a new round. */
  lemma NextWord(n: nat)
    requires n > 0
    ensures var q, r := (n - 1) / BUCKETS, (n - 1) % BUCKETS;
            if r == BUCKETS - 1 then n / BUCKETS == q + 1 && n % BUCKETS == 0
            else n / BUCKETS == q && n % BUCKETS == r + 1
  {
  }

  lemma RoundStep(q: nat, r: nat, lo: int, hi: int)
    requires 0 <= lo <= hi <= BUCKETS && r < BUCKETS
    ensures q * (hi - lo) + Overlap(r, lo, hi) + (if lo <= r < hi then 1 else 0)
         == if r == BUCKETS - 1 then (q + 1) * (hi - lo) + Overlap(0, lo, hi)
            else q * (hi - lo) + Overlap(r + 1, lo, hi)
  {
    assert (q + 1) * (hi - lo) == q * (hi - lo) + (hi - lo);
  }

  /** Over all 32-bit digest words, an arm gets its share of the 429496.7 words a bucket has on average. */
  lemma ArmsGetTheirShare(arms: seq<Arm>, k: nat)
    requires ValidWeights(arms) && k < |arms|
    ensures var buckets := 100 * arms[k].weight;
            429_496 * buckets <= WordsIn(WORDS, Threshold(arms, k), Threshold(arms, k + 1)) <= 429_497 * buckets
  {
    ThresholdsGrow(arms, 0, k);
    ThresholdsGrow(arms, k + 1, |arms|);
    WordsByRounds(WORDS, Threshold(arms, k), Threshold(arms, k + 1));
    assert WORDS / BUCKETS == 429_496;
  }
}
