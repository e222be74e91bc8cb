/** Exponential backoff between two attempts at one provider. */
module Retry {
  import Scorer

  datatype RetryPolicy = RetryPolicy(maxRetries: nat, baseDelay: real, maxDelay: real, jitter: bool)

  function AtMost(limit: real, x: real): real {
    if x <= limit then x else limit
  }

  function Pow2(n: nat): real {
    if n == 0 then 1.0 else 2.0 * Pow2(n - 1)
  }

  function CappedDelay(p: RetryPolicy, attempt: nat): real {
    AtMost(p.maxDelay, p.baseDelay * Pow2(attempt))
  }

  /** `amount` is the random jitter, between 0 and 15% of the capped delay. */
  function ComputeDelay(p: RetryPolicy, attempt: nat, amount: real, round: real -> real): real {
    var capped := CappedDelay(p, attempt);
    round(if p.jitter then AtMost(p.maxDelay, capped + amount) else capped)
  }

  /** Backoff never shrinks from one retry to the next, and neither jitter nor rounding breaks the rounded cap. */
  lemma BackoffGrowsToCap(p: RetryPolicy, attempt: nat, amount: real, round: real -> real)
    requires Scorer.Monotone(round) && p.baseDelay >= 0.0 && p.maxDelay >= 0.0
    requires 0.0 <= amount <= 0.15 * CappedDelay(p, attempt)
    ensures 0.0 <= CappedDelay(p, attempt) <= CappedDelay(p, attempt + 1) <= p.maxDelay
    ensures round(CappedDelay(p, attempt)) <= ComputeDelay(p, attempt, amount, round) <= round(p.maxDelay)
  {
    Pow2Positive(attempt);
    assert p.baseDelay * Pow2(attempt + 1) == 2.0 * (p.baseDelay * Pow2(attempt));
  }

  lemma {:induction false} Pow2Positive(n: nat)
    ensures Pow2(n) >= 1.0
  {
    if n == 0 {
    } else {
      Pow2Positive(n - 1);
    }
  }

  lemma CappedIsNonNegative(p: RetryPolicy, attempt: nat)
    requires p.baseDelay >= 0.0 && p.maxDelay >= 0.0
    ensures CappedDelay(p, attempt) >= 0.0
  {
    Pow2Positive(attempt);
    assert p.baseDelay * Pow2(attempt) >= 0.0;
  }

  /** The first retry waits the base delay, each further one twice as long as the one before, up to the cap. */
  lemma BackoffDoubles(p: RetryPolicy, attempt: nat)
    requires p.baseDelay >= 0.0 && p.maxDelay >= 0.0
    ensures CappedDelay(p, 0) == if p.baseDelay <= p.maxDelay then p.baseDelay else p.maxDelay
    ensures var doubled := 2.0 * CappedDelay(p, attempt);
            CappedDelay(p, attempt + 1) == if doubled <= p.maxDelay then doubled else p.maxDelay
  {
    var raw := p.baseDelay * Pow2(attempt);
    assert p.baseDelay * Pow2(attempt + 1) == 2.0 * raw;
  }

  /** Without jitter the delay is the capped one, with jitter the capped one plus the random amount, capped again. */
  lemma DelayMeans(p: RetryPolicy, attempt: nat, amount: real, round: real -> real)
    ensures !p.jitter ==> ComputeDelay(p, attempt, amount, round) == round(CappedDelay(p, attempt))
    ensures p.jitter && CappedDelay(p, attempt) + amount <= p.maxDelay ==>
              ComputeDelay(p, attempt, amount, round) == round(CappedDelay(p, attempt) + amount)
    ensures p.jitter && CappedDelay(p, attempt) + amount > p.maxDelay ==>
              ComputeDelay(p, attempt, amount, round) == round(p.maxDelay)
  {
  }
}
