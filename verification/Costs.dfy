/** Estimated and actual cost of a chat request from catalog prices. */
module Costs {
  import opened Wrappers
  import opened Routing
  import Scorer

  /** USD per 1,000 tokens. */
  datatype Price = Price(input: real, output: real) {
    ghost predicate Valid() { input >= 0.0 && output >= 0.0 }
  }

  /** Token counts as far as the provider returned them. */
  datatype Usage = Usage(prompt: Option<nat>, completion: Option<nat>)

  const DEFAULT_OUTPUT_TOKENS: nat := 500
  const SAFETY_MARGIN: real := 1.5

  function TotalLength(lengths: seq<nat>): nat {
    if lengths == [] then 0 else TotalLength(lengths[..|lengths| - 1]) + lengths[|lengths| - 1]
  }

  /** About four characters a token, and never none. */
  function EstimatedInputTokens(r: ChatRequest): nat {
    var tokens := TotalLength(r.messageLengths) / 4;
    if tokens > 1 then tokens else 1
  }

  function EstimatedOutputTokens(r: ChatRequest): nat {
    if r.maxTokens.Some? && r.maxTokens.value != 0 then r.maxTokens.value else DEFAULT_OUTPUT_TOKENS
  }

  function TokenCost(input: nat, output: nat, p: Price): real {
    input as real / 1000.0 * p.input + output as real / 1000.0 * p.output
  }

  /** `round` is rounding to eight digits. */
  function EstimateCost(r: ChatRequest, p: Price, round: real -> real): real {
    round(TokenCost(EstimatedInputTokens(r), EstimatedOutputTokens(r), p) * SAFETY_MARGIN)
  }

  function Known(tokens: Option<nat>): nat {
    if tokens.Some? then tokens.value else 0
  }

  /** Falls back to the estimate when the provider returned no token counts. */
  function ActualCost(usage: Option<Usage>, estimated: real, p: Price, round: real -> real): real {
    if usage.None? then estimated
    else
      var prompt, completion := Known(usage.value.prompt), Known(usage.value.completion);
      if prompt == 0 && completion == 0 then estimated
      else round(TokenCost(prompt, completion, p))
  }

  /** Each real token count is within the safety margin of its estimate. */
  predicate WithinMargin(r: ChatRequest, u: Usage) {
    && Known(u.prompt) as real <= SAFETY_MARGIN * EstimatedInputTokens(r) as real
    && Known(u.completion) as real <= SAFETY_MARGIN * EstimatedOutputTokens(r) as real
  }

  lemma PriceOrder(tokens: real, bound: real, price: real)
    requires tokens <= bound && price >= 0.0
    ensures tokens / 1000.0 * price <= bound / 1000.0 * price
  {
    assert (bound / 1000.0 - tokens / 1000.0) * price >= 0.0;
  }

  lemma MarginOrder(tokens: real, estimate: real, price: real)
    requires tokens <= SAFETY_MARGIN * estimate && price >= 0.0
    ensures tokens / 1000.0 * price <= estimate / 1000.0 * price * SAFETY_MARGIN
  {
    PriceOrder(tokens, SAFETY_MARGIN * estimate, price);
    var perToken := estimate / 1000.0;
    assert SAFETY_MARGIN * estimate / 1000.0 == perToken * SAFETY_MARGIN;
    assert perToken * SAFETY_MARGIN * price == perToken * price * SAFETY_MARGIN;
  }

  lemma TokenCostOrder(prompt: nat, completion: nat, input: nat, output: nat, p: Price)
    requires p.Valid() && prompt as real <= SAFETY_MARGIN * input as real
    requires completion as real <= SAFETY_MARGIN * output as real
    ensures TokenCost(prompt, completion, p) <= TokenCost(input, output, p) * SAFETY_MARGIN
  {
    MarginOrder(prompt as real, input as real, p.input);
    MarginOrder(completion as real, output as real, p.output);
  }

  /** Charged at the price it was estimated at, a request within the margin never costs more than estimated. */
  lemma EstimateCoversActual(r: ChatRequest, usage: Option<Usage>, p: Price, round: real -> real)
    requires p.Valid() && Scorer.Monotone(round)
    requires usage.Some? ==> WithinMargin(r, usage.value)
    ensures ActualCost(usage, EstimateCost(r, p, round), p, round) <= EstimateCost(r, p, round)
  {
    if usage.Some? {
      TokenCostOrder(Known(usage.value.prompt), Known(usage.value.completion), EstimatedInputTokens(r),
                     EstimatedOutputTokens(r), p);
    }
  }

  /** With non-negative prices and a rounding that keeps zero, no cost is negative. */
  lemma CostsAreNonNegative(r: ChatRequest, usage: Option<Usage>, estimated: real, p: Price, round: real -> real)
    requires p.Valid() && Scorer.Monotone(round) && round(0.0) == 0.0 && estimated >= 0.0
    ensures EstimateCost(r, p, round) >= 0.0
    ensures ActualCost(usage, estimated, p, round) >= 0.0
  {
    PriceOrder(0.0, EstimatedInputTokens(r) as real, p.input);
    PriceOrder(0.0, EstimatedOutputTokens(r) as real, p.output);
    if usage.Some? {
      PriceOrder(0.0, Known(usage.value.prompt) as real, p.input);
      PriceOrder(0.0, Known(usage.value.completion) as real, p.output);
    }
  }

  // ---------------------------------------------------------------- what a request costs

  /** A thousand tokens of a kind cost the price of that kind. */
  lemma PricesPerThousand(p: Price)
    ensures TokenCost(1000, 0, p) == p.input
    ensures TokenCost(0, 1000, p) == p.output
  {
  }

  /** Costs of two parts add up, each kind of token at its own price. */
  lemma CostsAddUp(a: nat, b: nat, c: nat, d: nat, p: Price)
    ensures TokenCost(a + b, c + d, p) == TokenCost(a, c, p) + TokenCost(b, d, p)
  {
    Shares(a, b, p.input);
    Shares(c, d, p.output);
  }

  lemma Shares(a: nat, b: nat, price: real)
    ensures (a + b) as real / 1000.0 * price == a as real / 1000.0 * price + b as real / 1000.0 * price
  {
    var x, y := a as real / 1000.0, b as real / 1000.0;
    assert (a + b) as real / 1000.0 == x + y;
    assert (x + y) * price == x * price + y * price;
  }

  lemma TokensScale(n: nat, price: real)
    ensures n as real / 1000.0 * price * 1000.0 == n as real * price
  {
    var x := n as real / 1000.0;
    assert x * 1000.0 == n as real;
    assert x * price * 1000.0 == x * 1000.0 * price;
  }

  /** A thousand times the cost is each token count at its own price per thousand. */
  lemma CostMeans(input: nat, output: nat, p: Price)
    ensures TokenCost(input, output, p) * 1000.0 == input as real * p.input + output as real * p.output
  {
    TokensScale(input, p.input);
    TokensScale(output, p.output);
  }

  lemma {:induction false} LengthsAddUp(a: seq<nat>, b: seq<nat>)
    ensures TotalLength(a + b) == TotalLength(a) + TotalLength(b)
  {
    if b == [] {
      assert a + b == a;
    } else {
      LengthsAddUp(a, b[..|b| - 1]);
      assert (a + b)[..|a + b| - 1] == a + b[..|b| - 1];
    }
  }

  lemma LengthOfOne(n: nat)
    ensures TotalLength([n]) == n
  {
    assert [n][..0] == [];
  }

  /** Input tokens are a quarter of the characters, rounded down, but one at least; output tokens as asked for. */
  lemma EstimatedTokens(r: ChatRequest)
    ensures var tokens, chars := EstimatedInputTokens(r), TotalLength(r.messageLengths);
            tokens >= 1 && (chars >= 4 ==> 4 * tokens <= chars < 4 * tokens + 4) && (chars < 4 ==> tokens == 1)
    ensures EstimatedOutputTokens(r) == match r.maxTokens
                                        case Some(n) => if n == 0 then 500 else n
                                        case None => 500
  {
  }

  /** Without rounding: half as much again as the estimated tokens cost, each kind at its price per thousand. */
  lemma EstimateMeans(r: ChatRequest, p: Price)
    ensures 2000.0 * EstimateCost(r, p, x => x) ==
              3.0 * (EstimatedInputTokens(r) as real * p.input + EstimatedOutputTokens(r) as real * p.output)
  {
    CostMeans(EstimatedInputTokens(r), EstimatedOutputTokens(r), p);
  }

  /** What was really used is charged at its prices; a response without any token count costs its estimate. */
  lemma ActualMeans(usage: Option<Usage>, estimated: real, p: Price)
    ensures var counted := usage.Some?
                && (|| (usage.value.prompt.Some? && usage.value.prompt.value > 0)
                    || (usage.value.completion.Some? && usage.value.completion.value > 0));
            var actual := ActualCost(usage, estimated, p, x => x);
            if counted then
              actual * 1000.0
              == Known(usage.value.prompt) as real * p.input + Known(usage.value.completion) as real * p.output
            else actual == estimated
    ensures forall n: nat :: Known(Some(n)) == n && Known(None) == 0
  {
    if usage.Some? {
      CostMeans(Known(usage.value.prompt), Known(usage.value.completion), p);
    }
  }

  /** Rounding is the last step of both. */
  lemma RoundingComesLast(r: ChatRequest, usage: Option<Usage>, estimated: real, p: Price, round: real -> real)
    ensures EstimateCost(r, p, round) == round(EstimateCost(r, p, x => x))
    ensures ActualCost(usage, estimated, p, round) in {estimated, round(ActualCost(usage, estimated, p, x => x))}
    ensures (usage.Some? && Known(usage.value.prompt) + Known(usage.value.completion) > 0) ==>
              ActualCost(usage, estimated, p, round) == round(ActualCost(usage, estimated, p, x => x))
  {
  }
}
