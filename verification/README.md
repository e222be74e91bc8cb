# CortexGateway control plane: a verified model

CortexGateway sends chat requests to language-model providers. This project models the parts of it that
decide *whether*, *where* and *at what price* a request goes, and proves what those parts promise over
whole runs:

- **Budget** (`Calendar.dfy`, `Budget.dfy`, `BudgetProtocol.dfy`, `Costs.dfy`, `ChatService.dfy`,
  `CompletionRuns.dfy`): the reserve / reconcile / release / rollover transactions on one budget row, any number of requests
  interleaving on it, cost estimation, the downgrade decision, the completion that drives them, and its
  steps as runs of the interleaved machine.
- **Rate limiter** (`RateLimit.dfy`): the Redis counters with their expiries and the atomic script,
  proved against a plain log of request times.
- **Reliability** (`Errors.dfy`, `Retry.dfy`, `CircuitBreaker.dfy`, `BreakerRegistry.dfy`,
  `Failover.dfy`, `Selections.dfy`, `Executor.dfy`): the timed breaker, proved against a specification by history; the
  selector whose filter uses up probes; the executor's nested failover and retry loops under a deadline.
- **Ranking and routing** (`Ordering.dfy`, `Names.dfy`, `Scorer.dfy`, `ScoreMeaning.dfy`,
  `Routing.dfy`, `Stats.dfy`).
- **Semantic cache and experiments** (`Similarity.dfy`, `SemanticCache.dfy`, `Experiment.dfy`).

Code that updates objects is modelled by classes and methods; each such method is proved against a
specification function (`View()`, `contents`, `RowAfter`, `ScopeResult`, ...), and the lemmas are about
those functions. Lemmas whose names end in *Mean*, *Means* or *Partition* pin the specification functions
themselves, by laws and cases that do not mention their bodies. `dafny verify dfyconfig.toml` checks everything.

## Reading the results

Assumptions. Money, scores, similarities and breaker times are reals and `round` is any monotone
function. Clocks never run backwards. The failure threshold is at least 1, cooldown and windows are
positive, estimates, actual costs and prices are not negative, latencies are positive. The providers,
the embedding vectors and the digest words are arbitrary. A Lua script run and a row-locked transaction
are one atomic step each.

Some promises of the documentation are not kept by the code. The model follows the code, and for each
of them gives a concrete failing input and the exact condition under which the promise holds:

- *"Retry after this many seconds."* Redis rounds the remaining life of a key to the nearest second, so
  the reported wait can end up to 499 ms before the window after next, where the rejected requests still
  weigh in; and the retry is counted against all three scopes again, not only the one the wait was
  reported for. Inputs: `RetryAfterCanBeTooShort` for one scope, `AnotherScopeCanStillReject` for a retry
  that its own scope admits. Condition: `CallRetryAllowedIff`, every scope's last window leaves room. One
  second more always suffices: `RetryPlusOneSecondSuffices`.
- *Reserved is the amount in flight.* A rollover zeroes `reserved` while holds are open, and releases
  clamp at zero. Input: `CarriedTermIsNeeded`, two requests that spend twice the limit. Condition:
  `ReservationsAreConserved`, the two agree exactly when no rollover was committed with an amount in
  flight that has not drained to nothing since (`DisturbedIff`). The spending bound that does hold is
  `SpendIsBounded`.
- *A chosen fallback is tried.* The selector's filter already asks the breaker that the executor asks
  again. Input: `RecoveringProviderIsStarved`, where the only provider's cooldown is over and it is
  never reached again. Condition: `RecheckAdmitsIff`; `Execute` and `PickIsSound` tie it to
  every fallback of every request. With one half-open trial every half-open
  fallback is refused until some outcome is reported (`SingleTrialStarves`).
- *By the time a downgraded request is reserved, it fits.* Input: `DowngradedCostCanBeRejected`.
  Condition: `DowngradedCostIsReservable`, a rollover is due or the row was within its limit.
- *`max_entries` bounds the cache index.* Input: `ZeroBoundKeepsEverything`. Condition: `IndexIsBounded`.

Two more observations: `Execute` never ends with `FailoverExhaustedError`, because some earlier error is
always at hand; and a similarity of exactly -1 would never be a hit (`Qualifies`), which matters only for
a threshold outside the documented range of 0 to 1.

## Model

| member | source | states |
|---|---|---|
| BudgetProtocol.SpendIsBounded | backend/app/budget/service.py:168-264 | Over every interleaving under BLOCK or DOWNGRADE, usage plus all estimates in flight stays within the limit plus what the last rollover found in flight plus reconciled overruns |
| BudgetProtocol.ReservationsAreConserved | backend/app/budget/service.py:266-337 | Over every interleaving and policy, `reserved` is at most the current-period holds and short of them by at most the stale estimates given back; it is what is in flight if and only if no rollover disturbed it, and 0 when idle; usage is what was charged this period |
| BudgetProtocol.DisturbedIff | backend/app/budget/service.py:147-156 | A run is disturbed exactly when some event committed a rollover with an amount in flight and some amount was in flight ever since |
| BudgetProtocol.StepDisturbs | backend/app/budget/service.py:147-156 | How a single transaction disturbs the row or lets it recover |
| BudgetProtocol.HoldsAreUndoneOnce | backend/app/services/chat_service.py:308-359 | In every run a request is granted at most one hold; a charged or dropped request had exactly one hold and exactly one undoing, an open hold none |
| BudgetProtocol.FiguresMean | backend/app/budget/service.py:147-156 | What each event adds to the terms of the bound: a rollover carries over exactly what is in flight, an answer overruns by exactly what it cost beyond its estimate |
| BudgetProtocol.InFlightMeans | backend/app/budget/service.py:219-223 | The amount in flight is the sum of the open holds |
| BudgetProtocol.SpendIsBoundedWithoutOverrun | backend/app/services/chat_service.py:339-359 | If no request costs more than it reserved, the overrun term of the bound vanishes |
| BudgetProtocol.SettledOnce | backend/app/services/chat_service.py:308-359 | A finished request keeps its phase in the machine, whatever events follow; the control flow behind it is proved in ChatServices.ChatService.Complete and CompletionRuns.CompletionIsRun |
| BudgetProtocol.CarriedTermIsNeeded | backend/app/budget/service.py:147-156 | A concrete run in which a rollover between two holds lets usage reach twice the limit without any overrun |
| BudgetProtocol.RunKeeps | backend/app/budget/service.py:138-337 | The deficit invariant relating the row to open holds is kept by every sequence of events |
| BudgetProtocol.StepKeeps | backend/app/budget/service.py:138-337 | Each single transaction keeps the deficit invariant |
| BudgetProtocol.GrantKeeps | backend/app/budget/service.py:205-219 | A granted hold keeps the spending bound, because in-flight never exceeds reserved plus carried |
| BudgetProtocol.SettleKeeps | backend/app/budget/service.py:292-294 | Undoing a hold, clamped at zero, keeps the invariant even when a rollover had already dropped that hold |
| BudgetProtocol.RolloverKeeps | backend/app/budget/service.py:150-156 | A rollover turns every open hold into a carried one and keeps the invariant |
| Budgets.PeriodEndsLater | backend/app/budget/service.py:44-55 | A period always ends after it starts, and a monthly one at midnight on the first of the next month |
| Budgets.RolloverFiresOnce | backend/app/budget/service.py:138-164 | Right after a rollover none is due |
| Budgets.PeriodLengths | backend/app/budget/service.py:46-53 | A daily period lasts one day and a weekly one seven, to the microsecond; a monthly one ends at midnight on the first of the following month |
| Budgets.RolloverMeans | backend/app/budget/service.py:138-164 | A rollover is due from the very end of the period on, empties both amounts, starts a period now and changes nothing else |
| Budgets.AmountsMean | backend/app/budget/service.py:205-219 | When BLOCK and DOWNGRADE reject and that WARN never does, with and without a rollover; what each operation leaves in the row; what remains to be spent |
| Budgets.WarningMeans | backend/app/budget/service.py:221-238 | When exactly the WARN flag is raised, what is reserved left aside |
| Budgets.BudgetService.ApplyRolloverIfNeeded | backend/app/budget/service.py:138-164 | Starts a new period with nothing used or reserved exactly when the old one has expired |
| Budgets.BudgetService.CheckAndReserve | backend/app/budget/service.py:168-264 | The whole new row and answer for every policy: a rejection leaves the row unchanged, the rollover included |
| Budgets.BudgetService.ReconcileCost | backend/app/budget/service.py:266-308 | Returns the hold and charges the actual cost of an active row, and touches no other |
| Budgets.BudgetService.ReleaseReservation | backend/app/budget/service.py:310-337 | Returns the hold of an active row without charging |
| Calendar.ThirtyTwoDaysReachNextMonth | backend/app/budget/service.py:50-53 | 32 days after the first of any month, snapped to day one, is the first of the next month |
| Calendar.AddDaysIsLater | backend/app/budget/service.py:46-49 | Adding days gives a valid, later date across month and year ends |
| Calendar.AddDaysCounts | backend/app/budget/service.py:46-49 | Adding n days moves the day number on by exactly n and keeps the time of day |
| Calendar.BeforeIsChronological | backend/app/budget/models.py:134-137 | The comparison of date-times is that of day numbers and times of day |
| Calendar.MonthLengths | backend/app/budget/service.py:50-53 | The lengths of all months and of the year, leap years included |
| Costs.EstimateCoversActual | backend/app/budget/cost.py:43-112 | Priced alike, a request whose real tokens stay within 1.5 times the estimated ones never costs more than estimated |
| Costs.CostsAreNonNegative | backend/app/budget/cost.py:43-112 | Estimates and actual costs are never negative |
| Costs.PricesPerThousand | backend/app/budget/cost.py:70-73 | A thousand input tokens cost the input price, a thousand output tokens the output price |
| Costs.CostsAddUp | backend/app/budget/cost.py:70-73 | The costs of two parts add up, each kind of token at its own price |
| Costs.EstimatedTokens | backend/app/budget/cost.py:63-68 | Input tokens are a quarter of the characters rounded down, at least one; output tokens as asked for, else 500 |
| Costs.LengthsAddUp | backend/app/budget/cost.py:64 | The character counts of all messages are added up |
| Costs.LengthOfOne | backend/app/budget/cost.py:64 | One message counts its own length |
| Costs.EstimateMeans | backend/app/budget/cost.py:63-75 | Unrounded, the estimate is one and a half times the estimated tokens at their prices per thousand |
| Costs.ActualMeans | backend/app/budget/cost.py:99-114 | Unrounded, counted tokens cost their prices per thousand, and a response without any count costs its estimate |
| Costs.RoundingComesLast | backend/app/budget/cost.py:75-114 | Both costs are rounded once, at the end |
| ChatServices.AttemptBudgetDowngrade | backend/app/services/chat_service.py:399-497 | Takes the downgrade decision of its specification from the row read without a lock |
| ChatServices.DowngradeIsExact | backend/app/services/chat_service.py:423-497 | A chosen cost fits what remains; nothing is chosen exactly when neither the original nor any healthy, capable other candidate fits; no affordable candidate dominates the chosen one |
| ChatServices.AffordsMeans | backend/app/services/chat_service.py:448-466 | Whom a downgrade may choose: healthy, another target, every required capability in any case, and an estimate within what is left |
| ChatServices.AffordableMembers | backend/app/services/chat_service.py:445-466 | Exactly those are collected |
| ChatServices.DowngradeKeepsWhatFits | backend/app/services/chat_service.py:419-497 | Without an active row, or when it fits, a request keeps its target; else it gets the first of those it can afford by weights 0.30, 0.30, 0.20, 0.20 |
| ChatServices.DecideMeans | backend/app/services/chat_service.py:266-282 | Only the downgrade action changes the target |
| ChatServices.DowngradedCostIsReservable | backend/app/budget/service.py:249-259 | Reserving the chosen cost on the unchanged row succeeds exactly when a rollover comes first or the row was within its limit |
| ChatServices.ChatService.Admit | backend/app/services/chat_service.py:254-289 | Holds the chosen cost exactly when the request is admitted, and otherwise leaves the row unchanged |
| ChatServices.ChatService.Serve | backend/app/services/chat_service.py:308-323 | The run starts at the given target, all attempts lie on the way from there, and when the policy forbids fallback no candidate is ever discovered |
| ChatServices.ChatService.Settle | backend/app/services/chat_service.py:304-359 | Undoes the hold once: charged at the served model's price on success, released on failure |
| ChatServices.ChatService.Complete | backend/app/services/chat_service.py:254-359 | Whatever the providers do, refused exactly when the chosen cost does not fit, and then nothing is called; else the run starts at the target whose cost is held, the row ends as one hold undone by the same amount, and the charge is that of the model that answered last |
| ChatServices.DowngradedCostCanBeRejected | backend/app/budget/service.py:249-259 | A row one dollar over its limit, where a free request passes the downgrade check and is then rejected |
| CompletionRuns.HoldIsStep | backend/app/services/chat_service.py:284-289 | At any moment of any run, a completion's hold is the machine's reservation step on the row and the request |
| CompletionRuns.UndoIsStep | backend/app/services/chat_service.py:323-359 | At any moment of any run, a completion's settlement is the machine's closing step for the amount held |
| CompletionRuns.CompletionIsRun | backend/app/services/chat_service.py:254-359 | From any state of the row, what a completion promises (answered, failed or refused) is a run of the machine with the same final row and the request finished |
| CompletionRuns.HonestOrdersNeverOverrun | backend/app/budget/cost.py:43-112 | In every run whose arrivals and charges are priced by the cost calculator, requests within the safety margin never cost more than they hold |
| CompletionRuns.HonestSpendIsBounded | backend/app/budget/service.py:205-219 | For such runs usage plus what is in flight stays within the limit plus what the last rollover found in flight |
| CompletionRuns.HoldsFollowOrders | backend/app/services/chat_service.py:259-289 | Every open hold of such a run is its own request's estimate |
| ChatServices.HoldIsReturned | backend/app/services/chat_service.py:308-359 | Left alone, a completion gives back its whole hold and charges exactly what was served |
| ChatServices.RowMeans | backend/app/services/chat_service.py:284-359 | When a request goes ahead, what its hold does to the row, and what settling it does |
| ChatServices.UsageGrowsByPrices | backend/app/services/chat_service.py:339-359 | An answer with token counts adds to the usage exactly those tokens at the served model's input and output prices |
| ChatServices.ChatService.QuoteFor | backend/app/services/chat_service.py:259-264 | A request is quoted for its own target at that target's price |
| RateLimits.BurstBound | backend/app/rate_limit/limiter.py:66-87 | In any window-long interval ending a share f into its fixed window at most limit times (1 + f) requests are admitted, fewer than twice the limit, and at most the limit at f = 0, with rejected requests counted |
| RateLimits.WindowAdmitsAtMostLimit | backend/app/rate_limit/limiter.py:73-82 | No fixed window admits more than the limit |
| RateLimits.BurstTradeOff | backend/app/rate_limit/limiter.py:76-82 | Admissions late in one window take their weight from the next one |
| RateLimits.SilenceNeverHurts | backend/app/rate_limit/limiter.py:76-87 | Without new traffic the effective count never grows, within a window or across boundaries |
| RateLimits.RetryAdmittedIff | backend/app/rate_limit/limiter.py:84-87 | For one scope: a silent client is admitted after exactly its own reported wait if and only if the wait reaches the window after next or the remaining weight of its counted requests leaves room for one |
| RateLimits.SilentAdmittedIff | backend/app/rate_limit/limiter.py:73-87 | At any later window a silent client is admitted if and only if its last window leaves room |
| RateLimits.CallRetryAllowedIff | backend/app/rate_limit/limiter.py:233-261 | A call retried after a wait reported for any of its scopes is allowed if and only if the last windows of key, team and organization all leave room |
| RateLimits.CallOutcome | backend/app/rate_limit/limiter.py:238-261 | For equal windows `CheckAll` allows a call exactly when all three checks do; an allowed call binds the scope with the least limit left over its logged count, and a rejected one reports the wait of a check of that call |
| RateLimits.AnotherScopeCanStillReject | backend/app/rate_limit/limiter.py:233-261 | A concrete call whose reported wait satisfies the key but whose retry the team rejects |
| RateLimits.FourthCallIsRejected | backend/app/rate_limit/limiter.py:233-244 | In that run key and team both reject the fourth call and report one second |
| RateLimits.RetryAfterCanBeTooShort | backend/app/rate_limit/limiter.py:84-87 | A concrete client that waits the reported second and is rejected again |
| RateLimits.RetryPlusOneSecondSuffices | backend/app/rate_limit/limiter.py:188-208 | One second more than the reported wait always suffices, also for other scopes with the same window |
| RateLimits.RetryReachesNextWindow | backend/app/rate_limit/limiter.py:66-71 | The reported wait is at least a window and at most 499 ms short of the window after next |
| RateLimits.SilentClientStartsAfresh | backend/app/rate_limit/limiter.py:73-82 | From the window after next on, a silent client is admitted |
| RateLimits.ExpiryLosesNothing | backend/app/rate_limit/limiter.py:66-74 | Neither counter the script reads has expired while still needed; both equal the logged counts |
| RateLimits.BumpAgrees | backend/app/rate_limit/limiter.py:66-71 | One more hit keeps every counter of every client and window equal to the log |
| RateLimits.ScriptMatchesLog | backend/app/rate_limit/limiter.py:59-88 | Effective count and remaining life computed by the script are those the log specifies |
| RateLimits.MillisecondsSuffice | backend/app/rate_limit/limiter.py:154-161 | The fractional clock enters only through its whole milliseconds |
| RateLimits.CountIsCardinality | backend/app/rate_limit/limiter.py:66-74 | A window's count is the number of hits logged in it |
| RateLimits.AdmittedIsCardinality | backend/app/rate_limit/limiter.py:188 | The admitted are counted one by one, each judged by the log as it was when it came |
| RateLimits.ScaledCountMeans | backend/app/rate_limit/limiter.py:76-79 | Hits of this window count in full, those of the previous one by the share of this window still to come |
| RateLimits.EffectiveCountMeans | backend/app/rate_limit/limiter.py:81-82 | The compared count is the sliding count rounded up, and admission is being within the limit |
| RateLimits.FirstHitMeans | backend/app/rate_limit/limiter.py:67-71 | A counter's expiry counts from the earliest hit logged in its window |
| RateLimits.RetryAfterMeans | backend/app/rate_limit/limiter.py:84-85 | The reported wait is the counter's remaining life within half a second on either side |
| RateLimits.ScopeResultMeans | backend/app/rate_limit/limiter.py:188-208 | Each field of an answer, read off the log |
| RateLimits.BindingMeans | backend/app/rate_limit/limiter.py:238-254 | Which of the three results binds, case by case, ties included |
| RateLimits.RedisStore.Eval | backend/app/rate_limit/limiter.py:59-88 | The script's new store and both answers, an expired key counting as absent |
| RateLimits.RateLimiter.CheckScope | backend/app/rate_limit/limiter.py:122-208 | Every request is logged, admitted or not; the answer's count is the sliding count of the log rounded up, its remainder what is left of the limit, and a wait comes only with a rejection |
| RateLimits.RateLimiter.CheckAll | backend/app/rate_limit/limiter.py:210-261 | The key, team and organization counters are all counted whatever each answers; allowed exactly when all three allow; the binding result is one of them |
| RateLimits.ChooseBinding | backend/app/rate_limit/limiter.py:238-254 | The longest wait among blocked results, else the smallest remainder, first on ties |
| CircuitBreakers.BreakerRefinesHistory | backend/app/reliability/circuit_breaker.py:54-183 | After every history the incremental breaker stands for it: closed with the streak below the threshold, or down with a full count and the last hit's time |
| CircuitBreakers.AnswersFollowHistory | backend/app/reliability/circuit_breaker.py:54-91 | At every later time state and admission are those specified from the history alone |
| CircuitBreakers.StepRepresents | backend/app/reliability/circuit_breaker.py:54-183 | Each operation keeps the correspondence of breaker and history |
| CircuitBreakers.OpensOnlyOnFullStreak | backend/app/reliability/circuit_breaker.py:154-176 | A provider goes down only by a trip or by the threshold-th counted failure without a success between |
| CircuitBreakers.NobodyDuringCooldown | backend/app/reliability/circuit_breaker.py:56-61 | While a provider is down nobody is admitted before the cooldown since the last hit has passed |
| CircuitBreakers.EpisodeIsBounded | backend/app/reliability/circuit_breaker.py:84-88 | Until an outcome is reported exactly min(trials, requests) probes are admitted, however long it takes |
| CircuitBreakers.ExhaustedIsStuck | backend/app/reliability/circuit_breaker.py:84-88 | A half-open breaker without probes refuses at every later time until an outcome, a trip or a reset |
| CircuitBreakers.ProviderCircuitBreaker.ResolveState | backend/app/reliability/circuit_breaker.py:54-68 | The timed transition, on the object |
| CircuitBreakers.ProviderCircuitBreaker.CanExecute | backend/app/reliability/circuit_breaker.py:70-91 | Answers as the state machine admits and uses up a probe when half-open |
| CircuitBreakers.ProviderCircuitBreaker.RecordSuccess | backend/app/reliability/circuit_breaker.py:110-128 | Closes a half-open breaker, ends a closed one's streak, leaves an open one |
| CircuitBreakers.ProviderCircuitBreaker.RecordFailure | backend/app/reliability/circuit_breaker.py:130-165 | Only counted failures change anything |
| CircuitBreakers.ProviderCircuitBreaker.ForceOpen | backend/app/reliability/circuit_breaker.py:167-176 | Opens from any state with a full count |
| CircuitBreakers.ProviderCircuitBreaker.Clear | backend/app/reliability/circuit_breaker.py:178-183 | Back to the state of a new breaker |
| BreakerRegistry.CircuitBreakerRegistry.GetBreaker | backend/app/reliability/circuit_breaker.py:200-210 | One breaker object per normalised name, never shared |
| BreakerRegistry.CircuitBreakerRegistry.CanExecute | backend/app/reliability/circuit_breaker.py:212-213 | Asks, and changes, that provider's breaker alone |
| BreakerRegistry.CircuitBreakerRegistry.RecordSuccess | backend/app/reliability/circuit_breaker.py:215-216 | A success reaches that provider's breaker alone |
| BreakerRegistry.CircuitBreakerRegistry.RecordFailure | backend/app/reliability/circuit_breaker.py:218-219 | A failure reaches that provider's breaker alone |
| BreakerRegistry.CircuitBreakerRegistry.GetState | backend/app/reliability/circuit_breaker.py:221-222 | Reading a state can move a breaker to half-open |
| BreakerRegistry.KeysOfNormalNames | backend/app/reliability/circuit_breaker.py:202 | Different small, trimmed provider names have different keys |
| BreakerRegistry.KeyIsNormal | backend/app/reliability/circuit_breaker.py:202 | A key is the small name without its outer blanks |
| BreakerRegistry.SetAt | backend/app/reliability/circuit_breaker.py:200-210 | A change of one provider's breaker is seen under every name with its key and no other |
| Names.LowerMeans | backend/app/reliability/circuit_breaker.py:202 | Capital letters become the small letters of the same rank, nothing else changes |
| Names.StripMeans | backend/app/reliability/circuit_breaker.py:202 | Stripping removes all outer blanks and nothing else |
| Errors.OnlyRateLimitsAreRetriedUncounted | backend/app/reliability/errors.py:56-128 | Every counted failure is retried, and rate limiting alone is retried without counting |
| Errors.TransientPartition | backend/app/reliability/errors.py:74-93 | Which kinds of failure are retried and which are not, for every kind |
| Errors.CountedPartition | backend/app/reliability/errors.py:112-128 | Which kinds of failure count towards opening a circuit and which do not, for every kind |
| Retry.BackoffGrowsToCap | backend/app/reliability/retry.py:36-52 | Backoff never shrinks from retry to retry, and for any monotone rounding the delay lies between the rounded backoff and the rounded cap |
| Retry.BackoffDoubles | backend/app/reliability/retry.py:44-45 | The first wait is the base delay and each further one twice the one before, up to the cap |
| Retry.DelayMeans | backend/app/reliability/retry.py:47-52 | What jitter adds and that the sum is capped again |
| Executor.ReliabilityExecutor.BackoffRange | backend/app/reliability/retry.py:47-52 | Every backoff lies between the capped delay and 15 percent more, within the cap |
| Failover.AskBreakers | backend/app/reliability/failover.py:62-63 | The filter keeps whom the breakers admit, asked one after the other, and leaves every probe it used up used |
| Failover.FailoverSelector.SelectFallback | backend/app/reliability/failover.py:32-110 | The chosen fallback and the state of all breakers after choosing |
| Failover.FallbackIsEligible | backend/app/reliability/failover.py:52-102 | A fallback is discovered, admitted, capable, of a provider not attempted in any spelling of its case, healthy unless no admitted capable candidate is, and dominated by no other such candidate |
| Failover.ChooseNobodyIff | backend/app/reliability/failover.py:69-84 | Nobody is chosen exactly when no admitted candidate has every required capability |
| Failover.NotAttemptedMembers | backend/app/reliability/failover.py:52-54 | Exactly the providers attempted before are left out, in any case |
| Failover.ScreenKeepsIff | backend/app/reliability/failover.py:62-63 | A candidate is kept exactly when its breaker still admits after the questions asked for those before it |
| Failover.ClosedAreKept | backend/app/reliability/failover.py:62-63 | No candidate of a closed breaker is lost |
| Failover.RecheckAdmitsIff | backend/app/reliability/executor.py:104-105 | The immediate re-check admits the fallback exactly when its breaker was closed, or half-open with probes to spare after one question per candidate sharing it |
| Failover.SelectionStarvesHalfOpen | backend/app/reliability/failover.py:62-63 | Without probes to spare, the selection makes its own choice be refused now and at every later time until an outcome is reported |
| Failover.SingleTrialStarves | backend/app/reliability/failover.py:62-63 | With one half-open trial every half-open provider the filter keeps is refused at every later time until an outcome is reported |
| Failover.RecoveringProviderIsStarved | backend/app/reliability/failover.py:62-63 | A concrete registry and candidate list: the provider picked right after its cooldown is refused forever after |
| Failover.ScreenProbes | backend/app/reliability/failover.py:62-63 | The filter asks a provider's breaker once per candidate sharing it, and no other breaker changes |
| Selections.PickIsSound | backend/app/reliability/failover.py:52-110 | Every logged pick is discovered, unattempted, capable, healthy unless no admitted capable candidate is, and undominated, and the executor gets through to it exactly when its breaker was closed or had probes to spare after the selection's own questions |
| Selections.PicksNobodyIff | backend/app/reliability/failover.py:62-84 | A logged selection picked nobody exactly when no candidate admitted then was capable |
| Selections.PathIsDistinct | backend/app/reliability/failover.py:52-60 | The providers along a request's selections are pairwise distinct, in any spelling of their case |
| Selections.PicksFollow | backend/app/reliability/executor.py:308-312 | A pick is the next target, and its selection excluded exactly the targets before it |
| Selections.VisitSettlesPick | backend/app/reliability/executor.py:104-136 | A visit decides for good whether its pick was called |
| Executor.VisitArrives | backend/app/reliability/executor.py:100-136 | A visit that calls its target exactly when the breaker admits it keeps the way of the request |
| Executor.SelectionLeaves | backend/app/reliability/executor.py:293-312 | A selection leads on to its pick, or ends the way |
| Executor.ReliabilityExecutor.Execute | backend/app/reliability/executor.py:63-328 | Terminates for every oracle. Served or given up, each failover follows one logged selection of the selector's rule over a real discovery, the providers on the way are distinct, all attempts lie on it, and a visited provider was called exactly when its breaker admitted it; the attempt bound holds and the attempt log equals what happened at the providers; on success one success in last place after transient failures only, counts, cap and reports; giving up is explained by a permanent kind of failure, the time, a switch, the cap or a last selection of this request that picked nobody; every attempt starts before the deadline and the end is at most one call and one discovery after it |
| Executor.ReliabilityExecutor.FailOver | backend/app/reliability/executor.py:84-328 | The failover loop keeps all of that from one provider to the next |
| Executor.ReliabilityExecutor.Iteration | backend/app/reliability/executor.py:90-98 | Nothing is visited at or after the deadline |
| Executor.ReliabilityExecutor.Round | backend/app/reliability/executor.py:100-312 | One provider visited and, if that brought nothing, the selector's next pick turned to or the request given up for a stated reason |
| Executor.ReliabilityExecutor.VisitNext | backend/app/reliability/executor.py:100-268 | A visit to the latest pick, called exactly when its breaker, left as the selection left it, admits it |
| Executor.ReliabilityExecutor.Visit | backend/app/reliability/executor.py:100-268 | Refused exactly when the provider's breaker does not admit at that moment; otherwise the retry loop's outcome |
| Executor.ReliabilityExecutor.TryProvider | backend/app/reliability/executor.py:133-268 | At most 1 + max_retries attempts, numbered, all but the last transient; only the listed permanent kinds of failure end it early; the breaker hears of success or exhaustion only |
| Executor.ReliabilityExecutor.Attempt | backend/app/reliability/executor.py:137-268 | No call at or after the deadline, a backoff before every retry, a failure report only for a transient failure of the last retry |
| Executor.ReliabilityExecutor.TurnFrom | backend/app/reliability/executor.py:270-312 | Turns to exactly the pick of a new selection, or ends with the last error when failover is off, used up or the selection picked nobody |
| Executor.ReliabilityExecutor.NextProvider | backend/app/reliability/executor.py:115-123 | Unless failover is off or, for an exhausted provider only, the cap is reached, one new selection is made and its pick returned |
| Executor.ReliabilityExecutor.PickFallback | backend/app/reliability/executor.py:293-297 | One discovery is made; the pick is the selector's choice from it, never an attempted provider, and the breakers are left as the selection's questions left them |
| Executor.MaxAttemptsIsProduct | backend/app/reliability/executor.py:90-137 | The attempt bound is (1 + max_retries) times the number of providers |
| Executor.VisitCounts | backend/app/reliability/executor.py:100-262 | One visit keeps the attempt log's length equal to retries plus providers called |
| Executor.VisitServed | backend/app/reliability/executor.py:190-231 | A served request has its one success last, one success report for the served provider and one failure report for each other one called |
| Executor.VisitSpent | backend/app/reliability/executor.py:262-268 | An exhausted provider adds exactly one failure report |
| Executor.VisitFailed | backend/app/reliability/executor.py:262-264 | A permanent failure or a lack of time ends the request without any report |
| Executor.BetweenSettles | backend/app/reliability/executor.py:282-328 | Leaving the failover loop keeps all bounds, although the open-circuit path overshoots the cap by one |
| Scorer.ScoreCandidates | backend/app/routing/scorer.py:48-164 | The loop and the in-place sort compute the ranking of the specification |
| Scorer.RankingIgnoresOrder | backend/app/routing/scorer.py:78-164 | For distinct targets every order of discovery gives the same ranking |
| Scorer.BoundsIgnoreOrder | backend/app/routing/scorer.py:78-87 | The pool bounds depend only on which candidates are in the pool |
| Scorer.BeforeIsStrictWeakOrder | backend/app/routing/scorer.py:152-162 | The seven-part sort key orders candidates consistently |
| Scorer.BeforeConnected | backend/app/routing/scorer.py:152-162 | Two candidates tie only with equal figures, provider and model |
| Scorer.DominatorRanksFirst | backend/app/routing/scorer.py:91-162 | A candidate at least as good in health, success, latency and cost and better in one ranks strictly first, for all weights and through clamping, rounding and every cost branch |
| Scorer.WinnerIsParetoOptimal | backend/app/routing/scorer.py:144-164 | The first of the ranking is in the pool and dominated by nobody in it |
| Scorer.FactorsFollowQuality | backend/app/routing/scorer.py:92-116 | No factor of a better candidate is lower, across the free-tier and paid cost branches |
| ScoreMeaning.WeightsBelong | backend/app/routing/scorer.py:118-124 | Raising one factor raises the sum by that much times the weight of the same name |
| ScoreMeaning.SharesOfWeights | backend/app/routing/scorer.py:38-46 | Each normalised share times the total is the given weight, the shares add up to one, and no weight means a quarter each |
| ScoreMeaning.BoundsMean | backend/app/routing/scorer.py:78-87 | The bounds are the attained extremes of latency, cost and non-zero cost |
| ScoreMeaning.EffectiveLatencyMeans | backend/app/routing/models.py:76-81 | The measured latency if there is a positive one, else the catalog's |
| ScoreMeaning.LatencyScoreMeans | backend/app/routing/scorer.py:98-104 | The latency score times the latency is the pool's least latency |
| ScoreMeaning.CostScoreMeans | backend/app/routing/scorer.py:106-116 | Every branch of the cost score, by the product with the cost |
| ScoreMeaning.ClampMeans | backend/app/routing/scorer.py:95-96 | A success rate between 0 and 1 counts as it is |
| ScoreMeaning.TotalMeans | backend/app/routing/scorer.py:126-139 | The total is the weighted sum cut off below 0 and above 1, then rounded |
| ScoreMeaning.ScoreMeans | backend/app/routing/scorer.py:91-142 | A score shows each factor under its own name, and for non-negative weights the cut-off never acts |
| ScoreMeaning.KeyOrder | backend/app/routing/scorer.py:152-162 | The seven parts of the sort key, one after the other |
| ScoreMeaning.NamesCompare | backend/app/routing/scorer.py:159-160 | Names compare at their first different character |
| ScoreMeaning.WinnerHasTopTotal | backend/app/routing/scorer.py:144-164 | Nobody's total is higher than the winner's |
| ScoreMeaning.CheapestWins | backend/app/routing/scorer.py:106-164 | With all weight on cost the winner costs least |
| ScoreMeaning.FastestWins | backend/app/routing/scorer.py:98-164 | With all weight on latency the winner is fastest |
| ScoreMeaning.HealthiestWins | backend/app/routing/scorer.py:92-164 | With all weight on health the winner is healthy if anybody is, with all weight on success nobody has a better rate |
| Ordering.FilterAppends | backend/app/routing/router.py:161 | Filtering keeps or drops each candidate for itself, in its place |
| Ordering.FilterOne | backend/app/routing/router.py:161 | A single candidate is kept exactly when it meets the condition |
| Scorer.LeastIsLeast | backend/app/routing/scorer.py:83-87 | A pool bound is attained and exceeded by none |
| Ordering.SortedIsUnique | backend/app/routing/scorer.py:152-162 | Strictly sorted arrangements of the same elements are equal |
| Ordering.SortSorts | backend/app/routing/scorer.py:152-162 | The stable sort puts no element before one ranked strictly ahead of it |
| Ordering.SortPermutes | backend/app/routing/scorer.py:152-162 | Sorting neither loses nor invents candidates |
| Routing.Route | backend/app/routing/router.py:82-203 | The decision, or the error with its place in the order of checks |
| Routing.RouteIsSound | backend/app/routing/router.py:140-203 | Exactly the candidates of the requested provider with every required capability are scored, healthy ones alone if there are any; the winner is one of them, dominated by none, with its own score and the resolved mode |
| Routing.ModeTaken | backend/app/routing/router.py:205-224 | Which mode a request is routed in, and which modes are refused |
| Routing.ManualRoute | backend/app/routing/router.py:104-131 | Manual routing takes the named provider and model unscored, or fails for the stated reason |
| Routing.RouteFailsIff | backend/app/routing/router.py:133-158 | When scored routing fails, error by error |
| Routing.RequestedMembers | backend/app/routing/router.py:140-148 | A request that names a provider considers exactly its candidates, in any case |
| Routing.SupportsMeans | backend/app/routing/router.py:232-238 | What a required capability asks for |
| Routing.FilterByCapabilities | backend/app/routing/router.py:226-238 | Keeps, in order, exactly those with every non-blank required capability up to case and outer blanks |
| Routing.PoolMembers | backend/app/routing/router.py:150-167 | Exactly the capable candidates are scored, of them the healthy ones alone if there are any |
| Stats.ModelStats.RecordSuccess | backend/app/routing/stats.py:50-60 | Counters, both windows, last and smoothed latency always follow from the recorded history |
| Stats.ModelStats.RecordFailure | backend/app/routing/stats.py:62-65 | A failure enters the outcome window only |
| Stats.ModelStats.SuccessRate | backend/app/routing/stats.py:36-41 | The rate read off the window is that of the newest fifty recorded outcomes |
| Stats.RateIsProportion | backend/app/routing/stats.py:36-41 | The success rate is within 0 and 1, and 1 exactly when none of the newest fifty outcomes is a failure |
| Stats.RateMeans | backend/app/routing/stats.py:36-41 | The rate times the number of outcomes is the number of successes |
| Stats.OneMoreOutcome | backend/app/routing/stats.py:36-41 | How one more success or failure moves the rate |
| Stats.MeanMeans | backend/app/routing/stats.py:43-48 | The mean times the number of measurements is their sum |
| Stats.SumAppends | backend/app/routing/stats.py:43-48 | Sums of measurements add up |
| Stats.SumOfOne | backend/app/routing/stats.py:43-48 | One measurement is its own sum |
| Stats.NewestWeighsOneFifth | backend/app/routing/stats.py:56-60 | The newest measurement weighs a fifth in the moving average |
| Stats.NewestMeans | backend/app/routing/stats.py:31-33 | A window holds the last elements, as many as fit |
| Stats.LatenciesMean | backend/app/routing/stats.py:50-65 | Measurements are those of the successes, in order |
| Stats.ModelStats.Latency | backend/app/routing/stats.py:43-48 | Known exactly after some success: the mean of the newest fifty measurements, within their bounds |
| Stats.SmoothedIsBounded | backend/app/routing/stats.py:56-60 | The moving average stays within the bounds of all measurements |
| SemanticCaches.SemanticCache.Store | backend/app/semantic_cache/cache.py:334-351 | After any run of stores each team's index lists its newest entries, newest first, up to the bound |
| SemanticCaches.SemanticCache.Lookup | backend/app/semantic_cache/cache.py:207-246 | Answers the most recent live entry of maximal similarity among those with matching parameters, exactly when that maximum reaches the threshold |
| SemanticCaches.AnswerIsUnique | backend/app/semantic_cache/cache.py:207-246 | That specification leaves one answer |
| SemanticCaches.StoreTrims | backend/app/semantic_cache/cache.py:349-350 | Push and trim keep the index equal to the newest part of the whole history and leave other teams alone |
| SemanticCaches.StoredIsFound | backend/app/semantic_cache/cache.py:334-351 | What was just stored is what an identical question finds until it expires, whatever else is cached |
| SemanticCaches.AnswersStayInTeam | backend/app/semantic_cache/cache.py:207-246 | A hit was stored by the asking team for the same parameters, is still alive and similar enough |
| SemanticCaches.MissMeans | backend/app/semantic_cache/cache.py:238-246 | A miss means that no live listed entry for the same parameters is similar enough |
| SemanticCaches.HitIsBest | backend/app/semantic_cache/cache.py:233-236 | A hit is at least as similar as every other such entry, and the newest of the equally similar |
| SemanticCaches.ListedMeans | backend/app/semantic_cache/cache.py:349-350 | A store puts its entry first, moves the others back by one and drops at most the last |
| SemanticCaches.ZeroBoundKeepsEverything | backend/app/semantic_cache/cache.py:349-350 | Two stores under a bound of zero leave both entries listed |
| SemanticCaches.IndexIsBounded | backend/app/semantic_cache/cache.py:349-350 | The index respects its bound exactly when the bound is at least one or nothing was stored |
| Similarity.CauchySchwarz | backend/app/semantic_cache/similarity.py:28-39 | For all vectors of one length the squared dot product is at most the product of the squared norms |
| Similarity.ClampIsNeverNeeded | backend/app/semantic_cache/similarity.py:38-39 | Over the reals the similarity of two vectors of one length and non-zero norms is exactly their normalised dot product: the clamp never acts |
| Similarity.CosineSimilarity | backend/app/semantic_cache/similarity.py:19-39 | Always within -1 and 1, for vectors of any lengths |
| Similarity.SelfSimilarity | backend/app/semantic_cache/similarity.py:28-39 | A non-zero vector has similarity 1 to itself |
| Similarity.DotAppends | backend/app/semantic_cache/similarity.py:31 | The dot product adds up over parts of the vectors |
| Similarity.DotOfOne | backend/app/semantic_cache/similarity.py:31 | For one entry it is the product |
| Similarity.NoSimilarity | backend/app/semantic_cache/similarity.py:28-36 | Different lengths or a norm of zero give similarity zero |
| Experiments.SelectArm | backend/app/experiment/assigner.py:129-139 | The first arm whose cumulative threshold exceeds the bucket; with valid weights the last-arm fallback never fires |
| Experiments.Assign | backend/app/experiment/assigner.py:74-104 | An arm is assigned exactly for an enabled experiment with arms, and it owns the request's bucket |
| Experiments.BlocksPartitionBuckets | backend/app/experiment/assigner.py:132-139 | Every bucket has exactly one owner and each arm owns a block of 100 buckets per unit of weight |
| Experiments.ArmsGetTheirShare | backend/app/experiment/assigner.py:129-130 | Over all 32-bit digest words an arm of weight w receives between 429496 and 429497 words for each of its 100w buckets |
| Experiments.WordsByRounds | backend/app/experiment/assigner.py:129-130 | How many digest words below any n fall into a block of buckets |

## Left out

- HTTP endpoints, middleware, authentication, request-log writing, metrics, analytics queries and the frontend: plumbing around the modelled decisions.
- Provider adapters, candidate discovery and the embedding client are oracles; SHA-256 and JSON encoding appear only as arbitrary digest words and parameter hashes.
- Guardrails, policy merging and model-registry administration: they would add only easy members.
- Redis and PostgreSQL internals; the fail-open branches after a Redis error. Only the branch for a missing Redis client is modelled.
- Floating-point rounding, in money, scores and similarities alike.
- Editing, disabling or deleting a budget while requests are in flight, the global switch that turns budgets off, a budget policy or period outside the enumerated ones, failing budget calls, and task cancellation.
- BudgetProtocol.SpendIsBounded: says nothing for WARN, which never rejects and so bounds nothing.
- CompletionRuns.HonestSpendIsBounded: speaks of requests served by the model they were priced for; a failover to a dearer model is an overrun in BudgetProtocol.SpendIsBounded.
- ChatServices.ChatService.Complete: one completion on its own; other requests on the same row are the subject of BudgetProtocol, to which CompletionRuns connects its steps. Experiment arms, cache lookup and routing before it are separate modules and enter as its target.
- Executor.ReliabilityExecutor.Execute: the source's mutable request context is a value threaded through the loops; latencies in attempt records, log lines, the reported breaker state and the statistics calls are not part of its contract.
- Stats: the tracker's dictionary of targets is not modelled, only one target's record.
- Names: `lower()` and `strip()` outside ASCII.
- Breakers of one registry share their configuration, and `reset_all` is not modelled; a single reset is.
- RateLimits: a limiter object has one window length per scope, as its configuration gives it; a stored per-hour override has no effect in the source and none here.
- SemanticCaches.SemanticCache.Lookup: eligibility, the per-team off switch, key layout and rebuilding the response are left out; the source reads a request id its context does not have at that point, which the model does not follow.
