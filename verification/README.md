# Arbitrage runtime: a verified model

This project models the parts of the arbitrage runtime whose correctness rests on exact reasoning, and proves
what they keep over every input, every run and every interleaving.

- **Flash swaps** (`Ledger`, `FlashSwap`, `FlashSwapProofs`, `Executor`, `Repayment`). A token ledger, a standard
  V2 pair with its fee-adjusted constant-product check (Uniswap v2 Core, section 3.2.1; flash swaps, section 2.3),
  routers as any exact-in venues, and the executor contract as a class whose failed transactions leave the world as
  it was. `FlashSwap` says what each stage does; `Executor` runs it step by step against storage and is proved
  equal to it.
- **Pool pricing** (`Arithmetic`, `Options`, `UniswapV2`, `Sizing`). Saturating 256-bit pricing as the runtime computes it,
  runs of swaps, splits of one swap, and the sizing loop. `Repayment` ties the runtime's price formula to the
  contract's repayment formula.
- **Guards on execution** (`Clock`, `CapitalBudget`, `StopLoss`, `ContextGuard`, `ExecutionGuard`, `Fees`). The
  sliding-window capital budget, the global and per-context loss freezes, and the fee arithmetic. Each public
  method runs under a mutex, so a run is a list of atomic calls.
- **RPC fleet** (`RpcEndpoint`, `RpcSelection`, `RpcFleet`). Failure decay, burst reservations, cooldowns, scores,
  and the half-second score cache in front of endpoint selection.
- **Adaptive gate** (`Reals`, `AdaptiveGate`, `GateDecisions`, `GateExamples`, `RecentFlows`, `RelayChoice`,
  `RelayDrift`). The quote pipeline from raw readings to the decision, when it executes, the queue of recent flows behind two of those readings, and the choice among relays, whose
  quotes each read the queue anew.
- **Hidden Markov model** (`Vectors`, `HiddenMarkov`, `HiddenMarkovProofs`). Forward pass, Baum-Welch training and
  the belief filter, as loops proved equal to their recursions, and what training does over whole sequences.

## Findings

Where a natural reading of the code turns out not to hold of it, the model keeps the code as it is, a lemma shows the
case, and another gives the condition.

- A swap can lower the product of a pool's reserves, without a reserve overflowing, when the price's denominator
  clips at 256 bits (`ProductCanFallWhenClipped`); `ProductFallsExactlyWhen` is the exact condition, and the results
  about runs hold for every run that avoids it.
- Splitting an input never pays while the whole input's numerator is below the top of the word, always pays once the
  first part's own numerator reaches it, and can go either way in between (`SplittingNeverPays`,
  `SplittingPaysOnceClipped`, `SplittingCanPayWhenClipped`, `SplittingNeedNotPay`). In general it pays exactly when what
  the parts were paid, times the whole input's denominator, overflows the word (`SplittingPaysExactlyWhen`). More input
  stops getting more output at the same place (`QuoteMonotone`, `QuoteTurnsOver`, `QuoteAcrossTheTop`).
- The step guard on minimum output compares the larger of the reported and the delivered amount, so a router that
  only reports passes it (`ReportAloneCanPass`); it means delivery exactly when the router reports no more than
  arrives (`MinimumMeansDelivery`).
- When the profit token is the borrowed token, the profit baseline is read after the loan arrives, so the trades must
  leave the executor the whole loan on top of repayment and minimum profit (`SameTokenGate`), and a loan that earns its
  minimum reverts (`EarningLoanReverts`).
- The sizing score takes the priority and toxicity of the context, but they scale every candidate alike and never change
  which is chosen (`ContextNeverDecides`).
- A context can be frozen by about half as many losses as its limit, since under high pressure each counts twice and the
  limit is one less (`FewestLosses`); in the default context it takes the limit (`DefaultContextFreezes`).
- Failure decay is independent of polling exactly while the elapsed periods fit in 32 bits
  (`DecayIndependentOfPolling`). A context's decay keeps its pressure a share exactly while the step count, cast to
  a signed exponent, stays non-negative (`DecayKeepsUnitExactlyWhen`), and forgives no more under polling exactly while
  the windows fit in 32 bits or their cast count covers the losses (`PollingForgivesNoMoreExactlyWhen`).
- Reserving burst units can bring a cooldown forward (`ReserveCanShortenCooldown`), exactly when the reservation
  overloads the endpoint and more than 900 milliseconds were left (`ReserveShortensExactlyWhen`); failures never do.
- The overload cooldown measures reads against the send capacity too, so a fresh Infura endpoint cools after 24 reads at
  once, before they fill its read capacity of 30 (`OverloadsAfter`, `CrowdedAfter`).
- Under one reading of the flows the comparison of relay quotes is the order of their builder pressures
  (`BetterMeansLowerPressure`). But the readings are taken anew for each relay. They change only when a flow expires
  (`ReadingsDiffer`), and each change can give away at most EPSILON of margin (`ChosenWithinChanges`), so a call loses at
  most EPSILON per flow that expires during it, whatever the number of relays (`ChosenWithinExpiries`). That is lost in
  full, and the comparison runs in a ring, in a stressed market whose readings rise (`MarginLossIsTight`,
  `BetterRunsInCircles`), as they do when three flows expire one by one (`ThreeFlowsMakeARing`). The comparison is
  transitive for all pressures exactly when no chain of near-ties links a quote to one it outranks
  (`TransitiveExactlyWhenSettled`).
- The forward pass of the hidden Markov model reports likelihood 1 for every surviving model, because each row is
  renormalised, so with a positive tolerance training stops after two iterations (`TrainedRounds`). Retraining on a
  symbol the model cannot emit sets every parameter to zero for good (`SurvivesExactlyWhenNarrowing`). From the
  even-handed start that `new` gives, the hidden states never come apart (`RetrainedBlind`,
  `NewModelLearnsFrequencies`, `FilterLearnsNothing`).

## Model

| member | source | states |
|---|---|---|
| UniswapV2.QuoteNeverExceedsReserve | src/mev/amm/uniswap_v2.rs:86-106 | for all 256-bit inputs, clipped or not, the quote is at most the output reserve, and equals it only in one corner (reserve of one unit, fee-weighted input at the top of the word) |
| UniswapV2.QuoteIsExactBelow112Bits | src/mev/amm/uniswap_v2.rs:86-106 | with reserves and input below 2^112 nothing clips and the quote is the exact floor of the rational formula |
| UniswapV2.QuoteMonotone | src/mev/amm/uniswap_v2.rs:86-106 | more input never gets less output while the larger input's numerator fits the word |
| UniswapV2.QuoteTurnsOver | src/mev/amm/uniswap_v2.rs:86-106 | once the smaller input's numerator has reached the top of the word, more input never gets more output |
| UniswapV2.QuoteAcrossTheTop | src/mev/amm/uniswap_v2.rs:86-106 | where the larger input's numerator reaches the top of the word, it is quoted at least as much as a smaller one exactly when the smaller one's quote times the larger one's denominator fits the word |
| UniswapV2.QuoteIsLargestOnceClipped | src/mev/amm/uniswap_v2.rs:86-106 | once the numerator reaches the top of the word, the quote is exactly the largest output whose product with the clipped denominator fits the word |
| UniswapV2.QuoteIsLargestAffordable | src/mev/amm/uniswap_v2.rs:86-106 | while the numerator is below the top of the word, the quote is exactly the largest output the constant-product bound affords |
| UniswapV2.SwapEffect | src/mev/amm/uniswap_v2.rs:34-83 | a successful swap leaves at least one unit of the output token, pays what it takes from the reserve, moves the right two reserves and nothing else |
| UniswapV2.ProductFallsExactlyWhen | src/mev/amm/uniswap_v2.rs:44-83 | a successful swap lowers the reserve product if and only if the denominator clipped and the input credited, min(a, top - reserve_in), cannot pay for the one unit paid out |
| UniswapV2.ProductCanFallWhenClipped | src/mev/amm/uniswap_v2.rs:44-106 | a concrete swap, without reserve overflow, that lowers the product |
| UniswapV2.ProductNeverFalls | src/mev/amm/uniswap_v2.rs:34-83 | over every run, in either direction, none of whose steps is one that lowers the product, both reserves stay positive and their product never falls |
| UniswapV2.RunCannotDrain | src/mev/amm/uniswap_v2.rs:34-83 | over such a run, if one reserve comes back the other is no smaller than it began |
| UniswapV2.ThereAndBack | src/mev/amm/uniswap_v2.rs:34-83 | any two successful swaps, there and back with the whole proceeds, never return more than was put in, whatever clips |
| UniswapV2.TwoWayCut | src/mev/amm/uniswap_v2.rs:44-106 | what two consecutive swaps afford, one swap of the sum affords |
| UniswapV2.SplittingNeverPays | src/mev/amm/uniswap_v2.rs:44-106 | while the whole input's numerator stays below the top of the word, any cut into consecutive swaps that all succeed pays no more in total than one swap of it, rounding included |
| UniswapV2.SplittingPaysExactlyWhen | src/mev/amm/uniswap_v2.rs:44-106 | any cut that succeeds pays more than the whole if and only if the whole's numerator reaches the top of the word and what the parts were paid times the whole's clipped denominator exceeds it |
| UniswapV2.SplittingPaysOnceClipped | src/mev/amm/uniswap_v2.rs:44-106 | once the first part's own numerator reaches the top of the word, every such cut of a 256-bit amount into two or more parts pays strictly more |
| UniswapV2.SplittingCanPayWhenClipped | src/mev/amm/uniswap_v2.rs:44-106 | between the two guards: a concrete two-part cut that pays more |
| UniswapV2.SplittingNeedNotPay | src/mev/amm/uniswap_v2.rs:44-106 | between the two guards: a concrete two-part cut that pays the same |
| Sizing.SizeCandidates | src/mev/amm/uniswap_v2.rs:155-200 | the loop returns, in order, exactly the offers for the fractions whose output exceeds stake plus gas in unbounded integers |
| Sizing.OffersBalance | src/mev/amm/uniswap_v2.rs:155-200 | every offer satisfies stake + gas + net = output with positive net, against the pool's own quote |
| Sizing.OfferReturn | src/mev/amm/uniswap_v2.rs:181-188 | an offer's return is its net profit per stake in basis points, rounded down, with only the product and the word clipped |
| Sizing.OfferNeedsCheapPool | src/mev/amm/uniswap_v2.rs:155-200 | for every market, an offer exists only if fee < 10000 and (10000-fee)*reserve_out > 10000*reserve_in |
| Sizing.SlippageIsShare | src/mev/amm/uniswap_v2.rs:108-128 | self-slippage is at most 10000 bps for any amounts, and that when any of them is zero |
| Sizing.SlippageIsLostShare | src/mev/amm/uniswap_v2.rs:108-128 | for any amounts it is exactly the part of the ideal output not paid, in basis points rounded down and with only the two products clipped, and zero when nothing is lost |
| Sizing.SlippageCoversFee | src/mev/amm/uniswap_v2.rs:108-128 | self-slippage is at least fee-1 bps once the ideal output reaches 10000, while the scaled ideal output and the denominator fit the word |
| Sizing.SlippageFitsBelow112Bits | src/mev/amm/uniswap_v2.rs:108-128 | below 2^112 they fit |
| Sizing.ScoreRises | src/mev/amm/uniswap_v2.rs:214-233 | for priority of at least 0 and toxicity of at most 1 the score rises with net profit, return and size and falls with slippage, strictly in each while there is a profit |
| Sizing.ContextNeverDecides | src/mev/amm/uniswap_v2.rs:202-233 | priority and toxicity scale all scores alike, so which of two candidates scores higher never depends on them |
| Sizing.WorkedScore | src/mev/amm/uniswap_v2.rs:214-233 | the score of one concrete offer |
| Sizing.SelectBestSizeCandidate | src/mev/amm/uniswap_v2.rs:202-233 | the fold returns a candidate no other outscores, the last among equals, and none exactly for an empty list; when slippages are shares, none that is at least as good in profit, return, size and slippage and better in one is passed over |
| Sizing.FindRoiOptimalInput | src/mev/amm/uniswap_v2.rs:131-153 | returns the stake and net profit of the best-scored listed fraction that pays, balancing against the quote, with no other fraction's offer better in one respect and no worse in the rest, and nothing exactly when none pays |
| Repayment.AcceptsCrossIff | contracts/ArbitrageRuntimeExecutorV2.sol:425-450 | the pair's fee-adjusted check accepts a cross-token repayment exactly when 997*paid*(reserveOut-borrow) >= 1000*reserveIn*borrow |
| Repayment.CrossRepaymentIsTight | contracts/ArbitrageRuntimeExecutorV2.sol:425-450 | the cross-token repayment and anything above it is accepted, anything accepted is at least it minus one, and that one unit is surplus exactly when the division is exact |
| Repayment.SameRepaymentIsTight | contracts/ArbitrageRuntimeExecutorV2.sol:421-423 | the same for repayment in the borrowed token |
| Repayment.PricingAdjointToRepayment | src/mev/amm/uniswap_v2.rs:86-106 | at 30 bps and for every input whose numerator is below the top of the word, the runtime's quote reaches the borrowed amount exactly when the pair accepts that input as repayment |
| Repayment.PairAmountsFit | src/mev/amm/uniswap_v2.rs:86-106 | every 112-bit input against 112-bit reserves is one |
| Repayment.AffordableIsAccepted | contracts/ArbitrageRuntimeExecutorV2.sol:425-450 | without any width limit, the runtime's constant-product bound at 30 bps affords an amount exactly when the pair accepts the input for it |
| Repayment.KKeepsProduct | contracts/ArbitrageRuntimeExecutorV2.sol:421-450 | passing the fee-adjusted check keeps the plain product of the reserves |
| Repayment.RepaymentSatisfiesPair | contracts/ArbitrageRuntimeExecutorV2.sol:421-450 | for either borrowed side, either repayment token and any surplus in the pair, the computed repayment passes the pair's checks |
| Ledger.TransferBalance | contracts/ArbitrageRuntimeExecutorV2.sol:394-402 | a transfer moves exactly the amount at its two ends and nothing anywhere else |
| Ledger.TransferConserves | contracts/ArbitrageRuntimeExecutorV2.sol:398-402 | no transfer changes a token's total over all holders |
| Ledger.NobodyHolds | contracts/ArbitrageRuntimeExecutorV2.sol:394-402 | only what holders have is counted in that total |
| FlashSwapProofs.StepConserves | contracts/ArbitrageRuntimeExecutorV2.sol:296-323 | a router step conserves every token and leaves no router a larger approval than it had |
| FlashSwapProofs.StepPaysExactInput | contracts/ArbitrageRuntimeExecutorV2.sol:296-323 | when the venues send the executor nothing in the input token, it pays exactly the amount the step names, or its whole balance when the step names the largest word |
| FlashSwapProofs.StepSpendsAllowance | contracts/ArbitrageRuntimeExecutorV2.sol:296-309 | a step draws on an approval that covers its input, otherwise replaces it by the exact amount and uses that up, and changes no other |
| FlashSwapProofs.UnapprovedCannotPull | contracts/ArbitrageRuntimeExecutorV2.sol:404-414 | a router without an approval gets nothing |
| FlashSwapProofs.StepDelivers | contracts/ArbitrageRuntimeExecutorV2.sol:311-322 | a step that otherwise succeeds never lowers the output balance and passes its minimum exactly when the reported or the delivered output reaches it |
| FlashSwapProofs.MinimumMeansDelivery | contracts/ArbitrageRuntimeExecutorV2.sol:311-322 | passing the minimum, whatever it is, means delivering it if and only if the router reports no more than arrives |
| FlashSwapProofs.ReportAloneCanPass | contracts/ArbitrageRuntimeExecutorV2.sol:311-322 | a concrete step that passes the minimum-output guard with nothing delivered |
| FlashSwapProofs.StepsConserve | contracts/ArbitrageRuntimeExecutorV2.sol:277-280 | conservation and approvals over step lists of any length |
| FlashSwapProofs.StepsSpare | contracts/ArbitrageRuntimeExecutorV2.sol:277-280 | an account the venues leave alone keeps every balance across any step list |
| FlashSwapProofs.CommitStages | contracts/ArbitrageRuntimeExecutorV2.sol:214-356 | every committed transaction lends, trades, repays, pays and passes the pair's check, in that order, from an open lock |
| FlashSwapProofs.FlashSwapConserves | contracts/ArbitrageRuntimeExecutorV2.sol:214-356 | a committed transaction changes no token's total over all holders and enlarges no approval |
| FlashSwapProofs.FlashSwapClearsLock | contracts/ArbitrageRuntimeExecutorV2.sol:336-356 | nothing commits while an execution is in progress, and a commit leaves the lock open, the active id zero and every allowlist as it was |
| FlashSwapProofs.FlashSwapMakesPairWhole | contracts/ArbitrageRuntimeExecutorV2.sol:214-334 | after a commit the pair's reserves are its balances, pass the fee-adjusted check against the old reserves, and have no smaller product; no other pair moves |
| FlashSwapProofs.FlashSwapPaysProfit | contracts/ArbitrageRuntimeExecutorV2.sol:264-294 | a recipient apart from executor, pair and venues gains a profit of at least minProfit and nothing else, and when it gains anything the executor ends with exactly its callback-entry balance |
| FlashSwapProofs.ProfitGate | contracts/ArbitrageRuntimeExecutorV2.sol:274-293 | a transaction that settles its repayment reverts for want of profit exactly when minProfit is positive and the trades left the executor less than its callback-entry balance plus repayment plus minProfit |
| FlashSwapProofs.SameTokenGate | contracts/ArbitrageRuntimeExecutorV2.sol:274-293 | with the profit in the borrowed token that bound is the starting balance plus the whole loan plus repayment plus minProfit |
| FlashSwapProofs.EarningLoanReverts | contracts/ArbitrageRuntimeExecutorV2.sol:274-293 | a concrete loan in the profit token that earns more than minProfit over its repayment and reverts |
| FlashSwapProofs.CallbackAdmits | contracts/ArbitrageRuntimeExecutorV2.sol:264-276 | the callback admits exactly the caller its own data names as pair, for the executor, with the active id, during an execution; the allowlists play no part |
| FlashSwapProofs.FlashSwapNeverFailsK | contracts/ArbitrageRuntimeExecutorV2.sol:325-334 | if the pair holds its reserves and no venue takes from it (they may pay it, and it may be the profit recipient), no transaction reverts on the pair's payment checks |
| FlashSwapProofs.ProfitableSwapCommits | contracts/ArbitrageRuntimeExecutorV2.sol:214-356 | a concrete loan that trades at a profit, repays, pays its recipient and commits, so the theorems about commits are not empty |
| FlashSwapProofs.ValidateMeans | contracts/ArbitrageRuntimeExecutorV2.sol:358-366 | validation passes exactly for a non-empty list in which every router is allowed, every path has two tokens and every minimum is positive |
| FlashSwapProofs.ViewAgreesWithTransaction | contracts/ArbitrageRuntimeExecutorV2.sol:199-212 | when the read-only check says no the transaction reverts; when it says yes no allowlist is the reason for a revert, and an unsupported token means the loan or the profit is not in the pair's tokens |
| Executor.ArbitrageRuntimeExecutorV2.StartV2FlashSwap | contracts/ArbitrageRuntimeExecutorV2.sol:214-262 | run against storage, the transaction does what its specification says, and on any error the whole world is what it was before |
| Executor.ArbitrageRuntimeExecutorV2.UniswapV2Call | contracts/ArbitrageRuntimeExecutorV2.sol:264-294 | the callback's loop over the steps, settlement and payout equal their specification |
| Executor.ArbitrageRuntimeExecutorV2.ExecuteV2Step | contracts/ArbitrageRuntimeExecutorV2.sol:296-323 | the step against storage equals its specification |
| Executor.ArbitrageRuntimeExecutorV2.ForceApprove | contracts/ArbitrageRuntimeExecutorV2.sol:404-414 | the reset-then-approve sequence leaves the approval raised only if it was short |
| Executor.ArbitrageRuntimeExecutorV2.ValidateV2Steps | contracts/ArbitrageRuntimeExecutorV2.sol:358-366 | the validation loop equals its specification |
| CapitalBudget.PruneFrontIsLive | src/mev/execution/executor.rs:1824-1831 | in a time-ordered queue, pruning the front removes exactly the expired entries |
| CapitalBudget.RunAgrees | src/mev/execution/executor.rs:1767-1837 | over any interleaving on a non-decreasing clock, the pruned queue stays time-ordered, agrees with the full record of unreleased grants at every later instant, and gives the same answers |
| CapitalBudget.BudgetIsExact | src/mev/execution/executor.rs:1767-1822 | a reservation is granted if and only if the unreleased grants inside the window, with it, fit the total, cluster and pair caps |
| CapitalBudget.ReportsExposure | src/mev/execution/executor.rs:1767-1822 | the decision reports the exposure the reservation would make in total, for its cluster and for its pair, and a refusal names the first cap exceeded |
| CapitalBudget.CapsHold | src/mev/execution/executor.rs:1767-1837 | in every interleaving the outstanding capital in total, of every cluster and of every pair stays within its cap |
| CapitalBudget.Budget.CheckAndReserve | src/mev/execution/executor.rs:1767-1822 | the method's new queue and decision are those of the machine the theorems are about |
| CapitalBudget.Budget.PruneExpired | src/mev/execution/executor.rs:1824-1831 | the pruning loop equals its specification |
| CapitalBudget.Budget.ReleaseTx | src/mev/execution/executor.rs:1833-1837 | exactly the transaction's reservations are dropped, order kept |
| StopLoss.GuardIsStreak | src/mev/execution/executor.rs:1151-1178 | in every reachable state the counter is the streak of losses since the last reset, and the freeze ends one freeze length after the latest loss |
| StopLoss.FrozenIffLimitReached | src/mev/execution/executor.rs:1167-1178 | a freeze is set if and only if the losses have reached the limit |
| StopLoss.BlockedExactlyWhen | src/mev/execution/executor.rs:1283-1299 | the gate blocks exactly when a full streak's latest loss is less than a freeze ago |
| StopLoss.EnoughLossesFreeze | src/mev/execution/executor.rs:1283-1299 | after as many losses as the limit with no win or expired check between, every earlier check than last loss plus freeze is blocked |
| ContextGuard.PruningIsInvisible | src/mev/execution/executor.rs:1914-1920 | pruning changes no answer of a context's check until that context's next result |
| ContextGuard.FreezeHolds | src/mev/execution/executor.rs:1301-1334 | until its own next result, a frozen context is reported frozen at every check before its freeze ends, whatever else is recorded, decayed or pruned |
| ContextGuard.EnoughLossesFreeze | src/mev/execution/executor.rs:1176-1230 | over every run, once a context not frozen at the start has lost as often as the limit with no win, decay window or check past the base freeze in between, every check within the base freeze of the last loss reports it frozen |
| ContextGuard.LosingStreakFreezes | src/mev/execution/executor.rs:1176-1230 | a context that only loses under the same scores is frozen exactly once its losses, doubled from a pressure of 0.82, reach the limit of that pressure, and from the last of them for that pressure's length |
| ContextGuard.DefaultContextFreezes | src/mev/execution/executor.rs:1937-1972 | in the default context it takes exactly the configured limit, and the freeze is a fifth longer than the base |
| ContextGuard.ToxicContextFreezes | src/mev/execution/executor.rs:1937-1972 | in a toxic context of low priority it takes one loss less and lasts half as long again |
| ContextGuard.FewestLosses | src/mev/execution/executor.rs:1176-1230 | some run of a new context freezes it with n losses if and only if 2n reaches the larger of 1 and the limit less one |
| ContextGuard.FreezeBands | src/mev/execution/executor.rs:1961-1972 | a freeze lasts 1, 1.2, 1.5 or 2 times the base by pressure band, rounded to the nearest second and cut at the word |
| ContextGuard.PressureRises | src/mev/execution/executor.rs:1937-1951 | regime pressure rises with toxicity, falls with priority, and a loss adds 0.24 up to the top |
| ContextGuard.DecayFades | src/mev/execution/executor.rs:1922-1935 | a decay step forgives one loss and 12 percent of the pressure for each whole window, and counts the next from itself |
| ContextGuard.FirstForgiveness | src/mev/execution/executor.rs:1922-1935 | the first loss is forgiven after half the base freeze but at least 30 seconds, not a nanosecond before |
| ContextGuard.DecayKeepsUnitExactlyWhen | src/mev/execution/executor.rs:1922-1935 | a decay step keeps every pressure a share exactly when its step count is below 2^31 |
| ContextGuard.PressureStaysInUnit | src/mev/execution/executor.rs:1179-1230 | over every run within the span that allows, regime pressure stays in [0,1] |
| ContextGuard.ForgivenessIsBounded | src/mev/execution/executor.rs:1922-1935 | under any polling schedule the losses forgiven never exceed the whole decay windows elapsed |
| ContextGuard.PollingForgivesNoMoreExactlyWhen | src/mev/execution/executor.rs:1922-1935 | no polling schedule forgives more than a single check at the end, exactly while the windows elapsed are below 2^32 or their count, once cast, still covers the losses |
| ExecutionGuard.Guard.RecordResult | src/mev/execution/executor.rs:1151-1230 | the method moves the global guard and the context table as the two machines do |
| ExecutionGuard.Guard.StopLossSnapshot | src/mev/execution/executor.rs:1283-1299 | reports a freeze exactly when blocked, with its losses and remaining seconds, and clears an expired one |
| ExecutionGuard.Guard.ContextStopLossSnapshot | src/mev/execution/executor.rs:1301-1334 | decays, then reports losses and remaining seconds or forgets one context, as the machine does |
| Fees.ExtraBps | src/mev/execution/executor.rs:1336-1373 | the saturating accumulation is the unbounded sum of the applicable surcharges, cut at the maximum |
| Fees.DynamicGasPrice | src/mev/execution/executor.rs:1336-1373 | the adjusted price is the base scaled by that surcharge and cut at the cap |
| Fees.SurchargeRises | src/mev/execution/executor.rs:1336-1362 | a worse relay is never surcharged less, each of its three faults adds its own surcharge from its limit on, and toxicity takes the place of priority |
| Fees.ScaledCarriesSurcharge | src/mev/execution/executor.rs:1364-1366 | unless the product or the multiplier overflows the price is the base and its surcharge together, rounded down |
| Fees.PriceRises | src/mev/execution/executor.rs:1336-1373 | over a relay that is no better, in the same context, the price is never lower while the multiplier fits its word |
| Fees.AdjustedPriceBounds | src/mev/execution/executor.rs:265-278 | once the cap check passes, the price is within the cap and the largest surcharge, and at least a positive base exactly when neither base*10000 nor the 64-bit multiplier overflows |
| Fees.SignedFeesValid | src/mev/execution/executor.rs:1990-1993 | the signed fields satisfy max_fee >= priority_fee and max_fee >= base_fee (EIP-1559, "Specification"), max_fee is at most 5/4 of a price that covers the base fee, and equals the price exactly when the base fee leaves it a quarter or the price is at the top of the word |
| Fees.SignedTip | src/mev/execution/executor.rs:1990-1993 | the priority fee is what the price leaves over the base fee or a quarter of the price, whichever is more, and the maximum pays both fees or is the price |
| Fees.SignedWithinCap | src/mev/execution/executor.rs:265-278 | end to end, max_fee is at most 5/4 of the cap and of the largest surcharged price while the base fee is within the adjusted price, and past it is the base fee plus a quarter of that price |
| RpcEndpoint.DecayIndependentOfPolling | src/rpc.rs:763-778 | for every schedule of earlier decay calls the counters and timestamp equal those of one call at the end, exactly while the elapsed periods are below 2^32 |
| RpcEndpoint.QueueAnswersAsHistory | src/rpc.rs:754-790 | the pruned burst queue answers the load query as the full reservation history would, now and at every later time |
| RpcEndpoint.PruningInvisible | src/rpc.rs:481-587 | pruning is invisible to health and score |
| RpcEndpoint.RefreshTwice | src/rpc.rs:754-778 | refreshing twice at one instant is refreshing once, and never changes eligibility |
| RpcEndpoint.FailureCools | src/rpc.rs:278-325 | a failure makes the endpoint ineligible, for at most 45 seconds beyond any running cooldown, and never shortens one |
| RpcEndpoint.FailureDeadline | src/rpc.rs:278-325 | after a failure the deadline is the later of the one running and the cooldown its kind earns, doubling for rate limits and timeouts; which counts it raises, and that nothing else changes |
| RpcEndpoint.SuccessesHeal | src/rpc.rs:240-276 | each success takes at least one from every failure count, and successes lift only cooldowns that have run out |
| RpcEndpoint.SuccessesSettle | src/rpc.rs:252-257 | while successes take the same time, n of them leave 0.72^n of the gap between the average latency and it |
| RpcEndpoint.SuccessObserves | src/rpc.rs:240-276 | a first latency is recorded as it is, a block with the moment it was seen, and each failure count that has not decayed away loses exactly one |
| RpcEndpoint.OverloadsAfter | src/rpc.rs:632-665 | how many calls at one instant put a fresh endpoint of each kind into its overload cooldown, in either mode |
| RpcEndpoint.CrowdedAfter | src/rpc.rs:481-500 | how many reads at one instant leave a fresh endpoint of each kind no longer healthy |
| RpcEndpoint.FreshIsHealthy | src/rpc.rs:481-500 | a fresh endpoint is healthy, and a failure of any kind ends that |
| RpcEndpoint.SuccessesRestoreHealth | src/rpc.rs:240-276 | an eligible endpoint is healthy again after as many successes as its largest failure count, if the last saw a block and its load leaves room |
| RpcEndpoint.HealthEnds | src/rpc.rs:481-500 | no endpoint is healthy that is ineligible, loaded to its read capacity, more than 20 seconds behind its last block, or still has a failure count |
| RpcEndpoint.ScorePrefersBetter | src/rpc.rs:502-587 | of two eligible endpoints of one kind the one no worse in latency, failures, rate limits, load, block age and time since chosen scores no higher, and strictly lower when it is better in one the score can tell |
| RpcEndpoint.KindsStand | src/rpc.rs:502-587 | otherwise alike, idle and not rate-limited, the kinds score in one strict order for reads and one for sends |
| RpcEndpoint.KindsLead | src/rpc.rs:539-552 | and by how many milliseconds each leads the next |
| RpcEndpoint.PenaltiesLevelOff | src/rpc.rs:519-587 | past 20 failures and 12 rate limits nothing more is added, and 180 milliseconds after being chosen an endpoint scores as if it never had been |
| RpcEndpoint.FirstRateLimit | src/rpc.rs:528-559 | a first rate limit costs 900, and an Infura endpoint 2500 more |
| RpcEndpoint.WorkedScores | src/rpc.rs:502-587 | the scores of two concrete endpoints, with every penalty in play |
| RpcEndpoint.ReserveShortensExactlyWhen | src/rpc.rs:648-665 | a reservation brings a running cooldown forward exactly when the load with its units reaches twice the send capacity and more than 900 ms were left |
| RpcEndpoint.ReserveCanShortenCooldown | src/rpc.rs:632-665 | a run of a fresh endpoint that does so: send, rate limit, second send |
| RpcSelection.SortSane | src/rpc.rs:414-479 | ranking keeps the members, their scores and their distinctness, and orders by score |
| RpcSelection.PoolSound | src/rpc.rs:414-479 | the pool holds scored endpoints only, ordered, is empty only if none is scored, and in read mode is all healthy whenever any scored endpoint is healthy |
| RpcSelection.PoolPrefers | src/rpc.rs:414-479 | when a scored endpoint of the preferred kind (a healthy one, in read mode) exists, the pool is all of that kind |
| RpcSelection.RotatedSame | src/rpc.rs:414-479 | rotation permutes the head of the pool and leaves the rest |
| RpcSelection.ChoiceSound | src/rpc.rs:414-479 | the handles are scored, distinct, at most max(limit,1), non-empty when any endpoint is scored, and in read mode all healthy when any scored one is |
| RpcSelection.FirstIsBest | src/rpc.rs:414-479 | without rotation the first handle has the best score in the pool |
| RpcSelection.HandlesAre | src/rpc.rs:414-479 | the handles are the ordered pool cut at the limit, its best two for sends, or one to six as configured for reads, turned round by the rotation counter |
| RpcSelection.TurnsAreFair | src/rpc.rs:414-479 | in as many selections in a row each of those comes first once |
| RpcFleet.LookingChangesNothing | src/rpc.rs:481-587 | the decays and prunes that health checks and scoring do on the way change no score, health or eligibility |
| RpcFleet.ScoredIsEligible | src/rpc.rs:502-587 | exactly the endpoints neither disabled nor cooling down get a score, and eligibility lasts |
| RpcFleet.FirstIsUndominated | src/rpc.rs:414-587 | reading without rotation on fresh scores, no endpoint of the pool of the same kind is better than the first handle |
| RpcFleet.Fleet.SelectCandidates | src/rpc.rs:414-479 | selection through the cache is the pure choice over the effective scores; no handle is disabled or cooling down, none repeats, at most max(limit,1), and in read mode all healthy when any scored endpoint is |
| RpcFleet.Fleet.GetCachedScore | src/rpc.rs:589-611 | a lookup answers from the cache while fresh and from the endpoints otherwise, and keeps the cache sound |
| RpcFleet.Fleet.RecomputeScores | src/rpc.rs:613-630 | refilling stores the directly computed scores of every endpoint |
| RpcFleet.Fleet.SetEndpointEnabled | src/rpc.rs:192-213 | only that endpoint's flag changes, and no stale score of it stays readable |
| RpcFleet.Fleet.KeepOnlyGetblockEnabled | src/rpc.rs:215-230 | exactly the other kinds end disabled, the count is of those newly disabled, and the cache is invalidated |
| RpcFleet.Fleet.RecordSuccess | src/rpc.rs:240-276 | the endpoint's new state is as specified, others unchanged, cache sound |
| RpcFleet.Fleet.RecordFailure | src/rpc.rs:278-325 | the endpoint's new state is as specified, others unchanged, cache sound |
| RpcFleet.Fleet.ReserveSelection | src/rpc.rs:632-670 | the reservation is appended, an overloaded endpoint cools, cache sound |
| AdaptiveGate.CompetitionRises | src/mev/adaptive.rs:564-578 | the competition score rises with stress through regime, jumps and multipliers, and stays a share |
| AdaptiveGate.RiskRises | src/mev/adaptive.rs:579-592 | the risk score likewise |
| AdaptiveGate.BlendedRises | src/mev/adaptive.rs:594-616 | the blend with a profile's own probability keeps the order of the base probability |
| AdaptiveGate.ThresholdRises | src/mev/adaptive.rs:642-669 | the dynamic threshold rises with stress |
| AdaptiveGate.DecisionAntitone | src/mev/adaptive.rs:546-676 | from pressures to decision: harsher pressures and higher cost never raise EV or probability, never lower threshold, scores or regime, and never turn a reject into an execution |
| AdaptiveGate.MeasureHarsher | src/mev/adaptive.rs:514-545 | worse raw readings (density, heat, gas, latency, failure, capture, rates, size, impact, toxicity, priority) give harsher pressures |
| AdaptiveGate.QuoteAntitone | src/mev/adaptive.rs:514-708 | end to end and for any historical profile, a market that reads worse never executes where the better one would reject |
| AdaptiveGate.ExecutionPays | src/mev/adaptive.rs:633-676 | an execution's expected profit, less one percent, exceeds its cost plus the base threshold scaled for regime and chain less 8% |
| GateDecisions.ExecutesExactlyWhen | src/mev/adaptive.rs:667-676 | a quote executes if and only if its value exceeds its threshold and its probability, competition and risk are within the limits of its regime, given in numbers |
| GateDecisions.ValueAccounts | src/mev/adaptive.rs:617-641 | expected profit less expected value is the chance of failure, the cost and three shares of the profit, and nothing else |
| GateDecisions.OnePressure | src/mev/adaptive.rs:1047-1077 | which regime each pressure makes on its own, at any level |
| GateDecisions.EvenPressure | src/mev/adaptive.rs:1047-1077 | stress is a mean of its seven pressures, and the regime when all are the same |
| GateDecisions.HistoryMoves | src/mev/adaptive.rs:1376-1425 | when a profile makes a market toxic, raises or lowers its regime a step, or leaves it |
| GateDecisions.QuietMarketExecutes | src/mev/adaptive.rs:514-708 | for all valid curves, a market stressed by nothing but the size of the trade executes once 28% of the profit exceeds the cost and 0.8464 of the base threshold, with bounds on competition, risk and probability |
| GateDecisions.GoodCandidateExecutes | src/mev/adaptive.rs:514-708 | a concrete market and candidate that execute, whatever the curves |
| GateExamples.WorkedCalm | src/mev/adaptive.rs:514-708 | the exact quote of a concrete calm market |
| GateExamples.WorkedNormal | src/mev/adaptive.rs:546-708 | of a normal one |
| GateExamples.WorkedHot | src/mev/adaptive.rs:546-708 | of a hot one |
| GateExamples.WorkedToxic | src/mev/adaptive.rs:546-708 | of a toxic one |
| GateExamples.WorkedHistory | src/mev/adaptive.rs:514-708 | of the calm one with a historical profile |
| RelayChoice.QuoteForRelays | src/mev/adaptive.rs:710-740 | the loop, reading the flows anew for each relay, ends on the quote the fold chooses and names its relay |
| RelayChoice.ChosenExecutes | src/mev/adaptive.rs:710-740 | the chosen quote executes exactly when some quote does |
| RelayChoice.ChosenMargin | src/mev/adaptive.rs:1552-1565 | its EV margin is within (n-1)*EPSILON of every quote in its class |
| RelayChoice.ChosenIsBest | src/mev/adaptive.rs:1552-1565 | without near-ties it has the best margin in its class |
| RelayChoice.BetterMeansLowerPressure | src/mev/adaptive.rs:1552-1565 | under one reading of the flows, one relay's quote is better than another's if and only if it reports the lower builder pressure |
| RelayChoice.ChosenIsFirstLeast | src/mev/adaptive.rs:710-740 | so the fold ends on the first relay that reports the least pressure |
| RelayChoice.TransitiveExactlyWhenSettled | src/mev/adaptive.rs:1552-1565 | for quotes with given classes, margins and probabilities, the comparison is transitive under every assignment of builder pressures if and only if no chain of near-ties links a quote to one it outranks; quotes that fail this may still be ordered under their own pressures, as within one reading |
| RelayChoice.LeastPressureDecides | src/mev/adaptive.rs:710-740 | under one reading, asking all relays gives exactly the quote of the relay with the least pressure |
| RelayChoice.ChosenWithinChanges | src/mev/adaptive.rs:710-740 | however the readings change between the quotes of a call, the chosen margin is within EPSILON per change of every quote in its class |
| RecentFlows.ObserveKeepsSane | src/mev/adaptive.rs:397-421 | observing a flow keeps the queue in time order, free of future flows and within 2048 entries |
| RecentFlows.PruneKeepsLive | src/mev/adaptive.rs:953-960 | pruning keeps that and leaves only flows of at most twelve seconds |
| RecentFlows.PruneTwice | src/mev/adaptive.rs:953-960 | having pruned earlier changes no later pruning |
| RecentFlows.ClusterHeat | src/mev/adaptive.rs:962-1019 | the accumulating loop computes the cluster's heat |
| RecentFlows.OwnFlowsHeat | src/mev/adaptive.rs:962-1019 | heat is a share and never falls when another cluster's flow is one of the cluster's own instead |
| RecentFlows.HeatOfOneKind | src/mev/adaptive.rs:962-1019 | over live flows a cluster with none of them has no heat, and one with all of them 0.85, or 1 when any of them bids well above the usual gas price |
| RecentFlows.WorkedHeat | src/mev/adaptive.rs:962-1019 | the exact heat of a concrete queue |
| RecentFlows.HeatIgnoresClock | src/mev/adaptive.rs:962-1019 | while the same flows are alive the heat is the same at every instant, though every weight in it fades |
| RecentFlows.ReadingsDiffer | src/mev/adaptive.rs:514-525 | between two quotes a reading changes only if a flow expired |
| RelayDrift.ChangesAreExpiries | src/mev/adaptive.rs:710-740 | over a whole call the readings change no more often than flows expire |
| RelayDrift.ChosenWithinExpiries | src/mev/adaptive.rs:710-740 | for any relays and any instants of the quotes, the chosen margin is within EPSILON per expired flow, at most 2048 of them, of every quote in its class |
| RelayDrift.BetterRunsInCircles | src/mev/adaptive.rs:710-740 | in a stressed market, of any three readings whose lift of the threshold rises by more than EPSILON each time, three quotes under eased pressures are each better than the one before, in a ring |
| RelayDrift.MarginLossIsTight | src/mev/adaptive.rs:710-740 | for any number of such readings a call over as many relays loses exactly EPSILON per change of reading |
| RelayDrift.ThreeFlowsMakeARing | src/mev/adaptive.rs:953-1019 | one queue of three flows, the youngest of them the call's own cluster, that expire one by one gives such readings, a ring of three quotes and a loss of exactly 2*EPSILON |
| RelayDrift.WornIsStressed | src/mev/adaptive.rs:514-545 | a concrete market, with every average short of its limit, is stressed in that sense |
| Vectors.Normalize | src/mev/adaptive.rs:1912-1919 | the in-place division by the sum equals its specification |
| Vectors.NormalizedDistribution | src/mev/adaptive.rs:1897-1919 | a non-negative row with some mass becomes a distribution with the same support |
| HiddenMarkov.HiddenMarkovModel.ForwardAlgorithm | src/mev/adaptive.rs:1644-1674 | the nested forward loops compute the recursive forward pass |
| HiddenMarkov.HiddenMarkovModel.BackwardRows | src/mev/adaptive.rs:1708-1721 | the backward loop fills the recursive backward rows |
| HiddenMarkov.HiddenMarkovModel.Accumulate | src/mev/adaptive.rs:1723-1746 | the triple accumulation computes the expected counts of every step and emission |
| HiddenMarkov.HiddenMarkovModel.BaumWelch | src/mev/adaptive.rs:1676-1760 | training equals its recursive form, early stop included, and leaves the belief alone |
| HiddenMarkov.HiddenMarkovModel.Filter | src/mev/adaptive.rs:1762-1775 | the belief update equals its specification and changes no parameter |
| HiddenMarkovProofs.ReestimatedProper | src/mev/adaptive.rs:1676-1760 | one iteration on supported observations keeps every vector and row a distribution, transitions positive, and emits exactly the symbols seen |
| HiddenMarkovProofs.UnsupportedKills | src/mev/adaptive.rs:1676-1760 | one observation the model cannot emit makes every parameter zero |
| HiddenMarkovProofs.ForwardIsConstant | src/mev/adaptive.rs:1644-1674 | the reported likelihood is 1 for a surviving model and 0 for a dead one |
| HiddenMarkovProofs.TrainedRounds | src/mev/adaptive.rs:1751-1758 | with a positive tolerance training makes at most two iterations, otherwise all of them |
| HiddenMarkovProofs.TrainingKeepsModel | src/mev/adaptive.rs:1676-1760 | training keeps a valid model exactly when it could emit every observation; otherwise all its parameters are zero and it is no valid model |
| HiddenMarkovProofs.SurvivesExactlyWhenNarrowing | src/mev/adaptive.rs:1676-1760 | over any sequence of trainings the model survives exactly when each shows only symbols the one before showed, and is otherwise zero and no valid model |
| HiddenMarkovProofs.NewModelTrains | src/mev/adaptive.rs:1629-1760 | from `new`, any number of iterations on one sequence of two or more observations keeps a valid model |
| HiddenMarkovProofs.BeliefSurvives | src/mev/adaptive.rs:1762-1775 | over any observation run the belief stays a distribution exactly while every symbol can be emitted, and is zero for good after |
| HiddenMarkovProofs.RetrainedBlind | src/mev/adaptive.rs:1629-1760 | after any trainings from an even start all hidden states are alike |
| HiddenMarkovProofs.NewModelLearnsFrequencies | src/mev/adaptive.rs:1629-1760 | a new model keeps every state and step equally likely, and learns each symbol's frequency exactly when there are at most 10^12 states or only one symbol |
| HiddenMarkovProofs.FilterLearnsNothing | src/mev/adaptive.rs:1762-1775 | and the filter then leaves the even belief even |

## Left out

- UniswapV2.SplittingPaysExactlyWhen: between the guards of `SplittingNeverPays` and `SplittingPaysOnceClipped` the condition refers to what the parts were paid; no condition on the amounts alone is given there.
- RelayDrift.MarginLossIsTight: the quotes that lose reject, at an expected profit of zero; no tightness is claimed for quotes that execute, and rising readings are derived from a queue for two changes only.
- FlashSwapProofs.FlashSwapPaysProfit: the recipient, pair and executor must be apart from the accounts the venues debit or credit; a recipient that is also a venue can gain or lose more.
- Floating point: the gate, the relay choice, sizing scores, fleet scores and the hidden Markov model are over exact reals, without rounding, NaN or infinities. A tolerance of infinity is therefore not modelled.
- The logistic curve and ln(1 + x) are any increasing functions with the right ranges, the fading of a flow's weight is any function with the sum law of the exponential that lies between 1 - x and 1, and the burst penalty's power is any function.
- Relay statistics and the ranking of relays: relay pressures enter as numbers in rank order.
- The gate's preflight quote, its running-average recorders, reject-reason strings, chain presets and the HJB, Beta and Poisson helpers.
- Token balances are unbounded naturals, so overflow inside a token, fee-on-transfer tokens and tokens that return false or call back are not modelled.
- Routers may move any holder's tokens but do not call back into the executor, nor move a pair's recorded reserves while the callback runs; a router step's deadline is left out.
- The execution id is a parameter in place of the hash over the call's fields, chain and block; ABI encoding, events and step indices in errors are left out. Ownership, the allowlist setters and the rescue functions are left out.
- The pair's mutual-exclusion flag, its cumulative prices, protocol fee and 112-bit packing beyond the overflow check; the V3 executor and V3 simulation.
- Capital is in integer wei where the runtime uses floating-point ETH; every guard call uses one clock reading, except that a grant stamps its reservation with a second, later one.
- Lock hand-over inside a fleet method: each public method is one atomic step. The burst load is summed without its 32-bit width.
- Whether callers release reservations, retry relays or fall back to other endpoints: the handlers around these components are not part of this model.
- RPC calls, signing, relay submission, receipts, storage, dashboard, telemetry, configuration parsing, replay and benchmarks.
