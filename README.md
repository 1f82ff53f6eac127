# Best-execution swap router: quote selection, slippage minimum and settlement

This project models the core of a Uniswap best-execution swap router in Dafny.

The router takes a swap request and asks two kinds of venue for a quote:

- one constant-product (V2) pair;
- one concentrated-liquidity (V3) pool per configured fee tier.

It keeps the quotes that came back and picks the largest. It then derives a slippage-bounded minimum output. Finally it settles the swap against the caller's balances.

The on-chain router contract is not part of this model. The modelled behaviour comes from three places:

- the off-chain reference helper `getBestUniswapQuote`;
- the second aggregation in the pool-analysis test;
- what the validation and functional tests assert about the router's two entry points, `getMinAmountOut` and `swap`.

Modules, one per source file:

- `Venues` (`venues.dfy`) holds the shared values. An address is a natural number, and the zero address is 0. Each awaited venue call is a `Call<T>`, either `Threw` or `Returned(value)`. A `Market` holds, for one request, what the V2 venue's `getPair` and `getAmountsOut` calls give and, for each fee tier in configured order, what `getPool` and the quoter give. A collected quote is a `PoolResult`.
- `BestQuote` (`best_quote.dfy`) models `getBestUniswapQuote`. Collection is a method with a loop over the fee tiers, proved against the function `GatheredQuotes`. Selection is the strict-`>` reduce `BestOffer`. The minimum is `AmountWithSlippage`, which uses BigInt division (truncation toward zero, written out as `TruncDiv`).
- `PoolAnalysis` (`pool_analysis.dfy`) models the body of the test 'Find best pool for WETH/USDC swap'. It asks the same venues, but its failure handling differs. The comparison lemmas assume that both aggregations see one `Market`: the helper called with the test's tokens and amount against the same chain state, although the test queries through its own client and the helper through the Hardhat provider. Lemmas state exactly where it differs from the helper and where the two agree.
- `Validation` (`validation.dfy`) is the request validator shared by both entry points.
- `SwapRouter` (`swap_router.dfy`) holds the shared quoting stage `QuoteMinimum` and the balance effect `Settle`. It also holds a `Router` class whose fields are the balance table and the emitted events. Its `GetMinAmountOut` and `Swap` methods update those fields.

Three behaviours of the code are easy to miss:

- The helper never aborts on a venue error, but the pool-analysis test does abort on a `getAmountsOut` or `getPool` error (`PoolAnalysis.AnalysisAbortsIff`).
- The minimum equals the best amount iff the slippage is 0 only for a best amount above 0: at 0 the minimum is 0 for every slippage (`BestQuote.SlippageMinimumEqualsBestIffZero`).
- A zero quote is not handled uniformly. The helper drops a V2 quote of 0 through a truthiness test but keeps a V3 quote of 0 (`BestQuote.ZeroAddressAndZeroQuote`).

## Model

| member | source | states |
|---|---|---|
| `BestQuote.CollectQuotes` | test/utils/getBestUniswapQuote.ts:58-102 | The loop (V2 block, then one try block per fee tier, `continue` on the zero pool) builds exactly the list `GatheredQuotes`. |
| `BestQuote.V3ContributionsInFeeOrder` | test/utils/getBestUniswapQuote.ts:80-102 | Every V3 entry is the quote of one tier, and the tiers appear in fee order. A tier is listed exactly when its pool address is non-zero and both of its calls returned. |
| `BestQuote.GatheredV2First` | test/utils/getBestUniswapQuote.ts:58-102 | The list holds at most one V2 entry. That entry comes first, and the V3 entries follow it. |
| `BestQuote.ZeroAddressAndZeroQuote` | test/utils/getBestUniswapQuote.ts:62-98 | A zero pair or zero pool address contributes nothing. A V2 quote of 0 is dropped by the truthiness test, while a V3 quote of 0 is kept. |
| `BestQuote.FailingTierDropsOnlyItself` | test/utils/getBestUniswapQuote.ts:80-102 | When one tier's `getPool` or quote throws, the result is the V2 entry plus the contributions of every other tier, in order. |
| `BestQuote.FailingV2KeepsEveryTier` | test/utils/getBestUniswapQuote.ts:60-78 | When `getPair` or `getAmountsOut` throws, the V2 entry is dropped and every V3 tier's contribution remains. |
| `BestQuote.BestOfferIsFirstMaximum` | test/utils/getBestUniswapQuote.ts:108-111 | The reduce's result is at least every collected amount and at least the seed. If no amount beats the seed, the result is the seed. Otherwise it is the first collected quote with the maximal amount, so ties go to the earliest. |
| `BestQuote.SlippageMinimumIsFloor` | test/utils/getBestUniswapQuote.ts:113-114 | For slippage in [0, 10000], the minimum is the floor of best * (10000 - slippage) / 10000, and it lies between 0 and best. |
| `BestQuote.SlippageMinimumEqualsBestIffZero` | test/utils/getBestUniswapQuote.ts:113-114 | Slippage 0 gives exactly the best amount. For a best amount above 0 and slippage in [0, 10000], the minimum equals the best amount only when the slippage is 0. |
| `BestQuote.SlippageMinimumNonIncreasing` | test/utils/getBestUniswapQuote.ts:113-114 | For a fixed best amount, the minimum never increases as the slippage increases, for any integer slippage. |
| `BestQuote.SlippageOutsideRangeUnchecked` | test/utils/getBestUniswapQuote.ts:22-27 | The helper has no range check. A negative slippage yields at least the best amount. A slippage of 20000 or more on a positive amount yields a negative minimum. |
| `BestQuote.SlippageExample` | test/utils/getBestUniswapQuote.ts:113-114 | A best amount of 2,000,000 at 500 basis points gives a minimum of 1,900,000. |
| `BestQuote.GetBestUniswapQuote` | test/utils/getBestUniswapQuote.ts:58-128 | Fails with "No liquidity pools found" iff no venue contributed. On success, no collected amount exceeds the best offer, and the minimum is the slippage formula applied to it, between 0 and the best amount for slippage in [0, 10000]. |
| `PoolAnalysis.AnalysePools` | test/UniswapPoolAnalysis.test.ts:30-120 | Fails as uncaught iff a venue call aborts the list, and with "No liquidity pools found" iff the list is empty. Fails the final assertion iff every amount is 0. Otherwise returns a collected quote that is the reduce's pick, has the largest amount, and is positive. |
| `PoolAnalysis.SettleAllThrowsIff` | test/UniswapPoolAnalysis.test.ts:61-97 | `Promise.all` over the tiers rejects exactly when some tier's `getPool` throws. |
| `PoolAnalysis.CompactedTiersMatchCollector` | test/UniswapPoolAnalysis.test.ts:61-98 | When nothing rejects, `filter(Boolean)` over the tier outcomes equals the helper's V3 contributions, in fee order. |
| `PoolAnalysis.PairErrorReadsAsZeroAddress` | test/UniswapPoolAnalysis.test.ts:32-45 | A `getPair` error gives the same outcome as a zero pair. The list is then the compacted V3 outcomes only. |
| `PoolAnalysis.AnalysisAbortsIff` | test/UniswapPoolAnalysis.test.ts:45-97 | The analysis aborts exactly when `getAmountsOut` throws behind a non-zero pair, or when some tier's `getPool` throws. |
| `PoolAnalysis.AnalysisAgreesWithCollector` | test/UniswapPoolAnalysis.test.ts:45-98 | When it does not abort, the analysis list is the helper's list. The one exception is a V2 quote of 0 behind a non-zero pair, which only the analysis keeps, at the front. |
| `PoolAnalysis.BestAmountsAgree` | test/UniswapPoolAnalysis.test.ts:104-107 | When it does not abort, the analysis reduce (seed label '') picks the same best amount as the helper's reduce (seed label 'None'). |
| `BestQuote.BestOfferAmountIgnoresSeedLabel` | test/UniswapPoolAnalysis.test.ts:104-107 | The amount the reduce picks depends on the seed's amount, not on its label. |
| `PoolAnalysis.NoLiquidityInBoth` | test/UniswapPoolAnalysis.test.ts:100-102 | If the helper finds no liquidity, the analysis aborts or sees only zero amounts. An empty analysis list implies an empty helper list. |
| `Validation.Validate` | test/UniswapSwapRouter.validation.test.ts:22-93 | A request is accepted iff both tokens are non-zero, they differ, the amount is positive and the slippage is below 10000. An accepted request carries the inputs unchanged. |
| `Validation.ZeroTokenInIsInvalidToken` | test/UniswapSwapRouter.validation.test.ts:23-32 | A zero `tokenIn` is rejected with `InvalidToken`, whatever the other inputs are. |
| `Validation.ZeroTokenOutIsInvalidToken` | test/UniswapSwapRouter.validation.test.ts:34-43 | A zero `tokenOut` is rejected with `InvalidToken`, whatever the other inputs are. |
| `Validation.SameTokenIsIdenticalTokens` | test/UniswapSwapRouter.validation.test.ts:45-49 | The same non-zero token on both sides is rejected with `IdenticalTokens`. |
| `Validation.ZeroAmountIsInvalidAmountIn` | test/UniswapSwapRouter.validation.test.ts:51-55 | With a valid pair, an amount of 0 is rejected with `InvalidAmountIn`. |
| `Validation.FullSlippageIsTooHigh` | test/UniswapSwapRouter.validation.test.ts:57-61 | With a valid pair and amount, a slippage of 10000 or more is rejected with `SlippageTooHigh`. |
| `SwapRouter.RouterPickIsFirstMaximum` | test/utils/getBestUniswapQuote.ts:108-111 | The strict-`>` reduce seeded with the first collected quote picks the first quote of maximal amount, and its amount equals the `'None'`-seeded reduce's. |
| `SwapRouter.QuoteMinimum` | test/UniswapSwapRouter.functional.test.ts:26-60 | Validation errors pass through unchanged. A valid request fails with no liquidity iff no venue contributed, and succeeds otherwise. On success the selected quote is the first collected quote of maximal amount, its amount is the helper's reduce pick, no venue offers more, and the minimum is the helper's `amountWithSlippage` and at most the best amount. |
| `SwapRouter.Settle` | test/UniswapSwapRouter.functional.test.ts:107-111 | The caller is debited exactly `amountIn` of `tokenIn` and credited `amountOut` of `tokenOut`. No other balance in the caller-side ledger changes. |
| `SwapRouter.Router.GetMinAmountOut` | test/UniswapSwapRouter.functional.test.ts:34-60 | Returns the shared quoting stage's minimum and emits it as `minAmountOutCalculated`. A failure returns the same error as that stage and emits nothing. Balances never change. |
| `SwapRouter.Router.Swap` | test/UniswapSwapRouter.functional.test.ts:65-114 | Shares validation and the minimum with `GetMinAmountOut`. Fails without effect on a transfer shortfall or when the realised output is below the minimum, and succeeds exactly when the quote succeeds, the allowance and balance cover `amountIn` and the output meets the minimum. On success the input balance drops by exactly `amountIn` and the output balance rises by the realised output, which is at least the minimum. `swapExecuted` then carries the request's tokens and the minimum. |

## Left out

- The on-chain router contract is not part of this model. Its entry points are modelled from what the tests assert, plus an assumed order of checks: token non-zero, tokens distinct, amount positive, slippage below 10000. The tests pin only single-fault inputs, so the order among simultaneous faults is not confirmed by the source.
- The pricing of the venues is external: `getAmountsOut`, `quoteExactInputSingle`, and the exchange the router performs. Quoted amounts are opaque values inside a `Market`, and the realised output of a swap is a parameter.
- The RPC provider, the random wallet, `hardhat_setBalance`, the `BASE_RPC_URL` check, logging, `formatUnits` and the display label `V3 fee/100%` are I/O or display only. A V3 quote's label is modelled as `V3(fee)`, assuming `V3_FEES` holds numbers so that building the label inside the tier's `try` never throws.
- `Promise.all` concurrency is modelled as a sequential map in fee order. Which rejection wins first is not modelled, only that the whole analysis aborts.
- The contents of `V3_FEES`, the token addresses and the fixture come from files that are not part of this model. They enter through the `Market` and the method parameters.
- ERC-20 `approve`, `allowance` and `transferFrom` mechanics are not modelled. `Swap` takes the caller's allowance as a parameter and fails with `TransferFailed` if the allowance or the balance is short. The allowance is not decremented.
- The pool-analysis test body (test/UniswapPoolAnalysis.test.ts) uses `createPublicClient`, `base`, `http`, `parseEther` and `formatUnits` without importing them. The model assumes these names resolve; as written the body would stop with a ReferenceError, an unresolved `parseEther` inside a V3 `try` would turn every tier with a non-zero pool into `null`, and an unresolved `formatUnits` would throw on a non-empty list before the final assertion.
- Amounts and the router's slippage are unbounded naturals; the helper's `AmountWithSlippage` takes any integer slippage, as its signature has no range check. The uint256 range of the contract is not modelled.
- A settlement state machine with cancellation and re-entrancy rules is not modelled. Atomicity is expressed instead as "every failure leaves balances and events unchanged".
- SwapRouter.QuoteMinimum: the router contract is not part of this model. Its no-liquidity condition is assumed to be the helper's collection, and its venue choice the helper's strict-`>` reduce seeded with the first collected quote instead of the `'None'` record. The choice is therefore always a venue that quoted, even when every quote is 0. Its amount, and so the emitted minimum, is the helper's.
- SwapRouter.Settle: only the caller's two balances move. The pool's and the router's balances are not tracked, so the ledger does not show the venue receiving `amountIn` of `tokenIn` and paying out `amountOut` of `tokenOut`. The frame "every other balance unchanged" holds of this caller-side ledger only.
- SwapRouter.Router.Swap: the functional test expects the output balance to be strictly greater after a swap. The model guarantees this only when the realised output is positive, because a minimum of 0 admits an output of 0.
- SwapRouter.Router.Swap: `swapExecuted` is modelled with the fields `tokenIn`, `tokenOut`, `amountIn`, `amountOut` and `minAmountOut`. The test reads only `tokenIn`, `tokenOut` and `minAmountOut`, and the contract's exact event layout is not shown.
