# arbitrage_bot decision logic in Dafny

A model of the decision logic of the Rust program `arbitrage_bot`, with the
network calls taken out. Each contract call becomes an oracle that returns a
value or a failure. The model has three parts.

- **Curve pool quoting** (`src/curve.rs`), in modules `Curve` and
  `CurveAggregation`. It covers:
  - the registry of four 3-slot pools, in which the stETH pool maps two slots
    to WETH;
  - the hard-coded exclusion of ETH/USDT on TriCrypto, checked before anything
    else;
  - the token-to-coin-index resolution by first matching slot;
  - the amount sent, `10^base_decimals`;
  - the `is_tricrypto` dispatch between the unsigned and the signed `get_dy`
    argument encodings;
  - normalisation of the output amount by `10^quote_decimals`;
  - the aggregation loop, which pre-filters pairs by pool membership, keeps
    the successful quotes and drops failed ones without stopping.
- **The pair catalogue** (`src/tokens.rs`), in module `Tokens`: the five
  `TokenPair` records, their tokens, decimals and names. Together with the
  registry, the catalogue fixes which (pool, pair) queries are ever made.
- **Router selection and verdict** (`src/main.rs`), in module `Arbitrage`:
  - the loop over the three routers, which fills `prices` and keeps `best` and
    `worst` using strict comparisons from the sentinels `("", 0.0)` and
    `("", f64::MAX)`;
  - the spread, the net profit after a gas cost, and the strict comparison
    with the threshold 2.0.

Shared definitions are in `Chain` (addresses, `U256`, `i128`, `u8`, exact
powers of ten, token addresses) and `Results` (`Option`, `Result`).

Modelling choices:

- An `Address` is a 160-bit natural number, so two addresses are equal exactly
  when their values are equal. `TokenPair::new` is the `TokenPair` constructor
  itself, because address parsing is outside the model. It therefore copies
  its fields unchanged.
- The Curve call is split in two:
  - `Curve.PlanCall` computes everything the function decides before it
    calls the contract: the exclusion, then the base index, then the quote
    index, then the amount and the encoding.
  - An oracle `(pool address, get_dy arguments) -> Result<U256, string>`
    stands for the contract.
  - The price is then the returned amount divided by `10^quote_decimals`,
    computed as an exact `real`.
- `U256::exp10` panics when `10^n` does not fit in 256 bits, which happens
  exactly when `n > 77`. `U256::from` of a negative `i128` panics too. These
  panics are not errors the program handles, so they appear as preconditions:
  - `Curve.Quotable` requires `10^base_decimals` to fit for every (pool, pair)
    that reaches the amount computation;
  - `Curve.ValidPool` requires non-negative indices for tricrypto pools.

  Every registry pool and every catalogue pair meets them
  (`CurveAggregation.CatalogueCalls`).
- The router quote of `src/dex.rs` is an oracle `Address -> Result<Price,
  string>`. A `Price` is a real between 0 and `f64::MAX`, since a finite,
  non-negative `f64` is all that code can return.
- The router loop in `src/main.rs` is modelled twice:
  - `Arbitrage.Discover` is a left fold over the routers' outcomes;
  - `Arbitrage.DiscoverPrices` is the loop itself, proved equal to the fold.
- `src/main.rs:1` declares only `mod dex`, so `curve.rs` and `tokens.rs` are
  not compiled into the program. They are modelled here as a library.

Facts of the code that the model keeps as they are:

- There is no grouping by pair. `main.rs` evaluates one implicit WETH to USDC
  pair across three routers (`src/main.rs:43-44`).
- The exclusion of ETH/USDT on TriCrypto is one hard-coded branch, and it is
  checked before index resolution (`src/curve.rs:75-77`).
- The threshold is the constant 2.0 (`src/main.rs:86`).
- A missing token yields one of two distinct errors, depending on whether the
  base token or the quote token is missing (`src/curve.rs:92` and
  `src/curve.rs:99`). This is why the model has `BaseTokenNotFound` and
  `QuoteTokenNotFound`.
- When no router answers, the spread is computed anyway (`src/main.rs:71`).
  See Findings.

## Model

| member | source | states |
|---|---|---|
| Chain.ExpFitsIff | src/curve.rs:101 | `U256::exp10(n)` fits in 256 bits, so it does not panic, exactly when `n <= 77`. |
| Tokens.Catalogue | src/tokens.rs:35-82 | The catalogue holds five pairs. In order, their names are ETH/USDC, ETH/USDT, WBTC/ETH, LINK/ETH and UNI/ETH. The names are pairwise distinct, and no pair trades a token against itself. Each pair has the stated tokens and decimals, and `10^base_decimals` fits in a `U256` for every pair. |
| Curve.Pools | src/curve.rs:30-62 | The registry holds four pools, each with three slots. A pool uses the tricrypto encoding exactly when it is the pool named TriCrypto, and pool names are distinct. |
| Curve.Position | src/curve.rs:87-92 | The position lookup finds nothing exactly when the token is in no slot. Otherwise it returns a slot holding the token, and no earlier slot holds it. |
| Curve.ResolveIndex | src/curve.rs:87-92 | A token resolves exactly when some slot holds it. It then resolves to the coin index of the first slot holding it: no earlier slot holds the token. |
| Curve.ResolvePair | src/curve.rs:87-99 | Resolution succeeds exactly when both tokens are in the pool. A missing base token is reported first. A missing quote token is reported only when the base token is present. On success the result is the pair of resolved indices. |
| Curve.EncodeGetDy | src/curve.rs:104-122 | The unsigned triple is chosen exactly when the pool is tricrypto. Both encodings carry the same from index, to index and amount. |
| Curve.PlanCall | src/curve.rs:75-117 | The excluded combination fails with `Excluded` whatever the tokens are. Otherwise a missing base or quote token fails with its own error. A call is planned exactly when the combination is not excluded and both tokens are in the pool. A planned call sends `10^base_decimals` with the resolved base and quote indices, in the encoding that matches `is_tricrypto`. |
| Curve.Normalise | src/curve.rs:110-111 | The price times `10^quote_decimals` is exactly the output amount, and the price is never negative. |
| Curve.GetPriceFromCurve | src/curve.rs:70-123 | The excluded combination yields `Excluded`. Otherwise a missing base token yields `BaseTokenNotFound`, and a present base token with a missing quote token yields `QuoteTokenNotFound`. A combination that reaches the call asks the contract for `get_dy` of the first-match base and quote indices and `10^base_decimals`, in the encoding that matches `is_tricrypto`. The query fails with `CallFailed` exactly when that call fails. Otherwise it succeeds with a non-negative price that, multiplied by `10^quote_decimals`, gives the returned amount. |
| Curve.NoCallWithoutPlan | src/curve.rs:75-99 | When the query stops before the call, its result does not depend on the contract's behaviour. The excluded combination always yields `Excluded`. |
| Curve.ResolveSwap | src/curve.rs:87-99 | Swapping base and quote swaps the resolved indices. Resolution succeeds for both orders or for neither. |
| Curve.StethResolution | src/curve.rs:54-60 | In the stETH pool, WETH occupies slots 1 and 2 and resolves to coin 1, the first match. stETH resolves to coin 0. |
| Curve.RelevantResolves | src/curve.rs:132-138 | For a pair that passes the relevance filter, index resolution cannot fail. The query can then fail only by exclusion or by a failed call. |
| Curve.RegistryEncoding | src/curve.rs:104-117 | In the registry, a call uses the unsigned encoding exactly when it goes to the pool named TriCrypto. |
| Curve.SusdMissingQuote | src/curve.rs:94-99 | On the sUSD pool, USDC/DAI fails with the quote-token error, because DAI is in no slot. No call is made. |
| CurveAggregation.RelevantPairsMembers | src/curve.rs:132-138 | The filter keeps exactly those input pairs whose base and quote tokens are both in the pool. |
| CurveAggregation.AttemptsMembers | src/curve.rs:131-140 | A query is made for exactly those (pool, pair) combinations where the pool is in the registry, the pair is in the input, and the pool holds both tokens. |
| CurveAggregation.CollectSplit | src/curve.rs:140-148 | The output is the output of the attempts before k, then attempt k's own entry, then the output of the attempts after k. |
| CurveAggregation.FailureDropsOnlyItsEntry | src/curve.rs:141-147 | A failed attempt contributes nothing, and the loop goes on. The output equals the output with that attempt removed. |
| CurveAggregation.CollectMembers | src/curve.rs:140-148 | An output entry is exactly a successful attempt's price, tagged with that attempt's pool name and pair name. |
| CurveAggregation.QuotePool | src/curve.rs:140-148 | The inner loop outputs the successful quotes of the relevant pairs on one pool, in pair order. |
| CurveAggregation.GetPricesForAllPairs | src/curve.rs:125-152 | The nested loop outputs, in order, the successful quotes of all relevant attempts: pools in registry order, then pairs in input order. |
| CurveAggregation.AggregatedQuotes | src/curve.rs:129-151 | An entry is in the output exactly when it is the successful quote of some relevant (pool, pair) combination, tagged with that pool's name and that pair's name. |
| CurveAggregation.CatalogueAttempts | src/curve.rs:131-138 | With the shipped registry and catalogue, exactly two queries are made: ETH/USDT and then WBTC/ETH, both on TriCrypto. |
| CurveAggregation.CatalogueCalls | src/curve.rs:75-108 | Every registry and catalogue combination is free of the `exp10` overflow and the negative-index panics. ETH/USDT on TriCrypto is always excluded. WBTC/ETH on TriCrypto calls unsigned `get_dy(0, 1, 10^8)`. |
| CurveAggregation.CatalogueAggregation | src/curve.rs:131-151 | With the shipped data, the aggregation returns the WBTC/ETH quote from TriCrypto, or nothing when that call fails. |
| Arbitrage.Routers | src/main.rs:32-36 | Three routers are asked: Uniswap, SushiSwap and PancakeSwap, in that order, with distinct names and the program's three router addresses. |
| Arbitrage.RouterPrices | src/main.rs:43-46 | With the program's routers, every router that answered keeps its own price in `prices`, because the distinct names mean no insert overwrites another router's price. |
| Arbitrage.DiscoverPrices | src/main.rs:39-58 | The loop ends with the `prices`, `best` and `worst` of the left fold over the routers' answers, taken in router order. |
| Arbitrage.FailureIsInvisible | src/main.rs:54-56 | A failed router changes neither `prices`, `best` nor `worst`. The result is the one reached with that router left out. |
| Arbitrage.PricesKeys | src/main.rs:43-46 | `prices` has a key for exactly the routers that answered. |
| Arbitrage.PricesValues | src/main.rs:46 | A router's entry in `prices` holds its last successful answer. |
| Arbitrage.BestIsFirstMaximum | src/main.rs:40-49 | `best` bounds every price from above. It is either still the sentinel `("", 0.0)`, or it is the first router, in order, that reached the maximum positive price. An equal later price never displaces it. |
| Arbitrage.WorstIsFirstMinimum | src/main.rs:41-52 | `worst` bounds every price from below. It is either still the sentinel `("", f64::MAX)`, or it is the first router that reached the minimum price below `f64::MAX`. |
| Arbitrage.SpreadNonNegative | src/main.rs:43-71 | When at least one router answered, every price lies between `worst.1` and `best.1`, and the spread is not negative. |
| Arbitrage.NoSuccessSpread | src/main.rs:40-71 | When no router answers, the sentinels are left in place and the spread is `-f64::MAX`. |
| Arbitrage.FlatPricesSkip | src/main.rs:71-88 | When all answering routers agree on the price and the gas cost is not negative, the verdict is SKIP. |
| Arbitrage.DecideMonotone | src/main.rs:78-88 | The verdict is EXECUTE exactly when the spread exceeds the gas cost plus 2.0. A higher gas cost never turns SKIP into EXECUTE. |
| Arbitrage.ThreeRouterExample | src/main.rs:43-88 | Quotes of 1500, 1490 and 1510 give PancakeSwap as best and SushiSwap as worst, a spread of 20, a net profit of 13.96 after 6.04 of gas, and EXECUTE. |
| Arbitrage.Evaluate | src/main.rs:71-88 | This is the guarded evaluation. There is no assessment exactly when no router answered. Otherwise the assessment has the following properties. Best and worst are those the router loop leaves. The spread is best minus worst, and it is not negative. Every price lies between worst and best. The net profit is the spread minus the gas cost. The verdict is the program's verdict, which is EXECUTE exactly when the net profit exceeds 2.0. |

## Left out

- `src/dex.rs` (`get_price_from_dex`) is not part of this model. Its router call, fixed WETH to USDC path, `10^18` amount, `result[1] / 1e6` scaling and index panic are all replaced by the router oracle.
- The RPC and ABI plumbing is replaced by the Curve oracle. This covers `Provider` and `Contract` construction, `include_str!` ABI loading, the `serde_json` parse of the bundled ABI, and `contract.method(...)` and `.call().await`. Failures of `method` and of `call` both become `CallFailed`. A parse failure of the bundled ABI files is not modelled, because the files are fixed.
- Address parsing (`parse().unwrap()`, `Address::from_str(...).unwrap()`) is left out. Addresses are given as numbers.
- Floating point is left out. Prices are exact reals, so the rounding of `as f64` and of `10f64.powi` is not modelled.
- Curve.Normalise: does not model the panic of `as_u128()` on output amounts of `2^128` or more. It divides the full `U256` amount exactly.
- Gas computations (`get_gas_price`, the `200_000` gas limit, the conversion to ETH, and `eth_gas_cost * best.1`) are left out. The gas cost in USDC is a parameter of the verdict.
- ROI (`src/main.rs:79`) is left out. It is only printed and does not affect the verdict.
- Environment loading, `dotenv`, coloured console output, the best and worst display tags (`src/main.rs:60-69`) and the printed error messages are left out.
- The order in which a `HashMap` is iterated is left out. It only affects printing order.
- Async execution is left out. The loops await one call at a time, so they are modelled as sequential.

## Findings

| source | as written | input that shows it | evidently intended | confidence | as-written member | corrected member |
|---|---|---|---|---|---|---|
| src/main.rs:40-71 | `spread = best.1 - worst.1` is computed whatever the router loop found | Every router fails: `best` stays `("", 0.0)` and `worst` stays `("", f64::MAX)`, so the reported spread is `-f64::MAX` and the ROI is -100% | No spread or verdict is reported when no router answered; otherwise the spread is never negative | medium, not executed | Arbitrage.NoSuccessSpread | Arbitrage.Evaluate |
