/**
 * Curve pool quoting: the static pool registry, the one hard-coded
 * (pool, pair) exclusion, token-to-index resolution, the choice between the
 * two `get_dy` calling conventions, and the loop that quotes every relevant
 * pair on every pool. The contract call itself is an oracle: a function from
 * (pool address, encoded call) to the raw output amount or a failure.
 */
module Curve {
  import opened Results
  import opened Chain
  import opened Tokens

  // Pool contract addresses.
  const CURVE_3POOL: Address := 0xbEbc44782C7dB0a1A60Cb6fe97d0b483032FF1C7
  const CURVE_SUSD: Address := 0xA5407eAE9Ba41422680e2e00537571bcC53efBfD
  const CURVE_TRICRYPTO: Address := 0xD51a44d3FaE010294C616388b506AcdA1bfAAE46
  const CURVE_STETH: Address := 0xDC24316b9AE028F1497c275EB9192a3Ea0f22A61

  /**
   * A Curve pool: slot `k` holds token `tokenAddresses[k]`, which the pool
   * contract knows by the coin index `indices[k]`.
   */
  datatype PoolConfig = PoolConfig(
    name: string,
    address: Address,
    tokenAddresses: seq<Address>,
    indices: seq<I128>,
    isTricrypto: bool)

  /**
   * Three slots, as the source's `[_; 3]` arrays fix, and non-negative indices
   * wherever they are sent unsigned (`U256::from` panics on a negative `i128`).
   */
  predicate ValidPool(pool: PoolConfig) {
    && |pool.tokenAddresses| == 3
    && |pool.indices| == 3
    && (pool.isTricrypto ==> forall k :: 0 <= k < 3 ==> pool.indices[k] >= 0)
  }

  const POOL_3: PoolConfig :=
    PoolConfig("3pool", CURVE_3POOL, [DAI, USDC, USDT], [0, 1, 2], false)
  const POOL_SUSD: PoolConfig :=
    PoolConfig("sUSD", CURVE_SUSD, [SUSD, USDC, USDT], [0, 1, 2], false)
  const POOL_TRICRYPTO: PoolConfig :=
    PoolConfig("TriCrypto", CURVE_TRICRYPTO, [WBTC, WETH, USDT], [0, 1, 2], true)
  /** WETH sits in two slots, both mapped to coin index 1. */
  const POOL_STETH: PoolConfig :=
    PoolConfig("stETH", CURVE_STETH, [STETH, WETH, WETH], [0, 1, 1], false)

  /**
   * `POOLS`, in the order they are quoted. Every pool is well formed, pool
   * names are distinct, and only TriCrypto uses the unsigned calling convention.
   */
  function Pools(): (r: seq<PoolConfig>)
    ensures |r| == 4
    ensures forall k :: 0 <= k < |r| ==> ValidPool(r[k])
    ensures forall k :: 0 <= k < |r| ==> (r[k].isTricrypto <==> r[k].name == "TriCrypto")
    ensures forall k, l :: 0 <= k < l < |r| ==> r[k].name != r[l].name
  {
    [POOL_3, POOL_SUSD, POOL_TRICRYPTO, POOL_STETH]
  }

  /** What the price query reports instead of a price. */
  datatype CurveError =
    | Excluded            // the hard-coded skip of ETH/USDT on TriCrypto
    | BaseTokenNotFound   // base token in no slot of the pool
    | QuoteTokenNotFound  // quote token in no slot of the pool
    | CallFailed          // building or performing the contract call failed

  /**
   * The arguments of `get_dy(i, j, dx)`: unsigned triple for tricrypto pools,
   * signed indices for the others. Each form also selects its own ABI file.
   */
  datatype GetDy =
    | TricryptoGetDy(ui: U256, uj: U256, dx: U256)
    | StableGetDy(si: I128, sj: I128, dx: U256)
  {
    /** Coin index of the token sold. */
    function From(): int {
      if TricryptoGetDy? then ui else si
    }

    /** Coin index of the token bought. */
    function To(): int {
      if TricryptoGetDy? then uj else sj
    }
  }

  /**
   * The contract call: given the pool address and the call arguments, the raw
   * `U256` output amount, or a failure (revert, transport error, ABI mismatch).
   */
  type CurveOracle = (Address, GetDy) -> Result<U256, string>

  /** A successful quote, tagged with the pool and the pair it came from. */
  datatype CurvePrice = CurvePrice(poolName: string, price: real, tokenPair: string)

  /** `iter().position(|&t| t == x)`: the first slot holding `x`, if any. */
  function Position(s: seq<Address>, x: Address): (r: Option<nat>)
    ensures r.None? <==> x !in s
    ensures r.Some? ==> r.value < |s| && s[r.value] == x
    ensures r.Some? ==> forall k :: 0 <= k < r.value ==> s[k] != x
  {
    if |s| == 0 then None
    else if s[0] == x then Some(0)
    else match Position(s[1..], x)
      case None => None
      case Some(k) => Some(k + 1)
  }

  /** The coin index of `token`: the index of the first slot that holds it. */
  function ResolveIndex(pool: PoolConfig, token: Address): (r: Option<I128>)
    requires ValidPool(pool)
    ensures r.None? <==> token !in pool.tokenAddresses
    ensures r.Some? ==> exists k :: && 0 <= k < 3 && pool.tokenAddresses[k] == token && r.value == pool.indices[k]
                                    && forall l :: 0 <= l < k ==> pool.tokenAddresses[l] != token
  {
    match Position(pool.tokenAddresses, token)
    case None => None
    case Some(k) => Some(pool.indices[k])
  }

  /**
   * Base index then quote index, by the same rule; the base token is looked up
   * first, so its absence is the error reported when both are missing.
   */
  function ResolvePair(pool: PoolConfig, base: Address, quote: Address): (r: Result<(I128, I128), CurveError>)
    requires ValidPool(pool)
    ensures r.Success? <==> base in pool.tokenAddresses && quote in pool.tokenAddresses
    ensures base !in pool.tokenAddresses ==> r == Failure(BaseTokenNotFound)
    ensures base in pool.tokenAddresses && quote !in pool.tokenAddresses ==> r == Failure(QuoteTokenNotFound)
    ensures r.Success? ==> r.value == (ResolveIndex(pool, base).value, ResolveIndex(pool, quote).value)
  {
    match ResolveIndex(pool, base)
    case None => Failure(BaseTokenNotFound)
    case Some(i) =>
      match ResolveIndex(pool, quote)
      case None => Failure(QuoteTokenNotFound)
      case Some(j) => Success((i, j))
  }

  /** The one (pool, pair) combination skipped before anything else is done. */
  predicate IsExcluded(pool: PoolConfig, pair: TokenPair) {
    pool.name == "TriCrypto" && pair.name == "ETH/USDT"
  }

  /** Both tokens of the pair sit in some slot of the pool. */
  predicate IsRelevant(pool: PoolConfig, pair: TokenPair) {
    pair.baseToken in pool.tokenAddresses && pair.quoteToken in pool.tokenAddresses
  }

  /**
   * The price query gets as far as computing the amount sent, and so as far
   * as the contract call.
   */
  predicate ReachesCall(pool: PoolConfig, pair: TokenPair) {
    !IsExcluded(pool, pair) && IsRelevant(pool, pair)
  }

  /**
   * The price query does not panic: whenever it computes `U256::exp10` of the
   * base decimals, that power fits in 256 bits.
   */
  predicate Quotable(pool: PoolConfig, pair: TokenPair) {
    ValidPool(pool) && (ReachesCall(pool, pair) ==> ExpFits(pair.baseDecimals))
  }

  /** The signed or unsigned `get_dy` arguments, chosen by `isTricrypto` alone. */
  function EncodeGetDy(isTricrypto: bool, i: I128, j: I128, dx: U256): (r: GetDy)
    requires isTricrypto ==> i >= 0 && j >= 0
    ensures r.TricryptoGetDy? <==> isTricrypto
    ensures r.From() == i && r.To() == j && r.dx == dx
  {
    if isTricrypto then TricryptoGetDy(i, j, dx) else StableGetDy(i, j, dx)
  }

  /**
   * Everything `get_price_from_curve` decides before it calls the contract:
   * the exclusion first, then base and quote resolution, then the amount
   * `10^baseDecimals` and the encoding. A failure here means no call is made.
   */
  function PlanCall(pool: PoolConfig, pair: TokenPair): (r: Result<GetDy, CurveError>)
    requires Quotable(pool, pair)
    ensures IsExcluded(pool, pair) ==> r == Failure(Excluded)
    ensures !IsExcluded(pool, pair) && pair.baseToken !in pool.tokenAddresses ==> r == Failure(BaseTokenNotFound)
    ensures !IsExcluded(pool, pair) && pair.baseToken in pool.tokenAddresses && pair.quoteToken !in pool.tokenAddresses ==>
              r == Failure(QuoteTokenNotFound)
    ensures r.Success? <==> ReachesCall(pool, pair)
    ensures r.Success? ==> (r.value.TricryptoGetDy? <==> pool.isTricrypto)
    ensures r.Success? ==> r.value.dx == Pow10(pair.baseDecimals)
    ensures r.Success? ==> r.value.From() == ResolveIndex(pool, pair.baseToken).value
    ensures r.Success? ==> r.value.To() == ResolveIndex(pool, pair.quoteToken).value
  {
    if IsExcluded(pool, pair) then Failure(Excluded)
    else
      match ResolvePair(pool, pair.baseToken, pair.quoteToken)
      case Failure(e) => Failure(e)
      case Success(ij) =>
        Success(EncodeGetDy(pool.isTricrypto, ij.0, ij.1, Pow10(pair.baseDecimals)))
  }

  /** The raw output amount in quote-token units of one whole quote token. */
  function Normalise(amountOut: U256, quoteDecimals: U8): (price: real)
    ensures price >= 0.0
    ensures price * (Pow10(quoteDecimals) as real) == amountOut as real
  {
    amountOut as real / Pow10(quoteDecimals) as real
  }

  /**
   * `get_price_from_curve`: the price of one whole base token in quote tokens,
   * as quoted by the pool, or why there is none.
   */
  function GetPriceFromCurve(oracle: CurveOracle, pool: PoolConfig, pair: TokenPair): (r: Result<real, CurveError>)
    requires Quotable(pool, pair)
    ensures IsExcluded(pool, pair) ==> r == Failure(Excluded)
    ensures !IsExcluded(pool, pair) && pair.baseToken !in pool.tokenAddresses ==> r == Failure(BaseTokenNotFound)
    ensures !IsExcluded(pool, pair) && pair.baseToken in pool.tokenAddresses && pair.quoteToken !in pool.tokenAddresses ==>
              r == Failure(QuoteTokenNotFound)
    ensures ReachesCall(pool, pair) ==>
              var call := EncodeGetDy(pool.isTricrypto,
                                      ResolveIndex(pool, pair.baseToken).value,
                                      ResolveIndex(pool, pair.quoteToken).value,
                                      Pow10(pair.baseDecimals));
              var reply := oracle(pool.address, call);
              && (reply.Failure? <==> r == Failure(CallFailed))
              && (reply.Success? <==> r.Success?)
              && (reply.Success? ==>
                    r.value >= 0.0 && r.value * (Pow10(pair.quoteDecimals) as real) == reply.value as real)
  {
    match PlanCall(pool, pair)
    case Failure(e) => Failure(e)
    case Success(call) =>
      match oracle(pool.address, call)
      case Failure(_) => Failure(CallFailed)
      case Success(amountOut) => Success(Normalise(amountOut, pair.quoteDecimals))
  }

  /**
   * When the query stops before the call (excluded combination, token not in
   * the pool) its result is the same whatever the contract would have
   * answered: no call is made.
   */
  lemma NoCallWithoutPlan(oracle1: CurveOracle, oracle2: CurveOracle, pool: PoolConfig, pair: TokenPair)
    requires Quotable(pool, pair)
    requires !ReachesCall(pool, pair)
    ensures GetPriceFromCurve(oracle1, pool, pair) == GetPriceFromCurve(oracle2, pool, pair)
    ensures IsExcluded(pool, pair) ==> GetPriceFromCurve(oracle1, pool, pair) == Failure(Excluded)
  {
  }

  /**
   * Base and quote are resolved by the same rule, so swapping the two tokens
   * swaps the resolved indices, and resolution succeeds for both orders or
   * for neither.
   */
  lemma ResolveSwap(pool: PoolConfig, a: Address, b: Address)
    requires ValidPool(pool)
    ensures ResolvePair(pool, a, b).Success? <==> ResolvePair(pool, b, a).Success?
    ensures ResolvePair(pool, a, b).Success? ==>
              ResolvePair(pool, b, a).value == (ResolvePair(pool, a, b).value.1, ResolvePair(pool, a, b).value.0)
  {
  }

  /**
   * In the stETH pool WETH fills slots 1 and 2; resolution stops at slot 1,
   * so WETH resolves to coin 1 and stETH to coin 0.
   */
  lemma StethResolution()
    ensures Position(POOL_STETH.tokenAddresses, WETH) == Some(1)
    ensures ResolveIndex(POOL_STETH, WETH) == Some(1)
    ensures ResolveIndex(POOL_STETH, STETH) == Some(0)
    ensures ResolvePair(POOL_STETH, STETH, WETH) == Success((0, 1))
  {
    assert POOL_STETH.tokenAddresses[0] != WETH;
  }

  /**
   * A relevant pair always resolves: the only ways its query can fail are the
   * exclusion and the contract call.
   */
  lemma RelevantResolves(oracle: CurveOracle, pool: PoolConfig, pair: TokenPair)
    requires Quotable(pool, pair)
    requires IsRelevant(pool, pair)
    ensures ResolvePair(pool, pair.baseToken, pair.quoteToken).Success?
    ensures GetPriceFromCurve(oracle, pool, pair).Failure? ==>
              GetPriceFromCurve(oracle, pool, pair).error in {Excluded, CallFailed}
  {
  }

  /**
   * USDC/DAI on the sUSD pool: USDC is in slot 1 but DAI is in no slot, so
   * the query fails on the quote token and no call is made.
   */
  lemma SusdMissingQuote(oracle: CurveOracle)
    ensures var pair := TokenPair(USDC, DAI, 6, 18, "USDC/DAI");
            && Quotable(POOL_SUSD, pair)
            && GetPriceFromCurve(oracle, POOL_SUSD, pair) == Failure(QuoteTokenNotFound)
  {
    assert DAI !in POOL_SUSD.tokenAddresses;
  }

  /** In the registry, the unsigned calling convention is used exactly on TriCrypto. */
  lemma RegistryEncoding(pair: TokenPair, k: nat)
    requires k < |Pools()|
    requires Quotable(Pools()[k], pair)
    requires ReachesCall(Pools()[k], pair)
    ensures PlanCall(Pools()[k], pair).value.TricryptoGetDy? <==> Pools()[k].name == "TriCrypto"
  {
  }
}
