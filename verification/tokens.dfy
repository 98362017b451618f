/**
 * The static catalogue of token pairs to price. A pair is built by
 * `TokenPair::new`, which parses the two hex addresses and copies the rest;
 * with addresses already parsed, the datatype constructor below is that
 * constructor: every field holds its argument unchanged.
 */
module Tokens {
  import opened Chain

  datatype TokenPair = TokenPair(
    baseToken: Address,
    quoteToken: Address,
    baseDecimals: U8,
    quoteDecimals: U8,
    name: string)

  /** The names of `pairs`, in order. */
  function Names(pairs: seq<TokenPair>): (r: seq<string>)
    ensures |r| == |pairs|
    ensures forall i :: 0 <= i < |pairs| ==> r[i] == pairs[i].name
  {
    if |pairs| == 0 then [] else Names(pairs[..|pairs| - 1]) + [pairs[|pairs| - 1].name]
  }

  /**
   * `TokenPairs::new`: the five pairs the program prices, in this order. Names
   * are pairwise distinct, no pair trades a token against itself, and every
   * amount `10^baseDecimals` fits in a `U256`.
   */
  function Catalogue(): (r: seq<TokenPair>)
    ensures Names(r) == ["ETH/USDC", "ETH/USDT", "WBTC/ETH", "LINK/ETH", "UNI/ETH"]
    ensures forall i, j :: 0 <= i < j < |r| ==> r[i].name != r[j].name
    ensures forall i :: 0 <= i < |r| ==> r[i].baseToken != r[i].quoteToken
    ensures forall i :: 0 <= i < |r| ==> ExpFits(r[i].baseDecimals)
    ensures r[0].baseToken == WETH && r[0].quoteToken == USDC
    ensures r[1].baseToken == WETH && r[1].quoteToken == USDT
    ensures r[2].baseToken == WBTC && r[2].quoteToken == WETH
    ensures r[3].baseToken == LINK && r[3].quoteToken == WETH
    ensures r[4].baseToken == UNI && r[4].quoteToken == WETH
    ensures r[0].baseDecimals == 18 && r[0].quoteDecimals == 6
    ensures r[1].baseDecimals == 18 && r[1].quoteDecimals == 6
    ensures r[2].baseDecimals == 8 && r[2].quoteDecimals == 18
    ensures r[3].baseDecimals == 18 && r[3].quoteDecimals == 18
    ensures r[4].baseDecimals == 18 && r[4].quoteDecimals == 18
  {
    ExpFitsIff(8);
    ExpFitsIff(18);
    [
      TokenPair(WETH, USDC, 18, 6, "ETH/USDC"),
      TokenPair(WETH, USDT, 18, 6, "ETH/USDT"),
      TokenPair(WBTC, WETH, 8, 18, "WBTC/ETH"),
      TokenPair(LINK, WETH, 18, 18, "LINK/ETH"),
      TokenPair(UNI, WETH, 18, 18, "UNI/ETH")
    ]
  }
}
