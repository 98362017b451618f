/**
 * On-chain value types shared by the Curve quoting code and the pair catalogue:
 * addresses, the fixed-width integers of the contract calls, and the token
 * addresses both files write out as hex literals.
 */
module Chain {

  /** 2^160: an address is a 20-byte value. */
  const ADDRESS_LIMIT: nat := 0x1_0000_0000_0000_0000_0000_0000_0000_0000_0000_0000

  /**
   * A parsed `Address`. Parsing a hex string yields its 160-bit value, so two
   * addresses are equal exactly when their numbers are, whatever the letter case
   * of the hex text they were written in.
   */
  type Address = a: nat | a < ADDRESS_LIMIT

  /** 2^256, the modulus of `U256`. */
  const U256_LIMIT: nat := 0x1_0000_0000_0000_0000_0000_0000_0000_0000_0000_0000_0000_0000_0000_0000_0000_0000

  type U256 = x: nat | x < U256_LIMIT

  /** 2^127: `i128` holds -2^127 .. 2^127 - 1. */
  const I128_HALF: int := 0x8000_0000_0000_0000_0000_0000_0000_0000

  type I128 = x: int | -I128_HALF <= x < I128_HALF

  type U8 = x: nat | x < 256

  /** Ten to the power `n`, exactly. */
  function Pow10(n: nat): (r: nat)
    ensures r >= 1
  {
    if n == 0 then 1 else 10 * Pow10(n - 1)
  }

  /** `U256::exp10(n)` returns without overflowing (it panics otherwise). */
  predicate ExpFits(n: nat) {
    Pow10(n) < U256_LIMIT
  }

  /** Powers of ten grow strictly. */
  lemma {:induction false} Pow10Increasing(m: nat, n: nat)
    requires m < n
    ensures Pow10(m) < Pow10(n)
  {
    if m + 1 < n {
      Pow10Increasing(m, n - 1);
    }
  }

  /** Ten to a sum of exponents is the product of the powers. */
  lemma {:induction false} Pow10Add(a: nat, b: nat)
    ensures Pow10(a + b) == Pow10(a) * Pow10(b)
  {
    if a > 0 {
      Pow10Add(a - 1, b);
    }
  }

  /** The two powers of ten either side of 2^256. */
  lemma Pow10Around256()
    ensures Pow10(77) == 100000000000000000000000000000000000000000000000000000000000000000000000000000
    ensures Pow10(78) == 1000000000000000000000000000000000000000000000000000000000000000000000000000000
  {
    assert Pow10(8) == 100000000;
    assert Pow10(5) == 100000;
    assert Pow10(1) == 10;
    Pow10Add(8, 8);
    assert Pow10(16) == 10000000000000000;
    Pow10Add(16, 16);
    assert Pow10(32) == 100000000000000000000000000000000;
    Pow10Add(32, 32);
    assert Pow10(64) == 10000000000000000000000000000000000000000000000000000000000000000;
    Pow10Add(64, 8);
    assert Pow10(72) == 1000000000000000000000000000000000000000000000000000000000000000000000000;
    Pow10Add(72, 5);
    assert Pow10(77) == 100000000000000000000000000000000000000000000000000000000000000000000000000000;
    Pow10Add(77, 1);
    assert Pow10(78) == 1000000000000000000000000000000000000000000000000000000000000000000000000000000;
  }

  /** `U256::exp10(n)` fits in 256 bits exactly for the exponents 0 through 77. */
  lemma ExpFitsIff(n: nat)
    ensures ExpFits(n) <==> n <= 77
  {
    Pow10Around256();
    if n < 77 {
      Pow10Increasing(n, 77);
    } else if n > 78 {
      Pow10Increasing(78, n);
    }
  }

  // Token addresses (checksummed hex in the source; equal as numbers).
  const DAI: Address := 0x6B175474E89094C44Da98b954EedeAC495271d0F
  const USDC: Address := 0xA0b86991c6218b36c1d19D4a2e9Eb0cE3606eB48
  const USDT: Address := 0xdAC17F958D2ee523a2206206994597C13D831ec7
  const SUSD: Address := 0x57Ab1ec28D129707052df4dF418D58a2D46d5f51
  const WBTC: Address := 0x2260FAC5E5542a773Aa44fBCfeDf7C193bc2C599
  const WETH: Address := 0xC02aaA39b223FE8D0A0e5C4F27eAD9083C756Cc2
  const STETH: Address := 0xae7ab96520DE3A18E5e111B5EaAb095312D7fE84
  const LINK: Address := 0x514910771AF9Ca656af840dff83E8264EcF986CA
  const UNI: Address := 0x1f9840a85d5aF5bf1D1762F925BDADdC4201F984
}
