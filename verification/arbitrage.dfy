/**
 * The price-discovery loop of the entry point and its verdict: every router
 * is asked for the WETH to USDC price of one WETH; failures are reported and
 * skipped; the best (highest) and worst (lowest) prices are tracked with
 * strict comparisons from the sentinels `("", 0.0)` and `("", f64::MAX)`; the
 * spread minus the gas cost in USDC is compared with a fixed threshold of 2.0.
 * Prices are exact reals standing for the program's `f64` values.
 */
module Arbitrage {
  import opened Results
  import opened Chain

  /** `f64::MAX`, the largest finite double, (2 - 2^-52) * 2^1023, exactly. */
  const F64_MAX: real := 179769313486231570814527423731704356798070567525844996598917476803157260780028538760589558632766878171540458953514382464234321326889464182768467546703537516986049910576551282076245490090389328944075868508455133942304583236903222948165808559332123348274797826204144723168738177180919299881250404026184124858368.0

  /** Net profit, in USDC, that a trade must strictly exceed. */
  const THRESHOLD: real := 2.0

  /** A constant-product router: display name and contract address. */
  datatype Router = Router(name: string, address: Address)

  /** The routers asked, in order. */
  function Routers(): (r: seq<Router>)
    ensures |r| == 3
    ensures forall i, j :: 0 <= i < j < |r| ==> r[i].name != r[j].name
    ensures r[0].name == "Uniswap" && r[0].address == 0x7a250d5630B4cF539739dF2C5dAcb4c659F2488D
    ensures r[1].name == "SushiSwap" && r[1].address == 0xd9e1cE17f2641f24aE83637ab66a2cca9C378B9F
    ensures r[2].name == "PancakeSwap" && r[2].address == 0x1097053Fd2ea711dad45caCcc45EfF7548fCB362
  {
    [
      Router("Uniswap", 0x7a250d5630B4cF539739dF2C5dAcb4c659F2488D),
      Router("SushiSwap", 0xd9e1cE17f2641f24aE83637ab66a2cca9C378B9F),
      Router("PancakeSwap", 0x1097053Fd2ea711dad45caCcc45EfF7548fCB362)
    ]
  }

  /**
   * The quote of one router at the given address: USDC received for one WETH,
   * or a failure.
   */
  type DexOracle = Address -> Result<Price, string>

  /**
   * A quoted price: an unsigned amount scaled down to a finite double, so
   * never negative and never above `f64::MAX`.
   */
  type Price = p: real | 0.0 <= p <= F64_MAX

  /** What one router answered. */
  datatype Outcome = Outcome(router: string, result: Result<Price, string>)

  /** The routers' answers, in router order. */
  function Ask(oracle: DexOracle, routers: seq<Router>): (r: seq<Outcome>)
    ensures |r| == |routers|
    ensures forall k :: 0 <= k < |r| ==> r[k] == Outcome(routers[k].name, oracle(routers[k].address))
  {
    seq(|routers|, k requires 0 <= k < |routers| => Outcome(routers[k].name, oracle(routers[k].address)))
  }

  /** A venue and its price: the `(&str, f64)` tuples `best` and `worst`. */
  datatype Mark = Mark(venue: string, price: real)

  /** The loop state: the prices map and the best and worst venues so far. */
  datatype Discovery = Discovery(prices: map<string, real>, best: Mark, worst: Mark)

  const START: Discovery := Discovery(map[], Mark("", 0.0), Mark("", F64_MAX))

  /** One iteration of the router loop. */
  function Record(d: Discovery, o: Outcome): Discovery {
    match o.result
    case Failure(_) => d
    case Success(price) =>
      Discovery(
        d.prices[o.router := price],
        if price > d.best.price then Mark(o.router, price) else d.best,
        if price < d.worst.price then Mark(o.router, price) else d.worst)
  }

  /** The loop run from state `d` over `outcomes`, left to right. */
  function DiscoverFrom(d: Discovery, outcomes: seq<Outcome>): Discovery {
    if |outcomes| == 0 then d
    else Record(DiscoverFrom(d, outcomes[..|outcomes| - 1]), outcomes[|outcomes| - 1])
  }

  /** The state after the router loop. */
  function Discover(outcomes: seq<Outcome>): Discovery {
    DiscoverFrom(START, outcomes)
  }

  predicate Succeeded(outcomes: seq<Outcome>, k: int) {
    0 <= k < |outcomes| && outcomes[k].result.Success?
  }

  function PriceAt(outcomes: seq<Outcome>, k: int): Price
    requires Succeeded(outcomes, k)
  {
    outcomes[k].result.value
  }

  /** `spread = best.1 - worst.1`. */
  function Spread(d: Discovery): real {
    d.best.price - d.worst.price
  }

  /** `net_profit = spread - gas_cost_usdc`. */
  function NetProfit(d: Discovery, gasCostUsdc: real): real {
    Spread(d) - gasCostUsdc
  }

  datatype Verdict = Execute | Skip

  /** `if net_profit > threshold { EXECUTE } else { SKIP }`. */
  function Decide(d: Discovery, gasCostUsdc: real): Verdict {
    if NetProfit(d, gasCostUsdc) > THRESHOLD then Execute else Skip
  }

  /** Running the loop over a concatenation runs it over each part in turn. */
  lemma {:induction false} DiscoverAppend(d: Discovery, xs: seq<Outcome>, ys: seq<Outcome>)
    ensures DiscoverFrom(d, xs + ys) == DiscoverFrom(DiscoverFrom(d, xs), ys)
  {
    if |ys| == 0 {
      assert xs + ys == xs;
    } else {
      var n := |ys| - 1;
      DiscoverAppend(d, xs, ys[..n]);
      assert (xs + ys)[..|xs| + n] == xs + ys[..n];
    }
  }

  /**
   * A failed router changes nothing: the final state is the one the loop
   * reaches with that router left out, and the loop carries on past it.
   */
  lemma {:induction false} FailureIsInvisible(outcomes: seq<Outcome>, k: nat)
    requires k < |outcomes|
    requires outcomes[k].result.Failure?
    ensures Discover(outcomes) == Discover(outcomes[..k] + outcomes[k + 1..])
  {
    var before, after := outcomes[..k], outcomes[k + 1..];
    assert outcomes == before + [outcomes[k]] + after;
    DiscoverAppend(START, before + [outcomes[k]], after);
    DiscoverAppend(START, before, [outcomes[k]]);
    assert [outcomes[k]][..0] == [];
    DiscoverAppend(START, before, after);
  }

  /** No later router succeeded under the same name as router `k`. */
  predicate LastSuccessOf(outcomes: seq<Outcome>, k: int) {
    && 0 <= k < |outcomes|
    && forall j :: k < j < |outcomes| && Succeeded(outcomes, j) ==> outcomes[j].router != outcomes[k].router
  }

  /** `prices` has a key for exactly the routers that answered. */
  lemma {:induction false} PricesKeys(outcomes: seq<Outcome>)
    ensures forall name :: name in Discover(outcomes).prices <==>
              exists k :: Succeeded(outcomes, k) && outcomes[k].router == name
  {
    if |outcomes| > 0 {
      var n := |outcomes| - 1;
      var init := outcomes[..n];
      PricesKeys(init);
      forall name | name in Discover(outcomes).prices
        ensures exists k :: Succeeded(outcomes, k) && outcomes[k].router == name
      {
        if name !in Discover(init).prices {
          assert Succeeded(outcomes, n) && outcomes[n].router == name;
        } else {
          var k :| Succeeded(init, k) && init[k].router == name;
          assert Succeeded(outcomes, k) && outcomes[k].router == name;
        }
      }
      forall name | exists k :: Succeeded(outcomes, k) && outcomes[k].router == name
        ensures name in Discover(outcomes).prices
      {
        var k :| Succeeded(outcomes, k) && outcomes[k].router == name;
        if k < n {
          assert Succeeded(init, k) && init[k].router == name;
        }
      }
    }
  }

  /**
   * A router's entry in `prices` is the price of its last successful answer
   * (its only one, router names being distinct): a later insert overwrites.
   */
  lemma {:induction false} PricesValues(outcomes: seq<Outcome>)
    ensures forall k :: Succeeded(outcomes, k) && LastSuccessOf(outcomes, k) ==>
              outcomes[k].router in Discover(outcomes).prices
              && Discover(outcomes).prices[outcomes[k].router] == PriceAt(outcomes, k)
  {
    if |outcomes| > 0 {
      var n := |outcomes| - 1;
      var init := outcomes[..n];
      PricesValues(init);
      forall k | Succeeded(outcomes, k) && LastSuccessOf(outcomes, k)
        ensures outcomes[k].router in Discover(outcomes).prices
        ensures Discover(outcomes).prices[outcomes[k].router] == PriceAt(outcomes, k)
      {
        if k < n {
          assert init[k] == outcomes[k];
          assert Succeeded(init, k);
          assert LastSuccessOf(init, k);
          if Succeeded(outcomes, n) {
            assert outcomes[n].router != outcomes[k].router;
          }
        }
      }
    }
  }

  /**
   * With the three routers of the program, whose names are distinct, every
   * router that answered has its own answer in `prices`: no insert overwrites
   * another router's price.
   */
  lemma RouterPrices(oracle: DexOracle)
    ensures var outcomes := Ask(oracle, Routers());
            forall k :: Succeeded(outcomes, k) ==>
              && Routers()[k].name in Discover(outcomes).prices
              && Discover(outcomes).prices[Routers()[k].name] == PriceAt(outcomes, k)
  {
    var routers := Routers();
    var outcomes := Ask(oracle, routers);
    PricesValues(outcomes);
    forall k | Succeeded(outcomes, k)
      ensures LastSuccessOf(outcomes, k)
    {
      assert forall j :: k < j < |outcomes| ==> outcomes[j].router != outcomes[k].router;
    }
  }

  /**
   * `best` is the first router, in router order, whose price is the largest
   * and positive: it bounds every successful price from above, and it is
   * replaced only on a strictly higher price, so an equal later price never
   * displaces it. With no positive price it is still the sentinel `("", 0.0)`.
   */
  lemma {:induction false} BestIsFirstMaximum(outcomes: seq<Outcome>)
    ensures Discover(outcomes).best.price >= 0.0
    ensures forall k :: Succeeded(outcomes, k) ==> PriceAt(outcomes, k) <= Discover(outcomes).best.price
    ensures || Discover(outcomes).best == Mark("", 0.0)
            || exists k :: && Succeeded(outcomes, k) && 0.0 < PriceAt(outcomes, k)
                           && Discover(outcomes).best == Mark(outcomes[k].router, PriceAt(outcomes, k))
                           && forall j :: 0 <= j < k && Succeeded(outcomes, j) ==> PriceAt(outcomes, j) < PriceAt(outcomes, k)
  {
    if |outcomes| > 0 {
      var n := |outcomes| - 1;
      var init := outcomes[..n];
      BestIsFirstMaximum(init);
      var before := Discover(init).best;
      assert forall k :: 0 <= k < n ==> init[k] == outcomes[k];
      assert forall k :: Succeeded(outcomes, k) && k < n ==> Succeeded(init, k);
      if Succeeded(outcomes, n) && PriceAt(outcomes, n) > before.price {
        assert Discover(outcomes).best == Mark(outcomes[n].router, PriceAt(outcomes, n));
      } else {
        assert Discover(outcomes).best == before;
        if before != Mark("", 0.0) {
          var k :| && Succeeded(init, k) && 0.0 < PriceAt(init, k)
                   && before == Mark(init[k].router, PriceAt(init, k))
                   && forall j :: 0 <= j < k && Succeeded(init, j) ==> PriceAt(init, j) < PriceAt(init, k);
          assert Succeeded(outcomes, k) && PriceAt(outcomes, k) == PriceAt(init, k);
        }
      }
    }
  }

  /**
   * `worst` is the first router whose price is the smallest and below
   * `f64::MAX`: it bounds every successful price from below, and only a
   * strictly lower price replaces it. With no such price it is still the
   * sentinel `("", f64::MAX)`.
   */
  lemma {:induction false} WorstIsFirstMinimum(outcomes: seq<Outcome>)
    ensures Discover(outcomes).worst.price <= F64_MAX
    ensures forall k :: Succeeded(outcomes, k) ==> Discover(outcomes).worst.price <= PriceAt(outcomes, k)
    ensures || Discover(outcomes).worst == Mark("", F64_MAX)
            || exists k :: && Succeeded(outcomes, k) && PriceAt(outcomes, k) < F64_MAX
                           && Discover(outcomes).worst == Mark(outcomes[k].router, PriceAt(outcomes, k))
                           && forall j :: 0 <= j < k && Succeeded(outcomes, j) ==> PriceAt(outcomes, k) < PriceAt(outcomes, j)
  {
    if |outcomes| > 0 {
      var n := |outcomes| - 1;
      var init := outcomes[..n];
      WorstIsFirstMinimum(init);
      var before := Discover(init).worst;
      assert forall k :: 0 <= k < n ==> init[k] == outcomes[k];
      assert forall k :: Succeeded(outcomes, k) && k < n ==> Succeeded(init, k);
      if Succeeded(outcomes, n) && PriceAt(outcomes, n) < before.price {
        assert Discover(outcomes).worst == Mark(outcomes[n].router, PriceAt(outcomes, n));
      } else {
        assert Discover(outcomes).worst == before;
        if before != Mark("", F64_MAX) {
          var k :| && Succeeded(init, k) && PriceAt(init, k) < F64_MAX
                   && before == Mark(init[k].router, PriceAt(init, k))
                   && forall j :: 0 <= j < k && Succeeded(init, j) ==> PriceAt(init, k) < PriceAt(init, j);
          assert Succeeded(outcomes, k) && PriceAt(outcomes, k) == PriceAt(init, k);
        }
      }
    }
  }

  /** With at least one successful router, `worst.1 <= p <= best.1`, so the spread is never negative. */
  lemma SpreadNonNegative(outcomes: seq<Outcome>, k: nat)
    requires Succeeded(outcomes, k)
    ensures Discover(outcomes).worst.price <= PriceAt(outcomes, k) <= Discover(outcomes).best.price
    ensures Spread(Discover(outcomes)) >= 0.0
  {
    BestIsFirstMaximum(outcomes);
    WorstIsFirstMinimum(outcomes);
  }

  /**
   * With no successful router the loop leaves the sentinels in place, and
   * the spread is `0.0 - f64::MAX`: hugely negative, and nothing checks for it.
   */
  lemma {:induction false} NoSuccessSpread(outcomes: seq<Outcome>)
    requires forall k :: 0 <= k < |outcomes| ==> outcomes[k].result.Failure?
    ensures Discover(outcomes) == START
    ensures Spread(Discover(outcomes)) == -F64_MAX
    ensures Spread(Discover(outcomes)) < 0.0
  {
    if |outcomes| > 0 {
      var n := |outcomes| - 1;
      NoSuccessSpread(outcomes[..n]);
    }
  }

  /**
   * When every router that answered gave the same price there is no spread;
   * with a non-negative gas cost the verdict is then always SKIP.
   */
  lemma FlatPricesSkip(outcomes: seq<Outcome>, gasCostUsdc: real)
    requires gasCostUsdc >= 0.0
    requires forall j, k :: Succeeded(outcomes, j) && Succeeded(outcomes, k) ==> PriceAt(outcomes, j) == PriceAt(outcomes, k)
    ensures Decide(Discover(outcomes), gasCostUsdc) == Skip
  {
    BestIsFirstMaximum(outcomes);
    WorstIsFirstMinimum(outcomes);
    var d := Discover(outcomes);
    if k :| Succeeded(outcomes, k) {
      var p := PriceAt(outcomes, k);
      assert d.best.price == p by {
        if d.best != Mark("", 0.0) {
          var b :| Succeeded(outcomes, b) && d.best == Mark(outcomes[b].router, PriceAt(outcomes, b));
        }
      }
      assert d.worst.price == p by {
        if d.worst != Mark("", F64_MAX) {
          var w :| Succeeded(outcomes, w) && d.worst == Mark(outcomes[w].router, PriceAt(outcomes, w));
        }
      }
    } else {
      forall k | 0 <= k < |outcomes|
        ensures outcomes[k].result.Failure?
      {
        assert !Succeeded(outcomes, k);
      }
      NoSuccessSpread(outcomes);
    }
  }

  /**
   * The verdict is EXECUTE exactly when the spread beats the gas cost by
   * strictly more than the threshold; a higher gas cost never turns SKIP
   * into EXECUTE.
   */
  lemma DecideMonotone(d: Discovery, lowGas: real, highGas: real)
    requires lowGas <= highGas
    ensures Decide(d, highGas) == Execute ==> Decide(d, lowGas) == Execute
    ensures Decide(d, lowGas) == Execute <==> Spread(d) > lowGas + THRESHOLD
  {
  }

  /**
   * Three quotes 1500, 1490 and 1510: the best is the third router, the
   * worst the second, the spread 20; with 6.04 USDC of gas the net profit
   * is 13.96 and the verdict EXECUTE.
   */
  lemma ThreeRouterExample()
    ensures var d := Discover([Outcome("Uniswap", Success(1500.0)),
                               Outcome("SushiSwap", Success(1490.0)),
                               Outcome("PancakeSwap", Success(1510.0))]);
            && d.best == Mark("PancakeSwap", 1510.0)
            && d.worst == Mark("SushiSwap", 1490.0)
            && Spread(d) == 20.0
            && NetProfit(d, 6.04) == 13.96
            && Decide(d, 6.04) == Execute
  {
    var os := [Outcome("Uniswap", Success(1500.0)),
               Outcome("SushiSwap", Success(1490.0)),
               Outcome("PancakeSwap", Success(1510.0))];
    assert os[..1][..0] == [];
    assert DiscoverFrom(START, os[..1][..0]) == START;
    assert os[..1][0] == os[0];
    assert Discover(os[..1]) == Record(START, os[0]);
    assert Discover(os[..1]).best == Mark("Uniswap", 1500.0);
    assert Discover(os[..1]).worst == Mark("Uniswap", 1500.0);
    assert os[..2][..1] == os[..1];
    assert Discover(os[..2]).best == Mark("Uniswap", 1500.0);
    assert Discover(os[..2]).worst == Mark("SushiSwap", 1490.0);
    assert os[..3][..2] == os[..2];
    assert os[..3] == os;
  }

  /** What a run could report: best, worst, spread, net profit and verdict. */
  datatype Assessment = Assessment(best: Mark, worst: Mark, spread: real, netProfit: real, verdict: Verdict)

  /**
   * The evaluation with the zero-answer case guarded: no assessment at all
   * when no router answered, and otherwise a spread that is never negative.
   */
  function Evaluate(outcomes: seq<Outcome>, gasCostUsdc: real): (r: Option<Assessment>)
    ensures r.None? <==> forall k :: 0 <= k < |outcomes| ==> outcomes[k].result.Failure?
    ensures r.Some? ==> r.value.spread >= 0.0
    ensures r.Some? ==> forall k :: Succeeded(outcomes, k) ==>
              r.value.worst.price <= PriceAt(outcomes, k) <= r.value.best.price
    ensures r.Some? ==> (r.value.verdict == Execute <==> r.value.netProfit > THRESHOLD)
    ensures r.Some? ==> r.value.netProfit == r.value.spread - gasCostUsdc
    ensures r.Some? ==> r.value.best == Discover(outcomes).best && r.value.worst == Discover(outcomes).worst
    ensures r.Some? ==> r.value.spread == r.value.best.price - r.value.worst.price
    ensures r.Some? ==> r.value.verdict == Decide(Discover(outcomes), gasCostUsdc)
  {
    if forall k :: 0 <= k < |outcomes| ==> outcomes[k].result.Failure? then None
    else
      var d := Discover(outcomes);
      BestIsFirstMaximum(outcomes);
      WorstIsFirstMinimum(outcomes);
      var k :| 0 <= k < |outcomes| && outcomes[k].result.Success?;
      SpreadNonNegative(outcomes, k);
      Some(Assessment(d.best, d.worst, Spread(d), NetProfit(d, gasCostUsdc), Decide(d, gasCostUsdc)))
  }

  /**
   * The router loop as the program runs it: ask each router in turn, insert
   * each answer into `prices`, and update `best` and `worst` on strictly
   * better prices.
   */
  method DiscoverPrices(oracle: DexOracle, routers: seq<Router>)
    returns (prices: map<string, real>, best: Mark, worst: Mark)
    ensures Discovery(prices, best, worst) == Discover(Ask(oracle, routers))
  {
    prices, best, worst := map[], Mark("", 0.0), Mark("", F64_MAX);
    var i := 0;
    while i < |routers|
      invariant 0 <= i <= |routers|
      invariant Discovery(prices, best, worst) == Discover(Ask(oracle, routers[..i]))
    {
      var router := routers[i];
      match oracle(router.address) {
        case Success(price) =>
          prices := prices[router.name := price];
          if price > best.price {
            best := Mark(router.name, price);
          }
          if price < worst.price {
            worst := Mark(router.name, price);
          }
        case Failure(_) =>
      }
      assert Ask(oracle, routers[..i + 1]) == Ask(oracle, routers[..i]) + [Outcome(router.name, oracle(router.address))];
      assert Ask(oracle, routers[..i + 1])[..i] == Ask(oracle, routers[..i]);
      i := i + 1;
    }
    assert routers[..i] == routers;
  }
}
