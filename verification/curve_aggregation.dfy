/**
 * `get_prices_for_all_pairs`: for each pool in registry order, keep the pairs
 * whose two tokens the pool holds, quote each of them in catalogue order, and
 * keep the successful quotes. A failed quote contributes nothing and the loop
 * goes on.
 */
module CurveAggregation {
  import opened Results
  import opened Chain
  import opened Tokens
  import opened Curve

  /** One (pool, pair) price query. */
  type Attempt = (PoolConfig, TokenPair)

  /** The `filter(...).collect()` of the pairs relevant to `pool`, order kept. */
  function RelevantPairs(pool: PoolConfig, pairs: seq<TokenPair>): (r: seq<TokenPair>)
    ensures |r| <= |pairs|
  {
    if |pairs| == 0 then []
    else
      var last := pairs[|pairs| - 1];
      RelevantPairs(pool, pairs[..|pairs| - 1]) + (if IsRelevant(pool, last) then [last] else [])
  }

  /** The filter keeps exactly the pairs both of whose tokens the pool holds. */
  lemma {:induction false} RelevantPairsMembers(pool: PoolConfig, pairs: seq<TokenPair>)
    ensures forall q :: q in RelevantPairs(pool, pairs) <==> q in pairs && IsRelevant(pool, q)
  {
    if |pairs| > 0 {
      var init := pairs[..|pairs| - 1];
      RelevantPairsMembers(pool, init);
      assert pairs == init + [pairs[|pairs| - 1]];
    }
  }

  /** The attempts made on one pool, in the order of `pairs`. */
  function OnPool(pool: PoolConfig, pairs: seq<TokenPair>): (r: seq<Attempt>)
    ensures |r| == |pairs|
    ensures forall k :: 0 <= k < |r| ==> r[k] == (pool, pairs[k])
  {
    seq(|pairs|, k requires 0 <= k < |pairs| => (pool, pairs[k]))
  }

  /**
   * Every query the loop makes, pools outermost: the attempts on each pool
   * follow those on all earlier pools.
   */
  function Attempts(pools: seq<PoolConfig>, pairs: seq<TokenPair>): (r: seq<Attempt>)
  {
    if |pools| == 0 then []
    else
      var pool := pools[|pools| - 1];
      Attempts(pools[..|pools| - 1], pairs) + OnPool(pool, RelevantPairs(pool, pairs))
  }

  /** An attempt is made exactly for the (pool, pair) combinations that are relevant. */
  lemma {:induction false} AttemptsMembers(pools: seq<PoolConfig>, pairs: seq<TokenPair>)
    ensures forall a :: a in Attempts(pools, pairs) <==> a.0 in pools && a.1 in pairs && IsRelevant(a.0, a.1)
  {
    if |pools| > 0 {
      var init, pool := pools[..|pools| - 1], pools[|pools| - 1];
      var here := OnPool(pool, RelevantPairs(pool, pairs));
      AttemptsMembers(init, pairs);
      RelevantPairsMembers(pool, pairs);
      assert pools == init + [pool];
      assert forall a :: a in here ==> a.0 == pool && a.1 in RelevantPairs(pool, pairs);
      forall q | q in RelevantPairs(pool, pairs)
        ensures (pool, q) in here
      {
        var k :| 0 <= k < |RelevantPairs(pool, pairs)| && RelevantPairs(pool, pairs)[k] == q;
        assert here[k] == (pool, q);
      }
    }
  }

  /** The outcome of every attempt, in order. */
  function QuoteAll(oracle: CurveOracle, attempts: seq<Attempt>): (r: seq<Result<real, CurveError>>)
    requires forall l :: 0 <= l < |attempts| ==> Quotable(attempts[l].0, attempts[l].1)
    ensures |r| == |attempts|
    ensures forall l :: 0 <= l < |attempts| ==> r[l] == GetPriceFromCurve(oracle, attempts[l].0, attempts[l].1)
  {
    seq(|attempts|, l requires 0 <= l < |attempts| => GetPriceFromCurve(oracle, attempts[l].0, attempts[l].1))
  }

  /** What one attempt adds to the output: its quote if it succeeded, else nothing. */
  function Entry(a: Attempt, quote: Result<real, CurveError>): (r: seq<CurvePrice>)
    ensures |r| == (if quote.Success? then 1 else 0)
    ensures quote.Success? ==> r == [CurvePrice(a.0.name, quote.value, a.1.name)]
  {
    match quote
    case Success(price) => [CurvePrice(a.0.name, price, a.1.name)]
    case Failure(_) => []
  }

  /** The successful quotes among `quotes`, tagged with their attempts, in order. */
  function Collect(attempts: seq<Attempt>, quotes: seq<Result<real, CurveError>>): (r: seq<CurvePrice>)
    requires |quotes| == |attempts|
    ensures |r| <= |attempts|
  {
    if |attempts| == 0 then []
    else
      var n := |attempts| - 1;
      Collect(attempts[..n], quotes[..n]) + Entry(attempts[n], quotes[n])
  }

  /** Each attempt is handled on its own: the output of a concatenation is the concatenation of outputs. */
  lemma {:induction false} CollectAppend(xs: seq<Attempt>, xq: seq<Result<real, CurveError>>,
                                         ys: seq<Attempt>, yq: seq<Result<real, CurveError>>)
    requires |xq| == |xs| && |yq| == |ys|
    ensures Collect(xs + ys, xq + yq) == Collect(xs, xq) + Collect(ys, yq)
  {
    if |ys| == 0 {
      assert xs + ys == xs;
      assert xq + yq == xq;
    } else {
      var n := |ys| - 1;
      var init := Collect(ys[..n], yq[..n]);
      var last := Entry(ys[n], yq[n]);
      CollectLastOfAppend(xs, xq, ys, yq);
      CollectAppend(xs, xq, ys[..n], yq[..n]);
      assert Collect(xs, xq) + init + last == Collect(xs, xq) + (init + last);
    }
  }

  /** The last entry of a concatenation's output is that of the second part's last attempt. */
  lemma {:induction false} CollectLastOfAppend(xs: seq<Attempt>, xq: seq<Result<real, CurveError>>,
                            ys: seq<Attempt>, yq: seq<Result<real, CurveError>>)
    requires |xq| == |xs| && |yq| == |ys| && |ys| > 0
    ensures Collect(xs + ys, xq + yq)
         == Collect(xs + ys[..|ys| - 1], xq + yq[..|ys| - 1]) + Entry(ys[|ys| - 1], yq[|ys| - 1])
  {
    var n := |ys| - 1;
    var m := |xs| + n;
    assert (xs + ys)[..m] == xs + ys[..n];
    assert (xq + yq)[..m] == xq + yq[..n];
  }

  /**
   * Failure isolation: attempt `k` contributes exactly its own entry, one
   * quote or none, and the attempts around it contribute what they would
   * contribute without it.
   */
  lemma {:induction false} CollectSplit(attempts: seq<Attempt>, quotes: seq<Result<real, CurveError>>, k: nat)
    requires |quotes| == |attempts|
    requires k < |attempts|
    ensures Collect(attempts, quotes)
         == Collect(attempts[..k], quotes[..k]) + Entry(attempts[k], quotes[k]) + Collect(attempts[k + 1..], quotes[k + 1..])
  {
    assert attempts == attempts[..k] + [attempts[k]] + attempts[k + 1..];
    assert quotes == quotes[..k] + [quotes[k]] + quotes[k + 1..];
    CollectAppend(attempts[..k] + [attempts[k]], quotes[..k] + [quotes[k]], attempts[k + 1..], quotes[k + 1..]);
    CollectAppend(attempts[..k], quotes[..k], [attempts[k]], [quotes[k]]);
    assert [attempts[k]][..0] == [] && [quotes[k]][..0] == [];
  }

  /** A failed attempt is dropped and nothing else changes: the loop is not aborted. */
  lemma {:induction false} FailureDropsOnlyItsEntry(attempts: seq<Attempt>, quotes: seq<Result<real, CurveError>>, k: nat)
    requires |quotes| == |attempts|
    requires k < |attempts|
    requires quotes[k].Failure?
    ensures Collect(attempts, quotes) == Collect(attempts[..k] + attempts[k + 1..], quotes[..k] + quotes[k + 1..])
  {
    var left := Collect(attempts[..k], quotes[..k]);
    var right := Collect(attempts[k + 1..], quotes[k + 1..]);
    assert Collect(attempts, quotes) == left + right by {
      CollectSplit(attempts, quotes, k);
      assert Entry(attempts[k], quotes[k]) == [];
      assert left + [] + right == left + right;
    }
    assert Collect(attempts[..k] + attempts[k + 1..], quotes[..k] + quotes[k + 1..]) == left + right by {
      CollectAppend(attempts[..k], quotes[..k], attempts[k + 1..], quotes[k + 1..]);
    }
  }

  /**
   * An output entry is the quote of some attempt that succeeded, tagged with
   * that attempt's pool name and pair name; every successful attempt has one.
   */
  lemma {:induction false} CollectMembers(attempts: seq<Attempt>, quotes: seq<Result<real, CurveError>>, c: CurvePrice)
    requires |quotes| == |attempts|
    ensures c in Collect(attempts, quotes) <==>
              exists k :: 0 <= k < |attempts| && quotes[k].Success?
                          && c == CurvePrice(attempts[k].0.name, quotes[k].value, attempts[k].1.name)
  {
    if |attempts| > 0 {
      var n := |attempts| - 1;
      CollectMembers(attempts[..n], quotes[..n], c);
      if k :| 0 <= k < |attempts| && quotes[k].Success?
             && c == CurvePrice(attempts[k].0.name, quotes[k].value, attempts[k].1.name) {
        if k < n {
          assert attempts[..n][k] == attempts[k] && quotes[..n][k] == quotes[k];
        }
      }
    }
  }

  /** Appending one attempt appends its entry. */
  lemma {:induction false} CollectSnoc(oracle: CurveOracle, xs: seq<Attempt>, a: Attempt)
    requires forall l :: 0 <= l < |xs| ==> Quotable(xs[l].0, xs[l].1)
    requires Quotable(a.0, a.1)
    ensures Collect(xs + [a], QuoteAll(oracle, xs + [a]))
         == Collect(xs, QuoteAll(oracle, xs)) + Entry(a, GetPriceFromCurve(oracle, a.0, a.1))
  {
    var zs := xs + [a];
    var zq := QuoteAll(oracle, zs);
    assert zs[..|xs|] == xs;
    assert zq[..|xs|] == QuoteAll(oracle, xs) by {
      assert forall l :: 0 <= l < |xs| ==> zs[l] == xs[l];
    }
    assert zs[|xs|] == a && zq[|xs|] == GetPriceFromCurve(oracle, a.0, a.1);
  }

  /** Appending the attempts on one more pool appends their entries. */
  lemma {:induction false} CollectConcat(oracle: CurveOracle, xs: seq<Attempt>, ys: seq<Attempt>)
    requires forall l :: 0 <= l < |xs| ==> Quotable(xs[l].0, xs[l].1)
    requires forall l :: 0 <= l < |ys| ==> Quotable(ys[l].0, ys[l].1)
    ensures Collect(xs + ys, QuoteAll(oracle, xs + ys))
         == Collect(xs, QuoteAll(oracle, xs)) + Collect(ys, QuoteAll(oracle, ys))
  {
    assert QuoteAll(oracle, xs + ys) == QuoteAll(oracle, xs) + QuoteAll(oracle, ys);
    CollectAppend(xs, QuoteAll(oracle, xs), ys, QuoteAll(oracle, ys));
  }

  /** The attempts on the first `p + 1` pools extend those on the first `p`. */
  lemma {:induction false} AttemptsStep(pools: seq<PoolConfig>, p: nat, pairs: seq<TokenPair>)
    requires p < |pools|
    ensures Attempts(pools[..p + 1], pairs)
         == Attempts(pools[..p], pairs) + OnPool(pools[p], RelevantPairs(pools[p], pairs))
  {
    assert pools[..p + 1][..p] == pools[..p];
  }

  /** Every attempt on quotable combinations is quotable. */
  lemma {:induction false} AttemptsQuotable(pools: seq<PoolConfig>, pairs: seq<TokenPair>)
    requires forall pool, pair :: pool in pools && pair in pairs ==> Quotable(pool, pair)
    ensures forall l :: 0 <= l < |Attempts(pools, pairs)| ==> Quotable(Attempts(pools, pairs)[l].0, Attempts(pools, pairs)[l].1)
  {
    var r := Attempts(pools, pairs);
    AttemptsMembers(pools, pairs);
    forall l | 0 <= l < |r|
      ensures Quotable(r[l].0, r[l].1)
    {
      assert r[l] in r;
    }
  }

  /** Quoting one more relevant pair on `pool` appends that pair's entry. */
  lemma {:induction false} PoolStep(oracle: CurveOracle, pool: PoolConfig, relevant: seq<TokenPair>, k: nat)
    requires forall pair :: pair in relevant ==> Quotable(pool, pair)
    requires k < |relevant|
    ensures var here, next := OnPool(pool, relevant[..k]), OnPool(pool, relevant[..k + 1]);
            && (forall l :: 0 <= l < |here| ==> Quotable(here[l].0, here[l].1))
            && (forall l :: 0 <= l < |next| ==> Quotable(next[l].0, next[l].1))
            && Collect(next, QuoteAll(oracle, next))
               == Collect(here, QuoteAll(oracle, here)) + Entry((pool, relevant[k]), GetPriceFromCurve(oracle, pool, relevant[k]))
  {
    var here, next := OnPool(pool, relevant[..k]), OnPool(pool, relevant[..k + 1]);
    assert forall l :: 0 <= l < |next| ==> next[l].1 in relevant;
    assert next == here + [(pool, relevant[k])];
    CollectSnoc(oracle, here, (pool, relevant[k]));
  }

  /** Quoting the relevant pairs of one more pool appends their entries. */
  lemma {:induction false} RegistryStep(oracle: CurveOracle, pools: seq<PoolConfig>, p: nat, pairs: seq<TokenPair>)
    requires p < |pools|
    requires var done := Attempts(pools[..p], pairs);
             forall l :: 0 <= l < |done| ==> Quotable(done[l].0, done[l].1)
    requires var here := OnPool(pools[p], RelevantPairs(pools[p], pairs));
             forall l :: 0 <= l < |here| ==> Quotable(here[l].0, here[l].1)
    ensures var done, here := Attempts(pools[..p], pairs), OnPool(pools[p], RelevantPairs(pools[p], pairs));
            var next := Attempts(pools[..p + 1], pairs);
            && (forall l :: 0 <= l < |next| ==> Quotable(next[l].0, next[l].1))
            && Collect(next, QuoteAll(oracle, next))
               == Collect(done, QuoteAll(oracle, done)) + Collect(here, QuoteAll(oracle, here))
  {
    var done, here := Attempts(pools[..p], pairs), OnPool(pools[p], RelevantPairs(pools[p], pairs));
    AttemptsStep(pools, p, pairs);
    CollectConcat(oracle, done, here);
  }

  /** The inner loop: quote each relevant pair on `pool`, keeping the successes. */
  method QuotePool(oracle: CurveOracle, pool: PoolConfig, relevant: seq<TokenPair>) returns (prices: seq<CurvePrice>)
    requires forall pair :: pair in relevant ==> Quotable(pool, pair)
    ensures var here := OnPool(pool, relevant);
            (forall l :: 0 <= l < |here| ==> Quotable(here[l].0, here[l].1))
            && prices == Collect(here, QuoteAll(oracle, here))
  {
    prices := [];
    var k := 0;
    while k < |relevant|
      invariant 0 <= k <= |relevant|
      invariant var here := OnPool(pool, relevant[..k]);
                (forall l :: 0 <= l < |here| ==> Quotable(here[l].0, here[l].1))
                && prices == Collect(here, QuoteAll(oracle, here))
    {
      var pair := relevant[k];
      var quote := GetPriceFromCurve(oracle, pool, pair);
      PoolStep(oracle, pool, relevant, k);
      if quote.Success? {
        prices := prices + [CurvePrice(pool.name, quote.value, pair.name)];
      }
      k := k + 1;
    }
    assert relevant[..k] == relevant;
  }

  /**
   * `get_prices_for_all_pairs`, with the registry `Pools()`: the nested loop
   * produces the successful quotes of exactly the relevant attempts, pools
   * outermost, pairs in the order given.
   */
  method GetPricesForAllPairs(oracle: CurveOracle, tokenPairs: seq<TokenPair>) returns (prices: seq<CurvePrice>)
    requires forall pool, pair :: pool in Pools() && pair in tokenPairs ==> Quotable(pool, pair)
    ensures var attempts := Attempts(Pools(), tokenPairs);
            (forall l :: 0 <= l < |attempts| ==> Quotable(attempts[l].0, attempts[l].1))
            && prices == Collect(attempts, QuoteAll(oracle, attempts))
  {
    var pools := Pools();
    prices := [];
    var p := 0;
    while p < |pools|
      invariant 0 <= p <= |pools|
      invariant var done := Attempts(pools[..p], tokenPairs);
                (forall l :: 0 <= l < |done| ==> Quotable(done[l].0, done[l].1))
                && prices == Collect(done, QuoteAll(oracle, done))
    {
      var pool := pools[p];
      var relevant := RelevantPairs(pool, tokenPairs);
      RelevantPairsMembers(pool, tokenPairs);
      var found := QuotePool(oracle, pool, relevant);
      RegistryStep(oracle, pools, p, tokenPairs);
      prices := prices + found;
      p := p + 1;
    }
    assert pools[..p] == pools;
  }

  /**
   * What the aggregation returns, in terms of single queries: an entry for
   * pool `pool` and pair `pair` carrying the price that query returned, for
   * exactly the relevant combinations whose query succeeded.
   */
  lemma {:induction false} AggregatedQuotes(oracle: CurveOracle, pools: seq<PoolConfig>, pairs: seq<TokenPair>, c: CurvePrice)
    requires forall pool, pair :: pool in pools && pair in pairs ==> Quotable(pool, pair)
    ensures var attempts := Attempts(pools, pairs);
            (forall l :: 0 <= l < |attempts| ==> Quotable(attempts[l].0, attempts[l].1))
            && (c in Collect(attempts, QuoteAll(oracle, attempts)) <==>
                exists pool, pair :: pool in pools && pair in pairs && IsRelevant(pool, pair)
                                     && GetPriceFromCurve(oracle, pool, pair).Success?
                                     && c == CurvePrice(pool.name, GetPriceFromCurve(oracle, pool, pair).value, pair.name))
  {
    var attempts := Attempts(pools, pairs);
    AttemptsQuotable(pools, pairs);
    var quotes := QuoteAll(oracle, attempts);
    CollectMembers(attempts, quotes, c);
    if c in Collect(attempts, quotes) {
      var k :| 0 <= k < |attempts| && quotes[k].Success?
               && c == CurvePrice(attempts[k].0.name, quotes[k].value, attempts[k].1.name);
      AttemptIsRelevant(pools, pairs, k);
    }
    if pool, pair :| pool in pools && pair in pairs && IsRelevant(pool, pair)
                     && GetPriceFromCurve(oracle, pool, pair).Success?
                     && c == CurvePrice(pool.name, GetPriceFromCurve(oracle, pool, pair).value, pair.name) {
      var k := AttemptIndex(pools, pairs, pool, pair);
      assert quotes[k] == GetPriceFromCurve(oracle, pool, pair);
    }
  }

  /** Attempt `k` pairs a pool and a pair of the inputs, and the pair is relevant to the pool. */
  lemma {:induction false} AttemptIsRelevant(pools: seq<PoolConfig>, pairs: seq<TokenPair>, k: nat)
    requires k < |Attempts(pools, pairs)|
    ensures var a := Attempts(pools, pairs)[k]; a.0 in pools && a.1 in pairs && IsRelevant(a.0, a.1)
  {
    AttemptsMembers(pools, pairs);
    assert Attempts(pools, pairs)[k] in Attempts(pools, pairs);
  }

  /** A relevant combination of the inputs is attempted at some position. */
  lemma {:induction false} AttemptIndex(pools: seq<PoolConfig>, pairs: seq<TokenPair>, pool: PoolConfig, pair: TokenPair)
    returns (k: nat)
    requires pool in pools && pair in pairs && IsRelevant(pool, pair)
    ensures k < |Attempts(pools, pairs)| && Attempts(pools, pairs)[k] == (pool, pair)
  {
    AttemptsMembers(pools, pairs);
    assert (pool, pair) in Attempts(pools, pairs);
    k :| 0 <= k < |Attempts(pools, pairs)| && Attempts(pools, pairs)[k] == (pool, pair);
  }

  /** Which catalogue pairs each registry pool holds both tokens of. */
  lemma CatalogueRelevance()
    ensures forall k :: 0 <= k < 5 ==> !IsRelevant(POOL_3, Catalogue()[k])
    ensures forall k :: 0 <= k < 5 ==> !IsRelevant(POOL_SUSD, Catalogue()[k])
    ensures forall k :: 0 <= k < 5 ==> !IsRelevant(POOL_STETH, Catalogue()[k])
    ensures forall k :: 0 <= k < 5 ==> (IsRelevant(POOL_TRICRYPTO, Catalogue()[k]) <==> k == 1 || k == 2)
  {
    var c := Catalogue();
    forall k | 0 <= k < 5
      ensures !IsRelevant(POOL_3, c[k]) && !IsRelevant(POOL_SUSD, c[k]) && !IsRelevant(POOL_STETH, c[k])
      ensures IsRelevant(POOL_TRICRYPTO, c[k]) <==> k == 1 || k == 2
    {
      if k == 0 {
      } else if k == 1 {
      } else if k == 2 {
      } else if k == 3 {
      } else {
      }
    }
  }

  /** A pool none of whose pairs is relevant gets no attempts. */
  lemma {:induction false} NothingRelevant(pool: PoolConfig, pairs: seq<TokenPair>)
    requires forall k :: 0 <= k < |pairs| ==> !IsRelevant(pool, pairs[k])
    ensures RelevantPairs(pool, pairs) == []
  {
    if |pairs| > 0 {
      NothingRelevant(pool, pairs[..|pairs| - 1]);
    }
  }

  /** TriCrypto holds both tokens of ETH/USDT and of WBTC/ETH, and of no other catalogue pair. */
  lemma TricryptoRelevantPairs()
    ensures RelevantPairs(POOL_TRICRYPTO, Catalogue()) == [Catalogue()[1], Catalogue()[2]]
  {
    CatalogueRelevance();
    SecondAndThirdRelevant(POOL_TRICRYPTO, Catalogue());
  }

  /** Of five pairs, a pool holding the tokens of the second and third only keeps those two. */
  lemma {:induction false} SecondAndThirdRelevant(pool: PoolConfig, pairs: seq<TokenPair>)
    requires |pairs| == 5
    requires forall k :: 0 <= k < 5 ==> (IsRelevant(pool, pairs[k]) <==> k == 1 || k == 2)
    ensures RelevantPairs(pool, pairs) == [pairs[1], pairs[2]]
  {
    assert RelevantPairs(pool, pairs[..1]) == [] by {
      NothingRelevant(pool, pairs[..1]);
    }
    assert pairs[..2][..1] == pairs[..1];
    assert RelevantPairs(pool, pairs[..2]) == [pairs[1]];
    assert pairs[..3][..2] == pairs[..2];
    assert RelevantPairs(pool, pairs[..3]) == [pairs[1], pairs[2]];
    assert pairs[..4][..3] == pairs[..3];
    assert RelevantPairs(pool, pairs[..4]) == [pairs[1], pairs[2]];
    assert pairs[..5][..4] == pairs[..4];
    assert pairs[..5] == pairs;
  }

  /** When only the third of four pools has relevant pairs, the attempts are those on it. */
  lemma {:induction false} OnlyThirdPool(pools: seq<PoolConfig>, pairs: seq<TokenPair>)
    requires |pools| == 4
    requires RelevantPairs(pools[0], pairs) == [] && RelevantPairs(pools[1], pairs) == []
    requires RelevantPairs(pools[3], pairs) == []
    ensures Attempts(pools, pairs) == OnPool(pools[2], RelevantPairs(pools[2], pairs))
  {
    var third := OnPool(pools[2], RelevantPairs(pools[2], pairs));
    assert Attempts(pools[..0], pairs) == [] by { assert pools[..0] == []; }
    assert Attempts(pools[..1], pairs) == [] by {
      AttemptsStep(pools, 0, pairs);
      assert OnPool(pools[0], []) == [];
    }
    assert Attempts(pools[..2], pairs) == [] by {
      AttemptsStep(pools, 1, pairs);
      assert OnPool(pools[1], []) == [];
    }
    assert Attempts(pools[..3], pairs) == third by {
      AttemptsStep(pools, 2, pairs);
      assert [] + third == third;
    }
    assert Attempts(pools[..4], pairs) == third by {
      AttemptsStep(pools, 3, pairs);
      assert OnPool(pools[3], []) == [];
      assert third + [] == third;
    }
    assert pools[..4] == pools;
  }

  /**
   * Four pools and five pairs where only the third pool holds the tokens of
   * any pair, and of the second and third pair only: two attempts.
   */
  lemma {:induction false} OnlyTricrypto(pools: seq<PoolConfig>, pairs: seq<TokenPair>)
    requires |pools| == 4 && |pairs| == 5
    requires forall k :: 0 <= k < 5 ==> !IsRelevant(pools[0], pairs[k])
    requires forall k :: 0 <= k < 5 ==> !IsRelevant(pools[1], pairs[k])
    requires forall k :: 0 <= k < 5 ==> !IsRelevant(pools[3], pairs[k])
    requires forall k :: 0 <= k < 5 ==> (IsRelevant(pools[2], pairs[k]) <==> k == 1 || k == 2)
    ensures Attempts(pools, pairs) == [(pools[2], pairs[1]), (pools[2], pairs[2])]
  {
    NothingRelevant(pools[0], pairs);
    NothingRelevant(pools[1], pairs);
    NothingRelevant(pools[3], pairs);
    OnlyThirdPool(pools, pairs);
    SecondAndThirdRelevant(pools[2], pairs);
  }

  /**
   * With the shipped catalogue, the only relevant combinations are ETH/USDT
   * and WBTC/ETH on TriCrypto, in that order: no other pool holds both tokens
   * of any catalogue pair.
   */
  lemma CatalogueAttempts()
    ensures Attempts(Pools(), Catalogue()) == [(POOL_TRICRYPTO, Catalogue()[1]), (POOL_TRICRYPTO, Catalogue()[2])]
  {
    CatalogueRelevance();
    OnlyTricrypto(Pools(), Catalogue());
  }

  /**
   * Of everything the catalogue could trigger, ETH/USDT on TriCrypto is
   * always excluded, so the only contract call ever made is `get_dy(0, 1,
   * 10^8)` on TriCrypto, unsigned, for WBTC/ETH.
   */
  lemma CatalogueCalls()
    ensures forall pool, pair :: pool in Pools() && pair in Catalogue() ==> Quotable(pool, pair)
    ensures PlanCall(POOL_TRICRYPTO, Catalogue()[1]) == Failure(Excluded)
    ensures PlanCall(POOL_TRICRYPTO, Catalogue()[2]) == Success(TricryptoGetDy(0, 1, 100000000))
  {
    assert Pow10(8) == 100000000;
    assert ResolveIndex(POOL_TRICRYPTO, WBTC) == Some(0);
    assert ResolveIndex(POOL_TRICRYPTO, WETH) == Some(1);
  }

  /**
   * With the shipped catalogue the aggregation returns the WBTC/ETH quote
   * from TriCrypto alone, or nothing if that call fails.
   */
  lemma CatalogueAggregation(oracle: CurveOracle)
    ensures var attempts := Attempts(Pools(), Catalogue());
            && (forall l :: 0 <= l < |attempts| ==> Quotable(attempts[l].0, attempts[l].1))
            && Collect(attempts, QuoteAll(oracle, attempts))
               == Entry((POOL_TRICRYPTO, Catalogue()[2]), GetPriceFromCurve(oracle, POOL_TRICRYPTO, Catalogue()[2]))
  {
    CatalogueCalls();
    CatalogueAttempts();
    AttemptsQuotable(Pools(), Catalogue());
    FirstOfTwoFails(oracle, Attempts(Pools(), Catalogue()));
  }

  /** Of two attempts whose first fails, only the second can contribute. */
  lemma {:induction false} FirstOfTwoFails(oracle: CurveOracle, attempts: seq<Attempt>)
    requires |attempts| == 2
    requires forall l :: 0 <= l < |attempts| ==> Quotable(attempts[l].0, attempts[l].1)
    requires GetPriceFromCurve(oracle, attempts[0].0, attempts[0].1).Failure?
    ensures Collect(attempts, QuoteAll(oracle, attempts))
         == Entry(attempts[1], GetPriceFromCurve(oracle, attempts[1].0, attempts[1].1))
  {
    var quotes := QuoteAll(oracle, attempts);
    assert attempts[..1] == [attempts[0]] && quotes[..1] == [quotes[0]];
    assert attempts[..1][..0] == [] && quotes[..1][..0] == [];
  }
}
