/**
 * The off-chain best-quote helper `getBestUniswapQuote`: it asks the V2 venue
 * and every V3 fee tier for a quote, keeps the quotes that came back, picks the
 * largest with a strict-`>` reduce, and derives the slippage-bounded minimum.
 */
module BestQuote {
  import opened Venues

  // ---------------------------------------------------------------------------
  // Collection
  // ---------------------------------------------------------------------------

  /**
   * What the V2 block pushes. A thrown call (of either `getPair` or
   * `getAmountsOut`) is caught, and the zero pair is skipped; otherwise the
   * second element of `amountsOut` is pushed when it exists and is non-zero,
   * since the guard is the truthiness test `amountsOut?.[1]`.
   */
  function V2Contribution(v2: V2Venue): seq<PoolResult>
  {
    match v2.getPair
    case Threw => []
    case Returned(pair) =>
      if pair == ZeroAddress then []
      else
        match v2.getAmountsOut
        case Threw => []
        case Returned(amountsOut) =>
          if |amountsOut| > 1 && amountsOut[1] != 0 then [PoolResult(V2, amountsOut[1])] else []
  }

  /** The amount a V3 tier quotes, or None when its pool is the zero address or a call threw. */
  function TierQuote(tier: V3Venue): Option<nat>
  {
    match tier.getPool
    case Threw => None
    case Returned(pool) =>
      if pool == ZeroAddress then None
      else
        match tier.quote
        case Threw => None
        case Returned(amountOut) => Some(amountOut)
  }

  /** What one pass of the loop over the fee tiers pushes. */
  function TierContribution(tier: V3Venue): seq<PoolResult>
  {
    match TierQuote(tier)
    case None => []
    case Some(amountOut) => [PoolResult(V3(tier.fee), amountOut)]
  }

  /** What the loop over the fee tiers pushes, in fee order. */
  function V3Contributions(tiers: seq<V3Venue>): seq<PoolResult>
  {
    if tiers == [] then [] else TierContribution(tiers[0]) + V3Contributions(tiers[1..])
  }

  /** The whole `allResults` list once every venue has been asked. */
  function GatheredQuotes(m: Market): seq<PoolResult>
  {
    V2Contribution(m.v2) + V3Contributions(m.v3)
  }

  /** The indices of the tiers that contribute, in increasing order. */
  function ContributingTiers(tiers: seq<V3Venue>): seq<nat>
    decreases |tiers|
  {
    if tiers == [] then []
    else
      var last := |tiers| - 1;
      ContributingTiers(tiers[..last]) + (if TierQuote(tiers[last]).Some? then [last] else [])
  }

  lemma {:induction false} V3ContributionsAppend(a: seq<V3Venue>, b: seq<V3Venue>)
    ensures V3Contributions(a + b) == V3Contributions(a) + V3Contributions(b)
    decreases |a|
  {
    if a == [] {
      assert a + b == b;
    } else {
      assert (a + b)[1..] == a[1..] + b;
      V3ContributionsAppend(a[1..], b);
    }
  }

  /**
   * The collection loop: the V2 venue first, then one attempt per fee tier,
   * each inside its own try block so that a failure skips only that venue.
   */
  method CollectQuotes(m: Market) returns (allResults: seq<PoolResult>)
    ensures allResults == GatheredQuotes(m)
  {
    allResults := [];
    match m.v2.getPair {
      case Threw =>
      case Returned(v2Pair) =>
        if v2Pair != ZeroAddress {
          match m.v2.getAmountsOut {
            case Threw =>
            case Returned(amountsOut) =>
              if |amountsOut| > 1 && amountsOut[1] != 0 {
                allResults := allResults + [PoolResult(V2, amountsOut[1])];
              }
          }
        }
    }
    for i := 0 to |m.v3|
      invariant allResults == V2Contribution(m.v2) + V3Contributions(m.v3[..i])
    {
      var tier := m.v3[i];
      assert m.v3[..i + 1] == m.v3[..i] + [tier];
      V3ContributionsAppend(m.v3[..i], [tier]);
      match tier.getPool {
        case Threw =>
        case Returned(poolAddress) =>
          if poolAddress == ZeroAddress {
            continue;
          }
          match tier.quote {
            case Threw =>
            case Returned(amountOut) =>
              allResults := allResults + [PoolResult(V3(tier.fee), amountOut)];
          }
      }
    }
    assert m.v3[..|m.v3|] == m.v3;
  }

  /**
   * Order and membership of the V3 part: its k-th entry is the quote of tier
   * `idx[k]`, the indices strictly increase (fee order is kept), and a tier is
   * listed exactly when its pool address is non-zero and both calls returned.
   */
  lemma {:induction false} V3ContributionsInFeeOrder(tiers: seq<V3Venue>)
    ensures var idx := ContributingTiers(tiers);
      && |idx| == |V3Contributions(tiers)|
      && (forall k :: 0 <= k < |idx| ==>
            && idx[k] < |tiers|
            && TierQuote(tiers[idx[k]]).Some?
            && V3Contributions(tiers)[k] == PoolResult(V3(tiers[idx[k]].fee), TierQuote(tiers[idx[k]]).value))
      && (forall k1, k2 :: 0 <= k1 < k2 < |idx| ==> idx[k1] < idx[k2])
      && (forall i :: 0 <= i < |tiers| ==>
            (i in idx <==>
              tiers[i].getPool.Returned? && tiers[i].getPool.value != ZeroAddress && tiers[i].quote.Returned?))
    decreases |tiers|
  {
    if tiers != [] {
      var last := |tiers| - 1;
      var init := tiers[..last];
      assert tiers == init + [tiers[last]];
      V3ContributionsAppend(init, [tiers[last]]);
      V3ContributionsInFeeOrder(init);
      assert [tiers[last]][1..] == [];
      forall i | 0 <= i < last ensures tiers[i] == init[i] { }
    }
  }

  /** The collected list is the V2 entry (if any) followed by the V3 entries. */
  lemma GatheredV2First(m: Market)
    ensures |V2Contribution(m.v2)| <= 1
    ensures forall k :: 0 <= k < |V2Contribution(m.v2)| ==> GatheredQuotes(m)[k].venue == V2
    ensures GatheredQuotes(m)[|V2Contribution(m.v2)|..] == V3Contributions(m.v3)
  {
  }

  /**
   * A venue whose pair or pool address is the zero address contributes
   * nothing, and one whose quote is 0 is dropped on the V2 side (truthiness)
   * but kept on the V3 side.
   */
  lemma ZeroAddressAndZeroQuote(v2: V2Venue, tier: V3Venue)
    ensures v2.getPair == Returned(ZeroAddress) ==> V2Contribution(v2) == []
    ensures tier.getPool == Returned(ZeroAddress) ==> TierContribution(tier) == []
    ensures v2.getPair.Returned? && v2.getPair.value != ZeroAddress && v2.getAmountsOut.Returned?
            && |v2.getAmountsOut.value| > 1 && v2.getAmountsOut.value[1] == 0
            ==> V2Contribution(v2) == []
    ensures tier.getPool.Returned? && tier.getPool.value != ZeroAddress && tier.quote == Returned(0)
            ==> TierContribution(tier) == [PoolResult(V3(tier.fee), 0)]
  {
  }

  /** A V3 tier whose `getPool` or quote throws is dropped, and every other tier still contributes. */
  lemma {:induction false} FailingTierDropsOnlyItself(m: Market, i: nat, failed: V3Venue)
    requires i < |m.v3|
    requires failed.getPool.Threw? || failed.quote.Threw?
    ensures GatheredQuotes(Market(m.v2, m.v3[i := failed]))
         == V2Contribution(m.v2) + V3Contributions(m.v3[..i]) + V3Contributions(m.v3[i + 1..])
  {
    var tiers := m.v3[i := failed];
    assert tiers == m.v3[..i] + ([failed] + m.v3[i + 1..]);
    V3ContributionsAppend(m.v3[..i], [failed] + m.v3[i + 1..]);
    V3ContributionsAppend([failed], m.v3[i + 1..]);
    assert [failed][1..] == [];
    assert TierContribution(failed) == [];
  }

  /** A V2 venue whose `getPair` or `getAmountsOut` throws leaves every V3 tier's contribution in place. */
  lemma FailingV2KeepsEveryTier(m: Market, failed: V2Venue)
    requires failed.getPair.Threw? || (failed.getPair.Returned? && failed.getAmountsOut.Threw?)
    ensures GatheredQuotes(Market(failed, m.v3)) == V3Contributions(m.v3)
  {
  }

  // ---------------------------------------------------------------------------
  // Selection
  // ---------------------------------------------------------------------------

  /**
   * `results.reduce((best, current) => current.amount > best.amount ? current : best, seed)`:
   * a left fold that replaces the running best only on a strictly larger amount.
   */
  function BestOffer(results: seq<PoolResult>, best: PoolResult): PoolResult
    decreases |results|
  {
    if results == [] then best
    else BestOffer(results[1..], if results[0].amount > best.amount then results[0] else best)
  }

  /**
   * The reduce returns a maximum: no collected amount exceeds it, nor the seed's.
   * It is the seed when no amount beats the seed's; otherwise it is the first
   * collected quote with the maximal amount (every earlier one is strictly smaller).
   */
  lemma {:induction false} BestOfferIsFirstMaximum(results: seq<PoolResult>, seed: PoolResult)
    ensures var r := BestOffer(results, seed);
      && seed.amount <= r.amount
      && (forall j :: 0 <= j < |results| ==> results[j].amount <= r.amount)
      && ((forall j :: 0 <= j < |results| ==> results[j].amount <= seed.amount) ==> r == seed)
      && ((exists j :: 0 <= j < |results| && results[j].amount > seed.amount) ==>
            exists k :: 0 <= k < |results| && results[k] == r
                     && forall j :: 0 <= j < k ==> results[j].amount < r.amount)
    decreases |results|
  {
    if results != [] {
      var head, rest := results[0], results[1..];
      var acc := if head.amount > seed.amount then head else seed;
      BestOfferIsFirstMaximum(rest, acc);
      var r := BestOffer(results, seed);
      assert r == BestOffer(rest, acc);
      forall j | 1 <= j < |results| ensures results[j] == rest[j - 1] { }
      if exists j :: 0 <= j < |results| && results[j].amount > seed.amount {
        if head.amount > seed.amount {
          if forall j :: 0 <= j < |rest| ==> rest[j].amount <= acc.amount {
            assert results[0] == r;
          } else {
            var j :| 0 <= j < |rest| && rest[j].amount > acc.amount;
            var k :| 0 <= k < |rest| && rest[k] == r && forall i :: 0 <= i < k ==> rest[i].amount < r.amount;
            assert results[k + 1] == r;
          }
        } else {
          var j :| 0 <= j < |results| && results[j].amount > seed.amount;
          assert rest[j - 1].amount > acc.amount;
          var k :| 0 <= k < |rest| && rest[k] == r && forall i :: 0 <= i < k ==> rest[i].amount < r.amount;
          assert results[k + 1] == r;
        }
      }
    }
  }

  /** The amount the reduce picks does not depend on the seed's label, only on its amount. */
  lemma {:induction false} BestOfferAmountIgnoresSeedLabel(results: seq<PoolResult>, seedA: PoolResult, seedB: PoolResult)
    requires seedA.amount == seedB.amount
    ensures BestOffer(results, seedA).amount == BestOffer(results, seedB).amount
    decreases |results|
  {
    if results != [] {
      if results[0].amount > seedA.amount {
        assert BestOffer(results, seedA) == BestOffer(results[1..], results[0]) == BestOffer(results, seedB);
      } else {
        BestOfferAmountIgnoresSeedLabel(results[1..], seedA, seedB);
      }
    }
  }

  // ---------------------------------------------------------------------------
  // Slippage minimum
  // ---------------------------------------------------------------------------

  /** Basis points in one whole: 100%. */
  const FullScaleBps := 10000

  /** BigInt division, which truncates toward zero (unlike Dafny's Euclidean `/`). */
  function TruncDiv(n: int, d: int): int
    requires d > 0
  {
    if n >= 0 then n / d else -((-n) / d)
  }

  /** `(bestOffer.amount * (10000n - slippageBps)) / 10000n`, with no range check on `slippageBps`. */
  function AmountWithSlippage(best: nat, slippageBps: int): int
  {
    TruncDiv(best * (FullScaleBps - slippageBps), FullScaleBps)
  }

  lemma DivBelow(a: int, b: int)
    requires 0 <= a <= b
    ensures a / FullScaleBps <= b / FullScaleBps
  {
  }

  lemma TruncDivMonotone(n1: int, n2: int)
    requires n1 <= n2
    ensures TruncDiv(n1, FullScaleBps) <= TruncDiv(n2, FullScaleBps)
  {
    if n1 >= 0 {
      DivBelow(n1, n2);
    } else if n2 < 0 {
      DivBelow(-n2, -n1);
    }
  }

  /**
   * Within [0, 10000] the minimum is the floor of best * (10000 - slippageBps) / 10000,
   * hence between 0 and best.
   */
  lemma SlippageMinimumIsFloor(best: nat, slippageBps: int)
    requires 0 <= slippageBps <= FullScaleBps
    ensures var a := AmountWithSlippage(best, slippageBps);
      && 0 <= a <= best
      && a * FullScaleBps <= best * (FullScaleBps - slippageBps) < (a + 1) * FullScaleBps
  {
    var n := best * (FullScaleBps - slippageBps);
    assert 0 <= n <= best * FullScaleBps;
    DivBelow(n, best * FullScaleBps);
  }

  /** For best > 0 and slippage in [0, 10000], the minimum equals best exactly when slippage is 0. */
  lemma SlippageMinimumEqualsBestIffZero(best: nat, slippageBps: int)
    requires 0 <= slippageBps <= FullScaleBps
    ensures AmountWithSlippage(0, slippageBps) == 0
    ensures AmountWithSlippage(best, 0) == best
    ensures best > 0 ==> (AmountWithSlippage(best, slippageBps) == best <==> slippageBps == 0)
  {
    SlippageMinimumIsFloor(best, slippageBps);
    if best > 0 && slippageBps > 0 {
      assert best * (FullScaleBps - slippageBps) <= best * FullScaleBps - best;
    }
  }

  /** For a fixed best amount, the minimum never grows as the slippage grows (for any integer slippage). */
  lemma SlippageMinimumNonIncreasing(best: nat, s1: int, s2: int)
    requires s1 <= s2
    ensures AmountWithSlippage(best, s2) <= AmountWithSlippage(best, s1)
  {
    assert best * (FullScaleBps - s2) <= best * (FullScaleBps - s1);
    TruncDivMonotone(best * (FullScaleBps - s2), best * (FullScaleBps - s1));
  }

  /**
   * The helper does not range-check the slippage: a negative one yields more
   * than the best amount, and one of 20000 or more yields a negative minimum.
   */
  lemma SlippageOutsideRangeUnchecked(best: nat, slippageBps: int)
    ensures slippageBps < 0 ==> AmountWithSlippage(best, slippageBps) >= best
    ensures slippageBps >= 2 * FullScaleBps && best > 0 ==> AmountWithSlippage(best, slippageBps) < 0
  {
    if slippageBps < 0 {
      SlippageMinimumNonIncreasing(best, slippageBps, 0);
      SlippageMinimumEqualsBestIffZero(best, 0);
    }
    if slippageBps >= 2 * FullScaleBps && best > 0 {
      var n := best * (slippageBps - FullScaleBps);
      assert n >= FullScaleBps;
      DivBelow(FullScaleBps, n);
    }
  }

  /** 2,000,000 at 500 basis points leaves 1,900,000. */
  lemma SlippageExample()
    ensures AmountWithSlippage(2000000, 500) == 1900000
  {
  }

  // ---------------------------------------------------------------------------
  // The helper as a whole
  // ---------------------------------------------------------------------------

  datatype QuoteError = NoLiquidityPoolsFound

  /** `{ bestOffer, amountWithSlippage }`. */
  datatype QuoteSummary = QuoteSummary(bestOffer: PoolResult, amountWithSlippage: int)

  /** The reduce's seed, `{ type: 'None', amount: 0n }`. */
  const NoneSeed := PoolResult(Label("None"), 0)

  /**
   * `getBestUniswapQuote`: fails when no venue contributed; otherwise returns
   * the reduce's pick, which no collected amount exceeds, and its slippage
   * minimum, which is at most the pick for a slippage in [0, 10000].
   */
  method GetBestUniswapQuote(m: Market, slippageBps: int) returns (r: Result<QuoteSummary, QuoteError>)
    ensures r.Failure? <==> GatheredQuotes(m) == []
    ensures r.Success? ==>
      && r.value.bestOffer == BestOffer(GatheredQuotes(m), NoneSeed)
      && (forall q :: q in GatheredQuotes(m) ==> q.amount <= r.value.bestOffer.amount)
      && r.value.amountWithSlippage == AmountWithSlippage(r.value.bestOffer.amount, slippageBps)
      && (0 <= slippageBps <= FullScaleBps ==> 0 <= r.value.amountWithSlippage <= r.value.bestOffer.amount)
  {
    var allResults := CollectQuotes(m);
    if |allResults| == 0 {
      return Failure(NoLiquidityPoolsFound);
    }
    var bestOffer := BestOffer(allResults, NoneSeed);
    var amountWithSlippage := AmountWithSlippage(bestOffer.amount, slippageBps);
    BestOfferIsFirstMaximum(allResults, NoneSeed);
    if 0 <= slippageBps <= FullScaleBps {
      SlippageMinimumIsFloor(bestOffer.amount, slippageBps);
    }
    return Success(QuoteSummary(bestOffer, amountWithSlippage));
  }
}
