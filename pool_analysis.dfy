/**
 * The second aggregation, the body of the test 'Find best pool for WETH/USDC
 * swap'. It asks the same venues as `getBestUniswapQuote` but handles their
 * failures differently: a `getPair` error reads as the zero address, while
 * `getAmountsOut` and `getPool` errors are not caught and abort the analysis;
 * only V3 quote errors are absorbed. The V3 part is a map over the fee tiers
 * joined by `Promise.all` and compacted by `filter(Boolean)`. The comparison
 * lemmas take one `Market` for both aggregations, that is, the helper asked
 * for the same tokens and amount against the same chain state.
 */
module PoolAnalysis {
  import opened Venues
  import opened BestQuote

  /**
   * The async body mapped over one fee tier: a `getPool` error propagates,
   * the zero pool and a quote error give `null`, a quote gives a record.
   */
  function TierOutcome(tier: V3Venue): Call<Option<PoolResult>>
  {
    match tier.getPool
    case Threw => Threw
    case Returned(pool) =>
      if pool == ZeroAddress then Returned(None)
      else
        match tier.quote
        case Threw => Returned(None)
        case Returned(amountOut) => Returned(Some(PoolResult(V3(tier.fee), amountOut)))
  }

  /** `Promise.all` over the mapped tiers: rejects if any tier rejects, else their outcomes in fee order. */
  function SettleAll(tiers: seq<V3Venue>): Call<seq<Option<PoolResult>>>
  {
    if tiers == [] then Returned([])
    else
      match TierOutcome(tiers[0])
      case Threw => Threw
      case Returned(head) =>
        match SettleAll(tiers[1..])
        case Threw => Threw
        case Returned(rest) => Returned([head] + rest)
  }

  /** `filter(Boolean)`: drops the `null` outcomes, keeping the order of the rest. */
  function Compact(outcomes: seq<Option<PoolResult>>): seq<PoolResult>
  {
    if outcomes == [] then []
    else (if outcomes[0].Some? then [outcomes[0].value] else []) + Compact(outcomes[1..])
  }

  /** The pair address the test goes on with: a `getPair` error is replaced by the zero address. */
  function PairOrZero(v2: V2Venue): Address
  {
    match v2.getPair
    case Threw => ZeroAddress
    case Returned(pair) => pair
  }

  /**
   * The V2 part of `allResults`: nothing for the zero pair; otherwise element 1
   * of `amountsOut` when the array is longer than one (a 0 is kept), and an
   * uncaught error when `getAmountsOut` throws.
   */
  function V2Part(v2: V2Venue): Call<seq<PoolResult>>
  {
    if PairOrZero(v2) == ZeroAddress then Returned([])
    else
      match v2.getAmountsOut
      case Threw => Threw
      case Returned(amountsOut) =>
        Returned(if |amountsOut| > 1 then [PoolResult(V2, amountsOut[1])] else [])
  }

  /** The finished `allResults` list, or Threw when an uncaught call aborted the test. */
  function AnalysisResults(m: Market): Call<seq<PoolResult>>
  {
    match V2Part(m.v2)
    case Threw => Threw
    case Returned(v2Results) =>
      match SettleAll(m.v3)
      case Threw => Threw
      case Returned(settled) => Returned(v2Results + Compact(settled))
  }

  datatype AnalysisError =
    | Uncaught                 // a venue call threw outside any try block
    | NoLiquidityPoolsFound    // `allResults` stayed empty
    | BestAmountNotPositive    // the final `expect(...).to.be.greaterThan(0)` fails

  /** The reduce's seed here, `{ type: '', amount: 0n }`. */
  const EmptySeed := PoolResult(Label(""), 0)

  /**
   * The test body. It succeeds with the first collected quote of maximal,
   * positive amount; it fails on an uncaught venue error, on an empty list,
   * and on a list whose amounts are all 0.
   */
  method AnalysePools(m: Market) returns (r: Result<PoolResult, AnalysisError>)
    ensures r == Failure(Uncaught) <==> AnalysisResults(m).Threw?
    ensures r == Failure(AnalysisError.NoLiquidityPoolsFound) <==> AnalysisResults(m) == Returned([])
    ensures r == Failure(BestAmountNotPositive) <==>
      && AnalysisResults(m).Returned? && AnalysisResults(m).value != []
      && forall q :: q in AnalysisResults(m).value ==> q.amount == 0
    ensures r.Success? ==>
      && AnalysisResults(m).Returned?
      && r.value == BestOffer(AnalysisResults(m).value, EmptySeed)
      && r.value in AnalysisResults(m).value
      && r.value.amount > 0
      && forall q :: q in AnalysisResults(m).value ==> q.amount <= r.value.amount
  {
    var allResults: seq<PoolResult> := [];
    var v2Pair: Address;
    match m.v2.getPair {
      case Threw => v2Pair := ZeroAddress;
      case Returned(pair) => v2Pair := pair;
    }
    assert v2Pair == PairOrZero(m.v2);
    if v2Pair != ZeroAddress {
      match m.v2.getAmountsOut {
        case Threw =>
          return Failure(Uncaught);
        case Returned(amountsOut) =>
          if |amountsOut| > 1 {
            allResults := allResults + [PoolResult(V2, amountsOut[1])];
            assert allResults == [PoolResult(V2, amountsOut[1])];
          }
      }
    }
    assert V2Part(m.v2) == Returned(allResults);
    var v3Results := SettleAll(m.v3);
    if v3Results.Threw? {
      return Failure(Uncaught);
    }
    allResults := allResults + Compact(v3Results.value);
    assert AnalysisResults(m) == Returned(allResults);
    if |allResults| == 0 {
      return Failure(AnalysisError.NoLiquidityPoolsFound);
    }
    var bestOffer := BestOffer(allResults, EmptySeed);
    BestOfferIsFirstMaximum(allResults, EmptySeed);
    if !(bestOffer.amount > 0) {
      return Failure(BestAmountNotPositive);
    }
    ghost var j :| 0 <= j < |allResults| && allResults[j].amount > EmptySeed.amount;
    return Success(bestOffer);
  }

  // ---------------------------------------------------------------------------
  // Where the two aggregations differ and where they agree
  // ---------------------------------------------------------------------------

  lemma {:induction false} SettleAllThrowsIff(tiers: seq<V3Venue>)
    ensures SettleAll(tiers).Threw? <==> exists i :: 0 <= i < |tiers| && tiers[i].getPool.Threw?
    decreases |tiers|
  {
    if tiers != [] {
      SettleAllThrowsIff(tiers[1..]);
      if exists i :: 0 <= i < |tiers| && tiers[i].getPool.Threw? {
        var i :| 0 <= i < |tiers| && tiers[i].getPool.Threw?;
        if i > 0 {
          assert tiers[1..][i - 1].getPool.Threw?;
        }
      } else {
        forall i | 0 <= i < |tiers[1..]| ensures !tiers[1..][i].getPool.Threw? {
          assert tiers[1..][i] == tiers[i + 1];
        }
      }
    }
  }

  /**
   * When no `getPool` throws, the compacted V3 outcomes are exactly what the
   * collection loop of `getBestUniswapQuote` pushes, in the same order.
   */
  lemma {:induction false} CompactedTiersMatchCollector(tiers: seq<V3Venue>)
    requires SettleAll(tiers).Returned?
    ensures Compact(SettleAll(tiers).value) == V3Contributions(tiers)
    decreases |tiers|
  {
    if tiers != [] {
      CompactedTiersMatchCollector(tiers[1..]);
      var settled := SettleAll(tiers).value;
      assert settled[1..] == SettleAll(tiers[1..]).value;
    }
  }

  /** A `getPair` error is handled exactly as if `getPair` had returned the zero address. */
  lemma PairErrorReadsAsZeroAddress(m: Market)
    requires m.v2.getPair.Threw?
    ensures AnalysisResults(m) == AnalysisResults(Market(V2Venue(Returned(ZeroAddress), m.v2.getAmountsOut), m.v3))
    ensures AnalysisResults(m).Returned? ==> AnalysisResults(m).value == Compact(SettleAll(m.v3).value)
  {
  }

  /**
   * The analysis aborts exactly when `getAmountsOut` throws behind a non-zero
   * pair or some tier's `getPool` throws; `getBestUniswapQuote` absorbs both.
   */
  lemma AnalysisAbortsIff(m: Market)
    ensures AnalysisResults(m).Threw? <==>
      || (PairOrZero(m.v2) != ZeroAddress && m.v2.getAmountsOut.Threw?)
      || (exists i :: 0 <= i < |m.v3| && m.v3[i].getPool.Threw?)
  {
    SettleAllThrowsIff(m.v3);
  }

  /**
   * When the analysis does not abort, its list is the one `getBestUniswapQuote`
   * collects, except for a V2 quote of 0, which only the analysis keeps (at the front).
   */
  lemma AnalysisAgreesWithCollector(m: Market)
    requires AnalysisResults(m).Returned?
    ensures var xs := AnalysisResults(m).value;
      var zeroV2 := PairOrZero(m.v2) != ZeroAddress && |m.v2.getAmountsOut.value| > 1 && m.v2.getAmountsOut.value[1] == 0;
      && (zeroV2 ==> xs == [PoolResult(V2, 0)] + GatheredQuotes(m))
      && (!zeroV2 ==> xs == GatheredQuotes(m))
  {
    CompactedTiersMatchCollector(m.v3);
  }

  /**
   * The two selections pick the same best amount whenever the analysis does
   * not abort: a kept zero V2 quote cannot beat a seed of amount 0, and the
   * seeds differ only in their labels.
   */
  lemma BestAmountsAgree(m: Market)
    requires AnalysisResults(m).Returned?
    ensures BestOffer(AnalysisResults(m).value, EmptySeed).amount == BestOffer(GatheredQuotes(m), NoneSeed).amount
  {
    AnalysisAgreesWithCollector(m);
    var gathered := GatheredQuotes(m);
    var xs := AnalysisResults(m).value;
    if xs != gathered {
      assert xs[1..] == gathered;
      assert BestOffer(xs, EmptySeed) == BestOffer(gathered, EmptySeed);
    }
    BestOfferAmountIgnoresSeedLabel(gathered, EmptySeed, NoneSeed);
  }

  /**
   * When `getBestUniswapQuote` finds no liquidity, the analysis fails as well:
   * it aborts, or its list holds nothing but quotes of 0. Conversely an empty
   * analysis list means the collector's list is empty too.
   */
  lemma NoLiquidityInBoth(m: Market)
    ensures GatheredQuotes(m) == [] ==>
      AnalysisResults(m).Threw? || forall q :: q in AnalysisResults(m).value ==> q.amount == 0
    ensures AnalysisResults(m) == Returned([]) ==> GatheredQuotes(m) == []
  {
    if AnalysisResults(m).Returned? {
      AnalysisAgreesWithCollector(m);
    }
  }
}
