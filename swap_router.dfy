/**
 * The router's two entry points as the functional and validation tests observe
 * them. `getMinAmountOut` validates, selects the best venue and emits the
 * slippage minimum; `swap` does the same and then settles against the caller's
 * balances, all or nothing. The venue's exchange is external: its realised
 * output is a parameter.
 */
module SwapRouter {
  import opened Venues
  import opened BestQuote
  import opened Validation

  datatype RouterError =
    | Invalid(reason: ValidationError)   // a custom error from validation
    | NoLiquidity                        // no venue offered a quote
    | TransferFailed                     // the input could not be pulled from the caller
    | SlippageViolation                  // the realised output fell below the minimum

  datatype Event =
    | MinAmountOutCalculated(minAmountOut: nat)
    | SwapExecuted(tokenIn: Address, tokenOut: Address, amountIn: nat, amountOut: nat, minAmountOut: nat)

  /** The selected venue and the least output the caller accepts from it. */
  datatype Quoted = Quoted(best: PoolResult, minAmountOut: nat)

  datatype Settlement = Settlement(venueUsed: Venue, amountOut: nat, minAmountOut: nat)

  /**
   * The router's venue choice: the strict-`>` reduce seeded with the first
   * collected quote, so the choice is always a venue that quoted. It is the
   * first quote of maximal amount, and its amount is the one the off-chain
   * helper's `'None'`-seeded reduce picks.
   */
  lemma {:induction false} RouterPickIsFirstMaximum(quotes: seq<PoolResult>)
    requires quotes != []
    ensures var r := BestOffer(quotes[1..], quotes[0]);
      && r.amount == BestOffer(quotes, NoneSeed).amount
      && (forall j :: 0 <= j < |quotes| ==> quotes[j].amount <= r.amount)
      && exists k :: 0 <= k < |quotes| && quotes[k] == r && forall j :: 0 <= j < k ==> quotes[j].amount < r.amount
  {
    var rest := quotes[1..];
    var r := BestOffer(rest, quotes[0]);
    BestOfferIsFirstMaximum(rest, quotes[0]);
    forall j | 1 <= j < |quotes| ensures quotes[j] == rest[j - 1] { }
    if quotes[0].amount > NoneSeed.amount {
      assert BestOffer(quotes, NoneSeed) == r;
    } else {
      assert BestOffer(quotes, NoneSeed) == BestOffer(rest, NoneSeed);
      BestOfferAmountIgnoresSeedLabel(rest, quotes[0], NoneSeed);
    }
    if exists j :: 0 <= j < |rest| && rest[j].amount > quotes[0].amount {
      var k :| 0 <= k < |rest| && rest[k] == r && forall i :: 0 <= i < k ==> rest[i].amount < r.amount;
      assert quotes[k + 1] == r;
    } else {
      assert quotes[0] == r;
    }
  }

  /**
   * Validation, venue selection and the slippage minimum, shared by both entry
   * points. The selected quote is the first collected quote of maximal amount;
   * the minimum is the off-chain `amountWithSlippage` for the same inputs and
   * never exceeds the selected amount.
   */
  function QuoteMinimum(m: Market, tokenIn: Address, tokenOut: Address, amountIn: nat, slippageBps: nat): (r: Result<Quoted, RouterError>)
    ensures Validate(tokenIn, tokenOut, amountIn, slippageBps).Failure? ==>
      r == Failure(Invalid(Validate(tokenIn, tokenOut, amountIn, slippageBps).error))
    ensures Validate(tokenIn, tokenOut, amountIn, slippageBps).Success? ==>
      (r == Failure(NoLiquidity) <==> GatheredQuotes(m) == [])
    ensures r.Success? <==> Validate(tokenIn, tokenOut, amountIn, slippageBps).Success? && GatheredQuotes(m) != []
    ensures r.Success? ==>
      && r.value.best.amount == BestOffer(GatheredQuotes(m), NoneSeed).amount
      && (exists k :: 0 <= k < |GatheredQuotes(m)| && GatheredQuotes(m)[k] == r.value.best
                    && forall j :: 0 <= j < k ==> GatheredQuotes(m)[j].amount < r.value.best.amount)
      && (forall q :: q in GatheredQuotes(m) ==> q.amount <= r.value.best.amount)
      && r.value.minAmountOut == AmountWithSlippage(r.value.best.amount, slippageBps)
      && r.value.minAmountOut <= r.value.best.amount
  {
    match Validate(tokenIn, tokenOut, amountIn, slippageBps)
    case Failure(e) => Failure(Invalid(e))
    case Success(_) =>
      var quotes := GatheredQuotes(m);
      if quotes == [] then Failure(NoLiquidity)
      else
        var best := BestOffer(quotes[1..], quotes[0]);
        RouterPickIsFirstMaximum(quotes);
        SlippageMinimumIsFloor(best.amount, slippageBps);
        Success(Quoted(best, AmountWithSlippage(best.amount, slippageBps) as nat))
  }

  /** A balance in a (token, holder) table; a missing key is a zero balance. */
  function Balance(balances: map<(Address, Address), nat>, token: Address, holder: Address): nat
  {
    if (token, holder) in balances then balances[(token, holder)] else 0
  }

  /**
   * The settlement's effect on the balance table: the caller is debited
   * `amountIn` of `tokenIn` and credited `amountOut` of `tokenOut`, and no
   * other balance changes.
   */
  function Settle(balances: map<(Address, Address), nat>, caller: Address, tokenIn: Address, tokenOut: Address,
                  amountIn: nat, amountOut: nat): (after: map<(Address, Address), nat>)
    requires tokenIn != tokenOut
    requires Balance(balances, tokenIn, caller) >= amountIn
    ensures Balance(after, tokenIn, caller) == Balance(balances, tokenIn, caller) - amountIn
    ensures Balance(after, tokenOut, caller) == Balance(balances, tokenOut, caller) + amountOut
    ensures forall token: Address, holder: Address :: (token, holder) != (tokenIn, caller) && (token, holder) != (tokenOut, caller)
              ==> Balance(after, token, holder) == Balance(balances, token, holder)
  {
    balances[(tokenIn, caller) := Balance(balances, tokenIn, caller) - amountIn]
            [(tokenOut, caller) := Balance(balances, tokenOut, caller) + amountOut]
  }

  /** The router's view of the caller's token balances and of the events it has emitted. */
  class Router {
    /** Token balances keyed by (token, holder); a missing key is a zero balance. */
    var balances: map<(Address, Address), nat>
    /** The events emitted so far, oldest first. */
    var events: seq<Event>

    constructor (initial: map<(Address, Address), nat>)
      ensures balances == initial && events == []
    {
      balances := initial;
      events := [];
    }

    function BalanceOf(token: Address, holder: Address): nat
      reads this
    {
      Balance(balances, token, holder)
    }

    /**
     * `getMinAmountOut`: on success emits `minAmountOutCalculated` with the
     * minimum; it never moves a balance, and a failure emits nothing.
     */
    method GetMinAmountOut(m: Market, tokenIn: Address, tokenOut: Address, amountIn: nat, slippageBps: nat)
      returns (r: Result<nat, RouterError>)
      modifies this
      ensures balances == old(balances)
      ensures var q := QuoteMinimum(m, tokenIn, tokenOut, amountIn, slippageBps);
        && (q.Failure? ==> r == Failure(q.error) && events == old(events))
        && (q.Success? ==> r == Success(q.value.minAmountOut) && events == old(events) + [MinAmountOutCalculated(r.value)])
    {
      var q := QuoteMinimum(m, tokenIn, tokenOut, amountIn, slippageBps);
      if q.Failure? {
        return Failure(q.error);
      }
      events := events + [MinAmountOutCalculated(q.value.minAmountOut)];
      return Success(q.value.minAmountOut);
    }

    /**
     * `swap` for `caller`, who has allowed the router `allowance` of `tokenIn`;
     * the selected venue turns `amountIn` into `amountOut`. On success the
     * caller's input balance drops by exactly `amountIn`, the output balance
     * rises by `amountOut`, which is at least the minimum, nothing else
     * changes, and `swapExecuted` is emitted. Every failure leaves the balances
     * and the events as they were.
     */
    method Swap(caller: Address, m: Market, tokenIn: Address, tokenOut: Address, amountIn: nat, slippageBps: nat,
                allowance: nat, amountOut: nat)
      returns (r: Result<Settlement, RouterError>)
      modifies this
      ensures r.Failure? ==> balances == old(balances) && events == old(events)
      ensures var q := QuoteMinimum(m, tokenIn, tokenOut, amountIn, slippageBps);
        && (q.Failure? ==> r == Failure(q.error))
        && (q.Success? && (allowance < amountIn || old(BalanceOf(tokenIn, caller)) < amountIn) ==> r == Failure(TransferFailed))
        && (r == Failure(SlippageViolation) <==>
              q.Success? && allowance >= amountIn && old(BalanceOf(tokenIn, caller)) >= amountIn && amountOut < q.value.minAmountOut)
        && (r.Success? <==>
              q.Success? && allowance >= amountIn && old(BalanceOf(tokenIn, caller)) >= amountIn && amountOut >= q.value.minAmountOut)
        && (r.Success? ==>
              r.value == Settlement(q.value.best.venue, amountOut, q.value.minAmountOut))
    ensures r.Success? ==>
      && amountOut >= r.value.minAmountOut
      && BalanceOf(tokenIn, caller) == old(BalanceOf(tokenIn, caller)) - amountIn
      && BalanceOf(tokenOut, caller) == old(BalanceOf(tokenOut, caller)) + amountOut
      && (amountOut > 0 ==> BalanceOf(tokenOut, caller) > old(BalanceOf(tokenOut, caller)))
      && balances == Settle(old(balances), caller, tokenIn, tokenOut, amountIn, amountOut)
      && events == old(events) + [SwapExecuted(tokenIn, tokenOut, amountIn, amountOut, r.value.minAmountOut)]
    {
      var q := QuoteMinimum(m, tokenIn, tokenOut, amountIn, slippageBps);
      if q.Failure? {
        return Failure(q.error);
      }
      var minAmountOut := q.value.minAmountOut;
      assert tokenIn != tokenOut;
      var balanceIn := BalanceOf(tokenIn, caller);
      if allowance < amountIn || balanceIn < amountIn {
        return Failure(TransferFailed);
      }
      if amountOut < minAmountOut {
        return Failure(SlippageViolation);
      }
      balances := Settle(balances, caller, tokenIn, tokenOut, amountIn, amountOut);
      events := events + [SwapExecuted(tokenIn, tokenOut, amountIn, amountOut, minAmountOut)];
      return Success(Settlement(q.value.best.venue, amountOut, minAmountOut));
    }
  }
}
