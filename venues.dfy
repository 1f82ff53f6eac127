/**
 * Values shared by the quote helpers and the router: addresses, the outcome of
 * one call to an external venue contract, the per-venue observations that
 * stand in for those calls, and the quote records the helpers collect.
 */
module Venues {

  /** A 20-byte account or contract address; the zero address is 0. */
  type Address = nat

  const ZeroAddress: Address := 0

  datatype Option<+T> = None | Some(value: T)

  datatype Result<+R, +E> = Success(value: R) | Failure(error: E)

  /** What one awaited contract call gives: it throws, or it returns a value. */
  datatype Call<+T> = Threw | Returned(value: T)

  /**
   * The constant-product (V2) venue as seen through its two calls:
   * the factory's `getPair` and the router's `getAmountsOut`.
   */
  datatype V2Venue = V2Venue(getPair: Call<Address>, getAmountsOut: Call<seq<nat>>)

  /**
   * One concentrated-liquidity (V3) fee tier: the factory's `getPool` for this
   * fee and the quoter's `quoteExactInputSingle` amount.
   */
  datatype V3Venue = V3Venue(fee: nat, getPool: Call<Address>, quote: Call<nat>)

  /**
   * Everything the venues answer for one (tokenIn, tokenOut, amountIn):
   * the V2 venue and one entry per fee tier, in the configured fee order.
   */
  datatype Market = Market(v2: V2Venue, v3: seq<V3Venue>)

  /** The `type` label of a quote record: V2, V3 at a fee, or a reduce seed's label. */
  datatype Venue = V2 | V3(fee: nat) | Label(text: string)

  /** A collected quote: which venue, and the output amount it offers. */
  datatype PoolResult = PoolResult(venue: Venue, amount: nat)

}
