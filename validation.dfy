/**
 * Request validation shared by the router's two entry points, `getMinAmountOut`
 * and `swap`: each malformed input is rejected with one custom error before any
 * venue is asked.
 */
module Validation {
  import opened Venues

  datatype ValidationError = InvalidToken | IdenticalTokens | InvalidAmountIn | SlippageTooHigh

  /** A request that passed every check. */
  datatype SwapRequest = SwapRequest(tokenIn: Address, tokenOut: Address, amountIn: nat, slippageBps: nat)

  /** The first slippage that is rejected: 10000 basis points, the whole amount. */
  const SlippageLimitBps := 10000

  /**
   * The checks in order, stopping at the first that fails: both tokens
   * non-zero, the tokens distinct, a positive amount, a slippage below 10000.
   */
  function Validate(tokenIn: Address, tokenOut: Address, amountIn: nat, slippageBps: nat): (r: Result<SwapRequest, ValidationError>)
    ensures r.Success? <==>
      tokenIn != ZeroAddress && tokenOut != ZeroAddress && tokenIn != tokenOut && amountIn > 0 && slippageBps < SlippageLimitBps
    ensures r.Success? ==> r.value == SwapRequest(tokenIn, tokenOut, amountIn, slippageBps)
  {
    if tokenIn == ZeroAddress || tokenOut == ZeroAddress then Failure(InvalidToken)
    else if tokenIn == tokenOut then Failure(IdenticalTokens)
    else if amountIn == 0 then Failure(InvalidAmountIn)
    else if slippageBps >= SlippageLimitBps then Failure(SlippageTooHigh)
    else Success(SwapRequest(tokenIn, tokenOut, amountIn, slippageBps))
  }

  /** A zero `tokenIn` is an invalid token, whatever the other inputs are. */
  lemma ZeroTokenInIsInvalidToken(tokenOut: Address, amountIn: nat, slippageBps: nat)
    ensures Validate(ZeroAddress, tokenOut, amountIn, slippageBps) == Failure(InvalidToken)
  {
  }

  /** A zero `tokenOut` is an invalid token, whatever the other inputs are. */
  lemma ZeroTokenOutIsInvalidToken(tokenIn: Address, amountIn: nat, slippageBps: nat)
    ensures Validate(tokenIn, ZeroAddress, amountIn, slippageBps) == Failure(InvalidToken)
  {
  }

  /** The same non-zero token on both sides is rejected as identical tokens. */
  lemma SameTokenIsIdenticalTokens(token: Address, amountIn: nat, slippageBps: nat)
    requires token != ZeroAddress
    ensures Validate(token, token, amountIn, slippageBps) == Failure(IdenticalTokens)
  {
  }

  /** With a valid token pair, an amount of 0 is rejected. */
  lemma ZeroAmountIsInvalidAmountIn(tokenIn: Address, tokenOut: Address, slippageBps: nat)
    requires tokenIn != ZeroAddress && tokenOut != ZeroAddress && tokenIn != tokenOut
    ensures Validate(tokenIn, tokenOut, 0, slippageBps) == Failure(InvalidAmountIn)
  {
  }

  /** With a valid pair and a positive amount, a slippage of 10000 or more is rejected. */
  lemma FullSlippageIsTooHigh(tokenIn: Address, tokenOut: Address, amountIn: nat, slippageBps: nat)
    requires tokenIn != ZeroAddress && tokenOut != ZeroAddress && tokenIn != tokenOut && amountIn > 0
    requires slippageBps >= SlippageLimitBps
    ensures Validate(tokenIn, tokenOut, amountIn, slippageBps) == Failure(SlippageTooHigh)
  {
  }
}
