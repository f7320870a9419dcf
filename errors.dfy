/** The error variants the bit-scan, bitmap and tick-math code actually returns,
    and the result type the Rust functions return them in. */
module Errors {

  /** `UniswapV3MathError` variants used by the modelled code:
      `ZeroValue` (bit scan of zero), `TickSpacingError` (tick not a multiple
      of the spacing), `T` (tick out of range) and `R` (price out of range). */
  datatype MathError = ZeroValue | TickSpacingError | T | R

  /** `Result<V, UniswapV3MathError>`. */
  datatype Result<V> = Ok(value: V) | Err(error: MathError)
}
