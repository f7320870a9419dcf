# uniswap-v3-math core, modelled in Dafny

This project models the arithmetic core of the Rust crate `uniswap-v3-math`,
a port of the Uniswap V3 Solidity math libraries:

- **`bit_math.rs`**: the most and the least significant set bit of a 256-bit
  word. Both fail with `ZeroValue` on zero.
- **`tick_bitmap.rs`**: the sparse tick bitmap.
  - It is a `HashMap<i16, U256>` from a word index to a 256-bit word. Bit `b`
    of word `w` says whether compressed tick `256 * w + b` is initialized, and
    an absent word reads as zero.
  - `position` splits a compressed tick into its word and bit.
  - `flip_tick` toggles one bit in place.
  - `next_initialized_tick_within_one_word` finds the nearest initialized tick
    at or below a tick, or strictly above it, without leaving one word.
- **`tick_math.rs`**: the constants and the conversions between a tick `i`
  and the Q64.96 square-root price `sqrt(1.0001^i) * 2^96`.
  - `get_sqrt_ratio_at_tick` picks a start constant by the lowest bit of the
    absolute tick, then runs nineteen guarded Q128 multiplications over its
    other bits, inverts the result for a positive tick and
    rounds it up to Q96.
  - `get_tick_at_sqrt_ratio` checks the range, finds the top bit with a
    straight-line search and normalises the ratio. It then computes 14
    fraction bits of log2 by repeated squaring, multiplies by a constant in
    signed 256-bit arithmetic, and picks one of two candidate ticks by a
    re-check.
- **`unsafe_math.rs`**: `div_rounding_up`, modelled as written (see
  Findings).

Words are bounded `nat`s (`Word.U256`). Each Rust operator that can wrap is
written with an explicit `% 2^256` (`MulWrap`, `Shl`, `AddWrap`, `SubWrap`).
The bitwise operators are recursive functions on `nat`.

`I256` is an `int` in `[-2^255, 2^255)`:
- `Raw` and `FromRaw` convert to and from the two's-complement bit pattern;
- `>>` is arithmetic, that is, floor division by a power of two;
- `|` works on the bit patterns;
- `+`, `-` and `*` are written with wrap-around (`WrapI256`);
- `low_i32` truncates to the low 32 bits (`WrapI32`).

`i32` division and remainder truncate toward zero (`Signed.RustDiv`,
`Signed.RustRem`). Casts to `i16` and `u8` keep the low bits.

Each imperative function has two parts:
- a specification function on exact integers (`SqrtRatioAtTick`,
  `TickAtSqrtRatio`);
- a method that follows the Rust statements on words (`GetSqrtRatioAtTick`,
  `GetTickAtSqrtRatio`).

The method is proved equal to its specification function, and the properties
are proved about the specification. `flip_tick` mutates a caller-owned map,
modelled as the field `words` of class `TickBitmap.TickBitmap`. The search is
a pure function over such a map.

The error variants are `ZeroValue`, `TickSpacingError`, `T` and `R`, as the
code uses them. `error.rs` declares a different enum, and the model follows
the code.

Modules and files:

| module | file |
|---|---|
| `Errors` | `errors.dfy` |
| `Word` | `word.dfy` |
| `Signed` | `signed.dfy` |
| `BitMath` | `bit_math.dfy` |
| `UnsafeMath` | `unsafe_math.dfy` |
| `TickBitmap` | `tick_bitmap.dfy` |
| `BitmapScenarios` | `bitmap_scenarios.dfy`: the unit-test scenarios of `tick_bitmap.rs` |
| `TickMath` | `tick_math.dfy` |
| `TickMathInverse` | `tick_math_inverse.dfy` |
| `TickMathValues` | `tick_math_values.dfy`: the reference values of the unit tests of `tick_math.rs`, each derived from the model one bit test or squaring at a time |

## Model

| member | source | states |
|---|---|---|
| BitMath.MostSignificantBit | src/bit_math.rs:4-9 | fails with ZeroValue exactly on zero; otherwise the result r has 2^r <= x < 2^(r+1) |
| BitMath.LeastSignificantBit | src/bit_math.rs:11-16 | fails with ZeroValue exactly on zero; otherwise bit r of x is set and x is a multiple of 2^r |
| BitMath.LeadingZeros | src/bit_math.rs:8 | leading_zeros is at most 256, and exactly 256 on zero |
| BitMath.TrailingZerosWord | src/bit_math.rs:15 | a nonzero word's lowest set bit is below 256, so the u8 cast loses nothing |
| BitMath.MsbIs | src/bit_math.rs:8 | the exponent bracketing x is the only answer most_significant_bit can give |
| BitMath.LsbIs | src/bit_math.rs:15 | the lowest set bit is the only answer least_significant_bit can give |
| BitMath.MsbBits | src/bit_math.rs:8 | the most significant bit is set and no bit above it is |
| BitMath.LsbBits | src/bit_math.rs:15 | the least significant bit is set and no bit below it is |
| BitMath.PowersOfTwo | src/bit_math.rs:43-80 | for every i in 0..=255 both functions map 2^i to i |
| BitMath.MaxWord | src/bit_math.rs:49-90 | both functions on 2^256 - 1 give 255 and 0 |
| BitMath.LsbAtMostMsb | src/bit_math.rs:4-16 | for a nonzero word the least significant bit is never above the most significant one |
| UnsafeMath.DivRoundingUp | src/unsafe_math.rs:1-8 | as written: exactly a / b when b divides a, a / b + a % b otherwise, never above a, so the sum never wraps |
| UnsafeMath.AsWrittenVersusCeiling | src/unsafe_math.rs:3-7 | the result as written is at least the ceiling of a / b, and equals it exactly when a % b <= 1 |
| UnsafeMath.AsWrittenCounterexample | src/unsafe_math.rs:6 | div_rounding_up(5, 3) is 3, while the ceiling of 5/3 and the corrected helper give 2 |
| UnsafeMath.DivRoundingUpCorrected | src/unsafe_math.rs:1-8 | the corrected helper r satisfies (r - 1) * b < a <= r * b |
| UnsafeMath.CorrectedIsCeiling | src/unsafe_math.rs:1-8 | the corrected helper is the ceiling of a / b |
| TickBitmap.PositionRoundTrip | src/tick_bitmap.rs:203-205 | the bit index is the Euclidean remainder by 256, and word * 256 + bit recomposes the tick whenever tick >> 8 fits i16 |
| TickBitmap.PositionInjective | src/tick_bitmap.rs:203-205 | in word range, two ticks have the same position exactly when they are equal |
| TickBitmap.PositionSameWord | src/tick_bitmap.rs:203-205 | ticks of one word share the word index and their bit indices differ as the ticks do |
| TickBitmap.CompressIsFloor | src/tick_bitmap.rs:152-156 | for a positive spacing the compressed tick is the floor of tick / spacing, negative non-multiples included |
| TickBitmap.FlipToggles | src/tick_bitmap.rs:137-140 | a flip toggles the lookup at its own position and leaves every other position's lookup unchanged, an absent word counting as zero |
| TickBitmap.FlipTogglesOnlyThatTick | src/tick_bitmap.rs:137-140 | in word range, exactly the flipped tick changes its initialized state |
| TickBitmap.FlipTwice | src/tick_bitmap.rs:139-140 | flipping a tick twice restores every default-zero lookup, while the flipped word's key stays in the map |
| TickBitmap.TickBitmap.constructor | src/tick_bitmap.rs:215 | a new bitmap is the empty map, with no tick initialized |
| TickBitmap.TickBitmap.FlipTick | src/tick_bitmap.rs:128-142 | a tick that is not a multiple of the spacing fails with TickSpacingError and leaves the map unchanged; otherwise the map becomes Flipped at tick / spacing |
| TickBitmap.NextInitializedTickWithinOneWord | src/tick_bitmap.rs:146-200 | the search never fails: a nonzero masked word always has a most and a least significant bit |
| TickBitmap.SearchAtOrBelow | src/tick_bitmap.rs:158-177 | the lte branch never fails |
| TickBitmap.SearchAbove | src/tick_bitmap.rs:178-199 | the gt branch never fails |
| TickBitmap.LteMask | src/tick_bitmap.rs:161 | the lte mask (1 << b) - 1 + (1 << b) does not wrap and holds exactly bits 0..=b |
| TickBitmap.GtMask | src/tick_bitmap.rs:181 | the gt mask !((1 << b) - 1) holds exactly bits b..=255 |
| TickBitmap.LteSearchBits | src/tick_bitmap.rs:161-170 | a nonzero masked word has as its most significant bit the highest set bit of the word at or below b; otherwise no bit at or below b is set |
| TickBitmap.GtSearchBits | src/tick_bitmap.rs:181-192 | a nonzero masked word has as its least significant bit the lowest set bit of the word at or above b; otherwise no bit from b on is set |
| TickBitmap.ScaleBelow | src/tick_bitmap.rs:167-174 | the lte result n * spacing fits i32, is at most the tick and divides back to n |
| TickBitmap.ScaleAbove | src/tick_bitmap.rs:187-195 | the gt result n * spacing fits i32, is above the tick and divides back to n |
| TickBitmap.LteCompressed | src/tick_bitmap.rs:159-175 | the lte stop lies in the compressed tick's word at or below it; if a bit was found it is initialized and nothing between it and the compressed tick is, otherwise it is the word's lowest tick and nothing up to the compressed tick is initialized |
| TickBitmap.GtCompressed | src/tick_bitmap.rs:179-196 | the gt stop lies in the word of compressed + 1 at or above it; if a bit was found it is initialized and nothing from compressed + 1 below it is, otherwise it is that word's highest tick and nothing from compressed + 1 on is initialized |
| TickBitmap.LteValue | src/tick_bitmap.rs:158-177 | the lte branch returns its stop times the spacing, with the flag |
| TickBitmap.GtValue | src/tick_bitmap.rs:178-199 | the gt branch returns its stop from compressed + 1 times the spacing, with the flag |
| TickBitmap.LteShape | src/tick_bitmap.rs:152-177 | at the floor quotient, the lte result is the stop times the spacing, at most the tick |
| TickBitmap.GtShape | src/tick_bitmap.rs:152-199 | at the floor quotient, the gt result is the stop times the spacing, above the tick |
| TickBitmap.NextInitializedLte | src/tick_bitmap.rs:146-177 | with lte: the result is a multiple n * spacing at or below the tick, with n in the compressed tick's word; when initialized, n is the highest initialized tick at or below the compressed tick in that word; otherwise n is the word's lowest tick and nothing up to the compressed tick is initialized |
| TickBitmap.NextInitializedGt | src/tick_bitmap.rs:178-199 | without lte: the result is a multiple n * spacing above the tick, with n in the word of compressed + 1; when initialized, n is the lowest initialized tick from compressed + 1 on in that word; otherwise n is that word's highest tick and nothing from compressed + 1 on is initialized |
| TickBitmap.LteFinds | src/tick_bitmap.rs:158-177 | if k is initialized at or below the compressed tick in its word, with nothing initialized between, the lte search returns (k * spacing, true) |
| TickBitmap.LteFindsNone | src/tick_bitmap.rs:158-177 | if nothing in the word up to the compressed tick is initialized, the lte search returns the word's lowest tick, uninitialized |
| TickBitmap.GtFinds | src/tick_bitmap.rs:178-199 | if k is initialized from compressed + 1 on in that word, with nothing initialized between, the gt search returns (k * spacing, true) |
| TickBitmap.GtFindsNone | src/tick_bitmap.rs:178-199 | if nothing in the word of compressed + 1 from there on is initialized, the gt search returns that word's highest tick, uninitialized |
| BitmapScenarios.FlipAllParity | src/tick_bitmap.rs:137-140 | after a sequence of flips a tick is initialized exactly when it was before, toggled once per occurrence: only each tick's count matters, not the order |
| BitmapScenarios.FlipAllFromEmpty | src/tick_bitmap.rs:137-140 | from an empty bitmap, a tick is initialized exactly when the flips named it an odd number of times |
| BitmapScenarios.FlipDistinct | src/tick_bitmap.rs:213-220 | flipping distinct ticks into an empty bitmap initializes exactly them |
| BitmapScenarios.FlipExtends | src/tick_bitmap.rs:270 | flipping an uninitialized tick adds exactly that tick to the initialized ones |
| BitmapScenarios.TestTicksDistinct | src/tick_bitmap.rs:214 | the test ticks are distinct and in word range |
| BitmapScenarios.InitTestTicks | src/tick_bitmap.rs:213-220 | init_test_ticks builds the map of the nine flips, in order, into a fresh bitmap |
| BitmapScenarios.TestBitmapExactly | src/tick_bitmap.rs:213-220 | that bitmap has exactly the test ticks initialized |
| BitmapScenarios.InitializedBySearchIsBit | src/tick_bitmap.rs:222-230 | the test helper initialized reports exactly whether the tick is initialized |
| BitmapScenarios.SearchReportsParity | src/tick_bitmap.rs:222-230 | on flips into an empty bitmap, the helper reports a tick initialized exactly when it was flipped an odd number of times |
| BitmapScenarios.AboveFinds84 | src/tick_bitmap.rs:236-239 | from 78 to 83 the search to the right gives (84, true) |
| BitmapScenarios.AboveFinds78 | src/tick_bitmap.rs:242-246 | from 70 to 77 the search to the right gives (78, true) |
| BitmapScenarios.AboveFindsMinus55 | src/tick_bitmap.rs:249-253 | from -200 to -56 the search to the right gives (-55, true) |
| BitmapScenarios.AboveStopsAt511 | src/tick_bitmap.rs:256-296 | from 255 to 510 the search to the right gives (511, false) |
| BitmapScenarios.AboveFindsMinus200 | src/tick_bitmap.rs:263-267 | from -257 to -201 the search to the right gives (-200, true) |
| BitmapScenarios.AboveFinds340In | src/tick_bitmap.rs:270-275 | with 340 initialized as well, from 255 to 339 the search to the right gives (340, true) |
| BitmapScenarios.AboveFindsFlipped340 | src/tick_bitmap.rs:270-275 | after also flipping 340, from 255 to 339 the search to the right gives (340, true) |
| BitmapScenarios.AtOrBelowFinds78 | src/tick_bitmap.rs:304-312 | from 78 to 83 the search at or below gives (78, true) |
| BitmapScenarios.AtOrBelowFinds70 | src/tick_bitmap.rs:329-332 | from 70 to 77 the search at or below gives (70, true) |
| BitmapScenarios.AtOrBelowStopsAt256 | src/tick_bitmap.rs:315-326 | from 256 to 511 the search at or below gives (256, false) |
| BitmapScenarios.AtOrBelowStopsAtMinus512 | src/tick_bitmap.rs:335-339 | from -512 to -257 the search at or below gives (-512, false) |
| BitmapScenarios.AtOrBelowStopsAt768 | src/tick_bitmap.rs:342-353 | from 768 to 1023 the search at or below gives (768, false) |
| BitmapScenarios.AtOrBelowFinds329In | src/tick_bitmap.rs:356-361 | with 329 initialized as well, from 329 to 511 the search at or below gives (329, true) |
| BitmapScenarios.AtOrBelowFindsFlipped329 | src/tick_bitmap.rs:356-361 | after also flipping 329, from 329 to 511 the search at or below gives (329, true) |
| BitmapScenarios.OneFlip | src/tick_bitmap.rs:366-414 | one flip into an empty bitmap initializes exactly its tick |
| BitmapScenarios.TwoFlips | src/tick_bitmap.rs:377-382 | flipping a tick twice leaves every tick uninitialized |
| BitmapScenarios.RevertCounts | src/tick_bitmap.rs:428-434 | among the flips of "reverts only itself", exactly -230, -259 and 500 occur an odd number of times |
| BitmapScenarios.RevertsOnlyItself | src/tick_bitmap.rs:426-438 | after those flips exactly -230, -259 and 500 are initialized, and -229 is not |
| TickMath.FactorBelow | src/tick_math.rs:43-109 | every Q128 factor is below 2^128 |
| TickMath.FoldAtMost | src/tick_math.rs:43-109 | the factors never increase the ratio |
| TickMath.FoldAtLeast | src/tick_math.rs:43-109 | the ratio is at least the product of all twenty factors |
| TickMath.AllFoldValue | src/tick_math.rs:43-109 | the product of all twenty factors, applied step by step, is RATIO_FLOOR |
| TickMath.RatioBounds | src/tick_math.rs:43-112 | the ratio lies in [RATIO_FLOOR, 2^128], so it is positive and the division at line 112 is defined |
| TickMath.RatioPositive | src/tick_math.rs:112 | the ratio is positive |
| TickMath.SqrtRatioAtTick | src/tick_math.rs:32-121 | fails exactly when the absolute tick exceeds MAX_TICK, and then with T |
| TickMath.SqrtRatioSide | src/tick_math.rs:32-121 | tick 0 gives 2^96; a negative tick gives at most 2^96 and a positive tick at least 2^96 |
| TickMath.RatioStep | src/tick_math.rs:49-109 | one guarded multiply-and-shift keeps the ratio within 2^128, does not wrap, and leaves the fold of the remaining bits unchanged |
| TickMath.MulShrIsStep | src/tick_math.rs:50 | (ratio * factor) >> 128 on words equals the exact Q128 step |
| TickMath.MulIfBit | src/tick_math.rs:49-51 | one bit test keeps the running ratio on course for the ratio of the whole tick |
| TickMath.RatioStart | src/tick_math.rs:43-47 | the start value is the odd-bit factor or 2^128 |
| TickMath.RatioAtAbsTick | src/tick_math.rs:43-109 | the twenty bit tests compute Ratio(absTick) |
| TickMath.RoundUp | src/tick_math.rs:115-120 | (ratio >> 32) + (ratio % 2^32 != 0) is the ceiling of ratio / 2^32, and fits a word |
| TickMath.SqrtFinish | src/tick_math.rs:111-120 | the inversion for a positive tick and the rounding give the specified price |
| TickMath.GetSqrtRatioAtTick | src/tick_math.rs:32-121 | the statement-by-statement method equals SqrtRatioAtTick |
| TickMathInverse.TickAtSqrtRatio | src/tick_math.rs:123-126 | fails exactly when the price is outside [MIN_SQRT_RATIO, MAX_SQRT_RATIO), and then with R |
| TickMathInverse.NormaliseRange | src/tick_math.rs:192-196 | a ratio with top bit msb normalises into [2^127, 2^128) |
| TickMathInverse.SquareRange | src/tick_math.rs:201-205 | squaring a number of [1, 2) does not wrap, gives one of [1, 4), and halving by its top bit returns it to [1, 2) |
| TickMathInverse.FracFoldBound | src/tick_math.rs:200-210 | n more fraction bits keep the bits so far as the leading bits |
| TickMathInverse.PriceTopBit | src/tick_math.rs:128 | an accepted price shifted to a ratio has its top bit between 64 and 191 |
| TickMathInverse.Log2Parts | src/tick_math.rs:198-210 | the integer part of the logarithm lies in [-64, 63] and there are fewer than 2^14 fraction bits |
| TickMathInverse.LogOfParts | src/tick_math.rs:198-210 | those parts make a logarithm in [LOG_MIN, LOG_MAX] |
| TickMathInverse.Log2Range | src/tick_math.rs:212 | the logarithm of every accepted price times SQRT_10001 lies within the range those bounds give |
| TickMathInverse.CandidateRange | src/tick_math.rs:214-216 | both candidates of a logarithm in range are ticks, the higher within [MIN_TICK, MAX_TICK] |
| TickMathInverse.CandidateBounds | src/tick_math.rs:214-220 | for every accepted price the higher candidate is in range, so the re-check through get_sqrt_ratio_at_tick cannot fail |
| TickMathInverse.CandidatesAdjacent | src/tick_math.rs:214-216 | the margins add to less than one tick: tick_high is tick_low or tick_low + 1 |
| TickMathInverse.TickChoice | src/tick_math.rs:218-226 | the result is tick_low or tick_high, tick_high exactly when they differ and its square-root price does not exceed the price |
| TickMathInverse.MultipleOfHalf | src/tick_math.rs:132-186 | a multiple of 2w is a multiple of w, before and after adding w |
| TickMathInverse.MsbBlockTaken | src/tick_math.rs:132-186 | a block whose threshold is exceeded adds w to msb and shifts r down by w, keeping r the part of the ratio above msb |
| TickMathInverse.MsbBlockSkipped | src/tick_math.rs:132-186 | a block whose threshold is not exceeded changes nothing but the width |
| TickMathInverse.MsbTake | src/tick_math.rs:138 | shifting r down by w keeps it the ratio shifted by msb + w, positive and below 2^w |
| TickMathInverse.MsbStep | src/tick_math.rs:132-186 | one block of the search halves the width and keeps its state |
| TickMathInverse.MsbStart | src/tick_math.rs:129-130 | before the search r is the ratio and msb is 0 |
| TickMathInverse.MsbLast | src/tick_math.rs:188-190 | the last one-bit step lands msb on the most significant bit |
| TickMathInverse.MsbSearchHigh | src/tick_math.rs:132-162 | the first four blocks leave a width of 16 |
| TickMathInverse.MostSignificantBitSearch | src/tick_math.rs:128-190 | the straight-line search computes most_significant_bit of the ratio |
| TickMathInverse.NormaliseWord | src/tick_math.rs:192-196 | the Rust normalisation shifts the ratio into [2^127, 2^128) |
| TickMathInverse.LogStart | src/tick_math.rs:198 | (msb - 128) << 64 on I256 is the integer part times 2^64, with no bit lost |
| TickMathInverse.SquareBit | src/tick_math.rs:201-205 | one squaring step does not wrap, f is its top bit (0 or 1), and r >> f is back in [2^127, 2^128) |
| TickMathInverse.RawAligned | src/tick_math.rs:203 | a multiple of 2^n has its bit pattern a multiple of 2^n |
| TickMathInverse.OrAligned | src/tick_math.rs:203 | or-ing 2^i into a logarithm whose bits up to i are clear adds 2^i |
| TickMathInverse.LogShape | src/tick_math.rs:198-203 | the logarithm before bit i is set is a multiple of 2^(i+1), with room for bit i and no change of sign |
| TickMathInverse.OrBit | src/tick_math.rs:203 | or-ing f << i into the logarithm appends f to its fraction bits |
| TickMathInverse.OrBitAt | src/tick_math.rs:203 | or-ing f << i for a bit f into an aligned logarithm adds f * 2^i |
| TickMathInverse.LogStep | src/tick_math.rs:201-205 | one pass of the loop body keeps the loop state |
| TickMathInverse.FracStep | src/tick_math.rs:201-205 | one squaring is one step of the fraction fold, and keeps r in [2^127, 2^128) |
| TickMathInverse.LogIteration | src/tick_math.rs:201-205 | the loop body for bit i keeps the loop state |
| TickMathInverse.LogBits | src/tick_math.rs:200-210 | the loop and the final bit-50 step place the 14 fraction bits FracFold(r, 14, 0) at bit 50 |
| TickMathInverse.PriceShift | src/tick_math.rs:128 | price << 32 does not wrap below MAX_SQRT_RATIO |
| TickMathInverse.Log2OfPrice | src/tick_math.rs:128-210 | the logarithm the Rust code builds is Log2(price << 32) |
| TickMathInverse.TickCandidates | src/tick_math.rs:212-216 | none of the signed operations wraps, so the words hold the exact candidates |
| TickMathInverse.GetTickAtSqrtRatio | src/tick_math.rs:123-226 | the statement-by-statement method equals TickAtSqrtRatio |
| TickMathValues.SqrtRatioOutOfRange | src/tick_math.rs:236-248 | MIN_TICK - 1 and MAX_TICK + 1 fail with T |
| TickMathValues.SqrtRatioAtMinTick | src/tick_math.rs:253-256 | get_sqrt_ratio_at_tick(-887272) is 4295128739 |
| TickMathValues.SqrtRatioAtMinTickPlusOne | src/tick_math.rs:258-261 | get_sqrt_ratio_at_tick(-887271) is 4295343490 |
| TickMathValues.SqrtRatioAtMaxTickMinusOne | src/tick_math.rs:263-266 | get_sqrt_ratio_at_tick(887271) is 1461373636630004318706518188784493106690254656249 |
| TickMathValues.SqrtRatioAtMaxTick | src/tick_math.rs:268-271 | get_sqrt_ratio_at_tick(887272) is 1461446703485210103287273052203988822378723970342 |
| TickMathValues.SqrtRatioAt50 | src/tick_math.rs:274-277 | get_sqrt_ratio_at_tick(50) is 79426470787362580746886972461 |
| TickMathValues.SqrtRatioAt100 | src/tick_math.rs:279-282 | get_sqrt_ratio_at_tick(100) is 79625275426524748796330556128 |
| TickMathValues.SqrtRatioAt250 | src/tick_math.rs:284-287 | get_sqrt_ratio_at_tick(250) is 80224679980005306637834519095 |
| TickMathValues.SqrtRatioAt500 | src/tick_math.rs:289-292 | get_sqrt_ratio_at_tick(500) is 81233731461783161732293370115 |
| TickMathValues.SqrtRatioAt1000 | src/tick_math.rs:294-297 | get_sqrt_ratio_at_tick(1000) is 83290069058676223003182343270 |
| TickMathValues.SqrtRatioAt2500 | src/tick_math.rs:299-302 | get_sqrt_ratio_at_tick(2500) is 89776708723587163891445672585 |
| TickMathValues.SqrtRatioAt3000 | src/tick_math.rs:304-307 | get_sqrt_ratio_at_tick(3000) is 92049301871182272007977902845 |
| TickMathValues.SqrtRatioAt4000 | src/tick_math.rs:309-312 | get_sqrt_ratio_at_tick(4000) is 96768528593268422080558758223 |
| TickMathValues.SqrtRatioAt5000 | src/tick_math.rs:314-317 | get_sqrt_ratio_at_tick(5000) is 101729702841318637793976746270 |
| TickMathValues.SqrtRatioAt50000 | src/tick_math.rs:319-322 | get_sqrt_ratio_at_tick(50000) is 965075977353221155028623082916 |
| TickMathValues.SqrtRatioAt150000 | src/tick_math.rs:324-327 | get_sqrt_ratio_at_tick(150000) is 143194173941309278083010301478497 |
| TickMathValues.SqrtRatioAt250000 | src/tick_math.rs:329-332 | get_sqrt_ratio_at_tick(250000) is 21246587762933397357449903968194344 |
| TickMathValues.SqrtRatioAt500000 | src/tick_math.rs:334-337 | get_sqrt_ratio_at_tick(500000) is 5697689776495288729098254600827762987878 |
| TickMathValues.SqrtRatioAt738203 | src/tick_math.rs:339-342 | get_sqrt_ratio_at_tick(738203) is 847134979253254120489401328389043031315994541 |
| TickMathValues.SqrtRatioAtZero | src/tick_math.rs:32-121 | get_sqrt_ratio_at_tick(0) is 2^96, the price 1.0 |
| TickMathValues.TickAtSqrtRatioOutOfRange | src/tick_math.rs:348-354 | get_tick_at_sqrt_ratio(MIN_SQRT_RATIO - 1) and get_tick_at_sqrt_ratio(MAX_SQRT_RATIO) fail with R |
| TickMathValues.TickAtMinSqrtRatio | src/tick_math.rs:357-358 | get_tick_at_sqrt_ratio(MIN_SQRT_RATIO) is MIN_TICK |
| TickMathValues.TickAtMinTickPlusOne | src/tick_math.rs:361-362 | get_tick_at_sqrt_ratio(4295343490) is MIN_TICK + 1 |
| TickMathValues.TickAtMaxSqrtRatioMinusOne | src/tick_math.rs:123-226 | get_tick_at_sqrt_ratio(MAX_SQRT_RATIO - 1) is MAX_TICK - 1: the higher candidate MAX_TICK is rejected, its price being MAX_SQRT_RATIO |
| TickMathValues.TickAtOne | src/tick_math.rs:123-226 | get_tick_at_sqrt_ratio(2^96), the price 1.0, is 0 |
| TickMathValues.RoundTripMaxTickMinusOne | src/tick_math.rs:123-226 | get_tick_at_sqrt_ratio(get_sqrt_ratio_at_tick(MAX_TICK - 1)) is MAX_TICK - 1 |
| TickMathValues.RoundTrip50 | src/tick_math.rs:123-226 | get_tick_at_sqrt_ratio(get_sqrt_ratio_at_tick(50)) is 50 |
| TickMathValues.RoundTrip100 | src/tick_math.rs:123-226 | get_tick_at_sqrt_ratio(get_sqrt_ratio_at_tick(100)) is 100 |
| TickMathValues.RoundTrip250 | src/tick_math.rs:123-226 | get_tick_at_sqrt_ratio(get_sqrt_ratio_at_tick(250)) is 250 |
| TickMathValues.RoundTrip500 | src/tick_math.rs:123-226 | get_tick_at_sqrt_ratio(get_sqrt_ratio_at_tick(500)) is 500 |
| TickMathValues.RoundTrip1000 | src/tick_math.rs:123-226 | get_tick_at_sqrt_ratio(get_sqrt_ratio_at_tick(1000)) is 1000 |
| TickMathValues.RoundTrip2500 | src/tick_math.rs:123-226 | get_tick_at_sqrt_ratio(get_sqrt_ratio_at_tick(2500)) is 2500 |
| TickMathValues.RoundTrip3000 | src/tick_math.rs:123-226 | get_tick_at_sqrt_ratio(get_sqrt_ratio_at_tick(3000)) is 3000 |
| TickMathValues.RoundTrip4000 | src/tick_math.rs:123-226 | get_tick_at_sqrt_ratio(get_sqrt_ratio_at_tick(4000)) is 4000 |
| TickMathValues.RoundTrip5000 | src/tick_math.rs:123-226 | get_tick_at_sqrt_ratio(get_sqrt_ratio_at_tick(5000)) is 5000 |
| TickMathValues.RoundTrip50000 | src/tick_math.rs:123-226 | get_tick_at_sqrt_ratio(get_sqrt_ratio_at_tick(50000)) is 50000 |
| TickMathValues.RoundTrip150000 | src/tick_math.rs:123-226 | get_tick_at_sqrt_ratio(get_sqrt_ratio_at_tick(150000)) is 150000 |
| TickMathValues.RoundTrip250000 | src/tick_math.rs:123-226 | get_tick_at_sqrt_ratio(get_sqrt_ratio_at_tick(250000)) is 250000 |
| TickMathValues.RoundTrip500000 | src/tick_math.rs:123-226 | get_tick_at_sqrt_ratio(get_sqrt_ratio_at_tick(500000)) is 500000 |
| TickMathValues.RoundTrip738203 | src/tick_math.rs:123-226 | get_tick_at_sqrt_ratio(get_sqrt_ratio_at_tick(738203)) is 738203 |
| TickMathValues.TickAtSqrtRatioInRange | src/tick_math.rs:214-226 | for every price in [MIN_SQRT_RATIO, MAX_SQRT_RATIO) the tick lies in [MIN_TICK, MAX_TICK] |

## Left out

- The `contract` module of `tick_bitmap.rs` (lines 9-125) is not part of this model. It makes network calls to a pool contract through an RPC provider, and its arithmetic repeats the local search.
- `tick_bit_map.rs`, `full_math.rs`, `sqrt_price_math.rs`, `liquidity_math.rs`, `swap_math.rs`, `utils.rs` and `lib.rs` are not part of this model. They are drafts with placeholder returns, or conversions and declarations without logic of their own.
- The display strings of `error.rs` are not modelled, only the error variants the code returns.
- Rust panics are written as preconditions:
  - the zero spacing and `i32::MIN / -1` of `flip_tick` and the search;
  - `tick.neg()` on `i32::MIN` in `get_sqrt_ratio_at_tick`;
  - `b == 0` in `div_rounding_up`.
- The `i32` arithmetic on the search result (`compressed + 1` and the products with the spacing) follows a release build, where it wraps: `NextInitializedTickWithinOneWord` writes it with wrap-around. A debug build panics on that overflow instead. The lemmas about the result assume a positive spacing and a tick at least 256 spacings above `i32::MIN` (searching at or below) or below `i32::MAX` (searching above). There the result never overflows, so both builds agree.
- TickMathInverse.GetTickAtSqrtRatio: the `?` on the re-check through `get_sqrt_ratio_at_tick` is not a branch of the model. CandidateBounds proves the higher candidate always lies within `[MIN_TICK, MAX_TICK]`, so that re-check cannot fail.
- TickMathInverse.TickChoice: the model does not prove that the result is the greatest tick whose square-root price is at most the price, for every price. That needs an error analysis of the 14-bit logarithm against the real logarithm. The round trip `get_tick_at_sqrt_ratio(get_sqrt_ratio_at_tick(t)) == t` is proved only at the reference ticks, and the range of the result is proved for every price.
- TickMathInverse.TickCandidates: `I256` subtraction and addition are modelled as wrapping. They are proved never to overflow on accepted prices, so it makes no difference whether the Rust operators wrap or panic.
- TickBitmap.NextInitializedTickWithinOneWord: its own contract says only that the search never fails. What it returns is stated by NextInitializedLte, NextInitializedGt and the Finds lemmas, under the range conditions above.

## Findings

| source | as written | input that shows it | evidently intended | confidence | as-written member | corrected member |
|---|---|---|---|---|---|---|
| src/unsafe_math.rs:6 | on a nonzero remainder, returns `quotient + remainder` | `div_rounding_up(5, 3)` gives 3 | `quotient + 1`, the ceiling of a / b, which is 2 here | high (as read, not executed) | UnsafeMath.AsWrittenCounterexample | UnsafeMath.CorrectedIsCeiling |

The two results agree whenever the remainder is 0 or 1 (UnsafeMath.AsWrittenVersusCeiling). No other function of the model calls `div_rounding_up`.
