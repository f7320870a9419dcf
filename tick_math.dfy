/** `tick_math.rs`: the constants and `get_sqrt_ratio_at_tick`, from a tick
    `i` to the square root of the price `1.0001^i` as a Q64.96 fixed-point
    number. The function `SqrtRatioAtTick` specifies it in exact integer
    arithmetic (a fold over the bits of the absolute tick); the method
    `GetSqrtRatioAtTick` runs the Rust code's twenty guarded
    multiply-and-shift statements on words and is proved equal to it. */
module TickMath {
  import opened Word
  import opened Signed
  import opened Errors
  import opened BitMath
  import opened UnsafeMath

  // ---------------------------------------------------------------------------
  // Constants (the Rust code gives the wide ones as little-endian 64-bit limbs)

  const MIN_TICK: int := -887272
  const MAX_TICK: int := 887272
  /** `get_sqrt_ratio_at_tick(MIN_TICK)` */
  const MIN_SQRT_RATIO: nat := 4295128739
  /** `get_sqrt_ratio_at_tick(MAX_TICK)` */
  const MAX_SQRT_RATIO: nat := 1461446703485210103287273052203988822378723970342
  /** `log_2(sqrt(1.0001))` inverted, as a Q128 number: multiplies a Q64.64
      logarithm base 2 into a Q128.128 logarithm base `sqrt(1.0001)`. */
  const SQRT_10001: nat := 255738958999603826347141
  /** The error margins subtracted from and added to that logarithm. */
  const TICK_LOW: nat := 3402992956809132418596140100660247210
  const TICK_HIGH: nat := 291339464771989622907027621153398088495

  /** The Q128 factors `1 / sqrt(1.0001)^(2^k)` applied for each set bit `k`
      of the absolute tick. */
  function Factor(k: nat): nat
    requires k < 20
  {
    match k
    case 0 => 0xfffcb933bd6fad37aa2d162d1a594001
    case 1 => 0xfff97272373d413259a46990580e213a
    case 2 => 0xfff2e50f5f656932ef12357cf3c7fdcc
    case 3 => 0xffe5caca7e10e4e61c3624eaa0941cd0
    case 4 => 0xffcb9843d60f6159c9db58835c926644
    case 5 => 0xff973b41fa98c081472e6896dfb254c0
    case 6 => 0xff2ea16466c96a3843ec78b326b52861
    case 7 => 0xfe5dee046a99a2a811c461f1969c3053
    case 8 => 0xfcbe86c7900a88aedcffc83b479aa3a4
    case 9 => 0xf987a7253ac413176f2b074cf7815e54
    case 10 => 0xf3392b0822b70005940c7a398e4b70f3
    case 11 => 0xe7159475a2c29b7443b29c7fa6e889d9
    case 12 => 0xd097f3bdfd2022b8845ad8f792aa5825
    case 13 => 0xa9f746462d870fdf8a65dc1f90e061e5
    case 14 => 0x70d869a156d2a1b890bb3df62baf32f7
    case 15 => 0x31be135f97d08fd981231505542fcfa6
    case 16 => 0x9aa508b5b7a84e1c677de54f3e99bc9
    case 17 => 0x5d6af8dedb81196699c329225ee604
    case 18 => 0x2216e584f5fa1ea926041bedfe98
    case _ => 0x48a170391f7dc42444e8fa2
  }

  /** Every factor is below one. */
  lemma FactorBelow(k: nat)
    requires k < 20
    ensures Factor(k) < TWO_128
  {
  }

  // ---------------------------------------------------------------------------
  // The ratio `2^128 / sqrt(1.0001)^|tick|`

  /** One Q128 multiplication, `(r * c) >> 128`. */
  function Step(r: nat, c: nat): nat
  {
    Div(r * c, TWO_128)
  }

  /** Applying the factors of bits `k..19` to `r`, where `bits` holds the
      absolute tick shifted right by `k`. */
  function RatioFold(bits: nat, k: nat, r: nat): nat
    requires k <= 20
    decreases 20 - k
  {
    if k == 20 then r
    else RatioFold(bits / 2, k + 1, if bits % 2 == 1 then Step(r, Factor(k)) else r)
  }

  /** The Q128 ratio the Rust code accumulates for an absolute tick; starting
      from `2^128` and multiplying by `Factor(0)` is starting from that
      factor, as the code does for an odd tick. */
  function Ratio(absTick: nat): nat
  {
    RatioFold(absTick, 0, TWO_128)
  }

  /** The ratio every absolute tick is bounded below by: all twenty factors. */
  const RATIO_FLOOR: nat := 5800441176149320

  /** Applying every factor, whatever the bits. */
  function AllFold(k: nat, r: nat): nat
    requires k <= 20
    decreases 20 - k
  {
    if k == 20 then r else AllFold(k + 1, Step(r, Factor(k)))
  }

  lemma DivMonotone(x: nat, y: nat, d: nat)
    requires d > 0 && x <= y
    ensures x / d <= y / d
  {
    var qx, qy := x / d, y / d;
    assert y == qy * d + y % d;
    assert x == qx * d + x % d;
    if qx > qy {
      MulLeRight(qy + 1, qx, d);
    }
  }

  /** A factor below one never increases the ratio. */
  lemma StepShrinks(r: nat, c: nat)
    requires c < TWO_128
    ensures Step(r, c) <= r
  {
    MulLeRight(c, TWO_128, r);
    DivMonotone(r * c, TWO_128 * r, TWO_128);
    MulDivCancel(r, TWO_128);
  }

  /** A larger ratio stays at least as large after the same factor. */
  lemma StepMonotone(r1: nat, r2: nat, c: nat)
    requires r1 <= r2
    ensures Step(r1, c) <= Step(r2, c)
  {
    MulLeRight(r1, r2, c);
    DivMonotone(r1 * c, r2 * c, TWO_128);
  }

  /** The fold never increases the ratio. */
  lemma {:induction false} FoldAtMost(bits: nat, k: nat, r: nat)
    requires k <= 20
    ensures RatioFold(bits, k, r) <= r
    decreases 20 - k
  {
    if k < 20 {
      var c := Factor(k);
      FactorBelow(k);
      var next := if bits % 2 == 1 then Step(r, c) else r;
      StepShrinks(r, c);
      FoldAtMost(bits / 2, k + 1, next);
    }
  }

  /** The fold is bounded below by applying every factor. */
  lemma {:induction false} FoldAtLeast(bits: nat, k: nat, r: nat, low: nat)
    requires k <= 20 && low <= r
    ensures AllFold(k, low) <= RatioFold(bits, k, r)
    decreases 20 - k
  {
    if k < 20 {
      var c := Factor(k);
      FactorBelow(k);
      var next := if bits % 2 == 1 then Step(r, c) else r;
      StepMonotone(low, r, c);
      StepShrinks(r, c);
      FoldAtLeast(bits / 2, k + 1, next, Step(low, c));
    }
  }

  /** A chain of values each of which is the previous one times the next
      factor ends where applying all the factors does. */
  lemma {:induction false} AllFoldChain(v: seq<nat>, k: nat)
    requires |v| == 21 && k <= 20
    requires forall j | k <= j < 20 :: Step(v[j], Factor(j)) == v[j + 1]
    ensures AllFold(k, v[k]) == v[20]
    decreases 20 - k
  {
    if k < 20 {
      AllFoldChain(v, k + 1);
    }
  }

  /** The ratio after each factor when every bit is set. */
  const ALL_BITS_TRACE: seq<nat> := [340282366920938463463374607431768211456, 340265354078544963557816517032075149313, 340231330945450418515964920540021147198, 340163294884840501567246455576441303173, 340027263576413978334042125129128142263, 339755364134575681238502878529008278326, 339212217342146842559531600927033253847, 338128527259088467778511436198880488164, 335971522311117552149334092109581418674, 331698704829854243503582989311158516586, 323315401242583425022802937239550140918, 307179074178916392659402722612948179612, 277282266700509388632609933215391170106, 225934749830749445986089663015556949343, 150004713758184102711002566140788444796, 66122407008436832627027740713496573148, 12848018414553970828728179856918040433, 485077512873820763967752669154895175, 691450548841240133896843047535567, 1404950724947776134837143967, 5800441176149320]

  /** All twenty factors together. */
  lemma AllFoldValue()
    ensures AllFold(0, TWO_128) == RATIO_FLOOR
  {
    AllFoldChain(ALL_BITS_TRACE, 0);
  }

  /** The ratio of every absolute tick lies in `[RATIO_FLOOR, 2^128]`: it is
      positive, so the reciprocal taken for positive ticks never divides by
      zero, and no multiplication by a factor wraps. */
  lemma RatioBounds(absTick: nat)
    ensures RATIO_FLOOR <= Ratio(absTick) <= TWO_128
  {
    FoldAtMost(absTick, 0, TWO_128);
    FoldAtLeast(absTick, 0, TWO_128, TWO_128);
    AllFoldValue();
  }

  // ---------------------------------------------------------------------------
  // get_sqrt_ratio_at_tick

  /** `2^96`, the fixed-point one of a Q64.96 square-root price. */
  const Q96: nat := 0x1_0000_0000_0000_0000_0000_0000

  function AbsTick(tick: int): nat
  {
    if tick < 0 then -tick else tick
  }

  /** `get_sqrt_ratio_at_tick`: a tick beyond `MAX_TICK` in absolute value
      fails with `T`; otherwise the Q128 ratio of the absolute tick, inverted
      (`U256::MAX / ratio`) for a positive tick, is rounded up from Q128 to
      Q96. */
  function SqrtRatioAtTick(tick: I32): (r: Result<U256>)
    ensures r.Err? <==> AbsTick(tick) > MAX_TICK
    ensures r.Err? ==> r.error == T
  {
    if AbsTick(tick) > MAX_TICK then Err(T)
    else
      var ratio := Ratio(AbsTick(tick));
      RatioBounds(AbsTick(tick));
      var q := if tick > 0 then Div(MAX_U256, ratio) else ratio;
      CeilDivFits(q);
      Ok(CeilDiv(q, TWO_32))
  }

  lemma CeilDivFits(q: nat)
    requires q < TWO_256
    ensures CeilDiv(q, TWO_32) < TWO_256
  {
    DivMonotone(q + TWO_32 - 1, TWO_256 + TWO_32, TWO_32);
  }

  lemma {:induction false} FoldOfZero(k: nat, r: nat)
    requires k <= 20
    ensures RatioFold(0, k, r) == r
    decreases 20 - k
  {
    if k < 20 {
      FoldOfZero(k + 1, r);
    }
  }

  lemma DivAntitone(x: nat, d1: nat, d2: nat)
    requires 0 < d1 <= d2
    ensures x / d2 <= x / d1
  {
    var q1, q2 := x / d1, x / d2;
    assert x == q1 * d1 + x % d1;
    assert x == q2 * d2 + x % d2;
    MulLeRight(d1, d2, q2);
    if q2 > q1 {
      MulLeRight(q1 + 1, q2, d1);
    }
  }

  /** Tick zero is the price one; a negative tick gives a square-root price
      of at most one and a positive tick one of at least one, in Q64.96. */
  lemma SqrtRatioSide(tick: I32)
    requires AbsTick(tick) <= MAX_TICK
    ensures tick == 0 ==> SqrtRatioAtTick(tick) == Ok(Q96)
    ensures tick <= 0 ==> SqrtRatioAtTick(tick).value <= Q96
    ensures tick > 0 ==> Q96 <= SqrtRatioAtTick(tick).value
  {
    var ratio := Ratio(AbsTick(tick));
    RatioBounds(AbsTick(tick));
    if tick == 0 {
      FoldOfZero(0, TWO_128);
    }
    if tick <= 0 {
      DivMonotone(ratio + TWO_32 - 1, TWO_128 + TWO_32 - 1, TWO_32);
    } else {
      DivAntitone(MAX_U256, ratio, TWO_128);
      DivMonotone(TWO_128 - 1 + TWO_32 - 1, MAX_U256 / ratio + TWO_32 - 1, TWO_32);
    }
  }

  /** One `if` of the Rust code: testing bit `k` of the absolute tick with
      its mask and multiplying by its factor keeps the ratio within `2^128`,
      never wraps, and leaves the fold of the remaining bits unchanged. */
  lemma RatioStep(absTick: nat, k: nat, mask: nat, factor: U256, ratio: U256, total: nat)
    requires k < 20 && mask == Pow2(k) && factor == Factor(k)
    requires ratio <= TWO_128 && RatioFold(Div(absTick, Pow2(k)), k, ratio) == total
    ensures var next := if And(absTick, mask) != 0 then Shr(MulWrap(ratio, factor), 128) else ratio;
      next <= TWO_128 && RatioFold(Div(absTick, Pow2(k + 1)), k + 1, next) == total
  {
    FactorBelow(k);
    BitOfShift(absTick, k);
    ShiftHalf(absTick, k);
    MulShrIsStep(ratio, factor);
    StepShrinks(ratio, factor);
  }

  /** Bit `k` tested with its mask is the parity of the value shifted by `k`. */
  lemma BitOfShift(x: nat, k: nat)
    ensures And(x, Pow2(k)) != 0 <==> Div(x, Pow2(k)) % 2 == 1
  {
    AndPow2(x, k);
    TestBitClosed(x, k);
  }

  /** Shifting by one more bit halves. */
  lemma ShiftHalf(x: nat, k: nat)
    ensures Div(x, Pow2(k + 1)) == Div(x, Pow2(k)) / 2
  {
    DivDiv(x, Pow2(k), 2);
  }

  /** `(ratio * factor) >> 128` on words is the Q128 step: the product of two
      values within `2^128` does not wrap. */
  lemma MulShrIsStep(ratio: U256, factor: U256)
    requires ratio <= TWO_128 && factor < TWO_128
    ensures Shr(MulWrap(ratio, factor), 128) == Step(ratio, factor)
  {
    Pow2Constants();
    MulLeRight(ratio, TWO_128, factor);
    MulLeRight(factor + 1, TWO_128, TWO_128);
    ModInRange(ratio * factor, TWO_256);
  }

  /** What the bit tests have established before bit `k`: the ratio so far
      is within `2^128`, and folding the remaining bits into it gives the
      ratio of the whole absolute tick. */
  predicate RatioSoFar(absTick: nat, k: nat, ratio: nat, total: nat)
  {
    k <= 20 && ratio <= TWO_128 && RatioFold(Div(absTick, Pow2(k)), k, ratio) == total
  }

  /** One `if` of the Rust code, `if abs_tick & mask != 0 { ratio = (ratio * factor) >> 128 }`,
      with the mask `2^k` and the factor `Factor(k)` of bit `k`; `k1` names
      the next bit. */
  method MulIfBit(absTick: U256, k: nat, ratio: U256, ghost total: nat, ghost k1: nat)
    returns (next: U256)
    requires k < 20 && k1 == k + 1
    requires RatioSoFar(absTick, k, ratio, total)
    ensures RatioSoFar(absTick, k1, next, total)
  {
    var mask := Shl(1, k);
    var factor := Factor(k);
    ShlOne(k);
    FactorBelow(k);
    RatioStep(absTick, k, mask, factor, ratio, total);
    next := ratio;
    if And(absTick, mask) != 0 {
      next := Shr(MulWrap(ratio, factor), 128);
    }
  }

  /** The start value: `Factor(0)` for an odd tick, `2^128` for an even one. */
  lemma RatioStart(absTick: U256)
    ensures RatioSoFar(absTick, 1, if And(absTick, 1) != 0 then Factor(0) else TWO_128, Ratio(absTick))
  {
    FactorBelow(0);
    MulShrIsStep(TWO_128, Factor(0));
    MulDivCancel(Factor(0), TWO_128);
    RatioStep(absTick, 0, 1, Factor(0), TWO_128, Ratio(absTick));
  }

  /** After the last bit the ratio is the ratio of the absolute tick. */
  lemma RatioEnd(absTick: U256, ratio: nat, total: nat)
    requires RatioSoFar(absTick, 20, ratio, total)
    ensures ratio == total
  {
  }

  /** The final rounding: `(ratio >> 32) + (ratio % (1 << 32) != 0)` is the
      ceiling of `ratio / 2^32`. */
  lemma RoundUp(x: U256)
    ensures Shl(1, 32) == TWO_32
    ensures Shr(x, 32) + (if x % TWO_32 == 0 then 0 else 1) == CeilDiv(x, TWO_32) < TWO_256
  {
    Pow2Constants();
    ShlOne(32);
    var q, rem := x / TWO_32, x % TWO_32;
    assert x == q * TWO_32 + rem;
    if rem == 0 {
      DivUnique(x + TWO_32 - 1, TWO_32, q, TWO_32 - 1);
    } else {
      DivUnique(x + TWO_32 - 1, TWO_32, q + 1, rem - 1);
    }
    CeilDivFits(x);
  }

  /** The end of `get_sqrt_ratio_at_tick`: `q` is the ratio, or its
      reciprocal for a positive tick, and rounding it up to Q96 fits a word
      and gives the specified square-root price. */
  lemma SqrtFinish(tick: I32, ratio: U256, q: U256)
    requires AbsTick(tick) <= MAX_TICK && ratio == Ratio(AbsTick(tick)) && ratio > 0
    requires q == if tick > 0 then Div(MAX_U256, ratio) else ratio
    ensures Shl(1, 32) == TWO_32
    ensures Shr(q, 32) + (if q % Shl(1, 32) == 0 then 0 else 1) < TWO_256
    ensures SqrtRatioAtTick(tick) == Ok(Shr(q, 32) + (if q % Shl(1, 32) == 0 then 0 else 1))
  {
    RatioBounds(AbsTick(tick));
    RoundUp(q);
  }

  /** The ratio of a tick in range is positive. */
  lemma RatioPositive(absTick: nat)
    ensures Ratio(absTick) > 0
  {
    RatioBounds(absTick);
  }

  /** The twenty bit tests of `get_sqrt_ratio_at_tick`: the Q128 ratio of
      an absolute tick. */
  method RatioAtAbsTick(absTick: U256) returns (ratio: U256)
    ensures ratio == Ratio(absTick)
  {
    ghost var total := Ratio(absTick);
    RatioStart(absTick);
    ratio := if And(absTick, 1) != 0 then 0xfffcb933bd6fad37aa2d162d1a594001 else TWO_128;
    ratio := MulIfBit(absTick, 1, ratio, total, 2);
    ratio := MulIfBit(absTick, 2, ratio, total, 3);
    ratio := MulIfBit(absTick, 3, ratio, total, 4);
    ratio := MulIfBit(absTick, 4, ratio, total, 5);
    ratio := MulIfBit(absTick, 5, ratio, total, 6);
    ratio := MulIfBit(absTick, 6, ratio, total, 7);
    ratio := MulIfBit(absTick, 7, ratio, total, 8);
    ratio := MulIfBit(absTick, 8, ratio, total, 9);
    ratio := MulIfBit(absTick, 9, ratio, total, 10);
    ratio := MulIfBit(absTick, 10, ratio, total, 11);
    ratio := MulIfBit(absTick, 11, ratio, total, 12);
    ratio := MulIfBit(absTick, 12, ratio, total, 13);
    ratio := MulIfBit(absTick, 13, ratio, total, 14);
    ratio := MulIfBit(absTick, 14, ratio, total, 15);
    ratio := MulIfBit(absTick, 15, ratio, total, 16);
    ratio := MulIfBit(absTick, 16, ratio, total, 17);
    ratio := MulIfBit(absTick, 17, ratio, total, 18);
    ratio := MulIfBit(absTick, 18, ratio, total, 19);
    ratio := MulIfBit(absTick, 19, ratio, total, 20);
    RatioEnd(absTick, ratio, total);
  }

  /** `get_sqrt_ratio_at_tick`; `tick.neg()` panics on `i32::MIN`. */
  method GetSqrtRatioAtTick(tick: I32) returns (r: Result<U256>)
    requires tick != I32_MIN
    ensures r == SqrtRatioAtTick(tick)
  {
    var absTick: U256 := if tick < 0 then -tick else tick;
    if absTick > MAX_TICK {
      return Err(T);
    }
    var ratio := RatioAtAbsTick(absTick);
    ghost var folded := ratio;
    RatioPositive(absTick);
    if tick > 0 {
      ratio := Div(MAX_U256, ratio);
    }
    SqrtFinish(tick, folded, ratio);
    r := Ok(Shr(ratio, 32) + (if ratio % Shl(1, 32) == 0 then 0 else 1));
  }
}
