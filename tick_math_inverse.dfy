/** The second half of `tick_math.rs`: `get_tick_at_sqrt_ratio`, from a
    Q64.96 square-root price back to the tick. The function `TickAtSqrtRatio`
    specifies it in exact integer arithmetic (the top bit, 14 bits of a
    logarithm by repeated squaring, the two candidate ticks and the re-check
    through `SqrtRatioAtTick`); the method `GetTickAtSqrtRatio` runs the Rust
    code on words, with its wrapping and signed operations, and is proved
    equal to it. */
module TickMathInverse {
  import opened Word
  import opened Signed
  import opened Errors
  import opened BitMath
  import opened TickMath

  const TWO_50: nat := 0x4_0000_0000_0000

  /** A Q1.127 number in [1, 2): its top bit is bit 127. */
  predicate Normalised(r: nat)
  {
    TWO_127 <= r < TWO_128
  }

  /** `ratio` shifted so that its top bit, bit `msb`, lands on bit 127. */
  function Normalise(ratio: nat, msb: nat): nat
  {
    if msb >= 128 then Div(ratio, Pow2(msb - 127)) else ratio * Pow2(127 - msb)
  }

  /** The square of a Q1.127 number, again in Q1.127 and rounded down. */
  function Square(r: nat): nat
  {
    Div(r * r, TWO_127)
  }

  /** log2 by repeated squaring: `n` more fraction bits of log2 of
      `r / 2^127`, appended to `acc`. A square of 2 or more is a one bit and
      is halved back into [1, 2). */
  function FracFold(r: nat, n: nat, acc: nat): nat
    decreases n
  {
    if n == 0 then acc
    else if Square(r) >= TWO_128 then FracFold(Div(Square(r), 2), n - 1, 2 * acc + 1)
    else FracFold(Square(r), n - 1, 2 * acc)
  }

  /** `price << 32`: the Q64.96 price as a Q128.128 ratio. */
  function PriceRatio(price: U256): (ratio: U256)
    requires price < MAX_SQRT_RATIO
  {
    MulLeRight(price, MAX_SQRT_RATIO, TWO_32);
    price * TWO_32
  }

  /** log2 of `ratio / 2^128` as a Q64.64 number: the integer part from the
      top bit and the 14 fraction bits 63 down to 50 from `FracFold`; the
      lower fraction bits are zero. */
  function Log2(ratio: U256): int
    requires ratio > 0
  {
    var msb := MostSignificantBit(ratio).value;
    (msb as int - 128) * TWO_64 + FracFold(Normalise(ratio, msb), 14, 0) * TWO_50
  }

  /** The logarithm of the price to base `sqrt(1.0001)`, in Q128.128. */
  function LogSqrt10001(price: U256): int
    requires MIN_SQRT_RATIO <= price < MAX_SQRT_RATIO
  {
    Log2(PriceRatio(price)) * SQRT_10001
  }

  /** The two candidate ticks: the logarithm less or plus its error margin,
      rounded toward minus infinity (Dafny's `/` by a positive divisor
      rounds down, as the arithmetic shift `>> 128` of the Rust code does). */
  function TickLow(logSqrt: int): int
  {
    (logSqrt - TICK_LOW) / TWO_128
  }

  function TickHigh(logSqrt: int): int
  {
    (logSqrt + TICK_HIGH) / TWO_128
  }

  /** `get_tick_at_sqrt_ratio`: a price outside
      `[MIN_SQRT_RATIO, MAX_SQRT_RATIO)` fails with `R`. Otherwise the lower
      candidate, unless the candidates differ and the higher one's own
      square-root price does not exceed the price. */
  function TickAtSqrtRatio(price: U256): (r: Result<I32>)
    ensures r.Err? <==> !(MIN_SQRT_RATIO <= price < MAX_SQRT_RATIO)
    ensures r.Err? ==> r.error == R
  {
    if !(MIN_SQRT_RATIO <= price < MAX_SQRT_RATIO) then Err(R)
    else
      var ls := LogSqrt10001(price);
      CandidateBounds(price);
      var low, high := WrapI32(TickLow(ls)), WrapI32(TickHigh(ls));
      if low == high then Ok(low)
      else Ok(if SqrtRatioAtTick(high).value <= price then high else low)
  }

  /** `a * d <= x < b * d` brackets the quotient of `x` by `d`. */
  lemma DivBetween(x: nat, d: nat, a: nat, b: nat)
    requires d > 0 && a * d <= x < b * d
    ensures a <= Div(x, d) < b
  {
    var q := x / d;
    assert x == q * d + x % d;
    if q < a {
      MulLeRight(q + 1, a, d);
    }
    if q >= b {
      MulLeRight(b, q, d);
    }
  }

  /** A ratio whose top bit is `msb` normalises into [2^127, 2^128). */
  lemma NormaliseRange(ratio: nat, msb: nat)
    requires Pow2(msb) <= ratio < Pow2(msb + 1)
    ensures Normalised(Normalise(ratio, msb))
  {
    if msb >= 128 {
      NormaliseDown(ratio, msb);
    } else {
      NormaliseUp(ratio, msb);
    }
  }

  lemma NormaliseDown(ratio: nat, msb: nat)
    requires 128 <= msb && Pow2(msb) <= ratio < Pow2(msb + 1)
    ensures Normalised(Div(ratio, Pow2(msb - 127)))
  {
    Pow2Of127();
    Pow2Split(127, msb - 127, msb);
    Pow2Split(128, msb - 127, msb + 1);
    DivBetween(ratio, Pow2(msb - 127), TWO_127, TWO_128);
  }

  lemma NormaliseUp(ratio: nat, msb: nat)
    requires msb < 128 && Pow2(msb) <= ratio < Pow2(msb + 1)
    ensures Normalised(ratio * Pow2(127 - msb))
  {
    var p, m := Pow2(msb), Pow2(127 - msb);
    assert Pow2(msb + 1) == 2 * p;
    Pow2Split(msb, 127 - msb, 127);
    Pow2Of127();
    MulLeRight(p, ratio, m);
    MulLeRight(ratio + 1, 2 * p, m);
    MulDistributes(ratio, 1, m);
    Twice(m, p);
  }

  lemma Pow2Of127()
    ensures Pow2(127) == TWO_127 && Pow2(128) == TWO_128
  {
    Pow2Constants();
  }

  lemma Pow2Of255()
    ensures Pow2(255) == TWO_255 && Pow2(256) == TWO_256
  {
    Pow2Constants();
  }

  lemma Pow2Of14()
    ensures Pow2(14) == 16384
  {
    Pow2Constants();
    assert Pow2(2) == 4;
    Pow2Split(14, 2, 16);
  }

  lemma Twice(a: int, b: int)
    ensures a * (2 * b) == (2 * a) * b == 2 * (a * b)
  {
  }

  /** Squaring a number of [1, 2) gives one of [1, 4) without leaving the
      word; its top bit, bit 128, is 0 or 1, and halving by it returns the
      number to [1, 2). */
  lemma SquareRange(r: nat)
    requires Normalised(r)
    ensures r * r < TWO_256
    ensures TWO_127 <= Square(r) < 2 * TWO_128
    ensures Normalised(if Square(r) >= TWO_128 then Div(Square(r), 2) else Square(r))
  {
    MulLeRight(TWO_127, r, TWO_127);
    MulLeRight(TWO_127, r, r);
    MulLeRight(r, TWO_128 - 1, r);
    MulLeRight(r, TWO_128 - 1, TWO_128 - 1);
    DivBetween(r * r, TWO_127, TWO_127, 2 * TWO_128);
    if Square(r) >= TWO_128 {
      DivBetween(Square(r), 2, TWO_127, TWO_128);
    }
  }

  /** `n` appended bits keep `acc` as the leading bits of the result. */
  lemma {:induction false} FracFoldBound(r: nat, n: nat, acc: nat)
    ensures acc * Pow2(n) <= FracFold(r, n, acc) < (acc + 1) * Pow2(n)
    decreases n
  {
    if n > 0 {
      var bit := if Square(r) >= TWO_128 then 1 else 0;
      var next := if bit == 1 then Div(Square(r), 2) else Square(r);
      FracFoldBound(next, n - 1, 2 * acc + bit);
      Twice(acc, Pow2(n - 1));
      Twice(acc + 1, Pow2(n - 1));
      MulLeRight(2 * acc, 2 * acc + bit, Pow2(n - 1));
      MulLeRight(2 * acc + bit + 1, 2 * acc + 2, Pow2(n - 1));
    }
  }

  /** An accepted price, shifted to a ratio, has its top bit between 64 and
      191. */
  lemma PriceTopBit(price: U256)
    requires MIN_SQRT_RATIO <= price < MAX_SQRT_RATIO
    ensures PriceRatio(price) > 0
    ensures 64 <= MostSignificantBit(PriceRatio(price)).value <= 191
  {
    var ratio := PriceRatio(price);
    Pow2Constants();
    Pow2Add(64, 128);
    MulLeRight(TWO_32, price, TWO_32);
    MulLeRight(price + 1, MAX_SQRT_RATIO, TWO_32);
    var msb := MostSignificantBit(ratio).value;
    if msb < 64 {
      Pow2Monotone(msb + 1, 64);
    }
    if msb > 191 {
      Pow2Monotone(192, msb);
    }
  }

  /** The log of an accepted price: the integer part between -64 and 63 and
      fewer than 2^14 fraction bits. */
  lemma Log2Parts(price: U256)
    requires MIN_SQRT_RATIO <= price < MAX_SQRT_RATIO
    ensures PriceRatio(price) > 0
    ensures var msb := MostSignificantBit(PriceRatio(price)).value;
      var frac := FracFold(Normalise(PriceRatio(price), msb), 14, 0);
      64 <= msb <= 191 && frac < 16384 &&
      Log2(PriceRatio(price)) == (msb as int - 128) * TWO_64 + frac * TWO_50
  {
    PriceTopBit(price);
    var msb := MostSignificantBit(PriceRatio(price)).value;
    FracFoldBound(Normalise(PriceRatio(price), msb), 14, 0);
    Pow2Of14();
  }

  /** Floor division is monotone. */
  lemma FloorDivMonotone(x: int, y: int, d: nat)
    requires d > 0 && x <= y
    ensures x / d <= y / d
  {
    var qx, qy := x / d, y / d;
    assert x == qx * d + x % d;
    assert y == qy * d + y % d;
    if qx > qy {
      MulLeRight(qy + 1, qx, d);
    }
  }

  const LOG_MIN: int := -64 * TWO_64
  const LOG_MAX: int := 63 * TWO_64 + 16383 * TWO_50

  /** An integer part in [-64, 63] and fewer than 2^14 fraction bits make a
      log in [LOG_MIN, LOG_MAX]. */
  lemma LogOfParts(m: int, frac: nat)
    requires -64 <= m <= 63 && frac < 16384
    ensures LOG_MIN <= m * TWO_64 + frac * TWO_50 <= LOG_MAX
  {
    MulLeRight(-64, m, TWO_64);
    MulLeRight(m, 63, TWO_64);
    MulLeRight(frac, 16383, TWO_50);
  }

  /** The log of every accepted price lies in [LOG_MIN, LOG_MAX]. */
  lemma Log2Range(price: U256)
    requires MIN_SQRT_RATIO <= price < MAX_SQRT_RATIO
    ensures LOG_MIN * SQRT_10001 <= LogSqrt10001(price) <= LOG_MAX * SQRT_10001
  {
    Log2Parts(price);
    var msb := MostSignificantBit(PriceRatio(price)).value;
    LogOfParts(msb as int - 128, FracFold(Normalise(PriceRatio(price), msb), 14, 0));
    var log := Log2(PriceRatio(price));
    MulLeRight(LOG_MIN, log, SQRT_10001);
    MulLeRight(log, LOG_MAX, SQRT_10001);
  }

  /** Both candidates of a logarithm in range are ticks, the higher one
      within `[MIN_TICK, MAX_TICK]`. */
  lemma CandidateRange(ls: int)
    requires LOG_MIN * SQRT_10001 <= ls <= LOG_MAX * SQRT_10001
    ensures MIN_TICK - 1 <= TickLow(ls) <= MAX_TICK - 1 && MIN_TICK <= TickHigh(ls) <= MAX_TICK
  {
    var lo, hi := LOG_MIN * SQRT_10001, LOG_MAX * SQRT_10001;
    FloorDivMonotone(lo - TICK_LOW, ls - TICK_LOW, TWO_128);
    FloorDivMonotone(ls - TICK_LOW, hi - TICK_LOW, TWO_128);
    FloorDivMonotone(lo + TICK_HIGH, ls + TICK_HIGH, TWO_128);
    FloorDivMonotone(ls + TICK_HIGH, hi + TICK_HIGH, TWO_128);
    DivUnique(lo - TICK_LOW, TWO_128, MIN_TICK - 1, lo - TICK_LOW - (MIN_TICK - 1) * TWO_128);
    DivUnique(hi - TICK_LOW, TWO_128, MAX_TICK - 1, hi - TICK_LOW - (MAX_TICK - 1) * TWO_128);
    DivUnique(lo + TICK_HIGH, TWO_128, MIN_TICK, lo + TICK_HIGH - MIN_TICK * TWO_128);
    DivUnique(hi + TICK_HIGH, TWO_128, MAX_TICK, hi + TICK_HIGH - MAX_TICK * TWO_128);
  }

  /** Both candidates of every accepted price are ticks, the higher one
      within `[MIN_TICK, MAX_TICK]`, so its re-check cannot fail. */
  lemma CandidateBounds(price: U256)
    requires MIN_SQRT_RATIO <= price < MAX_SQRT_RATIO
    ensures var ls := LogSqrt10001(price);
      MIN_TICK - 1 <= TickLow(ls) <= MAX_TICK - 1 && MIN_TICK <= TickHigh(ls) <= MAX_TICK
  {
    Log2Range(price);
    CandidateRange(LogSqrt10001(price));
  }

  /** The margins add up to less than one tick, so the higher candidate is
      the lower one or the next tick. */
  lemma CandidatesAdjacent(ls: int)
    ensures TickLow(ls) <= TickHigh(ls) <= TickLow(ls) + 1
  {
    var a := ls - TICK_LOW;
    var q, rem := a / TWO_128, a % TWO_128;
    assert a == q * TWO_128 + rem;
    if rem + TICK_LOW + TICK_HIGH < TWO_128 {
      DivUnique(ls + TICK_HIGH, TWO_128, q, rem + TICK_LOW + TICK_HIGH);
    } else {
      DivUnique(ls + TICK_HIGH, TWO_128, q + 1, rem + TICK_LOW + TICK_HIGH - TWO_128);
    }
  }

  /** The result is one of the two adjacent candidates, and the higher one
      exactly when they differ and its square-root price does not exceed
      the price. */
  lemma TickChoice(price: U256)
    requires MIN_SQRT_RATIO <= price < MAX_SQRT_RATIO
    ensures var ls := LogSqrt10001(price);
      MIN_TICK <= TickHigh(ls) <= MAX_TICK && TickLow(ls) <= TickHigh(ls) <= TickLow(ls) + 1
    ensures var ls := LogSqrt10001(price);
      var low, high := TickLow(ls), TickHigh(ls);
      var r := TickAtSqrtRatio(price);
      (r == Ok(low) || r == Ok(high)) &&
      (low != high ==> (r == Ok(high) <==> SqrtRatioAtTick(high).value <= price))
  {
    CandidateBounds(price);
    CandidatesAdjacent(LogSqrt10001(price));
  }

  // ---------------------------------------------------------------------------
  // The most significant bit search (src/tick_math.rs, lines 128-196)

  /** What the search knows before trying width `w`: `r` is `ratio >> msb`,
      positive and below `2^w`, and `msb` is a multiple of `w` with room for
      `w` more. */
  predicate MsbSoFar(ratio: nat, msb: nat, r: nat, w: nat)
  {
    w > 0 && r == Div(ratio, Pow2(msb)) && 0 < r < Pow2(w) && msb % w == 0 && msb + w <= 256
  }

  /** `msb` is a multiple of `2 * w`: it is one of `w`, and adding `w`
      keeps it one of `w`. */
  lemma MultipleOfHalf(msb: nat, w: nat)
    requires w > 0 && msb % (2 * w) == 0
    ensures msb % w == 0 && (msb + w) % w == 0
  {
    var j := msb / (2 * w);
    assert msb == j * (2 * w);
    Twice(j, w);
    MulDivCancel(2 * j, w);
    MulDivCancel(2 * j + 1, w);
  }

  /** One block of the search, at width `w == 2^k` with the threshold
      `2^w - 1`, when `r` is above the threshold: `f` is `1 << k == w`,
      `msb | f` adds it, and `r >> f` keeps `r` the part of `ratio` above
      the new `msb`. */
  lemma MsbBlockTaken(ratio: U256, msb: U256, r: U256, k: nat, threshold: nat, w: nat, w2: nat)
    requires 1 <= k <= 7 && w == Pow2(k) && w2 == 2 * w && threshold + 1 == Pow2(w)
    requires MsbSoFar(ratio, msb, r, w2) && r > threshold
    ensures Shl(1, k) == w && Or(msb, w) == msb + w
    ensures MsbSoFar(ratio, msb + w, Shr(r, w), w)
  {
    ShlOne(k);
    MultipleOfHalf(msb, w);
    OrPow2(msb, k);
    MsbTake(ratio, msb, r, w, w2);
  }

  /** The same block when `r` is at most the threshold: `f` is 0 and
      nothing changes but the width. */
  lemma MsbBlockSkipped(ratio: U256, msb: U256, r: U256, k: nat, threshold: nat, w: nat, w2: nat)
    requires 1 <= k <= 7 && w == Pow2(k) && w2 == 2 * w && threshold + 1 == Pow2(w)
    requires MsbSoFar(ratio, msb, r, w2) && r <= threshold
    ensures MsbSoFar(ratio, Or(msb, 0), Shr(r, 0), w)
  {
    MultipleOfHalf(msb, w);
    assert Shr(r, 0) == Div(r, 1) == r;
  }

  /** `r` at or above `2^w`: shifting it down by `w` keeps it `ratio >> (msb + w)`, positive and below `2^w`. */
  lemma MsbTake(ratio: U256, msb: nat, r: U256, w: nat, w2: nat)
    requires w2 == 2 * w && r == Div(ratio, Pow2(msb)) && Pow2(w) <= r < Pow2(w2)
    ensures Shr(r, w) == Div(ratio, Pow2(msb + w)) && 0 < Shr(r, w) < Pow2(w)
  {
    Pow2Split(w, w, w2);
    DivBetween(r, Pow2(w), 1, Pow2(w));
    DivDiv(ratio, Pow2(msb), Pow2(w));
    Pow2Split(msb, w, msb + w);
  }

  /** One block of the search: `f = if r > threshold { 1 << k } else { 0 };
      msb |= f; r >>= f`. */
  method MsbStep(ratio: U256, msb: U256, r: U256, k: nat, threshold: U256, ghost w: nat, ghost w2: nat)
    returns (msb': U256, r': U256)
    requires 1 <= k <= 7 && w == Pow2(k) && w2 == 2 * w && threshold + 1 == Pow2(w)
    requires MsbSoFar(ratio, msb, r, w2)
    ensures MsbSoFar(ratio, msb', r', w)
  {
    var f: U256 := if r > threshold then Shl(1, k) else 0;
    if r > threshold {
      MsbBlockTaken(ratio, msb, r, k, threshold, w, w2);
      assert f == w;
    } else {
      MsbBlockSkipped(ratio, msb, r, k, threshold, w, w2);
      assert f == 0;
    }
    msb' := Or(msb, f);
    r' := Shr(r, f);
  }

  /** Before the search: nothing shifted yet, and every word is below 2^256. */
  lemma MsbStart(ratio: U256)
    requires ratio > 0
    ensures MsbSoFar(ratio, 0, ratio, 256)
  {
    Pow2Word();
    assert Div(ratio, Pow2(0)) == Div(ratio, 1) == ratio;
  }

  /** The last block, `f = if r > 1 { 1 } else { 0 }; msb |= f`, without a
      shift: `r` is 1, 2 or 3, and its top bit lands on the answer. */
  lemma MsbLast(ratio: U256, msb: nat, r: nat)
    requires MsbSoFar(ratio, msb, r, 2)
    ensures var f := if r > 1 then 1 else 0;
      Or(msb, f) == msb + f && MostSignificantBit(ratio) == Ok(msb + f)
  {
    var p := Pow2(msb);
    var q := ratio / p;
    assert ratio == q * p + ratio % p;
    assert Pow2(2) == 4 && Pow2(1) == 2;
    Pow2Double(msb, p);
    Pow2Double(msb + 1, 2 * p);
    if r > 1 {
      OrPow2(msb, 0);
      MulLeRight(2, q, p);
      MulLeRight(q + 1, 4, p);
      MsbIs(ratio, msb + 1);
    } else {
      MulLeRight(q + 1, 2, p);
      MsbIs(ratio, msb);
    }
  }

  /** The widths and thresholds of the seven blocks of the search. */
  lemma MsbWidths()
    ensures Pow2(1) == 2 && Pow2(2) == 4 && Pow2(3) == 8 && Pow2(4) == 16
    ensures Pow2(5) == 32 && Pow2(6) == 64 && Pow2(7) == 128
    ensures Pow2(8) == TWO_8 && Pow2(16) == TWO_16 && Pow2(32) == TWO_32
    ensures Pow2(64) == TWO_64 && Pow2(128) == TWO_128
  {
    Pow2Constants();
    assert Pow2(7) == 128;
  }

  /** The first four blocks of the search, at widths 128 down to 16. */
  method MsbSearchHigh(ratio: U256) returns (msb: U256, r: U256)
    requires ratio > 0
    ensures MsbSoFar(ratio, msb, r, 16)
  {
    MsbWidths();
    MsbStart(ratio);
    r := ratio;
    msb := 0;
    msb, r := MsbStep(ratio, msb, r, 7, 0xffff_ffff_ffff_ffff_ffff_ffff_ffff_ffff, 128, 256);
    msb, r := MsbStep(ratio, msb, r, 6, 0xffff_ffff_ffff_ffff, 64, 128);
    msb, r := MsbStep(ratio, msb, r, 5, 0xffff_ffff, 32, 64);
    msb, r := MsbStep(ratio, msb, r, 4, 0xffff, 16, 32);
  }

  /** The search of `get_tick_at_sqrt_ratio`: seven blocks halving the width
      from 128 to 2, and a last one-bit step. It finds the most significant
      bit. */
  method MostSignificantBitSearch(ratio: U256) returns (msb: U256)
    requires ratio > 0
    ensures MostSignificantBit(ratio) == Ok(msb)
  {
    var r;
    msb, r := MsbSearchHigh(ratio);
    MsbWidths();
    msb, r := MsbStep(ratio, msb, r, 3, 0xff, 8, 16);
    msb, r := MsbStep(ratio, msb, r, 2, 0xf, 4, 8);
    msb, r := MsbStep(ratio, msb, r, 1, 0x3, 2, 4);
    MsbLast(ratio, msb, r);
    var f: U256 := if r > 1 then 1 else 0;
    msb := Or(msb, f);
  }

  // ---------------------------------------------------------------------------
  // The fraction bits of the logarithm (src/tick_math.rs, lines 198-210)

  /** `(msb - 128) << 64` on `I256`: the integer part of the logarithm,
      negative below bit 128, with no bit lost. */
  lemma LogStart(msb: U256)
    requires 64 <= msb <= 191
    ensures I256Shl(I256Sub(FromRaw(msb), 128), 64) == (msb as int - 128) * TWO_64
  {
    Pow2Of64();
    var x: int := msb as int - 128;
    assert I256Sub(FromRaw(msb), 128) == x;
    MulLeRight(-64, x, TWO_64);
    MulLeRight(x, 63, TWO_64);
    if x >= 0 {
      ModInRange(x * TWO_64, TWO_256);
    } else {
      MulDistributes(x, TWO_256, TWO_64);
      DivUnique((x + TWO_256) * TWO_64, TWO_256, TWO_64 - 1, x * TWO_64 + TWO_256);
    }
  }

  /** One squaring of the loop on a number of [1, 2): the product does not
      wrap, `f` is its top bit, and `r >> f` is the halved square. */
  lemma SquareBit(r: U256)
    requires Normalised(r)
    ensures var s := Shr(MulWrap(r, r), 127);
      s == Square(r) &&
      Shr(s, 128) == (if Square(r) >= TWO_128 then 1 else 0) &&
      Shr(s, Shr(s, 128)) == (if Square(r) >= TWO_128 then Div(Square(r), 2) else Square(r))
  {
    SquareRange(r);
    Pow2Of127();
    ModInRange(r * r, TWO_256);
    var s := Square(r);
    if s >= TWO_128 {
      DivBetween(s, TWO_128, 1, 2);
      assert Pow2(1) == 2;
    } else {
      DivBetween(s, TWO_128, 0, 1);
      assert Pow2(0) == 1;
    }
  }

  /** A product with a positive factor has the sign of the other factor. */
  lemma SignOfProduct(c: int, p: nat)
    requires p > 0
    ensures c * p >= 0 <==> c >= 0
  {
    if c >= 0 {
      MulLeRight(0, c, p);
    } else {
      MulLeRight(c, -1, p);
    }
  }

  /** A number of the form `c * 2^n` with `c` an integer: its bit pattern is a
      multiple of `2^n` when `n <= 256`. */
  lemma RawAligned(x: I256, n: nat, d: nat, c: int)
    requires n <= 256 && d == Pow2(n) && x == c * d
    ensures Raw(x) % d == 0
  {
    SignOfProduct(c, d);
    if x >= 0 {
      MulDivCancel(c, d);
    } else {
      var e := Pow2(256 - n);
      Pow2Split(256 - n, n, 256);
      Pow2Word();
      MulDistributes(c, e, d);
      SignOfProduct(c + e, d);
      MulDivCancel(c + e, d);
    }
  }

  /** Or-ing `2^i` into a number whose bits at or below `i` are clear, with
      room above it and no change of sign, adds `2^i`. */
  lemma OrAligned(x: I256, i: nat)
    requires i < 255 && Raw(x) % Pow2(i + 1) == 0
    requires x + Pow2(i) < TWO_255 && (x < 0 ==> x + Pow2(i) < 0)
    ensures Pow2(i) < TWO_255 && I256Or(x, FromRaw(Pow2(i))) == x + Pow2(i)
  {
    Pow2Of255();
    Pow2Monotone(i, 255);
    OrPow2(Raw(x), i);
  }

  /** The logarithm before bit `i` is set, with `d == 2^(i + 1)`: a multiple
      of `d`, with room for bit `i` and no change of sign when it is added. */
  lemma LogShape(x: int, m: int, acc: nat, p: nat, q: nat, d: nat)
    requires -64 <= m < 64 && acc < q && p > 0 && d == 2 * p && q * d == TWO_64
    requires x == m * TWO_64 + acc * d
    ensures x == (m * q + acc) * d
    ensures -(TWO_255 as int) <= x && x + p < TWO_255 && (x < 0 ==> x + p < 0)
  {
    var a := acc * d;
    MulAssoc(m, q, d);
    MulDistributes(m * q, acc, d);
    MulDistributes(acc, 1, d);
    MulLeRight(acc + 1, q, d);
    assert a + d <= TWO_64;
    IntegerPart(m);
  }

  lemma MulAssoc(a: int, b: int, c: int)
    ensures (a * b) * c == a * (b * c)
  {
  }

  /** The integer part `m * 2^64` of the logarithm. */
  lemma IntegerPart(m: int)
    requires -64 <= m < 64
    ensures -64 * TWO_64 <= m * TWO_64 <= 63 * TWO_64
    ensures m < 0 ==> m * TWO_64 <= -(TWO_64 as int)
    ensures m >= 0 ==> m * TWO_64 >= 0
  {
    MulLeRight(-64, m, TWO_64);
    MulLeRight(m, 63, TWO_64);
    if m < 0 {
      MulLeRight(m, -1, TWO_64);
    } else {
      MulLeRight(0, m, TWO_64);
    }
  }

  lemma Pow2Of64()
    ensures Pow2(64) == TWO_64
  {
    Pow2Constants();
  }

  /** Or-ing bit `f << i` into the logarithm appends `f` to the fraction. */
  lemma OrBit(log2: I256, i: nat, m: int, acc: nat, f: nat)
    requires 50 <= i < 64 && -64 <= m < 64 && acc < Pow2(63 - i) && f <= 1
    requires log2 == m * TWO_64 + acc * Pow2(i + 1)
    ensures Shl(f, i) == f * Pow2(i)
    ensures I256Or(log2, FromRaw(Shl(f, i))) == m * TWO_64 + (2 * acc + f) * Pow2(i)
  {
    var p, q, d := Pow2(i), Pow2(63 - i), Pow2(i + 1);
    Pow2Split(63 - i, i + 1, 64);
    Pow2Of64();
    LogShape(log2, m, acc, p, q, d);
    RawAligned(log2, i + 1, d, m * q + acc);
    OrBitAt(log2, i, p, f);
    Twice(acc, p);
    MulDistributes(2 * acc, f, p);
  }

  /** Or-ing `f << i` for a bit `f` into an aligned logarithm adds `f * 2^i`. */
  lemma OrBitAt(x: I256, i: nat, p: nat, f: nat)
    requires i < 255 && p == Pow2(i) && Raw(x) % Pow2(i + 1) == 0 && f <= 1
    requires x + p < TWO_255 && (x < 0 ==> x + p < 0)
    ensures Shl(f, i) == f * p && I256Or(x, FromRaw(Shl(f, i))) == x + f * p
  {
    if f == 0 {
      assert Shl(0, i) == 0;
      assert Or(Raw(x), 0) == Raw(x);
      RawRoundTrip(x, 0);
    } else {
      ShlOne(i);
      OrAligned(x, i);
    }
  }

  /** The state of the fraction loop at bit `i`: the bits above `i` are in
      `acc` and in the logarithm, and the bits still to come are those of
      `r`, so that folding them into `acc` gives `total`. */
  ghost predicate LogSoFar(r: nat, log2: int, i: nat, m: int, acc: nat, total: nat)
  {
    && 50 <= i <= 64 && Normalised(r) && -64 <= m < 64
    && acc < Pow2(64 - i) && log2 == m * TWO_64 + acc * Pow2(i)
    && FracFold(r, i - 50, acc) == total
  }

  /** One pass of the loop body for bit `i` keeps `LogSoFar`. */
  lemma LogStep(r: U256, log2: I256, i: nat, m: int, acc: nat, total: nat, s: U256, f: U256)
    requires 50 <= i < 64 && LogSoFar(r, log2, i + 1, m, acc, total)
    requires s == Shr(MulWrap(r, r), 127) && f == Shr(s, 128)
    ensures f <= 1 && LogSoFar(Shr(s, f), I256Or(log2, FromRaw(Shl(f, i))), i, m, 2 * acc + f, total)
  {
    FracStep(r, i + 1 - 50, acc, s, f);
    assert Pow2(64 - i) == 2 * Pow2(63 - i);
    OrBit(log2, i, m, acc, f);
  }

  /** One squaring step of the loop is one step of `FracFold`. */
  lemma FracStep(r: U256, n: nat, acc: nat, s: U256, f: U256)
    requires Normalised(r) && n > 0
    requires s == Shr(MulWrap(r, r), 127) && f == Shr(s, 128)
    ensures f <= 1 && Normalised(Shr(s, f))
    ensures FracFold(r, n, acc) == FracFold(Shr(s, f), n - 1, 2 * acc + f)
  {
    SquareBit(r);
    SquareRange(r);
  }

  lemma Pow2Of50()
    ensures Pow2(50) == TWO_50
  {
    Pow2Of64();
    Pow2Of14();
    Pow2Split(50, 14, 64);
  }

  /** The loop body for bit `i`: square, take the top bit as fraction
      bit `i`, halve when it is set. */
  method LogIteration(r: U256, log2: I256, i: nat, ghost m: int, ghost acc: nat, ghost total: nat)
    returns (r': U256, log2': I256, ghost acc': nat)
    requires 50 <= i < 64 && LogSoFar(r, log2, i + 1, m, acc, total)
    ensures LogSoFar(r', log2', i, m, acc', total)
  {
    var s := Shr(MulWrap(r, r), 127);
    var f := Shr(s, 128);
    LogStep(r, log2, i, m, acc, total, s, f);
    log2' := I256Or(log2, FromRaw(Shl(f, i)));
    r' := Shr(s, f);
    acc' := 2 * acc + f;
  }

  /** The loop over the fraction bits 63 down to 51 and the final step for
      bit 50: the fraction is `FracFold(r0, 14, 0)`, placed at bit 50. */
  method LogBits(r0: U256, start: I256, ghost m: int) returns (log2: I256)
    requires Normalised(r0) && -64 <= m < 64 && start == m * TWO_64
    ensures log2 == m * TWO_64 + FracFold(r0, 14, 0) * TWO_50
  {
    ghost var total := FracFold(r0, 14, 0);
    ghost var acc: nat := 0;
    var r := r0;
    log2 := start;
    for i := 64 downto 51
      invariant LogSoFar(r, log2, i, m, acc, total)
    {
      r, log2, acc := LogIteration(r, log2, i, m, acc, total);
    }
    var s := Shr(MulWrap(r, r), 127);
    var f := Shr(s, 128);
    LogStep(r, log2, 50, m, acc, total, s, f);
    log2 := I256Or(log2, FromRaw(Shl(f, 50)));
    Pow2Of50();
  }

  // ---------------------------------------------------------------------------
  // get_tick_at_sqrt_ratio on words (src/tick_math.rs, lines 123-227)

  /** `price << 32` does not wrap below `MAX_SQRT_RATIO`. */
  lemma PriceShift(price: U256)
    requires price < MAX_SQRT_RATIO
    ensures Shl(price, 32) == PriceRatio(price)
  {
    Pow2Constants();
    ModInRange(PriceRatio(price), TWO_256);
  }

  /** The Rust normalisation, a right shift from bit 128 up and a left shift
      below it, is `Normalise` and lands in [2^127, 2^128). */
  lemma NormaliseWord(ratio: U256, msb: nat)
    requires ratio > 0 && MostSignificantBit(ratio) == Ok(msb)
    ensures msb < 128 ==> Shl(ratio, 127 - msb) == Normalise(ratio, msb)
    ensures msb >= 128 ==> Shr(ratio, msb - 127) == Normalise(ratio, msb)
    ensures Normalised(Normalise(ratio, msb))
  {
    NormaliseRange(ratio, msb);
    if msb < 128 {
      ModInRange(Normalise(ratio, msb), TWO_256);
    }
  }

  /** The integer part, the leading bit and the fraction bits: the logarithm
      the Rust code builds before multiplying by `SQRT_10001`. */
  method Log2OfPrice(price: U256) returns (log2: I256)
    requires MIN_SQRT_RATIO <= price < MAX_SQRT_RATIO
    ensures log2 == Log2(PriceRatio(price))
  {
    PriceShift(price);
    PriceTopBit(price);
    var ratio := Shl(price, 32);
    var msb := MostSignificantBitSearch(ratio);
    NormaliseWord(ratio, msb);
    var r := if msb >= 128 then Shr(ratio, msb - 127) else Shl(ratio, 127 - msb);
    LogStart(msb);
    var start := I256Shl(I256Sub(FromRaw(msb), 128), 64);
    log2 := LogBits(r, start, msb as int - 128);
  }

  /** `log_2 * SQRT_10001`, then `(log_sqrt10001 - TICK_LOW) >> 128` and
      `(log_sqrt10001 + TICK_HIGH) >> 128` truncated to `i32`: none of the
      signed operations wraps, so the words hold the exact candidates. */
  lemma TickCandidates(price: U256, log2: I256)
    requires MIN_SQRT_RATIO <= price < MAX_SQRT_RATIO && log2 == Log2(PriceRatio(price))
    ensures var logSqrt := I256Mul(log2, SQRT_10001);
      logSqrt == LogSqrt10001(price) &&
      WrapI32(I256Shr(I256Sub(logSqrt, TICK_LOW), 128)) == TickLow(LogSqrt10001(price)) &&
      WrapI32(I256Shr(I256Add(logSqrt, TICK_HIGH), 128)) == TickHigh(LogSqrt10001(price))
  {
    Log2Range(price);
    CandidateBounds(price);
    Pow2Of127();
  }

  /** `get_tick_at_sqrt_ratio`, statement by statement. */
  method GetTickAtSqrtRatio(price: U256) returns (r: Result<I32>)
    ensures r == TickAtSqrtRatio(price)
  {
    if !(price >= MIN_SQRT_RATIO && price < MAX_SQRT_RATIO) {
      return Err(R);
    }
    var log2 := Log2OfPrice(price);
    TickCandidates(price, log2);
    var logSqrt := I256Mul(log2, SQRT_10001);
    var tickLow := WrapI32(I256Shr(I256Sub(logSqrt, TICK_LOW), 128));
    var tickHigh := WrapI32(I256Shr(I256Add(logSqrt, TICK_HIGH), 128));
    CandidateBounds(price);
    if tickLow == tickHigh {
      r := Ok(tickLow);
    } else {
      var s := GetSqrtRatioAtTick(tickHigh);
      r := Ok(if s.value <= price then tickHigh else tickLow);
    }
  }
}
