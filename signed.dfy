/** The signed integer widths the core uses (`i16`, `i32`, `u8` casts and
    alloy's two's-complement `I256`), with every truncating cast and every
    wrapping operation written out, and Rust's truncating `/` and `%`. */
module Signed {
  import opened Word

  const I16_MIN: int := -0x8000
  const I16_MAX: int := 0x7fff
  const I32_MIN: int := -0x8000_0000
  const I32_MAX: int := 0x7fff_ffff

  type I16 = x: int | I16_MIN <= x <= I16_MAX
  type I32 = x: int | I32_MIN <= x <= I32_MAX
  const I256_MIN: int := -(TWO_255 as int)

  type I256 = x: int | I256_MIN <= x < TWO_255

  // ---------------------------------------------------------------------------
  // Rust's integer division and remainder (truncating toward zero)

  /** `a / b` on Rust integers: the quotient rounded toward zero. */
  function RustDiv(a: int, b: int): (q: int)
    requires b != 0
    ensures 0 <= a ==> (0 < b ==> q == a / b)
  {
    var m := (if a < 0 then -a else a) / (if b < 0 then -b else b);
    if (a < 0) == (b < 0) then m else -m
  }

  /** `a % b` on Rust integers: the remainder takes the sign of `a`. */
  function RustRem(a: int, b: int): int
    requires b != 0
  {
    a - b * RustDiv(a, b)
  }

  /** Truncating division and remainder decompose `a`, with the remainder
      smaller than the divisor and of the dividend's sign. */
  lemma RustDivRem(a: int, b: int)
    requires b != 0
    ensures a == b * RustDiv(a, b) + RustRem(a, b)
    ensures RustRem(a, b) == 0 || (RustRem(a, b) < 0 <==> a < 0)
    ensures -(if b < 0 then -b else b) < RustRem(a, b) < (if b < 0 then -b else b)
  {
    var ua, ub := if a < 0 then -a else a, if b < 0 then -b else b;
    var m := ua / ub;
    assert ua == m * ub + ua % ub;
    if a < 0 && b < 0 {
      assert RustRem(a, b) == a - b * m == -(ua % ub);
    } else if a < 0 {
      assert RustRem(a, b) == a + b * m == -(ua % ub);
    } else if b < 0 {
      assert RustRem(a, b) == a + b * m == ua % ub;
    } else {
      assert RustRem(a, b) == a - b * m == ua % ub;
    }
  }

  /** An `i32` division that does not overflow (`i32::MIN / -1` is the only one
      that does) stays within `i32`, and strictly above `i32::MIN` when it
      leaves a remainder. */
  lemma RustDivFits(a: I32, b: I32)
    requires b != 0 && !(a == I32_MIN && b == -1)
    ensures I32_MIN <= RustDiv(a, b) <= I32_MAX
    ensures RustRem(a, b) != 0 ==> I32_MIN < RustDiv(a, b)
  {
    var ua: nat, ub: nat := if a < 0 then -(a as int) else a, if b < 0 then -(b as int) else b;
    if ub == 1 {
      assert ua / ub == ua;
    } else {
      HalfAtLeast(ua, ub);
    }
  }

  /** `a / b` and `a % b` on `i32`, for the arguments that do not panic. */
  function I32Div(a: I32, b: I32): (q: I32)
    requires b != 0 && !(a == I32_MIN && b == -1)
    ensures q == RustDiv(a, b)
  {
    RustDivFits(a, b);
    RustDiv(a, b)
  }

  lemma HalfAtLeast(x: nat, d: nat)
    requires d >= 2
    ensures 2 * (x / d) <= x
  {
    var q := x / d;
    assert x == q * d + x % d;
    assert q * d == q * (d - 2) + 2 * q;
  }

  // ---------------------------------------------------------------------------
  // Truncating casts

  /** `x as i16`: keep the low 16 bits, read them as two's complement. */
  function WrapI16(x: int): (r: I16)
    ensures I16_MIN <= x <= I16_MAX ==> r == x
  {
    if I16_MIN <= x <= I16_MAX then x else (x + 0x8000) % 0x1_0000 - 0x8000
  }

  /** `x as i32` and `I256::low_i32`: keep the low 32 bits. */
  function WrapI32(x: int): (r: I32)
    ensures I32_MIN <= x <= I32_MAX ==> r == x
  {
    if I32_MIN <= x <= I32_MAX then x else (x + 0x8000_0000) % 0x1_0000_0000 - 0x8000_0000
  }

  /** `x as u8` */
  function WrapU8(x: int): (r: U8)
    ensures 0 <= x < 256 ==> r == x
  {
    if 0 <= x < 256 then x else x % 256
  }

  /** Wrap-around of a signed 256-bit result. */
  function WrapI256(x: int): (r: I256)
    ensures I256_MIN <= x < TWO_255 ==> r == x
  {
    ModInRange(x + TWO_255, TWO_256);
    (x + TWO_255) % TWO_256 - TWO_255
  }

  /** Reduction modulo `m` is the identity on `[0, m)`. */
  lemma ModInRange(x: int, m: nat)
    requires m > 0
    ensures 0 <= x < m ==> x % m == x
  {
    if 0 <= x < m {
      DivUnique(x, m, 0, x);
    }
  }

  /** Casting a Rust remainder by 256 to `u8` gives the Euclidean remainder. */
  lemma WrapU8RustRem(t: int)
    ensures WrapU8(RustRem(t, 256)) == t % 256
  {
    RustDivRem(t, 256);
    var q := RustDiv(t, 256);
    var r := RustRem(t, 256);
    if r >= 0 {
      DivUnique(t, 256, q, r);
      ModInRange(r, 256);
    } else {
      DivUnique(t, 256, q - 1, r + 256);
      DivUnique(r, 256, -1, r + 256);
    }
  }

  // ---------------------------------------------------------------------------
  // Two's-complement 256-bit signed words (alloy `I256`)

  /** `I256::into_raw`: the two's-complement bit pattern. */
  function Raw(x: I256): U256
  {
    if x >= 0 then x else x + TWO_256
  }

  /** `I256::from_raw`: the bit pattern read as two's complement. */
  function FromRaw(u: U256): I256
  {
    if u < TWO_255 then u else u - TWO_256
  }

  /** `from_raw` and `into_raw` are inverse bijections. */
  lemma RawRoundTrip(x: I256, u: U256)
    ensures FromRaw(Raw(x)) == x
    ensures Raw(FromRaw(u)) == u
  {
  }

  /** `x << n` on `I256`: shift the bit pattern. */
  function I256Shl(x: I256, n: nat): I256
  {
    FromRaw(Shl(Raw(x), n))
  }

  /** `x >> n` on `I256`: arithmetic shift, i.e. division rounded toward minus infinity. */
  function I256Shr(x: I256, n: nat): (r: I256)
    ensures (0 <= x ==> 0 <= r <= x) && (x < 0 ==> x <= r < 0)
  {
    FloorDivBounds(x, Pow2(n));
    x / Pow2(n)
  }

  lemma FloorDivBounds(x: int, d: nat)
    requires d > 0
    ensures (0 <= x ==> 0 <= x / d <= x) && (x < 0 ==> x <= x / d < 0)
  {
    if x >= 0 {
      DivAtMost(x, d);
    } else {
      var q, r := x / d, x % d;
      assert x == q * d + r && 0 <= r < d;
      MulAtLeastLeft(-(q + 1), d);
      assert (q + 1) * d == q * d + d;
    }
  }

  /** `x | y` on `I256`: or the bit patterns. */
  function I256Or(x: I256, y: I256): I256
  {
    Pow2Word();
    OrBound(Raw(x), Raw(y), 256);
    FromRaw(Or(Raw(x), Raw(y)))
  }

  /** `x + y`, `x - y` and `x.wrapping_mul(y)` on `I256`, modulo 2^256. */
  function I256Add(x: I256, y: I256): I256 { WrapI256(x + y) }
  function I256Sub(x: I256, y: I256): I256 { WrapI256(x - y) }
  function I256Mul(x: I256, y: I256): I256 { WrapI256(x * y) }
}
