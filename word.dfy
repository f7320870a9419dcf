/** Unsigned 256-bit words (`alloy::primitives::U256`, a ruint `Uint<256, 4>`)
    modelled as bounded naturals. The ruint operators wrap modulo 2^256, so every
    operator the core uses is written out here with its wrap-around made explicit,
    and the bitwise operators are defined bit by bit on naturals. */
module Word {

  const TWO_8: nat := 0x100
  const TWO_16: nat := 0x1_0000
  const TWO_32: nat := 0x1_0000_0000
  const TWO_64: nat := 0x1_0000_0000_0000_0000
  const TWO_127: nat := 0x8000_0000_0000_0000_0000_0000_0000_0000
  const TWO_128: nat := 0x1_0000_0000_0000_0000_0000_0000_0000_0000
  const TWO_255: nat := 0x8000_0000_0000_0000_0000_0000_0000_0000_0000_0000_0000_0000_0000_0000_0000_0000
  const TWO_256: nat := 0x1_0000_0000_0000_0000_0000_0000_0000_0000_0000_0000_0000_0000_0000_0000_0000_0000
  /** `U256::MAX` */
  const MAX_U256: nat := TWO_256 - 1

  type U256 = x: nat | x < TWO_256
  type U8 = x: nat | x < 256

  /** A value given as little-endian 64-bit limbs, as `U256::from_limbs` takes it. */
  function FromLimbs(l0: nat, l1: nat, l2: nat, l3: nat): nat
  {
    l0 + l1 * TWO_64 + l2 * TWO_128 + l3 * TWO_64 * TWO_128
  }

  // ---------------------------------------------------------------------------
  // Powers of two

  function Pow2(n: nat): (r: nat)
    ensures r > 0
  {
    if n == 0 then 1 else 2 * Pow2(n - 1)
  }

  lemma {:induction false} Pow2Add(a: nat, b: nat)
    ensures Pow2(a + b) == Pow2(a) * Pow2(b)
  {
    if a > 0 {
      Pow2Add(a - 1, b);
    }
  }

  /** `2^a * 2^b == 2^c` when `a + b == c`. */
  lemma Pow2Split(a: nat, b: nat, c: nat)
    requires a + b == c
    ensures Pow2(a) * Pow2(b) == Pow2(c)
  {
    Pow2Add(a, b);
  }

  /** One more factor of two, given the value of `2^n`. */
  lemma Pow2Double(n: nat, v: nat)
    requires Pow2(n) == v
    ensures Pow2(n + 1) == 2 * v
  {
  }

  /** Squaring, given the value of `2^n`. */
  lemma Pow2Square(n: nat, v: nat)
    requires Pow2(n) == v
    ensures Pow2(n + n) == v * v
  {
    Pow2Add(n, n);
  }

  lemma {:induction false} Pow2Monotone(a: nat, b: nat)
    requires a <= b
    ensures Pow2(a) <= Pow2(b)
    ensures a < b ==> 2 * Pow2(a) <= Pow2(b)
    decreases b
  {
    if a < b {
      Pow2Monotone(a, b - 1);
    }
  }

  /** The powers of two that appear as shift amounts and bounds in the core. */
  lemma Pow2Constants()
    ensures Pow2(8) == TWO_8 && Pow2(16) == TWO_16 && Pow2(32) == TWO_32
    ensures Pow2(64) == TWO_64 && Pow2(127) == TWO_127 && Pow2(128) == TWO_128
    ensures Pow2(255) == TWO_255 && Pow2(256) == TWO_256
  {
    Pow2Square(8, TWO_8);
    Pow2Square(16, TWO_16);
    Pow2Square(32, TWO_32);
    Pow2Square(64, TWO_64);
    Pow2Square(128, TWO_128);
    Pow2Double(127, TWO_127);
    Pow2Double(255, TWO_255);
  }

  /** The word bound alone, for proofs that need no other power. */
  lemma Pow2Word()
    ensures Pow2(256) == TWO_256
  {
    Pow2Constants();
  }

  /** `Pow2(n)` fits a word exactly when `n < 256`. */
  lemma Pow2Fits(n: nat)
    ensures Pow2(n) < TWO_256 <==> n < 256
  {
    Pow2Word();
    if n < 256 {
      Pow2Monotone(n, 256);
    } else {
      Pow2Monotone(256, n);
    }
  }

  // ---------------------------------------------------------------------------
  // Division facts

  /** Division with its one bound made visible, so that callers need not
      reason about `/` against the 2^256 word bound. */
  function Div(x: nat, d: nat): (r: nat)
    requires d > 0
    ensures r <= x
  {
    DivAtMost(x, d);
    x / d
  }

  lemma MulAtLeast(a: int, d: nat)
    requires a >= 1
    ensures a * d >= d
  {
  }

  lemma MulAtLeastLeft(a: nat, d: nat)
    requires d >= 1
    ensures a * d >= a
  {
    assert a * d == a * (d - 1) + a;
  }

  lemma DivAtMost(x: nat, d: nat)
    requires d > 0
    ensures x / d <= x
  {
    var q := x / d;
    assert x == q * d + x % d;
    MulAtLeastLeft(q, d);
  }

  lemma DivUnique(x: int, d: nat, q: int, r: int)
    requires d > 0 && x == q * d + r && 0 <= r < d
    ensures x / d == q && x % d == r
  {
    var q0, r0 := x / d, x % d;
    assert (q - q0) * d == r0 - r;
    if q > q0 {
      MulAtLeast(q - q0, d);
    } else if q < q0 {
      MulAtLeast(q0 - q, d);
    }
  }

  lemma DivDiv(x: nat, a: nat, b: nat)
    requires a > 0 && b > 0
    ensures x / (a * b) == x / a / b
  {
    var q1, r1 := x / a, x % a;
    var q2, r2 := q1 / b, q1 % b;
    assert x == q1 * a + r1;
    assert q1 == q2 * b + r2;
    calc {
      x;
      (q2 * b + r2) * a + r1;
      { MulDistributes(q2 * b, r2, a); }
      q2 * b * a + r2 * a + r1;
      q2 * (a * b) + (r2 * a + r1);
    }
    MulLeRight(r2, b - 1, a);
    assert (b - 1) * a == a * b - a;
    DivUnique(x, a * b, q2, r2 * a + r1);
  }

  lemma MulDistributes(x: int, y: int, a: int)
    ensures (x + y) * a == x * a + y * a
  {
  }

  lemma MulLeRight(x: int, y: int, a: nat)
    requires x <= y
    ensures x * a <= y * a
  {
    assert y * a - x * a == (y - x) * a;
  }

  lemma DivPow2Succ(x: nat, i: nat)
    ensures x / Pow2(i + 1) == (x / 2) / Pow2(i)
  {
    DivDiv(x, 2, Pow2(i));
  }

  /** Splitting off the lowest bit of a remainder modulo an even number. */
  lemma ModHalf(x: nat, m: nat)
    requires m > 0
    ensures x % (2 * m) == 2 * ((x / 2) % m) + x % 2
  {
    var q, r := (x / 2) / m, (x / 2) % m;
    assert x == q * (2 * m) + (2 * r + x % 2);
    DivUnique(x, 2 * m, q, 2 * r + x % 2);
  }

  lemma MulDivCancel(q: nat, m: nat)
    requires m > 0
    ensures (q * m) / m == q && (q * m) % m == 0
  {
    DivUnique(q * m, m, q, 0);
  }

  // ---------------------------------------------------------------------------
  // Wrapping arithmetic and shifts (ruint semantics)

  function AddWrap(a: U256, b: U256): U256 { (a + b) % TWO_256 }
  function SubWrap(a: U256, b: U256): U256 { (a - b) % TWO_256 }
  function MulWrap(a: U256, b: U256): U256 { (a * b) % TWO_256 }

  /** `x << n`: the bits shifted past bit 255 are dropped. */
  function Shl(x: U256, n: nat): U256 { (x * Pow2(n)) % TWO_256 }

  /** `x >> n` (logical). */
  function Shr(x: U256, n: nat): (r: U256)
    ensures r <= x
  {
    Div(x, Pow2(n))
  }

  /** `!x` */
  function Not(x: U256): U256 { MAX_U256 - x }

  /** `1 << k` is `2^k` for every bit index of a word. */
  lemma ShlOne(k: nat)
    requires k < 256
    ensures Shl(1, k) == Pow2(k)
  {
    Pow2Fits(k);
  }

  // ---------------------------------------------------------------------------
  // Bits

  /** Bit `i` of `x` is set: bit 0 is the parity, bit `i + 1` is bit `i` of
      the half. */
  predicate TestBit(x: nat, i: nat)
    decreases i
  {
    if i == 0 then x % 2 == 1 else TestBit(x / 2, i - 1)
  }

  /** The closed form of a bit: the parity of `x / 2^i`. */
  lemma {:induction false} TestBitClosed(x: nat, i: nat)
    ensures TestBit(x, i) <==> (x / Pow2(i)) % 2 == 1
    decreases i
  {
    if i > 0 {
      TestBitClosed(x / 2, i - 1);
      DivPow2Succ(x, i - 1);
    }
  }

  function And(x: nat, y: nat): (r: nat)
    ensures r <= x && r <= y
    decreases x
  {
    if x == 0 || y == 0 then 0
    else 2 * And(x / 2, y / 2) + (if x % 2 == 1 && y % 2 == 1 then 1 else 0)
  }

  function Or(x: nat, y: nat): nat
    decreases x
  {
    if x == 0 then y
    else if y == 0 then x
    else 2 * Or(x / 2, y / 2) + (if x % 2 == 1 || y % 2 == 1 then 1 else 0)
  }

  function Xor(x: nat, y: nat): nat
    decreases x
  {
    if x == 0 then y
    else if y == 0 then x
    else 2 * Xor(x / 2, y / 2) + (x % 2 + y % 2) % 2
  }

  lemma TestBitHalf(x: nat, i: nat)
    requires i > 0
    ensures TestBit(x, i) <==> TestBit(x / 2, i - 1)
  {
  }

  /** Bit 0 is the parity. */
  lemma TestBitZero(x: nat)
    ensures TestBit(x, 0) <==> x % 2 == 1
  {
  }

  /** The halves and the low bit of `2 * a + b`. */
  lemma HalfOf(a: nat, b: nat)
    requires b < 2
    ensures (2 * a + b) / 2 == a && (2 * a + b) % 2 == b
  {
    DivUnique(2 * a + b, 2, a, b);
  }

  /** The bits of `2 * a + b`: bit 0 is `b`, the rest are those of `a`. */
  lemma TestBitOfDouble(a: nat, b: nat, j: nat)
    requires b < 2
    ensures j == 0 ==> (TestBit(2 * a + b, j) <==> b == 1)
    ensures j > 0 ==> (TestBit(2 * a + b, j) <==> TestBit(a, j - 1))
  {
    HalfOf(a, b);
    TestBitZero(2 * a + b);
    if j > 0 {
      TestBitHalf(2 * a + b, j);
    }
  }

  /** Zero has no bit set. */
  lemma {:induction false} TestBitOfZero(j: nat)
    ensures !TestBit(0, j)
    decreases j
  {
    if j > 0 {
      TestBitOfZero(j - 1);
    }
  }

  /** Two numbers with the same bits are equal. */
  lemma {:induction false} TestBitExtensional(x: nat, y: nat)
    requires forall j: nat :: TestBit(x, j) == TestBit(y, j)
    ensures x == y
    decreases x + y
  {
    assert TestBit(x, 0) == TestBit(y, 0);
    if x != 0 || y != 0 {
      forall j: nat
        ensures TestBit(x / 2, j) == TestBit(y / 2, j)
      {
        TestBitHalf(x, j + 1);
        TestBitHalf(y, j + 1);
      }
      TestBitExtensional(x / 2, y / 2);
    }
  }

  /** The only bit of `2^k` is bit `k`. */
  lemma {:induction false} TestBitPow2(k: nat, j: nat)
    ensures TestBit(Pow2(k), j) <==> j == k
    decreases j
  {
    if j == 0 {
      if k > 0 {
        assert Pow2(k) == 2 * Pow2(k - 1);
      }
    } else {
      TestBitHalf(Pow2(k), j);
      if k > 0 {
        assert Pow2(k) / 2 == Pow2(k - 1);
        TestBitPow2(k - 1, j - 1);
      } else {
        assert Pow2(0) / 2 == 0;
        TestBitOfZero(j - 1);
      }
    }
  }

  /** No bit at or above `n` is set in a number below `2^n`. */
  lemma TestBitAbove(x: nat, n: nat, j: nat)
    requires x < Pow2(n) && n <= j
    ensures !TestBit(x, j)
  {
    Pow2Monotone(n, j);
    DivUnique(x, Pow2(j), 0, x);
    TestBitClosed(x, j);
  }

  /** The top bit of a number in `[2^m, 2^(m+1))` is bit `m`. */
  lemma TestBitTop(x: nat, m: nat)
    requires Pow2(m) <= x < Pow2(m + 1)
    ensures TestBit(x, m)
  {
    DivUnique(x, Pow2(m), 1, x - Pow2(m));
    TestBitClosed(x, m);
  }

  /** No bit below `r` is set in a multiple of `2^r`. */
  lemma {:induction false} TestBitBelow(x: nat, r: nat, j: nat)
    requires x % Pow2(r) == 0 && j < r
    ensures !TestBit(x, j)
    decreases j
  {
    ModHalf(x, Pow2(r - 1));
    if j > 0 {
      TestBitHalf(x, j);
      TestBitBelow(x / 2, r - 1, j - 1);
    }
  }

  /** Bit `j` of `x & y` is set exactly when it is set in both. */
  lemma {:induction false} TestBitAnd(x: nat, y: nat, j: nat)
    ensures TestBit(And(x, y), j) <==> TestBit(x, j) && TestBit(y, j)
    decreases j
  {
    if x == 0 || y == 0 {
      TestBitOfZero(j);
    } else {
      var b := if x % 2 == 1 && y % 2 == 1 then 1 else 0;
      assert And(x, y) == 2 * And(x / 2, y / 2) + b;
      TestBitOfDouble(And(x / 2, y / 2), b, j);
      TestBitOfDouble(x / 2, x % 2, j);
      TestBitOfDouble(y / 2, y % 2, j);
      if j > 0 {
        TestBitAnd(x / 2, y / 2, j - 1);
      }
    }
  }

  /** Bit `j` of `x ^ y` is set exactly when it is set in one of `x`, `y`. */
  lemma {:induction false} TestBitXor(x: nat, y: nat, j: nat)
    ensures TestBit(Xor(x, y), j) <==> (TestBit(x, j) != TestBit(y, j))
    decreases j
  {
    if x == 0 || y == 0 {
      TestBitOfZero(j);
    } else {
      var b := (x % 2 + y % 2) % 2;
      assert Xor(x, y) == 2 * Xor(x / 2, y / 2) + b;
      TestBitOfDouble(Xor(x / 2, y / 2), b, j);
      TestBitOfDouble(x / 2, x % 2, j);
      TestBitOfDouble(y / 2, y % 2, j);
      if j > 0 {
        TestBitXor(x / 2, y / 2, j - 1);
      }
    }
  }

  /** The bits of `2^k - 1` are exactly the bits below `k`. */
  lemma {:induction false} TestBitLowMask(k: nat, j: nat)
    ensures TestBit(Pow2(k) - 1, j) <==> j < k
    decreases j
  {
    if k == 0 {
      TestBitOfZero(j);
    } else if j > 0 {
      assert (Pow2(k) - 1) / 2 == Pow2(k - 1) - 1;
      TestBitHalf(Pow2(k) - 1, j);
      TestBitLowMask(k - 1, j - 1);
    }
  }

  /** Below bit `n`, `2^n - 1 - x` has exactly the bits `x` lacks. */
  lemma {:induction false} TestBitComplement(x: nat, n: nat, j: nat)
    requires x < Pow2(n) && j < n
    ensures TestBit(Pow2(n) - 1 - x, j) <==> !TestBit(x, j)
    decreases j
  {
    var p, a := Pow2(n - 1), x / 2;
    assert Pow2(n) == 2 * p;
    assert Pow2(n) - 1 - x == 2 * (p - 1 - a) + (1 - x % 2);
    TestBitOfDouble(p - 1 - a, 1 - x % 2, j);
    TestBitOfDouble(a, x % 2, j);
    if j > 0 {
      TestBitComplement(a, n - 1, j - 1);
    }
  }

  /** `!x` flips every bit of a word. */
  lemma TestBitNot(x: U256, j: nat)
    requires j < 256
    ensures TestBit(Not(x), j) <==> !TestBit(x, j)
  {
    Pow2Word();
    TestBitComplement(x, 256, j);
  }

  /** A mask of one bit tests that bit. */
  lemma {:induction false} AndPow2(x: nat, k: nat)
    ensures And(x, Pow2(k)) != 0 <==> TestBit(x, k)
    decreases k
  {
    if k == 0 {
    } else if x == 0 {
      TestBitOfZero(k);
    } else {
      assert Pow2(k) / 2 == Pow2(k - 1) && Pow2(k) % 2 == 0;
      AndPow2(x / 2, k - 1);
      TestBitHalf(x, k);
    }
  }

  /** `x | 2^k == x + 2^k` when `x` has no bit at or below `k`. */
  lemma {:induction false} OrPow2(x: nat, k: nat)
    requires x % Pow2(k + 1) == 0
    ensures Or(x, Pow2(k)) == x + Pow2(k)
    decreases k
  {
    if x != 0 && k > 0 {
      ModHalf(x, Pow2(k));
      assert Pow2(k) / 2 == Pow2(k - 1) && Pow2(k) % 2 == 0;
      OrPow2(x / 2, k - 1);
    }
  }

  /** Xor of two numbers below `2^n` stays below `2^n`. */
  lemma {:induction false} XorBound(x: nat, y: nat, n: nat)
    requires x < Pow2(n) && y < Pow2(n)
    ensures Xor(x, y) < Pow2(n)
    decreases x
  {
    if x != 0 && y != 0 {
      XorBound(x / 2, y / 2, n - 1);
    }
  }

  /** Or of two numbers below `2^n` stays below `2^n`. */
  lemma {:induction false} OrBound(x: nat, y: nat, n: nat)
    requires x < Pow2(n) && y < Pow2(n)
    ensures Or(x, y) < Pow2(n)
    decreases x
  {
    if x != 0 && y != 0 {
      OrBound(x / 2, y / 2, n - 1);
    }
  }

  /** Xor-ing the same value twice gives back the original. */
  lemma XorXor(x: nat, y: nat)
    ensures Xor(Xor(x, y), y) == x
  {
    forall j: nat
      ensures TestBit(Xor(Xor(x, y), y), j) == TestBit(x, j)
    {
      TestBitXor(Xor(x, y), y, j);
      TestBitXor(x, y, j);
    }
    TestBitExtensional(Xor(Xor(x, y), y), x);
  }

  /** Xor with one bit of a word stays a word. */
  lemma XorPow2Fits(x: U256, k: nat)
    requires k < 256
    ensures Xor(x, Pow2(k)) < TWO_256
  {
    Pow2Word();
    Pow2Fits(k);
    XorBound(x, Pow2(k), 256);
  }
}
