/** Bit scanning of 256-bit words: the index of the most and of the least
    significant set bit, failing with `ZeroValue` on zero. */
module BitMath {
  import opened Word
  import opened Errors

  /** The number of significant bits of `x` (`256 - leading_zeros` for a word). */
  function BitLength(x: nat): (n: nat)
    ensures x == 0 <==> n == 0
    ensures x < Pow2(n)
    ensures x > 0 ==> Pow2(n - 1) <= x
    decreases x
  {
    if x == 0 then 0
    else
      var m := BitLength(x / 2);
      assert Pow2(m + 1) == 2 * Pow2(m);
      1 + m
  }

  /** The number of zero bits below the lowest set bit; `U256::trailing_zeros`
      gives 256 for zero. */
  function TrailingZeros(x: nat): (n: nat)
    ensures x == 0 ==> n == 256
    ensures x > 0 ==> x % Pow2(n) == 0 && TestBit(x, n)
    decreases x
  {
    if x == 0 then 256
    else if x % 2 == 1 then 0
    else
      var m := TrailingZeros(x / 2);
      ModHalf(x, Pow2(m));
      TestBitHalf(x, m + 1);
      1 + m
  }

  /** A nonzero word has at most 256 significant bits. */
  lemma BitLengthWord(x: U256)
    ensures BitLength(x) <= 256
  {
    Pow2Word();
    var n := BitLength(x);
    if n > 256 {
      Pow2Monotone(256, n - 1);
    }
  }

  /** `U256::leading_zeros` */
  function LeadingZeros(x: U256): (r: nat)
    ensures r <= 256 && (x == 0 <==> r == 256)
  {
    BitLengthWord(x);
    256 - BitLength(x)
  }

  /** The lowest set bit of a nonzero word lies below bit 256. */
  lemma TrailingZerosWord(x: U256)
    requires x != 0
    ensures TrailingZeros(x) < 256
  {
    Pow2Word();
    if TrailingZeros(x) >= 256 {
      TestBitAbove(x, 256, TrailingZeros(x));
    }
  }

  /** `most_significant_bit`: zero fails with `ZeroValue`; otherwise the
      result `r` is the exponent with `2^r <= x < 2^(r+1)`. */
  function MostSignificantBit(x: U256): (r: Result<U8>)
    ensures x == 0 <==> r == Err(ZeroValue)
    ensures r.Ok? ==> Pow2(r.value) <= x < Pow2(r.value + 1)
  {
    if x == 0 then Err(ZeroValue)
    else
      assert LeadingZeros(x) < 256;
      Ok(255 - LeadingZeros(x))
  }

  /** `least_significant_bit`: zero fails with `ZeroValue`; otherwise bit `r`
      of `x` is set and `x` is a multiple of `2^r`. */
  function LeastSignificantBit(x: U256): (r: Result<U8>)
    ensures x == 0 <==> r == Err(ZeroValue)
    ensures r.Ok? ==> TestBit(x, r.value) && x % Pow2(r.value) == 0
  {
    if x == 0 then Err(ZeroValue)
    else
      TrailingZerosWord(x);
      Ok(TrailingZeros(x))
  }

  /** The exponent bracketing `x` determines the most significant bit. */
  lemma MsbIs(x: U256, m: nat)
    requires Pow2(m) <= x < Pow2(m + 1)
    ensures MostSignificantBit(x) == Ok(m)
  {
    var r := MostSignificantBit(x).value;
    if r < m {
      Pow2Monotone(r + 1, m);
    } else if m < r {
      Pow2Monotone(m + 1, r);
    }
  }

  /** The lowest set bit determines the least significant bit. */
  lemma LsbIs(x: U256, k: nat)
    requires TestBit(x, k) && x % Pow2(k) == 0
    ensures LeastSignificantBit(x) == Ok(k)
  {
    if x == 0 {
      TestBitOfZero(k);
    }
    var r := LeastSignificantBit(x).value;
    if r < k {
      TestBitBelow(x, k, r);
    } else if k < r {
      TestBitBelow(x, r, k);
    }
  }

  /** The most significant bit is set, and no bit above it is. */
  lemma MsbBits(x: U256)
    requires x != 0
    ensures TestBit(x, MostSignificantBit(x).value)
    ensures forall j: nat :: MostSignificantBit(x).value < j ==> !TestBit(x, j)
  {
    var m := MostSignificantBit(x).value;
    TestBitTop(x, m);
    forall j: nat | m < j
      ensures !TestBit(x, j)
    {
      TestBitAbove(x, m + 1, j);
    }
  }

  /** The least significant bit is set, and no bit below it is. */
  lemma LsbBits(x: U256)
    requires x != 0
    ensures TestBit(x, LeastSignificantBit(x).value)
    ensures forall j: nat :: j < LeastSignificantBit(x).value ==> !TestBit(x, j)
  {
    var k := LeastSignificantBit(x).value;
    forall j: nat | j < k
      ensures !TestBit(x, j)
    {
      TestBitBelow(x, k, j);
    }
  }

  /** Every power of two below 2^256 has its single bit as both its most and
      its least significant bit. */
  lemma PowersOfTwo(i: nat)
    requires i < 256
    ensures Pow2(i) < TWO_256
    ensures MostSignificantBit(Pow2(i)) == Ok(i)
    ensures LeastSignificantBit(Pow2(i)) == Ok(i)
  {
    Pow2Fits(i);
    MsbIs(Pow2(i), i);
    TestBitPow2(i, i);
    MulDivCancel(1, Pow2(i));
    LsbIs(Pow2(i), i);
  }

  /** The all-ones word: most significant bit 255, least significant bit 0. */
  lemma MaxWord()
    ensures MostSignificantBit(MAX_U256) == Ok(255)
    ensures LeastSignificantBit(MAX_U256) == Ok(0)
  {
    Pow2Word();
    Pow2Double(255, TWO_255);
    MsbIs(MAX_U256, 255);
    LsbIs(MAX_U256, 0);
  }

  /** For a nonzero word the least significant bit is never above the most
      significant one. */
  lemma LsbAtMostMsb(x: U256)
    requires x != 0
    ensures LeastSignificantBit(x).value <= MostSignificantBit(x).value
  {
    var k, m := LeastSignificantBit(x).value, MostSignificantBit(x).value;
    if k > m {
      TestBitAbove(x, m + 1, k);
    }
  }
}
