/** The sparse tick bitmap of `tick_bitmap.rs`: a caller-owned map from a
    16-bit word index to a 256-bit word, where bit `b` of word `w` records
    whether compressed tick `256 * w + b` is initialized. An absent word reads
    as zero. */
module TickBitmap {
  import opened Word
  import opened Signed
  import opened Errors
  import opened BitMath

  // ---------------------------------------------------------------------------
  // Positions and compression

  /** `position`: the word index `tick >> 8`, cast to `i16`, and the bit
      index `tick % 256`, cast to `u8`. The source takes an `i32`; the
      formula is stated for every integer so that quantified statements
      about ticks need no range side condition. */
  function Position(tick: int): (I16, U8)
  {
    (WrapI16(tick / 256), WrapU8(RustRem(tick, 256)))
  }

  /** The bit index is the Euclidean remainder of the tick by 256, and while
      `tick >> 8` fits `i16` the word and bit indices recompose the tick. */
  lemma PositionRoundTrip(tick: int)
    ensures Position(tick).1 == tick % 256
    ensures I16_MIN <= tick / 256 <= I16_MAX ==>
      Position(tick).0 == tick / 256 && Position(tick).0 * 256 + Position(tick).1 == tick
  {
    WrapU8RustRem(tick);
  }

  /** A tick whose word index fits `i16`. */
  predicate InWordRange(tick: int)
  {
    I16_MIN * 256 <= tick < (I16_MAX + 1) * 256
  }

  /** Distinct ticks in word range have distinct positions. */
  lemma PositionInjective(c: int, k: int)
    requires InWordRange(c) && InWordRange(k)
    ensures Position(c) == Position(k) <==> c == k
  {
    PositionRoundTrip(c);
    PositionRoundTrip(k);
  }

  /** Ticks of one word share the word index, and their bit indices differ as
      the ticks do. */
  lemma PositionSameWord(c: int, k: int)
    requires c / 256 == k / 256
    ensures Position(k).0 == Position(c).0
    ensures Position(k).1 == Position(c).1 + (k - c)
  {
    PositionRoundTrip(c);
    PositionRoundTrip(k);
  }

  /** The compressed tick of `next_initialized_tick_within_one_word`: the
      truncating quotient, lowered by one for a negative tick that is not a
      multiple of the spacing. */
  function Compress(tick: I32, tickSpacing: I32): I32
    requires tickSpacing != 0 && !(tick == I32_MIN && tickSpacing == -1)
  {
    RustDivFits(tick, tickSpacing);
    if tick < 0 && RustRem(tick, tickSpacing) != 0 then I32Div(tick, tickSpacing) - 1
    else I32Div(tick, tickSpacing)
  }

  /** For a positive spacing the compressed tick is the floor of
      `tick / tickSpacing`, negative non-multiples included. */
  lemma CompressIsFloor(tick: I32, tickSpacing: I32)
    requires tickSpacing > 0
    ensures Compress(tick, tickSpacing) == tick / tickSpacing
  {
    RustDivRem(tick, tickSpacing);
    var q, r := RustDiv(tick, tickSpacing), RustRem(tick, tickSpacing);
    if r < 0 {
      DivUnique(tick, tickSpacing, q - 1, r + tickSpacing);
    } else {
      DivUnique(tick, tickSpacing, q, r);
    }
  }

  // ---------------------------------------------------------------------------
  // The bitmap as a map with default-zero lookup

  /** `*tick_bitmap.get(&w).unwrap_or(&U256::ZERO)` */
  function WordAt(m: map<I16, U256>, w: I16): U256
  {
    if w in m then m[w] else 0
  }

  /** Compressed tick `c` is initialized: bit `c mod 256` is set in word
      `c div 256` (as `i16`), the word and bit `position` gives it. */
  predicate IsInitialized(m: map<I16, U256>, c: int)
  {
    TestBit(WordAt(m, WrapI16(c / 256)), c % 256)
  }

  /** The map after `flip_tick` succeeds on compressed tick `c`: the word at
      `c`'s word index, read with default zero, xor-ed with `1 << bit`. */
  function Flipped(m: map<I16, U256>, c: int): map<I16, U256>
  {
    var (w, b) := Position(c);
    ShlOne(b);
    XorPow2Fits(WordAt(m, w), b);
    m[w := Xor(WordAt(m, w), Shl(1, b))]
  }

  /** A flip toggles the bit of its own position and leaves every other
      position's lookup unchanged. */
  lemma FlipToggles(m: map<I16, U256>, c: int, k: int)
    ensures IsInitialized(Flipped(m, c), k) <==> (IsInitialized(m, k) != (Position(k) == Position(c)))
  {
    var (w, b) := Position(c);
    var (wk, bk) := Position(k);
    PositionRoundTrip(c);
    PositionRoundTrip(k);
    ShlOne(b);
    if wk == w {
      assert WordAt(Flipped(m, c), wk) == Xor(WordAt(m, w), Pow2(b));
      TestBitXor(WordAt(m, w), Pow2(b), bk);
      TestBitPow2(b, bk);
    } else {
      assert WordAt(Flipped(m, c), wk) == WordAt(m, wk);
    }
  }

  /** In word range, exactly the flipped tick changes its initialized state. */
  lemma FlipTogglesOnlyThatTick(m: map<I16, U256>, c: int, k: int)
    requires InWordRange(c) && InWordRange(k)
    ensures IsInitialized(Flipped(m, c), k) <==> (IsInitialized(m, k) != (k == c))
  {
    FlipToggles(m, c, k);
    PositionInjective(c, k);
  }

  /** Flipping a tick twice restores every default-zero lookup; the flipped
      word's key stays in the map (possibly holding an explicit zero). */
  lemma FlipTwice(m: map<I16, U256>, c: int, w: I16)
    ensures WordAt(Flipped(Flipped(m, c), c), w) == WordAt(m, w)
    ensures Position(c).0 in Flipped(Flipped(m, c), c)
  {
    var (wc, b) := Position(c);
    if w == wc {
      ShlOne(b);
      XorXor(WordAt(m, wc), Pow2(b));
    }
  }

  /** The caller-owned `HashMap<i16, U256>` that `flip_tick` mutates. */
  class TickBitmap {
    var words: map<I16, U256>

    /** An empty bitmap: every tick uninitialized. */
    constructor ()
      ensures words == map[]
      ensures forall c: int :: !IsInitialized(words, c)
    {
      words := map[];
      new;
      forall c: int
        ensures !IsInitialized(words, c)
      {
        TestBitOfZero(c % 256);
      }
    }

    /** `flip_tick`: a tick that is not a multiple of the spacing fails with
        `TickSpacingError` and leaves the map unchanged; otherwise the bit of
        `tick / tickSpacing` is toggled in its word, an absent word counting
        as zero. `i32` division panics on a zero spacing and on
        `i32::MIN / -1`. */
    method FlipTick(tick: I32, tickSpacing: I32) returns (r: Result<()>)
      requires tickSpacing != 0 && !(tick == I32_MIN && tickSpacing == -1)
      modifies this
      ensures RustRem(tick, tickSpacing) != 0 ==> r == Err(TickSpacingError) && words == old(words)
      ensures RustRem(tick, tickSpacing) == 0 ==>
        r == Ok(()) && words == Flipped(old(words), I32Div(tick, tickSpacing))
    {
      if RustRem(tick, tickSpacing) != 0 {
        return Err(TickSpacingError);
      }
      var (wordPos, bitPos) := Position(I32Div(tick, tickSpacing));
      var mask := Shl(1, bitPos);
      var word := WordAt(words, wordPos);
      ShlOne(bitPos);
      XorPow2Fits(word, bitPos);
      words := words[wordPos := Xor(word, mask)];
      return Ok(());
    }
  }

  // ---------------------------------------------------------------------------
  // Searching one word

  /** `next_initialized_tick_within_one_word`: compress the tick, then search
      at or below it (`lte`) or above it. The `i32` arithmetic on the result
      is written with its wrap-around; under the preconditions of the lemmas
      below it never wraps. It never fails: a nonzero masked word always has a
      most and a least significant bit. */
  function NextInitializedTickWithinOneWord(m: map<I16, U256>, tick: I32, tickSpacing: I32, lte: bool)
    : (r: Result<(I32, bool)>)
    requires tickSpacing != 0 && !(tick == I32_MIN && tickSpacing == -1)
    ensures r.Ok?
  {
    var compressed := Compress(tick, tickSpacing);
    if lte then SearchAtOrBelow(m, compressed, tickSpacing)
    else SearchAbove(m, compressed, tickSpacing)
  }

  /** The `lte` branch: mask the bits at and below the compressed tick's bit
      and take the highest set one, or the word's lowest tick when none is
      set. */
  function SearchAtOrBelow(m: map<I16, U256>, compressed: I32, tickSpacing: I32): (r: Result<(I32, bool)>)
    ensures r.Ok?
  {
    var (wordPos, bitPos) := Position(compressed);
    var mask := AddWrap(SubWrap(Shl(1, bitPos), 1), Shl(1, bitPos));
    var masked := And(WordAt(m, wordPos), mask);
    var initialized := masked != 0;
    if initialized then
      match MostSignificantBit(masked)
      case Err(e) => Err(e)
      case Ok(msb) => Ok((WrapI32((compressed - WrapU8(bitPos - msb)) * tickSpacing), true))
    else
      Ok((WrapI32((compressed - bitPos) * tickSpacing), false))
  }

  /** The `gt` branch: mask the bits at and above the bit of the compressed
      tick plus one and take the lowest set one, or that word's highest tick
      when none is set. */
  function SearchAbove(m: map<I16, U256>, compressed: I32, tickSpacing: I32): (r: Result<(I32, bool)>)
    ensures r.Ok?
  {
    var (wordPos, bitPos) := Position(WrapI32(compressed + 1));
    var mask := Not(SubWrap(Shl(1, bitPos), 1));
    var masked := And(WordAt(m, wordPos), mask);
    var initialized := masked != 0;
    if initialized then
      match LeastSignificantBit(masked)
      case Err(e) => Err(e)
      case Ok(lsb) => Ok((WrapI32((compressed + 1 + WrapU8(lsb - bitPos)) * tickSpacing), true))
    else
      Ok((WrapI32((compressed + 1 + (255 - bitPos)) * tickSpacing), false))
  }

  /** The `lte` mask `(1 << b) - 1 + (1 << b)`, without wrap-around:
      `2^(b+1) - 1`, which holds exactly bits `0..=b`. */
  lemma LteMask(b: U8)
    ensures AddWrap(SubWrap(Shl(1, b), 1), Shl(1, b)) < Pow2(b + 1)
    ensures forall j: nat :: TestBit(AddWrap(SubWrap(Shl(1, b), 1), Shl(1, b)), j) <==> j <= b
  {
    ShlOne(b);
    Pow2Fits(b);
    Pow2Word();
    Pow2Monotone(b + 1, 256);
    ModInRange(Pow2(b) - 1, TWO_256);
    ModInRange(Pow2(b + 1) - 1, TWO_256);
    assert AddWrap(SubWrap(Shl(1, b), 1), Shl(1, b)) == Pow2(b + 1) - 1;
    forall j: nat
      ensures TestBit(AddWrap(SubWrap(Shl(1, b), 1), Shl(1, b)), j) <==> j <= b
    {
      TestBitLowMask(b + 1, j);
    }
  }

  /** The `!lte` mask `!((1 << b) - 1)` holds exactly bits `b..=255`. */
  lemma GtMask(b: U8)
    ensures forall j: nat :: j < 256 ==> (TestBit(Not(SubWrap(Shl(1, b), 1)), j) <==> b <= j)
  {
    ShlOne(b);
    Pow2Fits(b);
    ModInRange(Pow2(b) - 1, TWO_256);
    assert SubWrap(Shl(1, b), 1) == Pow2(b) - 1;
    forall j: nat | j < 256
      ensures TestBit(Not(SubWrap(Shl(1, b), 1)), j) <==> b <= j
    {
      TestBitNot(Pow2(b) - 1, j);
      TestBitLowMask(b, j);
    }
  }

  /** No compressed tick from `lo` to `hi` (both included) is initialized. */
  predicate NoneInitialized(m: map<I16, U256>, lo: int, hi: int)
  {
    forall k: int :: lo <= k <= hi ==> !IsInitialized(m, k)
  }

  /** Every tick from `c - c % 256` to `c - c % 256 + 255` lies in `c`'s
      word, at bit `c % 256 + (k - c)`. */
  lemma SameWord(c: int, k: int)
    requires c - c % 256 <= k <= c - c % 256 + 255
    ensures k / 256 == c / 256 && k % 256 == c % 256 + (k - c)
  {
    DivUnique(k, 256, c / 256, k - (c - c % 256));
  }

  /** The `lte` word search on bits: when the masked word is nonzero its most
      significant bit is the highest set bit of the word at or below `b`;
      otherwise no bit of the word at or below `b` is set. */
  lemma LteSearchBits(word: U256, b: U8)
    ensures
      var masked := And(word, AddWrap(SubWrap(Shl(1, b), 1), Shl(1, b)));
      (masked != 0 ==>
        var msb := MostSignificantBit(masked).value;
        msb <= b && TestBit(word, msb) && forall j: nat :: msb < j <= b ==> !TestBit(word, j)) &&
      (masked == 0 ==> forall j: nat :: j <= b ==> !TestBit(word, j))
  {
    var mask := AddWrap(SubWrap(Shl(1, b), 1), Shl(1, b));
    LteMask(b);
    var masked := And(word, mask);
    if masked != 0 {
      var msb := MostSignificantBit(masked).value;
      MsbBits(masked);
      if msb > b {
        Pow2Monotone(b + 1, msb);
      }
      TestBitAnd(word, mask, msb);
      forall j: nat | msb < j <= b
        ensures !TestBit(word, j)
      {
        TestBitAnd(word, mask, j);
      }
    } else {
      forall j: nat | j <= b
        ensures !TestBit(word, j)
      {
        TestBitAnd(word, mask, j);
        TestBitOfZero(j);
      }
    }
  }

  /** The `gt` word search on bits: when the masked word is nonzero its least
      significant bit is the lowest set bit of the word at or above `b`;
      otherwise no bit of the word from `b` on is set. */
  lemma GtSearchBits(word: U256, b: U8)
    ensures
      var masked := And(word, Not(SubWrap(Shl(1, b), 1)));
      (masked != 0 ==>
        var lsb := LeastSignificantBit(masked).value;
        b <= lsb && TestBit(word, lsb) && forall j: nat :: b <= j < lsb ==> !TestBit(word, j)) &&
      (masked == 0 ==> forall j: nat :: b <= j < 256 ==> !TestBit(word, j))
  {
    var mask := Not(SubWrap(Shl(1, b), 1));
    GtMask(b);
    var masked := And(word, mask);
    if masked != 0 {
      var lsb := LeastSignificantBit(masked).value;
      LsbBits(masked);
      TestBitAnd(word, mask, lsb);
      forall j: nat | b <= j < lsb
        ensures !TestBit(word, j)
      {
        TestBitAnd(word, mask, j);
      }
    } else {
      forall j: nat | b <= j < 256
        ensures !TestBit(word, j)
      {
        TestBitAnd(word, mask, j);
        TestBitOfZero(j);
      }
    }
  }

  /** The `lte` result `n * s`, for `n` at most 255 below the floor quotient
      `c` of `tick / s`, stays in `i32`, divides back to `n` and is at most
      `tick`. */
  lemma ScaleBelow(tick: int, s: int, c: int, n: int)
    requires s > 0 && c * s <= tick < c * s + s
    requires I32_MIN <= tick - 256 * s && tick <= I32_MAX
    requires c - 255 <= n <= c
    ensures WrapI32(n * s) == n * s && (n * s) / s == n && n * s <= tick
  {
    assert (c - 255) * s == c * s - 255 * s;
    MulMonotone(c - 255, n, s);
    MulMonotone(n, c, s);
    DivUnique(n * s, s, n, 0);
  }

  /** The `gt` result `n * s`, for `n` at most 255 above `c + 1`, stays in
      `i32`, divides back to `n` and is above `tick`. */
  lemma ScaleAbove(tick: int, s: int, c: int, n: int)
    requires s > 0 && c * s <= tick < c * s + s
    requires I32_MIN <= tick && tick + 256 * s <= I32_MAX
    requires c + 1 <= n <= c + 256
    ensures WrapI32(n * s) == n * s && (n * s) / s == n && tick < n * s && c < I32_MAX
  {
    if c > 0 {
      MulMonotone(1, s, c);
    }
    assert (c + 256) * s == c * s + 256 * s;
    assert (c + 1) * s == c * s + s;
    MulMonotone(c + 1, n, s);
    MulMonotone(n, c + 256, s);
    DivUnique(n * s, s, n, 0);
  }

  /** Where the `lte` search of one word stops, in compressed ticks: the
      tick of the most significant set bit at or below `c`'s bit in `c`'s
      word, or the word's lowest tick; and whether a set bit was found. */
  function StopAtOrBelow(m: map<I16, U256>, c: int): (int, bool)
  {
    var w, b := WrapI16(c / 256), c % 256;
    var masked := And(WordAt(m, w), AddWrap(SubWrap(Shl(1, b), 1), Shl(1, b)));
    if masked != 0 then (c - (b - MostSignificantBit(masked).value), true) else (c - b, false)
  }

  /** Where the `gt` search of one word stops, in compressed ticks: the tick
      of the least significant set bit at or above `c1`'s bit in `c1`'s
      word, or the word's highest tick; and whether a set bit was found. */
  function StopAbove(m: map<I16, U256>, c1: int): (int, bool)
  {
    var w, b := WrapI16(c1 / 256), c1 % 256;
    var masked := And(WordAt(m, w), Not(SubWrap(Shl(1, b), 1)));
    if masked != 0 then (c1 + (LeastSignificantBit(masked).value - b), true) else (c1 + (255 - b), false)
  }

  /** The `lte` stop lies in `c`'s word at or below `c`; when a set bit was
      found it is initialized and nothing between it and `c` is, otherwise
      it is the word's lowest tick and nothing up to `c` is initialized. */
  lemma LteCompressed(m: map<I16, U256>, c: int)
    ensures
      var (n, found) := StopAtOrBelow(m, c);
      c - c % 256 <= n <= c &&
      (found ==> IsInitialized(m, n) && NoneInitialized(m, n + 1, c)) &&
      (!found ==> n == c - c % 256 && NoneInitialized(m, c - c % 256, c))
  {
    var w, b := WrapI16(c / 256), c % 256;
    var word := WordAt(m, w);
    LteSearchBits(word, b);
    var (n, found) := StopAtOrBelow(m, c);
    if found {
      SameWord(c, n);
      forall k: int | n < k <= c
        ensures !IsInitialized(m, k)
      {
        SameWord(c, k);
      }
    } else {
      forall k: int | c - b <= k <= c
        ensures !IsInitialized(m, k)
      {
        SameWord(c, k);
      }
    }
  }

  /** The `gt` stop lies in `c1`'s word at or above `c1`; when a set bit was
      found it is initialized and nothing from `c1` below it is, otherwise it
      is the word's highest tick and nothing from `c1` on is initialized. */
  lemma GtCompressed(m: map<I16, U256>, c1: int)
    ensures
      var (n, found) := StopAbove(m, c1);
      var wordEnd := c1 - c1 % 256 + 255;
      c1 <= n <= wordEnd &&
      (found ==> IsInitialized(m, n) && NoneInitialized(m, c1, n - 1)) &&
      (!found ==> n == wordEnd && NoneInitialized(m, c1, wordEnd))
  {
    var w, b := WrapI16(c1 / 256), c1 % 256;
    var word := WordAt(m, w);
    GtSearchBits(word, b);
    var (n, found) := StopAbove(m, c1);
    if found {
      SameWord(c1, n);
      forall k: int | c1 <= k < n
        ensures !IsInitialized(m, k)
      {
        SameWord(c1, k);
      }
    } else {
      forall k: int | c1 <= k <= c1 + (255 - b)
        ensures !IsInitialized(m, k)
      {
        SameWord(c1, k);
      }
    }
  }

  /** The `lte` branch is the stop multiplied back by the spacing. */
  lemma LteValue(m: map<I16, U256>, c: I32, s: I32)
    ensures SearchAtOrBelow(m, c, s).value ==
      (WrapI32(StopAtOrBelow(m, c).0 * s), StopAtOrBelow(m, c).1)
  {
    PositionRoundTrip(c);
    LteSearchBits(WordAt(m, WrapI16(c / 256)), c % 256);
  }

  /** The `gt` branch is the stop from `c + 1` multiplied back by the
      spacing. */
  lemma GtValue(m: map<I16, U256>, c: I32, s: I32)
    requires c < I32_MAX
    ensures SearchAbove(m, c, s).value ==
      (WrapI32(StopAbove(m, c + 1).0 * s), StopAbove(m, c + 1).1)
  {
    PositionRoundTrip(c + 1);
    GtSearchBits(WordAt(m, WrapI16((c + 1) / 256)), (c + 1) % 256);
  }

  /** At the floor quotient `c` of `tick / s`, the `lte` branch gives the
      stop `n` times `s`, which is at most `tick` and divides back to `n`. */
  lemma LteShape(m: map<I16, U256>, tick: int, s: I32, c: I32)
    requires s > 0 && c * s <= tick < c * s + s
    requires I32_MIN <= tick - 256 * s && tick <= I32_MAX
    ensures
      var (n, found) := StopAtOrBelow(m, c);
      SearchAtOrBelow(m, c, s).value == (n * s, found) && (n * s) / s == n && n * s <= tick
  {
    LteValue(m, c, s);
    LteCompressed(m, c);
    ScaleBelow(tick, s, c, StopAtOrBelow(m, c).0);
  }

  /** At the floor quotient `c` of `tick / s`, the `gt` branch gives the
      stop `n` from `c + 1` times `s`, which is above `tick` and divides back
      to `n`. */
  lemma GtShape(m: map<I16, U256>, tick: int, s: I32, c: I32)
    requires s > 0 && c * s <= tick < c * s + s
    requires I32_MIN <= tick && tick + 256 * s <= I32_MAX
    ensures
      var (n, found) := StopAbove(m, c + 1);
      c < I32_MAX && SearchAbove(m, c, s).value == (n * s, found) && (n * s) / s == n && tick < n * s
  {
    GtCompressed(m, c + 1);
    ScaleAbove(tick, s, c, StopAbove(m, c + 1).0);
    GtValue(m, c, s);
  }

  /** With `lte`, for a positive spacing and a tick at least 256 spacings
      above `i32::MIN`, where no `i32` operation of this branch overflows:
      the result is a multiple `n * tickSpacing` of
      the spacing at or below the tick, with `n` in the compressed tick `c`'s
      word and at most `c`. When `initialized`, `n` is initialized and no tick
      of the word between `n` and `c` is; otherwise `n` is the word's lowest
      tick and no tick of the word up to `c` is initialized. */
  lemma NextInitializedLte(m: map<I16, U256>, tick: I32, tickSpacing: I32)
    requires tickSpacing > 0
    requires I32_MIN <= tick - 256 * tickSpacing
    ensures
      var (next, initialized) := NextInitializedTickWithinOneWord(m, tick, tickSpacing, true).value;
      var c, n := tick / tickSpacing, next / tickSpacing;
      next <= tick && next == n * tickSpacing && c - c % 256 <= n <= c &&
      (initialized ==> IsInitialized(m, n) && NoneInitialized(m, n + 1, c)) &&
      (!initialized ==> n == c - c % 256 && NoneInitialized(m, c - c % 256, c))
  {
    var c := Compress(tick, tickSpacing);
    CompressIsFloor(tick, tickSpacing);
    FloorBracket(tick, tickSpacing);
    LteShape(m, tick, tickSpacing, c);
    LteCompressed(m, c);
  }

  /** Without `lte`, for a positive spacing and a tick at least 256
      spacings below `i32::MAX`, where no `i32` operation of this branch
      overflows: the result is a multiple
      `n * tickSpacing` of the spacing above the tick, with `n` in the word of
      `c + 1` (`c` the compressed tick) and at least `c + 1`. When
      `initialized`, `n` is initialized and no tick from `c + 1` below `n` is;
      otherwise `n` is that word's highest tick and no tick of the word from
      `c + 1` on is initialized. */
  lemma NextInitializedGt(m: map<I16, U256>, tick: I32, tickSpacing: I32)
    requires tickSpacing > 0
    requires tick + 256 * tickSpacing <= I32_MAX
    ensures
      var (next, initialized) := NextInitializedTickWithinOneWord(m, tick, tickSpacing, false).value;
      var c1, n := tick / tickSpacing + 1, next / tickSpacing;
      var wordEnd := c1 - c1 % 256 + 255;
      tick < next && next == n * tickSpacing && c1 <= n <= wordEnd &&
      (initialized ==> IsInitialized(m, n) && NoneInitialized(m, c1, n - 1)) &&
      (!initialized ==> n == wordEnd && NoneInitialized(m, c1, wordEnd))
  {
    var c := Compress(tick, tickSpacing);
    CompressIsFloor(tick, tickSpacing);
    FloorBracket(tick, tickSpacing);
    GtShape(m, tick, tickSpacing, c);
    GtCompressed(m, c + 1);
  }

  /** Conversely, with `lte`: when `k` is an initialized tick of the
      compressed tick's word at or below it and nothing between `k` and the
      compressed tick is initialized, the search returns `k * tickSpacing`,
      initialized. */
  lemma LteFinds(m: map<I16, U256>, tick: I32, tickSpacing: I32, k: int)
    requires tickSpacing > 0
    requires I32_MIN <= tick - 256 * tickSpacing
    requires var c := tick / tickSpacing; c - c % 256 <= k <= c
    requires IsInitialized(m, k) && NoneInitialized(m, k + 1, tick / tickSpacing)
    ensures NextInitializedTickWithinOneWord(m, tick, tickSpacing, true) == Ok((k * tickSpacing, true))
  {
    NextInitializedLte(m, tick, tickSpacing);
  }

  /** With `lte`, when no tick of the word up to the compressed tick `c` is
      initialized, the search returns the word's lowest tick, uninitialized. */
  lemma LteFindsNone(m: map<I16, U256>, tick: I32, tickSpacing: I32)
    requires tickSpacing > 0
    requires I32_MIN <= tick - 256 * tickSpacing
    requires var c := tick / tickSpacing; NoneInitialized(m, c - c % 256, c)
    ensures var c := tick / tickSpacing;
      NextInitializedTickWithinOneWord(m, tick, tickSpacing, true) == Ok(((c - c % 256) * tickSpacing, false))
  {
    NextInitializedLte(m, tick, tickSpacing);
  }

  /** Conversely, without `lte`: when `k` is an initialized tick of the word
      of `c1`, the compressed tick plus one, at or above `c1`, and nothing from
      `c1` below `k` is initialized, the search returns `k * tickSpacing`,
      initialized. */
  lemma GtFinds(m: map<I16, U256>, tick: I32, tickSpacing: I32, k: int)
    requires tickSpacing > 0
    requires tick + 256 * tickSpacing <= I32_MAX
    requires var c1 := tick / tickSpacing + 1; c1 <= k <= c1 - c1 % 256 + 255
    requires IsInitialized(m, k) && NoneInitialized(m, tick / tickSpacing + 1, k - 1)
    ensures NextInitializedTickWithinOneWord(m, tick, tickSpacing, false) == Ok((k * tickSpacing, true))
  {
    NextInitializedGt(m, tick, tickSpacing);
  }

  /** Without `lte`, when no tick of `c1`'s word from `c1` on is initialized,
      the search returns that word's highest tick, uninitialized. */
  lemma GtFindsNone(m: map<I16, U256>, tick: I32, tickSpacing: I32)
    requires tickSpacing > 0
    requires tick + 256 * tickSpacing <= I32_MAX
    requires var c1 := tick / tickSpacing + 1; NoneInitialized(m, c1, c1 - c1 % 256 + 255)
    ensures var c1 := tick / tickSpacing + 1;
      NextInitializedTickWithinOneWord(m, tick, tickSpacing, false) == Ok(((c1 - c1 % 256 + 255) * tickSpacing, false))
  {
    NextInitializedGt(m, tick, tickSpacing);
  }

  /** The floor quotient brackets the dividend. */
  lemma FloorBracket(tick: int, s: int)
    requires s > 0
    ensures (tick / s) * s <= tick < (tick / s) * s + s
  {
    assert tick == (tick / s) * s + tick % s;
  }

  /** Multiplying by a positive spacing preserves order. */
  lemma MulMonotone(a: int, b: int, s: int)
    requires a <= b && s > 0
    ensures a * s <= b * s
  {
    assert b * s - a * s == (b - a) * s;
  }
}
