/** Sequences of flips on the tick bitmap and the concrete scenarios of
    `tick_bitmap.rs`'s own test module, proved on the model: the parity law of
    repeated flips, the bitmap built from the fixed list of test ticks, and
    the search results the module's tests expect of it. */
module BitmapScenarios {
  import opened Word
  import opened Signed
  import opened Errors
  import opened TickBitmap

  // ---------------------------------------------------------------------------
  // Sequences of flips

  /** The map after the successful flips of the compressed ticks `cs`, in order. */
  function FlipAll(m: map<I16, U256>, cs: seq<int>): map<I16, U256>
    decreases |cs|
  {
    if |cs| == 0 then m else Flipped(FlipAll(m, cs[..|cs| - 1]), cs[|cs| - 1])
  }

  predicate AllInWordRange(cs: seq<int>)
  {
    forall i :: 0 <= i < |cs| ==> InWordRange(cs[i])
  }

  predicate Distinct(cs: seq<int>)
  {
    forall i, j :: 0 <= i < j < |cs| ==> cs[i] != cs[j]
  }

  /** After a sequence of flips a tick is initialized exactly when it was
      before, toggled once for every time it was flipped: the order of the
      flips does not matter, only how often each tick occurs. */
  lemma {:induction false} FlipAllParity(m: map<I16, U256>, cs: seq<int>, k: int)
    requires AllInWordRange(cs) && InWordRange(k)
    ensures IsInitialized(FlipAll(m, cs), k) <==> (IsInitialized(m, k) != (multiset(cs)[k] % 2 == 1))
  {
    if |cs| > 0 {
      var init := cs[..|cs| - 1];
      FlipAllParity(m, init, k);
      FlipAllLast(m, cs, k);
      CountLast(cs, k);
    }
  }

  /** The last flip of a nonempty sequence toggles only its own tick. */
  lemma FlipAllLast(m: map<I16, U256>, cs: seq<int>, k: int)
    requires |cs| > 0 && AllInWordRange(cs) && InWordRange(k)
    ensures IsInitialized(FlipAll(m, cs), k) <==>
      (IsInitialized(FlipAll(m, cs[..|cs| - 1]), k) != (k == cs[|cs| - 1]))
  {
    FlipTogglesOnlyThatTick(FlipAll(m, cs[..|cs| - 1]), cs[|cs| - 1], k);
  }

  lemma CountLast(cs: seq<int>, k: int)
    requires |cs| > 0
    ensures multiset(cs)[k] == multiset(cs[..|cs| - 1])[k] + (if k == cs[|cs| - 1] then 1 else 0)
  {
    var init, last := cs[..|cs| - 1], cs[|cs| - 1];
    assert cs == init + [last];
    assert multiset(cs) == multiset(init) + multiset{last};
  }

  /** A tick occurs at most once in a sequence without repetitions. */
  lemma {:induction false} DistinctCount(cs: seq<int>, k: int)
    requires Distinct(cs)
    ensures multiset(cs)[k] == if k in cs then 1 else 0
  {
    if |cs| > 0 {
      var init, last := cs[..|cs| - 1], cs[|cs| - 1];
      DistinctCount(init, k);
      assert cs == init + [last];
      assert multiset(cs) == multiset(init) + multiset{last};
      assert k in cs <==> k in init || k == last;
      assert last !in init;
    }
  }

  /** Tick `k` is one of `ticks`. */
  predicate Listed(ticks: seq<int>, k: int)
  {
    k in ticks
  }

  /** In word range, the initialized ticks of `m` are exactly `ticks`. */
  ghost predicate InitializedExactly(m: map<I16, U256>, ticks: seq<int>)
  {
    forall k {:trigger Listed(ticks, k)} :: InWordRange(k) ==> (IsInitialized(m, k) <==> Listed(ticks, k))
  }

  /** No tick of `ticks` in a stretch of word range: nothing there is initialized. */
  lemma ExactlyNone(m: map<I16, U256>, ticks: seq<int>, lo: int, hi: int)
    requires InitializedExactly(m, ticks) && InWordRange(lo) && InWordRange(hi)
    requires forall t :: t in ticks ==> t < lo || hi < t
    ensures NoneInitialized(m, lo, hi)
  {
    forall k | lo <= k <= hi
      ensures !IsInitialized(m, k)
    {
      assert !Listed(ticks, k);
    }
  }

  /** A listed tick in word range is initialized. */
  lemma ExactlyHas(m: map<I16, U256>, ticks: seq<int>, k: int)
    requires InitializedExactly(m, ticks) && InWordRange(k) && k in ticks
    ensures IsInitialized(m, k)
  {
    assert Listed(ticks, k);
  }

  /** Flipping distinct ticks into an empty bitmap initializes exactly them. */
  lemma FlipDistinct(cs: seq<int>)
    requires AllInWordRange(cs) && Distinct(cs)
    ensures InitializedExactly(FlipAll(map[], cs), cs)
  {
    forall k | InWordRange(k)
      ensures IsInitialized(FlipAll(map[], cs), k) <==> Listed(cs, k)
    {
      FlipDistinctAt(cs, k);
    }
  }

  lemma FlipDistinctAt(cs: seq<int>, k: int)
    requires AllInWordRange(cs) && Distinct(cs) && InWordRange(k)
    ensures IsInitialized(FlipAll(map[], cs), k) <==> k in cs
  {
    var e: map<I16, U256> := map[];
    FlipAllParity(e, cs, k);
    DistinctCount(cs, k);
    EmptyUninitialized(k);
  }

  lemma EmptyUninitialized(k: int)
    ensures !IsInitialized(map[], k)
  {
    TestBitOfZero(k % 256);
  }

  // ---------------------------------------------------------------------------
  // The test bitmap

  /** The ticks `init_test_ticks` flips, each with spacing 1. */
  const TestTicks: seq<I32> := [-200, -55, -4, 70, 78, 84, 139, 240, 535]

  /** The test ticks are distinct and lie in word range. */
  lemma TestTicksDistinct()
    ensures AllInWordRange(TestTicks) && Distinct(TestTicks)
  {
  }

  /** `init_test_ticks`: flip every test tick, with spacing 1, into a fresh
      bitmap. Spacing 1 divides every tick, so no flip fails and the source's
      error propagation never fires. */
  method InitTestTicks() returns (bitmap: TickBitmap)
    ensures fresh(bitmap)
    ensures bitmap.words == FlipAll(map[], TestTicks)
  {
    bitmap := new TickBitmap();
    for i := 0 to |TestTicks|
      invariant bitmap.words == FlipAll(map[], TestTicks[..i])
    {
      var r := bitmap.FlipTick(TestTicks[i], 1);
      assert TestTicks[..i + 1][..i] == TestTicks[..i];
    }
    assert TestTicks[..|TestTicks|] == TestTicks;
  }

  /** The bitmap `init_test_ticks` builds has exactly the test ticks
      initialized. */
  lemma TestBitmapExactly(cs: seq<int>)
    requires cs == TestTicks
    ensures InitializedExactly(FlipAll(map[], cs), TestTicks)
  {
    TestTicksDistinct();
    FlipDistinct(cs);
  }

  /** The test helper `initialized`: search at or below `tick` with spacing 1
      and report the flag when the search stops at `tick` itself. */
  function InitializedBySearch(m: map<I16, U256>, tick: I32): bool
  {
    var (next, initialized) := NextInitializedTickWithinOneWord(m, tick, 1, true).value;
    if next == tick then initialized else false
  }

  /** Away from the ends of `i32`, the helper reports exactly whether the tick
      is initialized. */
  lemma InitializedBySearchIsBit(m: map<I16, U256>, tick: I32)
    requires I32_MIN + 256 <= tick <= I32_MAX - 256
    ensures InitializedBySearch(m, tick) <==> IsInitialized(m, tick)
  {
    NextInitializedLte(m, tick, 1);
    if IsInitialized(m, tick) {
      LteFinds(m, tick, 1, tick);
    }
  }

  // ---------------------------------------------------------------------------
  // Flipping one more tick

  /** Flipping a tick in word range that is not initialized adds exactly it to
      the initialized ticks. */
  lemma FlipExtends(m: map<I16, U256>, ticks: seq<int>, c: int)
    requires InitializedExactly(m, ticks) && InWordRange(c) && c !in ticks
    ensures InitializedExactly(Flipped(m, c), ticks + [c])
  {
    forall k | InWordRange(k)
      ensures IsInitialized(Flipped(m, c), k) <==> Listed(ticks + [c], k)
    {
      FlipTogglesOnlyThatTick(m, c, k);
      assert Listed(ticks, k) || k == c <==> Listed(ticks + [c], k);
    }
  }

  /** A compressed tick of word `w` has that word's first tick as its word start. */
  lemma InWord(c: int, w: int)
    requires 256 * w <= c < 256 * w + 256
    ensures c / 1 == c && c - c % 256 == 256 * w
  {
    DivUnique(c, 256, w, c - 256 * w);
  }

  // ---------------------------------------------------------------------------
  // `test_next_initialized_tick_within_one_word_lte_false`: searching above
  // on the bitmap the test ticks initialize. Each expectation of the test is
  // stated for the whole stretch of ticks that shares it.

  /** From 78 up to 83, the next initialized tick to the right is 84 (the source tests 78). */
  lemma AboveFinds84(m: map<I16, U256>, tick: I32)
    requires InitializedExactly(m, TestTicks)
    requires 78 <= tick <= 83
    ensures NextInitializedTickWithinOneWord(m, tick, 1, false) == Ok((84, true))
  {
    InWord(tick + 1, 0);
    assert IsInitialized(m, 84) by {
      ExactlyHas(m, TestTicks, 84);
    }
    assert NoneInitialized(m, tick + 1, 83) by {
      ExactlyNone(m, TestTicks, tick + 1, 83);
    }
    GtFinds(m, tick, 1, 84);
  }

  /** From 70 up to 77, the next initialized tick to the right is 78 (the source tests 77). */
  lemma AboveFinds78(m: map<I16, U256>, tick: I32)
    requires InitializedExactly(m, TestTicks)
    requires 70 <= tick <= 77
    ensures NextInitializedTickWithinOneWord(m, tick, 1, false) == Ok((78, true))
  {
    InWord(tick + 1, 0);
    assert IsInitialized(m, 78) by {
      ExactlyHas(m, TestTicks, 78);
    }
    assert NoneInitialized(m, tick + 1, 77) by {
      ExactlyNone(m, TestTicks, tick + 1, 77);
    }
    GtFinds(m, tick, 1, 78);
  }

  /** From -200 up to -56, the next initialized tick to the right is -55 (the source tests -56). */
  lemma AboveFindsMinus55(m: map<I16, U256>, tick: I32)
    requires InitializedExactly(m, TestTicks)
    requires -200 <= tick <= -56
    ensures NextInitializedTickWithinOneWord(m, tick, 1, false) == Ok((-55, true))
  {
    InWord(tick + 1, -1);
    assert IsInitialized(m, -55) by {
      ExactlyHas(m, TestTicks, -55);
    }
    assert NoneInitialized(m, tick + 1, -56) by {
      ExactlyNone(m, TestTicks, tick + 1, -56);
    }
    GtFinds(m, tick, 1, -55);
  }

  /** From -257, the last tick of word -2, up to -201, the search in word -1 finds -200 (the source tests -257). */
  lemma AboveFindsMinus200(m: map<I16, U256>, tick: I32)
    requires InitializedExactly(m, TestTicks)
    requires -257 <= tick <= -201
    ensures NextInitializedTickWithinOneWord(m, tick, 1, false) == Ok((-200, true))
  {
    InWord(tick + 1, -1);
    assert IsInitialized(m, -200) by {
      ExactlyHas(m, TestTicks, -200);
    }
    assert NoneInitialized(m, tick + 1, -201) by {
      ExactlyNone(m, TestTicks, tick + 1, -201);
    }
    GtFinds(m, tick, 1, -200);
  }

  /** From 255 up to 510, word 1 holds no initialized tick to the right, so the search stops at its end, 511, uninitialized (the source tests 255, 383 and 508). */
  lemma AboveStopsAt511(m: map<I16, U256>, tick: I32)
    requires InitializedExactly(m, TestTicks)
    requires 255 <= tick <= 510
    ensures NextInitializedTickWithinOneWord(m, tick, 1, false) == Ok((511, false))
  {
    InWord(tick + 1, 1);
    assert NoneInitialized(m, tick + 1, 511) by {
      ExactlyNone(m, TestTicks, tick + 1, 511);
    }
    GtFindsNone(m, tick, 1);
  }

  /** On a bitmap initialized exactly at the test ticks and 340, from 255 up to 339 the search above finds 340. */
  lemma AboveFinds340In(m: map<I16, U256>, tick: I32)
    requires InitializedExactly(m, TestTicks + [340])
    requires 255 <= tick <= 339
    ensures NextInitializedTickWithinOneWord(m, tick, 1, false) == Ok((340, true))
  {
    InWord(tick + 1, 1);
    assert IsInitialized(m, 340) by {
      ExactlyHas(m, TestTicks + [340], 340);
    }
    assert NoneInitialized(m, tick + 1, 339) by {
      ExactlyNone(m, TestTicks + [340], tick + 1, 339);
    }
    GtFinds(m, tick, 1, 340);
  }
  /** With 340 flipped as well, from 255 up to 339 the search finds 340 (the source tests 328). */
  lemma AboveFindsFlipped340(m: map<I16, U256>, tick: I32)
    requires InitializedExactly(m, TestTicks)
    requires 255 <= tick <= 339
    ensures NextInitializedTickWithinOneWord(Flipped(m, 340), tick, 1, false) == Ok((340, true))
  {
    FlipExtends(m, TestTicks, 340);
    AboveFinds340In(Flipped(m, 340), tick);
  }


  // ---------------------------------------------------------------------------
  // `test_next_initialized_tick_within_one_word_lte_true`: searching at or
  // below, on the same bitmap

  /** From 78 up to 83, the search at or below finds 78, itself initialized (the source tests 78 and 79). */
  lemma AtOrBelowFinds78(m: map<I16, U256>, tick: I32)
    requires InitializedExactly(m, TestTicks)
    requires 78 <= tick <= 83
    ensures NextInitializedTickWithinOneWord(m, tick, 1, true) == Ok((78, true))
  {
    InWord(tick, 0);
    assert IsInitialized(m, 78) by {
      ExactlyHas(m, TestTicks, 78);
    }
    assert NoneInitialized(m, 79, tick) by {
      ExactlyNone(m, TestTicks, 79, tick);
    }
    LteFinds(m, tick, 1, 78);
  }

  /** From 70 up to 77, the search at or below finds 70 (the source tests 72). */
  lemma AtOrBelowFinds70(m: map<I16, U256>, tick: I32)
    requires InitializedExactly(m, TestTicks)
    requires 70 <= tick <= 77
    ensures NextInitializedTickWithinOneWord(m, tick, 1, true) == Ok((70, true))
  {
    InWord(tick, 0);
    assert IsInitialized(m, 70) by {
      ExactlyHas(m, TestTicks, 70);
    }
    assert NoneInitialized(m, 71, tick) by {
      ExactlyNone(m, TestTicks, 71, tick);
    }
    LteFinds(m, tick, 1, 70);
  }

  /** Word 1 (ticks 256 to 511) holds no initialized tick, so the search stops at its start, 256, uninitialized (the source tests 256 and 258). */
  lemma AtOrBelowStopsAt256(m: map<I16, U256>, tick: I32)
    requires InitializedExactly(m, TestTicks)
    requires 256 <= tick <= 511
    ensures NextInitializedTickWithinOneWord(m, tick, 1, true) == Ok((256, false))
  {
    InWord(tick, 1);
    assert NoneInitialized(m, 256, tick) by {
      ExactlyNone(m, TestTicks, 256, tick);
    }
    LteFindsNone(m, tick, 1);
  }

  /** Word -2 (ticks -512 to -257) holds no initialized tick, so the search stops at -512, uninitialized (the source tests -257). */
  lemma AtOrBelowStopsAtMinus512(m: map<I16, U256>, tick: I32)
    requires InitializedExactly(m, TestTicks)
    requires -512 <= tick <= -257
    ensures NextInitializedTickWithinOneWord(m, tick, 1, true) == Ok((-512, false))
  {
    InWord(tick, -2);
    assert NoneInitialized(m, -512, tick) by {
      ExactlyNone(m, TestTicks, -512, tick);
    }
    LteFindsNone(m, tick, 1);
  }

  /** Word 3 (ticks 768 to 1023) holds no initialized tick, so the search stops at 768, uninitialized (the source tests 900 and 1023). */
  lemma AtOrBelowStopsAt768(m: map<I16, U256>, tick: I32)
    requires InitializedExactly(m, TestTicks)
    requires 768 <= tick <= 1023
    ensures NextInitializedTickWithinOneWord(m, tick, 1, true) == Ok((768, false))
  {
    InWord(tick, 3);
    assert NoneInitialized(m, 768, tick) by {
      ExactlyNone(m, TestTicks, 768, tick);
    }
    LteFindsNone(m, tick, 1);
  }

  /** On a bitmap initialized exactly at the test ticks and 329, from 329 up to 511 the search at or below finds 329. */
  lemma AtOrBelowFinds329In(m: map<I16, U256>, tick: I32)
    requires InitializedExactly(m, TestTicks + [329])
    requires 329 <= tick <= 511
    ensures NextInitializedTickWithinOneWord(m, tick, 1, true) == Ok((329, true))
  {
    InWord(tick, 1);
    assert IsInitialized(m, 329) by {
      ExactlyHas(m, TestTicks + [329], 329);
    }
    assert NoneInitialized(m, 330, tick) by {
      ExactlyNone(m, TestTicks + [329], 330, tick);
    }
    LteFinds(m, tick, 1, 329);
  }
  /** With 329 flipped as well, from 329 up to 511 the search finds 329 (the source tests 456). */
  lemma AtOrBelowFindsFlipped329(m: map<I16, U256>, tick: I32)
    requires InitializedExactly(m, TestTicks)
    requires 329 <= tick <= 511
    ensures NextInitializedTickWithinOneWord(Flipped(m, 329), tick, 1, true) == Ok((329, true))
  {
    FlipExtends(m, TestTicks, 329);
    AtOrBelowFinds329In(Flipped(m, 329), tick);
  }


  // ---------------------------------------------------------------------------
  // `test_initialized` and `test_flip_tick`: the `initialized` helper after
  // flips into an empty bitmap

  /** After flips into an empty bitmap, a tick in word range is initialized
      exactly when the flips named it an odd number of times. */
  lemma FlipAllFromEmpty(cs: seq<int>, k: int)
    requires AllInWordRange(cs) && InWordRange(k)
    ensures IsInitialized(FlipAll(map[], cs), k) <==> multiset(cs)[k] % 2 == 1
  {
    FlipAllParity(map[], cs, k);
    EmptyUninitialized(k);
  }

  /** The helper reports a tick initialized exactly when the flips into an
      empty bitmap named it an odd number of times. */
  lemma SearchReportsParity(cs: seq<int>, tick: I32)
    requires AllInWordRange(cs) && InWordRange(tick)
    ensures InitializedBySearch(FlipAll(map[], cs), tick) <==> multiset(cs)[tick] % 2 == 1
  {
    InitializedBySearchIsBit(FlipAll(map[], cs), tick);
    FlipAllFromEmpty(cs, tick);
  }

  /** One flip initializes its tick and no other (the source flips 1, 2, 257
      and -230 and asks about 1, 257, -231, -229, 26 and -486). */
  lemma OneFlip(c: int, k: int)
    requires InWordRange(c) && InWordRange(k)
    ensures IsInitialized(FlipAll(map[], [c]), k) <==> k == c
  {
    FlipAllFromEmpty([c], k);
  }

  /** Flipping a tick twice leaves every tick uninitialized (the source flips
      1 and -230 twice). */
  lemma TwoFlips(c: int, k: int)
    requires InWordRange(c) && InWordRange(k)
    ensures !IsInitialized(FlipAll(map[], [c, c]), k)
  {
    FlipAllFromEmpty([c, c], k);
  }

  /** The flips of "reverts only itself". */
  const RevertFlips: seq<int> := [-230, -259, -229, 500, -259, -229, -259]

  /** Among those flips, -230 and 500 occur once, -259 three times, -229
      twice. */
  lemma RevertCounts(k: int)
    ensures multiset(RevertFlips)[k] % 2 == 1 <==> k == -230 || k == -259 || k == 500
  {
  }

  /** After the flips `cs` of "reverts only itself", exactly -230, -259 and
      500 are initialized; -229, flipped twice, is not. */
  lemma RevertsOnlyItself(cs: seq<int>, k: int)
    requires cs == RevertFlips && InWordRange(k)
    ensures IsInitialized(FlipAll(map[], cs), k) <==> k == -230 || k == -259 || k == 500
  {
    FlipAllFromEmpty(cs, k);
    RevertCounts(k);
  }
}
