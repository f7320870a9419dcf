/** Reference values of `get_sqrt_ratio_at_tick` and `get_tick_at_sqrt_ratio`,
    the ones the Rust unit tests of `tick_math.rs` check against the Solidity
    implementation, each derived from the model one bit test at a time. */
module TickMathValues {
  import opened Word
  import opened Signed
  import opened Errors
  import opened UnsafeMath
  import opened BitMath
  import opened TickMath
  import opened TickMathInverse

  /** One bit test of a trace: `bits[j]` is twice `bits[j + 1]` plus its
      low bit, and the ratio takes the factor of bit `j` exactly when that
      bit is set. */
  predicate TraceStep(bits: seq<nat>, rs: seq<nat>, j: nat)
    requires |bits| == 21 && |rs| == 21 && j < 20
  {
    && 2 * bits[j + 1] <= bits[j] <= 2 * bits[j + 1] + 1
    && rs[j + 1] == if bits[j] == 2 * bits[j + 1] then rs[j] else Step(rs[j], Factor(j))
  }

  /** A trace whose every bit test holds ends where the fold does. */
  lemma {:induction false} RatioChain(bits: seq<nat>, rs: seq<nat>, k: nat)
    requires |bits| == 21 && |rs| == 21 && k <= 20
    requires forall j | k <= j < 20 :: TraceStep(bits, rs, j)
    ensures RatioFold(bits[k], k, rs[k]) == rs[20]
    decreases 20 - k
  {
    if k < 20 {
      assert TraceStep(bits, rs, k);
      HalfAndLowBit(bits[k], bits[k + 1]);
      RatioChain(bits, rs, k + 1);
    }
  }

  /** `b` is `2 * h` or `2 * h + 1`: `h` is the half of `b`, and the low
      bit of `b` tells which. */
  lemma HalfAndLowBit(b: nat, h: nat)
    requires 2 * h <= b <= 2 * h + 1
    ensures b / 2 == h && (b % 2 == 1 <==> b != 2 * h)
  {
  }

  /** The square-root price from a known ratio, its quotient `q` and the
      rounded-up result `v`, each pinned down by multiplications only. */
  lemma SqrtFromQuotient(tick: I32, ratio: nat, q: nat, v: nat)
    requires AbsTick(tick) <= MAX_TICK && Ratio(AbsTick(tick)) == ratio
    requires tick > 0 ==> q * ratio <= MAX_U256 < (q + 1) * ratio
    requires tick <= 0 ==> q == ratio
    requires v * TWO_32 - TWO_32 < q <= v * TWO_32
    ensures SqrtRatioAtTick(tick) == Ok(v)
  {
    SqrtFromRatio(tick, ratio);
    if tick > 0 {
      DivUnique(MAX_U256, ratio, q, MAX_U256 - q * ratio);
    }
    CeilDivUnique(q, v);
  }

  /** `v` is `q` divided by 2^32, rounded up. */
  lemma CeilDivUnique(q: nat, v: nat)
    requires v * TWO_32 - TWO_32 < q <= v * TWO_32
    ensures CeilDiv(q, TWO_32) == v
  {
    DivUnique(q + TWO_32 - 1, TWO_32, v, q + TWO_32 - 1 - v * TWO_32);
  }

  /** A ratio value, once known, determines the square-root price. */
  lemma SqrtFromRatio(tick: I32, ratio: nat)
    requires AbsTick(tick) <= MAX_TICK && Ratio(AbsTick(tick)) == ratio
    ensures ratio > 0
    ensures SqrtRatioAtTick(tick) == Ok(CeilDiv(if tick > 0 then Div(MAX_U256, ratio) else ratio, TWO_32))
  {
    RatioBounds(AbsTick(tick));
  }

  /** Ticks one past either end fail with `T`. */
  lemma SqrtRatioOutOfRange()
    ensures SqrtRatioAtTick(MIN_TICK - 1) == Err(T)
    ensures SqrtRatioAtTick(MAX_TICK + 1) == Err(T)
  {
  }

  /** The ratio of `get_sqrt_ratio_at_tick(MIN_TICK)`, one bit test at a time. */
  lemma RatioAtMinTick()
    ensures Ratio(AbsTick(MIN_TICK)) == 18447437462383981825
  {
    RatioChain(BITS_MINTICK, RATIOS_MINTICK, 0);
  }

  const BITS_MINTICK: seq<nat> := [887272, 443636, 221818, 110909, 55454, 27727, 13863, 6931, 3465, 1732, 866, 433, 216, 108, 54, 27, 13, 6, 3, 1, 0]
  const RATIOS_MINTICK: seq<nat> := [340282366920938463463374607431768211456, 340282366920938463463374607431768211456, 340282366920938463463374607431768211456, 340282366920938463463374607431768211456, 340146287995602323631171512101879684304, 340146287995602323631171512101879684304, 339602516256333450911508783463471979131, 338517579275194439321187592667164221528, 336358092468829139771578271041138980598, 332080358666931741096696533686537939851, 332080358666931741096696533686537939851, 332080358666931741096696533686537939851, 299759984706031786325544380651874553391, 299759984706031786325544380651874553391, 299759984706031786325544380651874553391, 299759984706031786325544380651874553391, 58245335850494778643666308752178602959, 2199055273679667890264176287186730611, 2199055273679667890264176287186730611, 4468236096036213022677869620526, 18447437462383981825]

  /** `get_sqrt_ratio_at_tick(MIN_TICK)`. */
  lemma SqrtRatioAtMinTick()
    ensures SqrtRatioAtTick(MIN_TICK) == Ok(4295128739)
  {
    RatioAtMinTick();
    SqrtFromQuotient(MIN_TICK, 18447437462383981825, 18447437462383981825, 4295128739);
  }

  /** The ratio of `get_sqrt_ratio_at_tick(MIN_TICK + 1)`, one bit test at a time. */
  lemma RatioAtMinTickPlusOne()
    ensures Ratio(AbsTick(MIN_TICK + 1)) == 18448359811198957089
  {
    RatioChain(BITS_MINTICKPLUSONE, RATIOS_MINTICKPLUSONE, 0);
  }

  const BITS_MINTICKPLUSONE: seq<nat> := [887271, 443635, 221817, 110908, 55454, 27727, 13863, 6931, 3465, 1732, 866, 433, 216, 108, 54, 27, 13, 6, 3, 1, 0]
  const RATIOS_MINTICKPLUSONE: seq<nat> := [340282366920938463463374607431768211456, 340265354078544963557816517032075149313, 340231330945450418515964920540021147198, 340163294884840501567246455576441303173, 340163294884840501567246455576441303173, 340163294884840501567246455576441303173, 339619495957664346094424090076719879969, 338534504731032380975623564962915820361, 336374909953025986709502894373572786635, 332096962269785393075405270746834335136, 332096962269785393075405270746834335136, 332096962269785393075405270746834335136, 299774972330585840860509571166564819157, 299774972330585840860509571166564819157, 299774972330585840860509571166564819157, 299774972330585840860509571166564819157, 58248248044484273675465756785334363784, 2199165223694670213924251208684935069, 2199165223694670213924251208684935069, 4468459502255998960586913940513, 18448359811198957089]

  /** `get_sqrt_ratio_at_tick(MIN_TICK + 1)`. */
  lemma SqrtRatioAtMinTickPlusOne()
    ensures SqrtRatioAtTick(MIN_TICK + 1) == Ok(4295343490)
  {
    RatioAtMinTickPlusOne();
    SqrtFromQuotient(MIN_TICK + 1, 18448359811198957089, 18448359811198957089, 4295343490);
  }

  /** The ratio of `get_sqrt_ratio_at_tick(MAX_TICK - 1)`, one bit test at a time. */
  lemma RatioAtMaxTickMinusOne()
    ensures Ratio(AbsTick(MAX_TICK - 1)) == 18448359811198957089
  {
    RatioChain(BITS_MAXTICKMINUSONE, RATIOS_MAXTICKMINUSONE, 0);
  }

  const BITS_MAXTICKMINUSONE: seq<nat> := [887271, 443635, 221817, 110908, 55454, 27727, 13863, 6931, 3465, 1732, 866, 433, 216, 108, 54, 27, 13, 6, 3, 1, 0]
  const RATIOS_MAXTICKMINUSONE: seq<nat> := [340282366920938463463374607431768211456, 340265354078544963557816517032075149313, 340231330945450418515964920540021147198, 340163294884840501567246455576441303173, 340163294884840501567246455576441303173, 340163294884840501567246455576441303173, 339619495957664346094424090076719879969, 338534504731032380975623564962915820361, 336374909953025986709502894373572786635, 332096962269785393075405270746834335136, 332096962269785393075405270746834335136, 332096962269785393075405270746834335136, 299774972330585840860509571166564819157, 299774972330585840860509571166564819157, 299774972330585840860509571166564819157, 299774972330585840860509571166564819157, 58248248044484273675465756785334363784, 2199165223694670213924251208684935069, 2199165223694670213924251208684935069, 4468459502255998960586913940513, 18448359811198957089]

  /** `get_sqrt_ratio_at_tick(MAX_TICK - 1)`. */
  lemma SqrtRatioAtMaxTickMinusOne()
    ensures SqrtRatioAtTick(MAX_TICK - 1) == Ok(1461373636630004318706518188784493106690254656249)
  {
    RatioAtMaxTickMinusOne();
    SqrtFromQuotient(MAX_TICK - 1, 18448359811198957089, 6276551976562456201183256642858551885172082550499603556932, 1461373636630004318706518188784493106690254656249);
  }

  /** The ratio of `get_sqrt_ratio_at_tick(MAX_TICK)`, one bit test at a time. */
  lemma RatioAtMaxTick()
    ensures Ratio(AbsTick(MAX_TICK)) == 18447437462383981825
  {
    RatioChain(BITS_MAXTICK, RATIOS_MAXTICK, 0);
  }

  const BITS_MAXTICK: seq<nat> := [887272, 443636, 221818, 110909, 55454, 27727, 13863, 6931, 3465, 1732, 866, 433, 216, 108, 54, 27, 13, 6, 3, 1, 0]
  const RATIOS_MAXTICK: seq<nat> := [340282366920938463463374607431768211456, 340282366920938463463374607431768211456, 340282366920938463463374607431768211456, 340282366920938463463374607431768211456, 340146287995602323631171512101879684304, 340146287995602323631171512101879684304, 339602516256333450911508783463471979131, 338517579275194439321187592667164221528, 336358092468829139771578271041138980598, 332080358666931741096696533686537939851, 332080358666931741096696533686537939851, 332080358666931741096696533686537939851, 299759984706031786325544380651874553391, 299759984706031786325544380651874553391, 299759984706031786325544380651874553391, 299759984706031786325544380651874553391, 58245335850494778643666308752178602959, 2199055273679667890264176287186730611, 2199055273679667890264176287186730611, 4468236096036213022677869620526, 18447437462383981825]

  /** `get_sqrt_ratio_at_tick(MAX_TICK)`. */
  lemma SqrtRatioAtMaxTick()
    ensures SqrtRatioAtTick(MAX_TICK) == Ok(1461446703485210103287273052203988822378723970342)
  {
    RatioAtMaxTick();
    SqrtFromQuotient(MAX_TICK, 18447437462383981825, 6276865796315986613307619852238232712866172378830071145882, 1461446703485210103287273052203988822378723970342);
  }

  /** The ratio of `get_sqrt_ratio_at_tick(50)`, one bit test at a time. */
  lemma RatioAt50()
    ensures Ratio(AbsTick(50)) == 339432765926699011356884924190542770894
  {
    RatioChain(BITS_50, RATIOS_50, 0);
  }

  const BITS_50: seq<nat> := [50, 25, 12, 6, 3, 1, 0, 0, 0, 0, 0, 0, 0, 0, 0, 0, 0, 0, 0, 0, 0]
  const RATIOS_50: seq<nat> := [340282366920938463463374607431768211456, 340282366920938463463374607431768211456, 340248342086729790484326174814286782778, 340248342086729790484326174814286782778, 340248342086729790484326174814286782778, 339976265861644982325361455533606100834, 339432765926699011356884924190542770894, 339432765926699011356884924190542770894, 339432765926699011356884924190542770894, 339432765926699011356884924190542770894, 339432765926699011356884924190542770894, 339432765926699011356884924190542770894, 339432765926699011356884924190542770894, 339432765926699011356884924190542770894, 339432765926699011356884924190542770894, 339432765926699011356884924190542770894, 339432765926699011356884924190542770894, 339432765926699011356884924190542770894, 339432765926699011356884924190542770894, 339432765926699011356884924190542770894, 339432765926699011356884924190542770894]

  /** `get_sqrt_ratio_at_tick(50)`. */
  lemma SqrtRatioAt50()
    ensures SqrtRatioAtTick(50) == Ok(79426470787362580746886972461)
  {
    RatioAt50();
    SqrtFromQuotient(50, 339432765926699011356884924190542770894, 341134094468421654402038800526998732381, 79426470787362580746886972461);
  }

  /** The ratio of `get_sqrt_ratio_at_tick(100)`, one bit test at a time. */
  lemma RatioAt100()
    ensures Ratio(AbsTick(100)) == 338585286176225270960996223397573581044
  {
    RatioChain(BITS_100, RATIOS_100, 0);
  }

  const BITS_100: seq<nat> := [100, 50, 25, 12, 6, 3, 1, 0, 0, 0, 0, 0, 0, 0, 0, 0, 0, 0, 0, 0, 0]
  const RATIOS_100: seq<nat> := [340282366920938463463374607431768211456, 340282366920938463463374607431768211456, 340282366920938463463374607431768211456, 340214320654664324051920982716015181260, 340214320654664324051920982716015181260, 340214320654664324051920982716015181260, 339670440155609880165025594335252508162, 338585286176225270960996223397573581044, 338585286176225270960996223397573581044, 338585286176225270960996223397573581044, 338585286176225270960996223397573581044, 338585286176225270960996223397573581044, 338585286176225270960996223397573581044, 338585286176225270960996223397573581044, 338585286176225270960996223397573581044, 338585286176225270960996223397573581044, 338585286176225270960996223397573581044, 338585286176225270960996223397573581044, 338585286176225270960996223397573581044, 338585286176225270960996223397573581044, 338585286176225270960996223397573581044]

  /** `get_sqrt_ratio_at_tick(100)`. */
  lemma SqrtRatioAt100()
    ensures SqrtRatioAtTick(100) == Ok(79625275426524748796330556128)
  {
    RatioAt100();
    SqrtFromQuotient(100, 338585286176225270960996223397573581044, 341987953891916247014855103371247308527, 79625275426524748796330556128);
  }

  /** The ratio of `get_sqrt_ratio_at_tick(250)`, one bit test at a time. */
  lemma RatioAt250()
    ensures Ratio(AbsTick(250)) == 336055521491266364659198363662233674892
  {
    RatioChain(BITS_250, RATIOS_250, 0);
  }

  const BITS_250: seq<nat> := [250, 125, 62, 31, 15, 7, 3, 1, 0, 0, 0, 0, 0, 0, 0, 0, 0, 0, 0, 0, 0]
  const RATIOS_250: seq<nat> := [340282366920938463463374607431768211456, 340282366920938463463374607431768211456, 340248342086729790484326174814286782778, 340248342086729790484326174814286782778, 340112276767925531078063705731306553648, 339840309346128574906269004643126005198, 339297026756817456928336228489514218087, 338213065730918789847358363231238615769, 336055521491266364659198363662233674892, 336055521491266364659198363662233674892, 336055521491266364659198363662233674892, 336055521491266364659198363662233674892, 336055521491266364659198363662233674892, 336055521491266364659198363662233674892, 336055521491266364659198363662233674892, 336055521491266364659198363662233674892, 336055521491266364659198363662233674892, 336055521491266364659198363662233674892, 336055521491266364659198363662233674892, 336055521491266364659198363662233674892, 336055521491266364659198363662233674892]

  /** `get_sqrt_ratio_at_tick(250)`. */
  lemma SqrtRatioAt250()
    ensures SqrtRatioAtTick(250) == Ok(80224679980005306637834519095)
  {
    RatioAt250();
    SqrtFromQuotient(250, 336055521491266364659198363662233674892, 344562376846188725915950975772210516434, 80224679980005306637834519095);
  }

  /** The ratio of `get_sqrt_ratio_at_tick(500)`, one bit test at a time. */
  lemma RatioAt500()
    ensures Ratio(AbsTick(500)) == 331881180170014585398186062899665841720
  {
    RatioChain(BITS_500, RATIOS_500, 0);
  }

  const BITS_500: seq<nat> := [500, 250, 125, 62, 31, 15, 7, 3, 1, 0, 0, 0, 0, 0, 0, 0, 0, 0, 0, 0, 0]
  const RATIOS_500: seq<nat> := [340282366920938463463374607431768211456, 340282366920938463463374607431768211456, 340282366920938463463374607431768211456, 340214320654664324051920982716015181260, 340214320654664324051920982716015181260, 339942271634481534171944261107495351299, 339398826044094601896695254665076263267, 338314539797368250477607184950806242654, 336156348229715444828078329311942453225, 331881180170014585398186062899665841720, 331881180170014585398186062899665841720, 331881180170014585398186062899665841720, 331881180170014585398186062899665841720, 331881180170014585398186062899665841720, 331881180170014585398186062899665841720, 331881180170014585398186062899665841720, 331881180170014585398186062899665841720, 331881180170014585398186062899665841720, 331881180170014585398186062899665841720, 331881180170014585398186062899665841720, 331881180170014585398186062899665841720]

  /** `get_sqrt_ratio_at_tick(500)`. */
  lemma SqrtRatioAt500()
    ensures SqrtRatioAtTick(500) == Ok(81233731461783161732293370115)
  {
    RatioAt500();
    SqrtFromQuotient(500, 331881180170014585398186062899665841720, 348896219960404953483678731718401472027, 81233731461783161732293370115);
  }

  /** The ratio of `get_sqrt_ratio_at_tick(1000)`, one bit test at a time. */
  lemma RatioAt1000()
    ensures Ratio(AbsTick(1000)) == 323687409217512896862864747981599526408
  {
    RatioChain(BITS_1000, RATIOS_1000, 0);
  }

  const BITS_1000: seq<nat> := [1000, 500, 250, 125, 62, 31, 15, 7, 3, 1, 0, 0, 0, 0, 0, 0, 0, 0, 0, 0, 0]
  const RATIOS_1000: seq<nat> := [340282366920938463463374607431768211456, 340282366920938463463374607431768211456, 340282366920938463463374607431768211456, 340282366920938463463374607431768211456, 340146287995602323631171512101879684304, 340146287995602323631171512101879684304, 339602516256333450911508783463471979131, 338517579275194439321187592667164221528, 336358092468829139771578271041138980598, 332080358666931741096696533686537939851, 323687409217512896862864747981599526408, 323687409217512896862864747981599526408, 323687409217512896862864747981599526408, 323687409217512896862864747981599526408, 323687409217512896862864747981599526408, 323687409217512896862864747981599526408, 323687409217512896862864747981599526408, 323687409217512896862864747981599526408, 323687409217512896862864747981599526408, 323687409217512896862864747981599526408, 323687409217512896862864747981599526408]

  /** `get_sqrt_ratio_at_tick(1000)`. */
  lemma SqrtRatioAt1000()
    ensures SqrtRatioAtTick(1000) == Ok(83290069058676223003182343270)
  {
    RatioAt1000();
    SqrtFromQuotient(1000, 323687409217512896862864747981599526408, 357728122688595882851471068268712595731, 83290069058676223003182343270);
  }

  /** The ratio of `get_sqrt_ratio_at_tick(2500)`, one bit test at a time. */
  lemma RatioAt2500()
    ensures Ratio(AbsTick(2500)) == 300300011555975143534006610044455260826
  {
    RatioChain(BITS_2500, RATIOS_2500, 0);
  }

  const BITS_2500: seq<nat> := [2500, 1250, 625, 312, 156, 78, 39, 19, 9, 4, 2, 1, 0, 0, 0, 0, 0, 0, 0, 0, 0]
  const RATIOS_2500: seq<nat> := [340282366920938463463374607431768211456, 340282366920938463463374607431768211456, 340282366920938463463374607431768211456, 340214320654664324051920982716015181260, 340214320654664324051920982716015181260, 340214320654664324051920982716015181260, 340214320654664324051920982716015181260, 339127429126120040437746273822316795443, 336964051937725667388017587145211137712, 332678611666560196357013774559415999369, 332678611666560196357013774559415999369, 332678611666560196357013774559415999369, 300300011555975143534006610044455260826, 300300011555975143534006610044455260826, 300300011555975143534006610044455260826, 300300011555975143534006610044455260826, 300300011555975143534006610044455260826, 300300011555975143534006610044455260826, 300300011555975143534006610044455260826, 300300011555975143534006610044455260826, 300300011555975143534006610044455260826]

  /** `get_sqrt_ratio_at_tick(2500)`. */
  lemma SqrtRatioAt2500()
    ensures SqrtRatioAtTick(2500) == Ok(89776708723587163891445672585)
  {
    RatioAt2500();
    SqrtFromQuotient(2500, 300300011555975143534006610044455260826, 385588027910324772719151257911861868583, 89776708723587163891445672585);
  }

  /** The ratio of `get_sqrt_ratio_at_tick(3000)`, one bit test at a time. */
  lemma RatioAt3000()
    ensures Ratio(AbsTick(3000)) == 292885943935561202335296056579311613892
  {
    RatioChain(BITS_3000, RATIOS_3000, 0);
  }

  const BITS_3000: seq<nat> := [3000, 1500, 750, 375, 187, 93, 46, 23, 11, 5, 2, 1, 0, 0, 0, 0, 0, 0, 0, 0, 0]
  const RATIOS_3000: seq<nat> := [340282366920938463463374607431768211456, 340282366920938463463374607431768211456, 340282366920938463463374607431768211456, 340282366920938463463374607431768211456, 340146287995602323631171512101879684304, 339874293377063187763759631543590317799, 339330956459493138674029062112363169509, 339330956459493138674029062112363169509, 337166280920235879952351105916713247714, 332878268742005953730067189522257922234, 324465153032371772271886247012584866268, 324465153032371772271886247012584866268, 292885943935561202335296056579311613892, 292885943935561202335296056579311613892, 292885943935561202335296056579311613892, 292885943935561202335296056579311613892, 292885943935561202335296056579311613892, 292885943935561202335296056579311613892, 292885943935561202335296056579311613892, 292885943935561202335296056579311613892, 292885943935561202335296056579311613892]

  /** `get_sqrt_ratio_at_tick(3000)`. */
  lemma SqrtRatioAt3000()
    ensures SqrtRatioAtTick(3000) == Ok(92049301871182272007977902845)
  {
    RatioAt3000();
    SqrtFromQuotient(3000, 292885943935561202335296056579311613892, 395348741156359463129241343809039924788, 92049301871182272007977902845);
  }

  /** The ratio of `get_sqrt_ratio_at_tick(4000)`, one bit test at a time. */
  lemma RatioAt4000()
    ensures Ratio(AbsTick(4000)) == 278602424352932382220225405008721604524
  {
    RatioChain(BITS_4000, RATIOS_4000, 0);
  }

  const BITS_4000: seq<nat> := [4000, 2000, 1000, 500, 250, 125, 62, 31, 15, 7, 3, 1, 0, 0, 0, 0, 0, 0, 0, 0, 0]
  const RATIOS_4000: seq<nat> := [340282366920938463463374607431768211456, 340282366920938463463374607431768211456, 340282366920938463463374607431768211456, 340282366920938463463374607431768211456, 340282366920938463463374607431768211456, 340282366920938463463374607431768211456, 339738377640345403697157401104375502016, 339738377640345403697157401104375502016, 337571103061278844568000654298195056652, 333277942437403429832720265431965608529, 324854725434410017026242945773498071094, 308641572341049174631232595699282771409, 278602424352932382220225405008721604524, 278602424352932382220225405008721604524, 278602424352932382220225405008721604524, 278602424352932382220225405008721604524, 278602424352932382220225405008721604524, 278602424352932382220225405008721604524, 278602424352932382220225405008721604524, 278602424352932382220225405008721604524, 278602424352932382220225405008721604524]

  /** `get_sqrt_ratio_at_tick(4000)`. */
  lemma SqrtRatioAt4000()
    ensures SqrtRatioAtTick(4000) == Ok(96768528593268422080558758223)
  {
    RatioAt4000();
    SqrtFromQuotient(4000, 278602424352932382220225405008721604524, 415617665590128758585524143971663355767, 96768528593268422080558758223);
  }

  /** The ratio of `get_sqrt_ratio_at_tick(5000)`, one bit test at a time. */
  lemma RatioAt5000()
    ensures Ratio(AbsTick(5000)) == 265015486275465270576377325875839149617
  {
    RatioChain(BITS_5000, RATIOS_5000, 0);
  }

  const BITS_5000: seq<nat> := [5000, 2500, 1250, 625, 312, 156, 78, 39, 19, 9, 4, 2, 1, 0, 0, 0, 0, 0, 0, 0, 0]
  const RATIOS_5000: seq<nat> := [340282366920938463463374607431768211456, 340282366920938463463374607431768211456, 340282366920938463463374607431768211456, 340282366920938463463374607431768211456, 340146287995602323631171512101879684304, 340146287995602323631171512101879684304, 340146287995602323631171512101879684304, 340146287995602323631171512101879684304, 337976411256162754742477627753410471818, 333678096005107969869031904699144495628, 325244765580534218234914498607317812852, 325244765580534218234914498607317812852, 325244765580534218234914498607317812852, 265015486275465270576377325875839149617, 265015486275465270576377325875839149617, 265015486275465270576377325875839149617, 265015486275465270576377325875839149617, 265015486275465270576377325875839149617, 265015486275465270576377325875839149617, 265015486275465270576377325875839149617, 265015486275465270576377325875839149617]

  /** `get_sqrt_ratio_at_tick(5000)`. */
  lemma SqrtRatioAt5000()
    ensures SqrtRatioAtTick(5000) == Ok(101729702841318637793976746270)
  {
    RatioAt5000();
    SqrtFromQuotient(5000, 265015486275465270576377325875839149617, 436925746735261826840399711010961771330, 101729702841318637793976746270);
  }

  /** The ratio of `get_sqrt_ratio_at_tick(50000)`, one bit test at a time. */
  lemma RatioAt50000()
    ensures Ratio(AbsTick(50000)) == 27935569115594311187869161794212210853
  {
    RatioChain(BITS_50000, RATIOS_50000, 0);
  }

  const BITS_50000: seq<nat> := [50000, 25000, 12500, 6250, 3125, 1562, 781, 390, 195, 97, 48, 24, 12, 6, 3, 1, 0, 0, 0, 0, 0]
  const RATIOS_50000: seq<nat> := [340282366920938463463374607431768211456, 340282366920938463463374607431768211456, 340282366920938463463374607431768211456, 340282366920938463463374607431768211456, 340282366920938463463374607431768211456, 340010263488231146823593991679159461444, 340010263488231146823593991679159461444, 338924023866417621018791913452641902269, 338924023866417621018791913452641902269, 334613657070938147971677625735884483302, 326156681415541718937800275855898544700, 326156681415541718937800275855898544700, 326156681415541718937800275855898544700, 326156681415541718937800275855898544700, 326156681415541718937800275855898544700, 143770580915513941943317769994783023463, 27935569115594311187869161794212210853, 27935569115594311187869161794212210853, 27935569115594311187869161794212210853, 27935569115594311187869161794212210853, 27935569115594311187869161794212210853]

  /** `get_sqrt_ratio_at_tick(50000)`. */
  lemma SqrtRatioAt50000()
    ensures SqrtRatioAtTick(50000) == Ok(965075977353221155028623082916)
  {
    RatioAt50000();
    SqrtFromQuotient(50000, 27935569115594311187869161794212210853, 4144969760887321501103282085033276813961, 965075977353221155028623082916);
  }

  /** The ratio of `get_sqrt_ratio_at_tick(150000)`, one bit test at a time. */
  lemma RatioAt150000()
    ensures Ratio(AbsTick(150000)) == 188275443931124331344838226474876905
  {
    RatioChain(BITS_150000, RATIOS_150000, 0);
  }

  const BITS_150000: seq<nat> := [150000, 75000, 37500, 18750, 9375, 4687, 2343, 1171, 585, 292, 146, 73, 36, 18, 9, 4, 2, 1, 0, 0, 0]
  const RATIOS_150000: seq<nat> := [340282366920938463463374607431768211456, 340282366920938463463374607431768211456, 340282366920938463463374607431768211456, 340282366920938463463374607431768211456, 340282366920938463463374607431768211456, 340010263488231146823593991679159461444, 339466709203291681258020612682961825171, 338382206088473122101385211163868253412, 336223582860924870214198393258588134836, 331947559724860390015411554094106403886, 331947559724860390015411554094106403886, 331947559724860390015411554094106403886, 299640110682153693512178215645505348441, 299640110682153693512178215645505348441, 299640110682153693512178215645505348441, 132082018345889845856364746442678682256, 132082018345889845856364746442678682256, 132082018345889845856364746442678682256, 188275443931124331344838226474876905, 188275443931124331344838226474876905, 188275443931124331344838226474876905]

  /** `get_sqrt_ratio_at_tick(150000)`. */
  lemma SqrtRatioAt150000()
    ensures SqrtRatioAtTick(150000) == Ok(143194173941309278083010301478497)
  {
    RatioAt150000();
    SqrtFromQuotient(150000, 188275443931124331344838226474876905, 615014294055658772787898818081245014041755, 143194173941309278083010301478497);
  }

  /** The ratio of `get_sqrt_ratio_at_tick(250000)`, one bit test at a time. */
  lemma RatioAt250000()
    ensures Ratio(AbsTick(250000)) == 1268907128427686450169440936906387
  {
    RatioChain(BITS_250000, RATIOS_250000, 0);
  }

  const BITS_250000: seq<nat> := [250000, 125000, 62500, 31250, 15625, 7812, 3906, 1953, 976, 488, 244, 122, 61, 30, 15, 7, 3, 1, 0, 0, 0]
  const RATIOS_250000: seq<nat> := [340282366920938463463374607431768211456, 340282366920938463463374607431768211456, 340282366920938463463374607431768211456, 340282366920938463463374607431768211456, 340282366920938463463374607431768211456, 340010263488231146823593991679159461444, 340010263488231146823593991679159461444, 340010263488231146823593991679159461444, 337841254482543069759933848084798955763, 337841254482543069759933848084798955763, 337841254482543069759933848084798955763, 337841254482543069759933848084798955763, 337841254482543069759933848084798955763, 275279339794432314390896023896549730619, 275279339794432314390896023896549730619, 121343737079116594987927342539417080988, 23577885909149719863251669129810082460, 890184142534955926120923217584751456, 1268907128427686450169440936906387, 1268907128427686450169440936906387, 1268907128427686450169440936906387]

  /** `get_sqrt_ratio_at_tick(250000)`. */
  lemma SqrtRatioAt250000()
    ensures SqrtRatioAtTick(250000) == Ok(21246587762933397357449903968194344)
  {
    RatioAt250000();
    SqrtFromQuotient(250000, 1268907128427686450169440936906387, 91253399593392742676420159501735331331185324, 21246587762933397357449903968194344);
  }

  /** The ratio of `get_sqrt_ratio_at_tick(500000)`, one bit test at a time. */
  lemma RatioAt500000()
    ensures Ratio(AbsTick(500000)) == 4731732987353691573980899303
  {
    RatioChain(BITS_500000, RATIOS_500000, 0);
  }

  const BITS_500000: seq<nat> := [500000, 250000, 125000, 62500, 31250, 15625, 7812, 3906, 1953, 976, 488, 244, 122, 61, 30, 15, 7, 3, 1, 0, 0]
  const RATIOS_500000: seq<nat> := [340282366920938463463374607431768211456, 340282366920938463463374607431768211456, 340282366920938463463374607431768211456, 340282366920938463463374607431768211456, 340282366920938463463374607431768211456, 340282366920938463463374607431768211456, 339738377640345403697157401104375502016, 339738377640345403697157401104375502016, 339738377640345403697157401104375502016, 335417654059215659968918489031218933208, 335417654059215659968918489031218933208, 335417654059215659968918489031218933208, 335417654059215659968918489031218933208, 335417654059215659968918489031218933208, 222693628245700509155903207967449479991, 222693628245700509155903207967449479991, 43270836104613185510772550264515755414, 1633692362537383961477779211019049773, 2328736028231542708969991101059086, 4731732987353691573980899303, 4731732987353691573980899303]

  /** `get_sqrt_ratio_at_tick(500000)`. */
  lemma SqrtRatioAt500000()
    ensures SqrtRatioAtTick(500000) == Ok(5697689776495288729098254600827762987878)
  {
    RatioAt500000();
    SqrtFromQuotient(500000, 4731732987353691573980899303, 24471391252800814589554407081236776561774926162268, 5697689776495288729098254600827762987878);
  }

  /** The ratio of `get_sqrt_ratio_at_tick(738203)`, one bit test at a time. */
  lemma RatioAt738203()
    ensures Ratio(AbsTick(738203)) == 31824853568100467369054
  {
    RatioChain(BITS_738203, RATIOS_738203, 0);
  }

  const BITS_738203: seq<nat> := [738203, 369101, 184550, 92275, 46137, 23068, 11534, 5767, 2883, 1441, 720, 360, 180, 90, 45, 22, 11, 5, 2, 1, 0]
  const RATIOS_738203: seq<nat> := [340282366920938463463374607431768211456, 340265354078544963557816517032075149313, 340231330945450418515964920540021147198, 340231330945450418515964920540021147198, 340095272429401896893848716894575219183, 339823318604956237720507391489742865272, 339823318604956237720507391489742865272, 339823318604956237720507391489742865272, 337655502166607836329230075883014889249, 333361268172078349446676535169171196093, 324935945206896237258459874981164687438, 324935945206896237258459874981164687438, 324935945206896237258459874981164687438, 324935945206896237258459874981164687438, 324935945206896237258459874981164687438, 143232477715849733300865606944038989952, 143232477715849733300865606944038989952, 5407748635731649388404699246484114416, 7708439708984740280962046286917520, 7708439708984740280962046286917520, 31824853568100467369054]

  /** `get_sqrt_ratio_at_tick(738203)`. */
  lemma SqrtRatioAt738203()
    ensures SqrtRatioAtTick(738203) == Ok(847134979253254120489401328389043031315994541)
  {
    RatioAt738203();
    SqrtFromQuotient(738203, 31824853568100467369054, 3638417031190364949079222220049896184238900393340664437, 847134979253254120489401328389043031315994541);
  }

  /** `get_sqrt_ratio_at_tick(0)`: the price 1.0, that is `2^96` in Q64.96. */
  lemma RatioAtZero()
    ensures Ratio(AbsTick(0)) == 340282366920938463463374607431768211456
  {
    RatioChain(BITS_ZERO, RATIOS_ZERO, 0);
  }

  const BITS_ZERO: seq<nat> := [0, 0, 0, 0, 0, 0, 0, 0, 0, 0, 0, 0, 0, 0, 0, 0, 0, 0, 0, 0, 0]
  const RATIOS_ZERO: seq<nat> := [340282366920938463463374607431768211456, 340282366920938463463374607431768211456, 340282366920938463463374607431768211456, 340282366920938463463374607431768211456, 340282366920938463463374607431768211456, 340282366920938463463374607431768211456, 340282366920938463463374607431768211456, 340282366920938463463374607431768211456, 340282366920938463463374607431768211456, 340282366920938463463374607431768211456, 340282366920938463463374607431768211456, 340282366920938463463374607431768211456, 340282366920938463463374607431768211456, 340282366920938463463374607431768211456, 340282366920938463463374607431768211456, 340282366920938463463374607431768211456, 340282366920938463463374607431768211456, 340282366920938463463374607431768211456, 340282366920938463463374607431768211456, 340282366920938463463374607431768211456, 340282366920938463463374607431768211456]

  lemma SqrtRatioAtZero()
    ensures SqrtRatioAtTick(0) == Ok(79228162514264337593543950336)
  {
    RatioAtZero();
    SqrtFromQuotient(0, 340282366920938463463374607431768211456, 340282366920938463463374607431768211456, 79228162514264337593543950336);
  }

  // ---------------------------------------------------------------------------
  // get_tick_at_sqrt_ratio

  /** One squaring of a trace: `sq` is the square of `r` (bracketed by
      multiplications only), and `r2` and `acc2` take its top bit into the
      accumulated fraction. */
  lemma FracTraceStep(r: nat, sq: nat, r2: nat, n: nat, acc: nat, acc2: nat)
    requires n > 0 && sq * TWO_127 <= r * r < sq * TWO_127 + TWO_127
    requires if sq >= TWO_128 then 2 * r2 <= sq <= 2 * r2 + 1 && acc2 == 2 * acc + 1
             else r2 == sq && acc2 == 2 * acc
    ensures FracFold(r, n, acc) == FracFold(r2, n - 1, acc2)
  {
    DivUnique(r * r, TWO_127, sq, r * r - sq * TWO_127);
    if sq >= TWO_128 {
      DivUnique(sq, 2, r2, sq - 2 * r2);
    }
  }

  /** The result for a price whose logarithm is known, with its two
      candidate ticks each pinned by one division. */
  lemma TickAtFromLog(price: U256, log2: int, lo: int, hi: int)
    requires MIN_SQRT_RATIO <= price < MAX_SQRT_RATIO && Log2(PriceRatio(price)) == log2
    requires lo * TWO_128 <= log2 * SQRT_10001 - TICK_LOW < lo * TWO_128 + TWO_128
    requires hi * TWO_128 <= log2 * SQRT_10001 + TICK_HIGH < hi * TWO_128 + TWO_128
    ensures MIN_TICK <= hi <= MAX_TICK
    ensures lo == hi ==> TickAtSqrtRatio(price) == Ok(lo)
    ensures lo != hi ==> TickAtSqrtRatio(price) == Ok(if SqrtRatioAtTick(hi).value <= price then hi else lo)
  {
    var ls := LogSqrt10001(price);
    assert ls == log2 * SQRT_10001;
    DivUnique(ls - TICK_LOW, TWO_128, lo, ls - TICK_LOW - lo * TWO_128);
    DivUnique(ls + TICK_HIGH, TWO_128, hi, ls + TICK_HIGH - hi * TWO_128);
    CandidateBounds(price);
    assert WrapI32(TickLow(ls)) == lo && WrapI32(TickHigh(ls)) == hi;
  }

  /** Prices outside `[MIN_SQRT_RATIO, MAX_SQRT_RATIO)` fail with `R`. */
  lemma TickAtSqrtRatioOutOfRange()
    ensures TickAtSqrtRatio(MIN_SQRT_RATIO - 1) == Err(R)
    ensures TickAtSqrtRatio(MAX_SQRT_RATIO) == Err(R)
  {
  }

  lemma FracStep0AtMinSqrtRatio()
    ensures FracFold(170147578876589626920414360973871153152, 14, 0) == FracFold(170153974533106535881562109013831712768, 13, 0)
  {
    FracTraceStep(170147578876589626920414360973871153152, 170153974533106535881562109013831712768, 170153974533106535881562109013831712768, 14, 0, 0);
  }

  lemma FracStep1AtMinSqrtRatio()
    ensures FracFold(170153974533106535881562109013831712768, 13, 0) == FracFold(170166766567366040401311527391081337320, 12, 0)
  {
    FracTraceStep(170153974533106535881562109013831712768, 170166766567366040401311527391081337320, 170166766567366040401311527391081337320, 13, 0, 0);
  }

  lemma FracStep2AtMinSqrtRatio()
    ensures FracFold(170166766567366040401311527391081337320, 12, 0) == FracFold(170192353521040831813752434907157554464, 11, 0)
  {
    FracTraceStep(170166766567366040401311527391081337320, 170192353521040831813752434907157554464, 170192353521040831813752434907157554464, 12, 0, 0);
  }

  lemma FracStep3AtMinSqrtRatio()
    ensures FracFold(170192353521040831813752434907157554464, 11, 0) == FracFold(170243538971038117356487573935732585545, 10, 0)
  {
    FracTraceStep(170192353521040831813752434907157554464, 170243538971038117356487573935732585545, 170243538971038117356487573935732585545, 11, 0, 0);
  }

  lemma FracStep4AtMinSqrtRatio()
    ensures FracFold(170243538971038117356487573935732585545, 10, 0) == FracFold(170345956057824651963446420433306419226, 9, 0)
  {
    FracTraceStep(170243538971038117356487573935732585545, 170345956057824651963446420433306419226, 170345956057824651963446420433306419226, 10, 0, 0);
  }

  lemma FracStep5AtMinSqrtRatio()
    ensures FracFold(170345956057824651963446420433306419226, 9, 0) == FracFold(170550975108247899994440323544706569114, 8, 0)
  {
    FracTraceStep(170345956057824651963446420433306419226, 170550975108247899994440323544706569114, 170550975108247899994440323544706569114, 9, 0, 0);
  }

  lemma FracStep6AtMinSqrtRatio()
    ensures FracFold(170550975108247899994440323544706569114, 8, 0) == FracFold(170961753755124456705476920545726938150, 7, 0)
  {
    FracTraceStep(170550975108247899994440323544706569114, 170961753755124456705476920545726938150, 170961753755124456705476920545726938150, 8, 0, 0);
  }

  lemma FracStep7AtMinSqrtRatio()
    ensures FracFold(170961753755124456705476920545726938150, 7, 0) == FracFold(171786281560799504849746779272583977676, 6, 0)
  {
    FracTraceStep(170961753755124456705476920545726938150, 171786281560799504849746779272583977676, 171786281560799504849746779272583977676, 7, 0, 0);
  }

  lemma FracStep8AtMinSqrtRatio()
    ensures FracFold(171786281560799504849746779272583977676, 6, 0) == FracFold(173447286143644277867428471701679181739, 5, 0)
  {
    FracTraceStep(171786281560799504849746779272583977676, 173447286143644277867428471701679181739, 173447286143644277867428471701679181739, 6, 0, 0);
  }

  lemma FracStep9AtMinSqrtRatio()
    ensures FracFold(173447286143644277867428471701679181739, 5, 0) == FracFold(176817631444211466450022635831531009461, 4, 0)
  {
    FracTraceStep(173447286143644277867428471701679181739, 176817631444211466450022635831531009461, 176817631444211466450022635831531009461, 5, 0, 0);
  }

  lemma FracStep10AtMinSqrtRatio()
    ensures FracFold(176817631444211466450022635831531009461, 4, 0) == FracFold(183756067482656355451618860931542785557, 3, 0)
  {
    FracTraceStep(176817631444211466450022635831531009461, 183756067482656355451618860931542785557, 183756067482656355451618860931542785557, 4, 0, 0);
  }

  lemma FracStep11AtMinSqrtRatio()
    ensures FracFold(183756067482656355451618860931542785557, 3, 0) == FracFold(198460429449968235707380357196012301073, 2, 0)
  {
    FracTraceStep(183756067482656355451618860931542785557, 198460429449968235707380357196012301073, 198460429449968235707380357196012301073, 3, 0, 0);
  }

  lemma FracStep12AtMinSqrtRatio()
    ensures FracFold(198460429449968235707380357196012301073, 2, 0) == FracFold(231493288434877537647902142969455154526, 1, 0)
  {
    FracTraceStep(198460429449968235707380357196012301073, 231493288434877537647902142969455154526, 231493288434877537647902142969455154526, 2, 0, 0);
  }

  lemma FracStep13AtMinSqrtRatio()
    ensures FracFold(231493288434877537647902142969455154526, 1, 0) == FracFold(314968671902087479629947513461521130666, 0, 0)
  {
    FracTraceStep(231493288434877537647902142969455154526, 314968671902087479629947513461521130666, 314968671902087479629947513461521130666, 1, 0, 0);
  }

  /** The 14 fraction bits of the price `MIN_SQRT_RATIO`, one squaring at a time. */
  lemma FracAtMinSqrtRatio()
    ensures FracFold(170147578876589626920414360973871153152, 14, 0) == 0
  {
    FracStep0AtMinSqrtRatio();
    FracStep1AtMinSqrtRatio();
    FracStep2AtMinSqrtRatio();
    FracStep3AtMinSqrtRatio();
    FracStep4AtMinSqrtRatio();
    FracStep5AtMinSqrtRatio();
    FracStep6AtMinSqrtRatio();
    FracStep7AtMinSqrtRatio();
    FracStep8AtMinSqrtRatio();
    FracStep9AtMinSqrtRatio();
    FracStep10AtMinSqrtRatio();
    FracStep11AtMinSqrtRatio();
    FracStep12AtMinSqrtRatio();
    FracStep13AtMinSqrtRatio();
  }

  /** The logarithm of the price `MIN_SQRT_RATIO`: top bit 64, fraction 0. */
  lemma Log2AtMinSqrtRatio()
    ensures Log2(PriceRatio(MIN_SQRT_RATIO)) == -1180591620717411303424
  {
    Pow2Constants();
    assert Pow2(65) == 2 * Pow2(64);
    Pow2Split(63, 64, 127);
    MsbIs(18447437466114719744, 64);
    FracAtMinSqrtRatio();
  }

  /** `get_tick_at_sqrt_ratio(MIN_SQRT_RATIO)`: candidates -887273 and -887272. */
  lemma TickAtMinSqrtRatio()
    ensures TickAtSqrtRatio(MIN_SQRT_RATIO) == Ok(MIN_TICK)
  {
    Log2AtMinSqrtRatio();
    TickAtFromLog(MIN_SQRT_RATIO, -1180591620717411303424, -887273, -887272);
    SqrtRatioAtMinTick();
  }

  lemma FracStep0AtMinTickPlusOne()
    ensures FracFold(170156086040153677310795636552310456320, 14, 0) == FracFold(170170989925147494402827402619964620800, 13, 0)
  {
    FracTraceStep(170156086040153677310795636552310456320, 170170989925147494402827402619964620800, 170170989925147494402827402619964620800, 14, 0, 0);
  }

  lemma FracStep1AtMinTickPlusOne()
    ensures FracFold(170170989925147494402827402619964620800, 13, 0) == FracFold(170200801611520578674511074580738005000, 12, 0)
  {
    FracTraceStep(170170989925147494402827402619964620800, 170200801611520578674511074580738005000, 170200801611520578674511074580738005000, 13, 0, 0);
  }

  lemma FracStep2AtMinTickPlusOne()
    ensures FracFold(170200801611520578674511074580738005000, 12, 0) == FracFold(170260440653010457256182112345142875981, 11, 0)
  {
    FracTraceStep(170200801611520578674511074580738005000, 170260440653010457256182112345142875981, 170260440653010457256182112345142875981, 12, 0, 0);
  }

  lemma FracStep3AtMinTickPlusOne()
    ensures FracFold(170260440653010457256182112345142875981, 11, 0) == FracFold(170379781436588747121743928890589691921, 10, 0)
  {
    FracTraceStep(170260440653010457256182112345142875981, 170379781436588747121743928890589691921, 170379781436588747121743928890589691921, 11, 0, 0);
  }

  lemma FracStep4AtMinTickPlusOne()
    ensures FracFold(170379781436588747121743928890589691921, 10, 0) == FracFold(170618714011263711938154811145928197386, 9, 0)
  {
    FracTraceStep(170379781436588747121743928890589691921, 170618714011263711938154811145928197386, 170618714011263711938154811145928197386, 10, 0, 0);
  }

  lemma FracStep5AtMinTickPlusOne()
    ensures FracFold(170618714011263711938154811145928197386, 9, 0) == FracFold(171097584833838980960010635214854914848, 8, 0)
  {
    FracTraceStep(170618714011263711938154811145928197386, 171097584833838980960010635214854914848, 171097584833838980960010635214854914848, 9, 0, 0);
  }

  lemma FracStep6AtMinTickPlusOne()
    ensures FracFold(171097584833838980960010635214854914848, 8, 0) == FracFold(172059362351704610373572295964913256216, 7, 0)
  {
    FracTraceStep(171097584833838980960010635214854914848, 172059362351704610373572295964913256216, 172059362351704610373572295964913256216, 8, 0, 0);
  }

  lemma FracStep7AtMinTickPlusOne()
    ensures FracFold(172059362351704610373572295964913256216, 7, 0) == FracFold(173999166872807762118895978732725401263, 6, 0)
  {
    FracTraceStep(172059362351704610373572295964913256216, 173999166872807762118895978732725401263, 173999166872807762118895978732725401263, 7, 0, 0);
  }

  lemma FracStep8AtMinTickPlusOne()
    ensures FracFold(173999166872807762118895978732725401263, 6, 0) == FracFold(177944630786381535309050472208879597525, 5, 0)
  {
    FracTraceStep(173999166872807762118895978732725401263, 177944630786381535309050472208879597525, 177944630786381535309050472208879597525, 6, 0, 0);
  }

  lemma FracStep9AtMinTickPlusOne()
    ensures FracFold(177944630786381535309050472208879597525, 5, 0) == FracFold(186105979644008739670324393875212946708, 4, 0)
  {
    FracTraceStep(177944630786381535309050472208879597525, 186105979644008739670324393875212946708, 186105979644008739670324393875212946708, 5, 0, 0);
  }

  lemma FracStep10AtMinTickPlusOne()
    ensures FracFold(186105979644008739670324393875212946708, 4, 0) == FracFold(203568794778622344716465413479262120819, 3, 0)
  {
    FracTraceStep(186105979644008739670324393875212946708, 203568794778622344716465413479262120819, 203568794778622344716465413479262120819, 4, 0, 0);
  }

  lemma FracStep11AtMinTickPlusOne()
    ensures FracFold(203568794778622344716465413479262120819, 3, 0) == FracFold(243563923588489256153061950060909015396, 2, 0)
  {
    FracTraceStep(203568794778622344716465413479262120819, 243563923588489256153061950060909015396, 243563923588489256153061950060909015396, 3, 0, 0);
  }

  lemma FracStep12AtMinTickPlusOne()
    ensures FracFold(243563923588489256153061950060909015396, 2, 0) == FracFold(174335759477077712075043355747553846553, 1, 1)
  {
    FracTraceStep(243563923588489256153061950060909015396, 348671518954155424150086711495107693107, 174335759477077712075043355747553846553, 2, 0, 1);
  }

  lemma FracStep13AtMinTickPlusOne()
    ensures FracFold(174335759477077712075043355747553846553, 1, 1) == FracFold(178633746482144462912247293700632033348, 0, 2)
  {
    FracTraceStep(174335759477077712075043355747553846553, 178633746482144462912247293700632033348, 178633746482144462912247293700632033348, 1, 1, 2);
  }

  /** The 14 fraction bits of the price `4295343490`, one squaring at a time. */
  lemma FracAtMinTickPlusOne()
    ensures FracFold(170156086040153677310795636552310456320, 14, 0) == 2
  {
    FracStep0AtMinTickPlusOne();
    FracStep1AtMinTickPlusOne();
    FracStep2AtMinTickPlusOne();
    FracStep3AtMinTickPlusOne();
    FracStep4AtMinTickPlusOne();
    FracStep5AtMinTickPlusOne();
    FracStep6AtMinTickPlusOne();
    FracStep7AtMinTickPlusOne();
    FracStep8AtMinTickPlusOne();
    FracStep9AtMinTickPlusOne();
    FracStep10AtMinTickPlusOne();
    FracStep11AtMinTickPlusOne();
    FracStep12AtMinTickPlusOne();
    FracStep13AtMinTickPlusOne();
  }

  /** The logarithm of the price `4295343490`: top bit 64, fraction 2. */
  lemma Log2AtMinTickPlusOne()
    ensures Log2(PriceRatio(4295343490)) == -1180589368917597618176
  {
    Pow2Constants();
    assert Pow2(65) == 2 * Pow2(64);
    Pow2Split(63, 64, 127);
    MsbIs(18448359814636503040, 64);
    FracAtMinTickPlusOne();
  }

  /** `get_tick_at_sqrt_ratio(4295343490)`: candidates -887272 and -887271. */
  lemma TickAtMinTickPlusOne()
    ensures TickAtSqrtRatio(4295343490) == Ok(MIN_TICK + 1)
  {
    Log2AtMinTickPlusOne();
    TickAtFromLog(4295343490, -1180589368917597618176, -887272, -887271);
    SqrtRatioAtMinTickPlusOne();
  }

  lemma FracStep0AtMaxSqrtRatioMinusOne()
    ensures FracFold(340269576638287423012608907232989748562, 14, 0) == FracFold(340256786836388094070642339899681172761, 13, 1)
  {
    FracTraceStep(340269576638287423012608907232989748562, 680513573672776188141284679799362345522, 340256786836388094070642339899681172761, 14, 0, 1);
  }

  lemma FracStep1AtMaxSqrtRatioMinusOne()
    ensures FracFold(340256786836388094070642339899681172761, 13, 1) == FracFold(340231208674772290829194245745182255071, 12, 3)
  {
    FracTraceStep(340256786836388094070642339899681172761, 680462417349544581658388491490364510143, 340231208674772290829194245745182255071, 13, 1, 3);
  }

  lemma FracStep2AtMaxSqrtRatioMinusOne()
    ensures FracFold(340231208674772290829194245745182255071, 12, 3) == FracFold(340180058119766181763021084743383739585, 11, 7)
  {
    FracTraceStep(340231208674772290829194245745182255071, 680360116239532363526042169486767479171, 340180058119766181763021084743383739585, 12, 3, 7);
  }

  lemma FracStep3AtMaxSqrtRatioMinusOne()
    ensures FracFold(340180058119766181763021084743383739585, 11, 7) == FracFold(340077780078609154515753855557965673714, 10, 15)
  {
    FracTraceStep(340180058119766181763021084743383739585, 680155560157218309031507711115931347429, 340077780078609154515753855557965673714, 11, 7, 15);
  }

  lemma FracStep4AtMaxSqrtRatioMinusOne()
    ensures FracFold(340077780078609154515753855557965673714, 10, 15) == FracFold(339873316239350598283130977856576744218, 9, 31)
  {
    FracTraceStep(340077780078609154515753855557965673714, 679746632478701196566261955713153488436, 339873316239350598283130977856576744218, 10, 15, 31);
  }

  lemma FracStep5AtMaxSqrtRatioMinusOne()
    ensures FracFold(339873316239350598283130977856576744218, 9, 31) == FracFold(339464757274279288228793459542122362783, 8, 63)
  {
    FracTraceStep(339873316239350598283130977856576744218, 678929514548558576457586919084244725566, 339464757274279288228793459542122362783, 9, 31, 63);
  }

  lemma FracStep6AtMaxSqrtRatioMinusOne()
    ensures FracFold(339464757274279288228793459542122362783, 8, 63) == FracFold(338649112130043082968313027133501569339, 7, 127)
  {
    FracTraceStep(339464757274279288228793459542122362783, 677298224260086165936626054267003138678, 338649112130043082968313027133501569339, 8, 63, 127);
  }

  lemma FracStep7AtMaxSqrtRatioMinusOne()
    ensures FracFold(338649112130043082968313027133501569339, 7, 127) == FracFold(337023696479436163225441986795960415273, 6, 255)
  {
    FracTraceStep(338649112130043082968313027133501569339, 674047392958872326450883973591920830546, 337023696479436163225441986795960415273, 7, 127, 255);
  }

  lemma FracStep8AtMaxSqrtRatioMinusOne()
    ensures FracFold(337023696479436163225441986795960415273, 6, 255) == FracFold(333796232277453138488502024955218637788, 5, 511)
  {
    FracTraceStep(337023696479436163225441986795960415273, 667592464554906276977004049910437275577, 333796232277453138488502024955218637788, 6, 255, 511);
  }

  lemma FracStep9AtMaxSqrtRatioMinusOne()
    ensures FracFold(333796232277453138488502024955218637788, 5, 511) == FracFold(327433730083671547575035768994089188371, 4, 1023)
  {
    FracTraceStep(333796232277453138488502024955218637788, 654867460167343095150071537988178376742, 327433730083671547575035768994089188371, 5, 511, 1023);
  }

  lemma FracStep10AtMaxSqrtRatioMinusOne()
    ensures FracFold(327433730083671547575035768994089188371, 4, 1023) == FracFold(315070241713161150276535620272648237357, 3, 2047)
  {
    FracTraceStep(327433730083671547575035768994089188371, 630140483426322300553071240545296474714, 315070241713161150276535620272648237357, 4, 1023, 2047);
  }

  lemma FracStep11AtMaxSqrtRatioMinusOne()
    ensures FracFold(315070241713161150276535620272648237357, 3, 2047) == FracFold(291726127661073041696261579066066808703, 2, 4095)
  {
    FracTraceStep(315070241713161150276535620272648237357, 583452255322146083392523158132133617407, 291726127661073041696261579066066808703, 3, 2047, 4095);
  }

  lemma FracStep12AtMaxSqrtRatioMinusOne()
    ensures FracFold(291726127661073041696261579066066808703, 2, 4095) == FracFold(250098570578880048018818669822552946005, 1, 8191)
  {
    FracTraceStep(291726127661073041696261579066066808703, 500197141157760096037637339645105892010, 250098570578880048018818669822552946005, 2, 4095, 8191);
  }

  lemma FracStep13AtMaxSqrtRatioMinusOne()
    ensures FracFold(250098570578880048018818669822552946005, 1, 8191) == FracFold(183815857317495998482037726995198793792, 0, 16383)
  {
    FracTraceStep(250098570578880048018818669822552946005, 367631714634991996964075453990397587585, 183815857317495998482037726995198793792, 1, 8191, 16383);
  }

  /** The 14 fraction bits of the price `MAX_SQRT_RATIO - 1`, one squaring at a time. */
  lemma FracAtMaxSqrtRatioMinusOne()
    ensures FracFold(340269576638287423012608907232989748562, 14, 0) == 16383
  {
    FracStep0AtMaxSqrtRatioMinusOne();
    FracStep1AtMaxSqrtRatioMinusOne();
    FracStep2AtMaxSqrtRatioMinusOne();
    FracStep3AtMaxSqrtRatioMinusOne();
    FracStep4AtMaxSqrtRatioMinusOne();
    FracStep5AtMaxSqrtRatioMinusOne();
    FracStep6AtMaxSqrtRatioMinusOne();
    FracStep7AtMaxSqrtRatioMinusOne();
    FracStep8AtMaxSqrtRatioMinusOne();
    FracStep9AtMaxSqrtRatioMinusOne();
    FracStep10AtMaxSqrtRatioMinusOne();
    FracStep11AtMaxSqrtRatioMinusOne();
    FracStep12AtMaxSqrtRatioMinusOne();
    FracStep13AtMaxSqrtRatioMinusOne();
  }

  /** The logarithm of the price `MAX_SQRT_RATIO - 1`: top bit 191, fraction 16383. */
  lemma Log2AtMaxSqrtRatioMinusOne()
    ensures Log2(PriceRatio(MAX_SQRT_RATIO - 1)) == 1180590494817504460800
  {
    Pow2Constants();
    Pow2Split(128, 63, 191);
    assert Pow2(63) == 9223372036854775808;
    assert Pow2(192) == 2 * Pow2(191);
    assert Pow2(64) == 18446744073709551616;
    DivUnique(6276865796315986613307619852238232712866172378825868967936, 18446744073709551616, 340269576638287423012608907232989748562, 7176641196268191744);
    MsbIs(6276865796315986613307619852238232712866172378825868967936, 191);
    FracAtMaxSqrtRatioMinusOne();
  }

  /** `get_tick_at_sqrt_ratio(MAX_SQRT_RATIO - 1)`: candidates 887271 and 887272. */
  lemma TickAtMaxSqrtRatioMinusOne()
    ensures TickAtSqrtRatio(MAX_SQRT_RATIO - 1) == Ok(MAX_TICK - 1)
  {
    Log2AtMaxSqrtRatioMinusOne();
    TickAtFromLog(MAX_SQRT_RATIO - 1, 1180590494817504460800, 887271, 887272);
    SqrtRatioAtMaxTick();
  }

  lemma FracStep0AtOne()
    ensures FracFold(170141183460469231731687303715884105728, 14, 0) == FracFold(170141183460469231731687303715884105728, 13, 0)
  {
    FracTraceStep(170141183460469231731687303715884105728, 170141183460469231731687303715884105728, 170141183460469231731687303715884105728, 14, 0, 0);
  }

  lemma FracStep1AtOne()
    ensures FracFold(170141183460469231731687303715884105728, 13, 0) == FracFold(170141183460469231731687303715884105728, 12, 0)
  {
    FracTraceStep(170141183460469231731687303715884105728, 170141183460469231731687303715884105728, 170141183460469231731687303715884105728, 13, 0, 0);
  }

  lemma FracStep2AtOne()
    ensures FracFold(170141183460469231731687303715884105728, 12, 0) == FracFold(170141183460469231731687303715884105728, 11, 0)
  {
    FracTraceStep(170141183460469231731687303715884105728, 170141183460469231731687303715884105728, 170141183460469231731687303715884105728, 12, 0, 0);
  }

  lemma FracStep3AtOne()
    ensures FracFold(170141183460469231731687303715884105728, 11, 0) == FracFold(170141183460469231731687303715884105728, 10, 0)
  {
    FracTraceStep(170141183460469231731687303715884105728, 170141183460469231731687303715884105728, 170141183460469231731687303715884105728, 11, 0, 0);
  }

  lemma FracStep4AtOne()
    ensures FracFold(170141183460469231731687303715884105728, 10, 0) == FracFold(170141183460469231731687303715884105728, 9, 0)
  {
    FracTraceStep(170141183460469231731687303715884105728, 170141183460469231731687303715884105728, 170141183460469231731687303715884105728, 10, 0, 0);
  }

  lemma FracStep5AtOne()
    ensures FracFold(170141183460469231731687303715884105728, 9, 0) == FracFold(170141183460469231731687303715884105728, 8, 0)
  {
    FracTraceStep(170141183460469231731687303715884105728, 170141183460469231731687303715884105728, 170141183460469231731687303715884105728, 9, 0, 0);
  }

  lemma FracStep6AtOne()
    ensures FracFold(170141183460469231731687303715884105728, 8, 0) == FracFold(170141183460469231731687303715884105728, 7, 0)
  {
    FracTraceStep(170141183460469231731687303715884105728, 170141183460469231731687303715884105728, 170141183460469231731687303715884105728, 8, 0, 0);
  }

  lemma FracStep7AtOne()
    ensures FracFold(170141183460469231731687303715884105728, 7, 0) == FracFold(170141183460469231731687303715884105728, 6, 0)
  {
    FracTraceStep(170141183460469231731687303715884105728, 170141183460469231731687303715884105728, 170141183460469231731687303715884105728, 7, 0, 0);
  }

  lemma FracStep8AtOne()
    ensures FracFold(170141183460469231731687303715884105728, 6, 0) == FracFold(170141183460469231731687303715884105728, 5, 0)
  {
    FracTraceStep(170141183460469231731687303715884105728, 170141183460469231731687303715884105728, 170141183460469231731687303715884105728, 6, 0, 0);
  }

  lemma FracStep9AtOne()
    ensures FracFold(170141183460469231731687303715884105728, 5, 0) == FracFold(170141183460469231731687303715884105728, 4, 0)
  {
    FracTraceStep(170141183460469231731687303715884105728, 170141183460469231731687303715884105728, 170141183460469231731687303715884105728, 5, 0, 0);
  }

  lemma FracStep10AtOne()
    ensures FracFold(170141183460469231731687303715884105728, 4, 0) == FracFold(170141183460469231731687303715884105728, 3, 0)
  {
    FracTraceStep(170141183460469231731687303715884105728, 170141183460469231731687303715884105728, 170141183460469231731687303715884105728, 4, 0, 0);
  }

  lemma FracStep11AtOne()
    ensures FracFold(170141183460469231731687303715884105728, 3, 0) == FracFold(170141183460469231731687303715884105728, 2, 0)
  {
    FracTraceStep(170141183460469231731687303715884105728, 170141183460469231731687303715884105728, 170141183460469231731687303715884105728, 3, 0, 0);
  }

  lemma FracStep12AtOne()
    ensures FracFold(170141183460469231731687303715884105728, 2, 0) == FracFold(170141183460469231731687303715884105728, 1, 0)
  {
    FracTraceStep(170141183460469231731687303715884105728, 170141183460469231731687303715884105728, 170141183460469231731687303715884105728, 2, 0, 0);
  }

  lemma FracStep13AtOne()
    ensures FracFold(170141183460469231731687303715884105728, 1, 0) == FracFold(170141183460469231731687303715884105728, 0, 0)
  {
    FracTraceStep(170141183460469231731687303715884105728, 170141183460469231731687303715884105728, 170141183460469231731687303715884105728, 1, 0, 0);
  }

  /** The 14 fraction bits of the price `79228162514264337593543950336`, one squaring at a time. */
  lemma FracAtOne()
    ensures FracFold(170141183460469231731687303715884105728, 14, 0) == 0
  {
    FracStep0AtOne();
    FracStep1AtOne();
    FracStep2AtOne();
    FracStep3AtOne();
    FracStep4AtOne();
    FracStep5AtOne();
    FracStep6AtOne();
    FracStep7AtOne();
    FracStep8AtOne();
    FracStep9AtOne();
    FracStep10AtOne();
    FracStep11AtOne();
    FracStep12AtOne();
    FracStep13AtOne();
  }

  /** The logarithm of the price `79228162514264337593543950336`: top bit 128, fraction 0. */
  lemma Log2AtOne()
    ensures Log2(PriceRatio(79228162514264337593543950336)) == 0
  {
    Pow2Constants();
    Pow2Split(128, 0, 128);
    assert Pow2(0) == 1;
    assert Pow2(129) == 2 * Pow2(128);
    assert Pow2(1) == 2;
    DivUnique(340282366920938463463374607431768211456, 2, 170141183460469231731687303715884105728, 0);
    MsbIs(340282366920938463463374607431768211456, 128);
    FracAtOne();
  }

  /** `get_tick_at_sqrt_ratio(79228162514264337593543950336)`: candidates -1 and 0. */
  lemma TickAtOne()
    ensures TickAtSqrtRatio(79228162514264337593543950336) == Ok(0)
  {
    Log2AtOne();
    TickAtFromLog(79228162514264337593543950336, 0, -1, 0);
    SqrtRatioAtZero();
  }

  lemma FracStep0AtPriceMaxTickMinusOne()
    ensures FracFold(340252564435360096093853513892854821563, 14, 0) == FracFold(340222764559932100856772485357204312906, 13, 1)
  {
    FracTraceStep(340252564435360096093853513892854821563, 680445529119864201713544970714408625812, 340222764559932100856772485357204312906, 14, 0, 1);
  }

  lemma FracStep1AtPriceMaxTickMinusOne()
    ensures FracFold(340222764559932100856772485357204312906, 13, 1) == FracFold(340163172638612841867124616499522558575, 12, 3)
  {
    FracTraceStep(340222764559932100856772485357204312906, 680326345277225683734249232999045117151, 340163172638612841867124616499522558575, 13, 1, 3);
  }

  lemma FracStep2AtPriceMaxTickMinusOne()
    ensures FracFold(340163172638612841867124616499522558575, 12, 3) == FracFold(340044020107721676529142642647723166258, 11, 7)
  {
    FracTraceStep(340163172638612841867124616499522558575, 680088040215443353058285285295446332516, 340044020107721676529142642647723166258, 12, 3, 7);
  }

  lemma FracStep3AtPriceMaxTickMinusOne()
    ensures FracFold(340044020107721676529142642647723166258, 11, 7) == FracFold(339805840241748981725680515650504847217, 10, 15)
  {
    FracTraceStep(340044020107721676529142642647723166258, 679611680483497963451361031301009694435, 339805840241748981725680515650504847217, 11, 7, 15);
  }

  lemma FracStep4AtPriceMaxTickMinusOne()
    ensures FracFold(339805840241748981725680515650504847217, 10, 15) == FracFold(339329980883872778952852142010899684168, 9, 31)
  {
    FracTraceStep(339805840241748981725680515650504847217, 678659961767745557905704284021799368336, 339329980883872778952852142010899684168, 10, 15, 31);
  }

  lemma FracStep5AtPriceMaxTickMinusOne()
    ensures FracFold(339329980883872778952852142010899684168, 9, 31) == FracFold(338380260395339053554254484316678853118, 8, 63)
  {
    FracTraceStep(339329980883872778952852142010899684168, 676760520790678107108508968633357706237, 338380260395339053554254484316678853118, 9, 31, 63);
  }

  lemma FracStep6AtPriceMaxTickMinusOne()
    ensures FracFold(338380260395339053554254484316678853118, 8, 63) == FracFold(336488786243281257308628022970996657514, 7, 127)
  {
    FracTraceStep(338380260395339053554254484316678853118, 672977572486562514617256045941993315028, 336488786243281257308628022970996657514, 8, 63, 127);
  }

  lemma FracStep7AtPriceMaxTickMinusOne()
    ensures FracFold(336488786243281257308628022970996657514, 7, 127) == FracFold(332737497661121429028655985791762629042, 6, 255)
  {
    FracTraceStep(336488786243281257308628022970996657514, 665474995322242858057311971583525258085, 332737497661121429028655985791762629042, 7, 127, 255);
  }

  lemma FracStep8AtPriceMaxTickMinusOne()
    ensures FracFold(332737497661121429028655985791762629042, 6, 255) == FracFold(325359916094354202452826386880648258724, 5, 511)
  {
    FracTraceStep(332737497661121429028655985791762629042, 650719832188708404905652773761296517448, 325359916094354202452826386880648258724, 6, 255, 511);
  }

  lemma FracStep9AtPriceMaxTickMinusOne()
    ensures FracFold(325359916094354202452826386880648258724, 5, 511) == FracFold(311091861617151050794797981117804610226, 4, 1023)
  {
    FracTraceStep(325359916094354202452826386880648258724, 622183723234302101589595962235609220453, 311091861617151050794797981117804610226, 5, 511, 1023);
  }

  lemma FracStep10AtPriceMaxTickMinusOne()
    ensures FracFold(311091861617151050794797981117804610226, 4, 1023) == FracFold(284405410836084221727025055226064131431, 3, 2047)
  {
    FracTraceStep(311091861617151050794797981117804610226, 568810821672168443454050110452128262862, 284405410836084221727025055226064131431, 4, 1023, 2047);
  }

  lemma FracStep11AtPriceMaxTickMinusOne()
    ensures FracFold(284405410836084221727025055226064131431, 3, 2047) == FracFold(237703876473961068230700669044417019552, 2, 4095)
  {
    FracTraceStep(284405410836084221727025055226064131431, 475407752947922136461401338088834039104, 237703876473961068230700669044417019552, 3, 2047, 4095);
  }

  lemma FracStep12AtPriceMaxTickMinusOne()
    ensures FracFold(237703876473961068230700669044417019552, 2, 4095) == FracFold(332095567584177143876626442778289035243, 1, 8190)
  {
    FracTraceStep(237703876473961068230700669044417019552, 332095567584177143876626442778289035243, 332095567584177143876626442778289035243, 2, 4095, 8190);
  }

  lemma FracStep13AtPriceMaxTickMinusOne()
    ensures FracFold(332095567584177143876626442778289035243, 1, 8190) == FracFold(324105733150378215903144330622424287411, 0, 16381)
  {
    FracTraceStep(332095567584177143876626442778289035243, 648211466300756431806288661244848574822, 324105733150378215903144330622424287411, 1, 8190, 16381);
  }

  /** The 14 fraction bits of the price `1461373636630004318706518188784493106690254656249`, one squaring at a time. */
  lemma FracAtPriceMaxTickMinusOne()
    ensures FracFold(340252564435360096093853513892854821563, 14, 0) == 16381
  {
    FracStep0AtPriceMaxTickMinusOne();
    FracStep1AtPriceMaxTickMinusOne();
    FracStep2AtPriceMaxTickMinusOne();
    FracStep3AtPriceMaxTickMinusOne();
    FracStep4AtPriceMaxTickMinusOne();
    FracStep5AtPriceMaxTickMinusOne();
    FracStep6AtPriceMaxTickMinusOne();
    FracStep7AtPriceMaxTickMinusOne();
    FracStep8AtPriceMaxTickMinusOne();
    FracStep9AtPriceMaxTickMinusOne();
    FracStep10AtPriceMaxTickMinusOne();
    FracStep11AtPriceMaxTickMinusOne();
    FracStep12AtPriceMaxTickMinusOne();
    FracStep13AtPriceMaxTickMinusOne();
  }

  /** The logarithm of the price `1461373636630004318706518188784493106690254656249`: top bit 191, fraction 16381. */
  lemma Log2AtPriceMaxTickMinusOne()
    ensures Log2(PriceRatio(1461373636630004318706518188784493106690254656249)) == 1180588243017690775552
  {
    Pow2Constants();
    Pow2Split(128, 63, 191);
    assert Pow2(63) == 9223372036854775808;
    assert Pow2(192) == 2 * Pow2(191);
    assert Pow2(64) == 18446744073709551616;
    DivUnique(6276551976562456201183256642858551885172082550501177032704, 18446744073709551616, 340252564435360096093853513892854821563, 5386114908758736896);
    MsbIs(6276551976562456201183256642858551885172082550501177032704, 191);
    FracAtPriceMaxTickMinusOne();
  }

  /** `get_tick_at_sqrt_ratio` takes the price of tick `MAX_TICK - 1` back to `MAX_TICK - 1`. */
  lemma RoundTripMaxTickMinusOne()
    ensures TickAtSqrtRatio(SqrtRatioAtTick(MAX_TICK - 1).value) == Ok(MAX_TICK - 1)
  {
    SqrtRatioAtMaxTickMinusOne();
    Log2AtPriceMaxTickMinusOne();
    TickAtFromLog(1461373636630004318706518188784493106690254656249, 1180588243017690775552, 887270, 887271);
  }

  lemma FracStep0AtPrice50()
    ensures FracFold(170567047234210827201019400264223817728, 14, 0) == FracFold(170993976945958123507427551687076183945, 13, 0)
  {
    FracTraceStep(170567047234210827201019400264223817728, 170993976945958123507427551687076183945, 170993976945958123507427551687076183945, 14, 0, 0);
  }

  lemma FracStep1AtPrice50()
    ensures FracFold(170993976945958123507427551687076183945, 13, 0) == FracFold(171851044862329067212731102939740871203, 12, 0)
  {
    FracTraceStep(170993976945958123507427551687076183945, 171851044862329067212731102939740871203, 171851044862329067212731102939740871203, 13, 0, 0);
  }

  lemma FracStep2AtPrice50()
    ensures FracFold(171851044862329067212731102939740871203, 12, 0) == FracFold(173578089793503246271957373841093782255, 11, 0)
  {
    FracTraceStep(171851044862329067212731102939740871203, 173578089793503246271957373841093782255, 173578089793503246271957373841093782255, 12, 0, 0);
  }

  lemma FracStep3AtPrice50()
    ensures FracFold(173578089793503246271957373841093782255, 11, 0) == FracFold(177084422733910036043889365722556823212, 10, 0)
  {
    FracTraceStep(173578089793503246271957373841093782255, 177084422733910036043889365722556823212, 177084422733910036043889365722556823212, 11, 0, 0);
  }

  lemma FracStep4AtPrice50()
    ensures FracFold(177084422733910036043889365722556823212, 10, 0) == FracFold(184311006525284392961431689556877250187, 9, 0)
  {
    FracTraceStep(177084422733910036043889365722556823212, 184311006525284392961431689556877250187, 184311006525284392961431689556877250187, 10, 0, 0);
  }

  lemma FracStep5AtPrice50()
    ensures FracFold(184311006525284392961431689556877250187, 9, 0) == FracFold(199660931206912499731972665582192865185, 8, 0)
  {
    FracTraceStep(184311006525284392961431689556877250187, 199660931206912499731972665582192865185, 199660931206912499731972665582192865185, 9, 0, 0);
  }

  lemma FracStep6AtPrice50()
    ensures FracFold(199660931206912499731972665582192865185, 8, 0) == FracFold(234302398981923148228969248247080886149, 7, 0)
  {
    FracTraceStep(199660931206912499731972665582192865185, 234302398981923148228969248247080886149, 234302398981923148228969248247080886149, 8, 0, 0);
  }

  lemma FracStep7AtPrice50()
    ensures FracFold(234302398981923148228969248247080886149, 7, 0) == FracFold(322659176644549828638445061125633563654, 6, 0)
  {
    FracTraceStep(234302398981923148228969248247080886149, 322659176644549828638445061125633563654, 322659176644549828638445061125633563654, 7, 0, 0);
  }

  lemma FracStep8AtPrice50()
    ensures FracFold(322659176644549828638445061125633563654, 6, 0) == FracFold(305948689657279782351931098309144107123, 5, 1)
  {
    FracTraceStep(322659176644549828638445061125633563654, 611897379314559564703862196618288214246, 305948689657279782351931098309144107123, 6, 0, 1);
  }

  lemma FracStep9AtPrice50()
    ensures FracFold(305948689657279782351931098309144107123, 5, 1) == FracFold(275079198343400147313147079666965842197, 4, 3)
  {
    FracTraceStep(305948689657279782351931098309144107123, 550158396686800294626294159333931684394, 275079198343400147313147079666965842197, 5, 1, 3);
  }

  lemma FracStep10AtPrice50()
    ensures FracFold(275079198343400147313147079666965842197, 4, 3) == FracFold(222369927792434177233452279542626350638, 3, 7)
  {
    FracTraceStep(275079198343400147313147079666965842197, 444739855584868354466904559085252701276, 222369927792434177233452279542626350638, 4, 3, 7);
  }

  lemma FracStep11AtPrice50()
    ensures FracFold(222369927792434177233452279542626350638, 3, 7) == FracFold(290631484868572551073049196846529981732, 2, 14)
  {
    FracTraceStep(222369927792434177233452279542626350638, 290631484868572551073049196846529981732, 290631484868572551073049196846529981732, 3, 7, 14);
  }

  lemma FracStep12AtPrice50()
    ensures FracFold(290631484868572551073049196846529981732, 2, 14) == FracFold(248225204147990371071822464188889264827, 1, 29)
  {
    FracTraceStep(290631484868572551073049196846529981732, 496450408295980742143644928377778529654, 248225204147990371071822464188889264827, 2, 14, 29);
  }

  lemma FracStep13AtPrice50()
    ensures FracFold(248225204147990371071822464188889264827, 1, 29) == FracFold(181072420918675929930909169458803609611, 0, 59)
  {
    FracTraceStep(248225204147990371071822464188889264827, 362144841837351859861818338917607219223, 181072420918675929930909169458803609611, 1, 29, 59);
  }

  /** The 14 fraction bits of the price `79426470787362580746886972461`, one squaring at a time. */
  lemma FracAtPrice50()
    ensures FracFold(170567047234210827201019400264223817728, 14, 0) == 59
  {
    FracStep0AtPrice50();
    FracStep1AtPrice50();
    FracStep2AtPrice50();
    FracStep3AtPrice50();
    FracStep4AtPrice50();
    FracStep5AtPrice50();
    FracStep6AtPrice50();
    FracStep7AtPrice50();
    FracStep8AtPrice50();
    FracStep9AtPrice50();
    FracStep10AtPrice50();
    FracStep11AtPrice50();
    FracStep12AtPrice50();
    FracStep13AtPrice50();
  }

  /** The logarithm of the price `79426470787362580746886972461`: top bit 128, fraction 59. */
  lemma Log2AtPrice50()
    ensures Log2(PriceRatio(79426470787362580746886972461)) == 66428094503714816
  {
    Pow2Constants();
    Pow2Split(128, 0, 128);
    assert Pow2(0) == 1;
    assert Pow2(129) == 2 * Pow2(128);
    assert Pow2(1) == 2;
    DivUnique(341134094468421654402038800528447635456, 2, 170567047234210827201019400264223817728, 0);
    MsbIs(341134094468421654402038800528447635456, 128);
    FracAtPrice50();
  }

  /** `get_tick_at_sqrt_ratio` takes the price of tick `50` back to `50`. */
  lemma RoundTrip50()
    ensures TickAtSqrtRatio(SqrtRatioAtTick(50).value) == Ok(50)
  {
    SqrtRatioAt50();
    Log2AtPrice50();
    TickAtFromLog(79426470787362580746886972461, 66428094503714816, 49, 50);
  }

  lemma FracStep0AtPrice100()
    ensures FracFold(170993976945958123507427551687626194944, 14, 0) == FracFold(171851044862329067212731102940846406808, 13, 0)
  {
    FracTraceStep(170993976945958123507427551687626194944, 171851044862329067212731102940846406808, 171851044862329067212731102940846406808, 14, 0, 0);
  }

  lemma FracStep1AtPrice100()
    ensures FracFold(171851044862329067212731102940846406808, 13, 0) == FracFold(173578089793503246271957373843327073983, 12, 0)
  {
    FracTraceStep(171851044862329067212731102940846406808, 173578089793503246271957373843327073983, 173578089793503246271957373843327073983, 13, 0, 0);
  }

  lemma FracStep2AtPrice100()
    ensures FracFold(173578089793503246271957373843327073983, 12, 0) == FracFold(177084422733910036043889365727113633083, 11, 0)
  {
    FracTraceStep(173578089793503246271957373843327073983, 177084422733910036043889365727113633083, 177084422733910036043889365727113633083, 12, 0, 0);
  }

  lemma FracStep3AtPrice100()
    ensures FracFold(177084422733910036043889365727113633083, 11, 0) == FracFold(184311006525284392961431689566362784837, 10, 0)
  {
    FracTraceStep(177084422733910036043889365727113633083, 184311006525284392961431689566362784837, 184311006525284392961431689566362784837, 11, 0, 0);
  }

  lemma FracStep4AtPrice100()
    ensures FracFold(184311006525284392961431689566362784837, 10, 0) == FracFold(199660931206912499731972665602743897018, 9, 0)
  {
    FracTraceStep(184311006525284392961431689566362784837, 199660931206912499731972665602743897018, 199660931206912499731972665602743897018, 10, 0, 0);
  }

  lemma FracStep5AtPrice100()
    ensures FracFold(199660931206912499731972665602743897018, 9, 0) == FracFold(234302398981923148228969248295314218839, 8, 0)
  {
    FracTraceStep(199660931206912499731972665602743897018, 234302398981923148228969248295314218839, 234302398981923148228969248295314218839, 9, 0, 0);
  }

  lemma FracStep6AtPrice100()
    ensures FracFold(234302398981923148228969248295314218839, 8, 0) == FracFold(322659176644549828638445061258478361490, 7, 0)
  {
    FracTraceStep(234302398981923148228969248295314218839, 322659176644549828638445061258478361490, 322659176644549828638445061258478361490, 8, 0, 0);
  }

  lemma FracStep7AtPrice100()
    ensures FracFold(322659176644549828638445061258478361490, 7, 0) == FracFold(305948689657279782351931098561073664797, 6, 1)
  {
    FracTraceStep(322659176644549828638445061258478361490, 611897379314559564703862197122147329594, 305948689657279782351931098561073664797, 7, 0, 1);
  }

  lemma FracStep8AtPrice100()
    ensures FracFold(305948689657279782351931098561073664797, 6, 1) == FracFold(275079198343400147313147080119986777449, 5, 3)
  {
    FracTraceStep(305948689657279782351931098561073664797, 550158396686800294626294160239973554899, 275079198343400147313147080119986777449, 6, 1, 3);
  }

  lemma FracStep9AtPrice100()
    ensures FracFold(275079198343400147313147080119986777449, 5, 3) == FracFold(222369927792434177233452280275057107068, 4, 7)
  {
    FracTraceStep(275079198343400147313147080119986777449, 444739855584868354466904560550114214137, 222369927792434177233452280275057107068, 5, 3, 7);
  }

  lemma FracStep10AtPrice100()
    ensures FracFold(222369927792434177233452280275057107068, 4, 7) == FracFold(290631484868572551073049198761064383195, 3, 14)
  {
    FracTraceStep(222369927792434177233452280275057107068, 290631484868572551073049198761064383195, 290631484868572551073049198761064383195, 4, 7, 14);
  }

  lemma FracStep11AtPrice100()
    ensures FracFold(290631484868572551073049198761064383195, 3, 14) == FracFold(248225204147990371071822467459255466661, 2, 29)
  {
    FracTraceStep(290631484868572551073049198761064383195, 496450408295980742143644934918510933322, 248225204147990371071822467459255466661, 3, 14, 29);
  }

  lemma FracStep12AtPrice100()
    ensures FracFold(248225204147990371071822467459255466661, 2, 29) == FracFold(181072420918675929930909174230060642025, 1, 59)
  {
    FracTraceStep(248225204147990371071822467459255466661, 362144841837351859861818348460121284050, 181072420918675929930909174230060642025, 2, 29, 59);
  }

  lemma FracStep13AtPrice100()
    ensures FracFold(181072420918675929930909174230060642025, 1, 59) == FracFold(192705968951767421455598123528448880234, 0, 118)
  {
    FracTraceStep(181072420918675929930909174230060642025, 192705968951767421455598123528448880234, 192705968951767421455598123528448880234, 1, 59, 118);
  }

  /** The 14 fraction bits of the price `79625275426524748796330556128`, one squaring at a time. */
  lemma FracAtPrice100()
    ensures FracFold(170993976945958123507427551687626194944, 14, 0) == 118
  {
    FracStep0AtPrice100();
    FracStep1AtPrice100();
    FracStep2AtPrice100();
    FracStep3AtPrice100();
    FracStep4AtPrice100();
    FracStep5AtPrice100();
    FracStep6AtPrice100();
    FracStep7AtPrice100();
    FracStep8AtPrice100();
    FracStep9AtPrice100();
    FracStep10AtPrice100();
    FracStep11AtPrice100();
    FracStep12AtPrice100();
    FracStep13AtPrice100();
  }

  /** The logarithm of the price `79625275426524748796330556128`: top bit 128, fraction 118. */
  lemma Log2AtPrice100()
    ensures Log2(PriceRatio(79625275426524748796330556128)) == 132856189007429632
  {
    Pow2Constants();
    Pow2Split(128, 0, 128);
    assert Pow2(0) == 1;
    assert Pow2(129) == 2 * Pow2(128);
    assert Pow2(1) == 2;
    DivUnique(341987953891916247014855103375252389888, 2, 170993976945958123507427551687626194944, 0);
    MsbIs(341987953891916247014855103375252389888, 128);
    FracAtPrice100();
  }

  /** `get_tick_at_sqrt_ratio` takes the price of tick `100` back to `100`. */
  lemma RoundTrip100()
    ensures TickAtSqrtRatio(SqrtRatioAtTick(100).value) == Ok(100)
  {
    SqrtRatioAt100();
    Log2AtPrice100();
    TickAtFromLog(79625275426524748796330556128, 132856189007429632, 99, 100);
  }

  lemma FracStep0AtPrice250()
    ensures FracFold(172281188423094362957975487886456258560, 14, 0) == FracFold(174448109980202476741839365859911566336, 13, 0)
  {
    FracTraceStep(172281188423094362957975487886456258560, 174448109980202476741839365859911566336, 174448109980202476741839365859911566336, 14, 0, 0);
  }

  lemma FracStep1AtPrice250()
    ensures FracFold(174448109980202476741839365859911566336, 13, 0) == FracFold(178864061344297941425735534135813946199, 12, 0)
  {
    FracTraceStep(174448109980202476741839365859911566336, 178864061344297941425735534135813946199, 178864061344297941425735534135813946199, 13, 0, 0);
  }

  lemma FracStep2AtPrice250()
    ensures FracFold(178864061344297941425735534135813946199, 12, 0) == FracFold(188034147817068120001184916239385307474, 11, 0)
  {
    FracTraceStep(178864061344297941425735534135813946199, 188034147817068120001184916239385307474, 188034147817068120001184916239385307474, 12, 0, 0);
  }

  lemma FracStep3AtPrice250()
    ensures FracFold(188034147817068120001184916239385307474, 11, 0) == FracFold(207808832795064379292762071992605810071, 10, 0)
  {
    FracTraceStep(188034147817068120001184916239385307474, 207808832795064379292762071992605810071, 207808832795064379292762071992605810071, 11, 0, 0);
  }

  lemma FracStep4AtPrice250()
    ensures FracFold(207808832795064379292762071992605810071, 10, 0) == FracFold(253815743545010406162611429836862937758, 9, 0)
  {
    FracTraceStep(207808832795064379292762071992605810071, 253815743545010406162611429836862937758, 253815743545010406162611429836862937758, 10, 0, 0);
  }

  lemma FracStep5AtPrice250()
    ensures FracFold(253815743545010406162611429836862937758, 9, 0) == FracFold(189320511239638997160648225596762269086, 8, 1)
  {
    FracTraceStep(253815743545010406162611429836862937758, 378641022479277994321296451193524538173, 189320511239638997160648225596762269086, 9, 0, 1);
  }

  lemma FracStep6AtPrice250()
    ensures FracFold(189320511239638997160648225596762269086, 8, 1) == FracFold(210661847102796839979575982644526068254, 7, 2)
  {
    FracTraceStep(189320511239638997160648225596762269086, 210661847102796839979575982644526068254, 210661847102796839979575982644526068254, 8, 1, 2);
  }

  lemma FracStep7AtPrice250()
    ensures FracFold(210661847102796839979575982644526068254, 7, 2) == FracFold(260832873747308083413866261109503672886, 6, 4)
  {
    FracTraceStep(210661847102796839979575982644526068254, 260832873747308083413866261109503672886, 260832873747308083413866261109503672886, 7, 2, 4);
  }

  lemma FracStep8AtPrice250()
    ensures FracFold(260832873747308083413866261109503672886, 6, 4) == FracFold(199933333727769076420587711839557466835, 5, 9)
  {
    FracTraceStep(260832873747308083413866261109503672886, 399866667455538152841175423679114933671, 199933333727769076420587711839557466835, 6, 4, 9);
  }

  lemma FracStep9AtPrice250()
    ensures FracFold(199933333727769076420587711839557466835, 5, 9) == FracFold(234942164633449419977898004996750996648, 4, 18)
  {
    FracTraceStep(199933333727769076420587711839557466835, 234942164633449419977898004996750996648, 234942164633449419977898004996750996648, 5, 9, 18);
  }

  lemma FracStep10AtPrice250()
    ensures FracFold(234942164633449419977898004996750996648, 4, 18) == FracFold(324423632185887356627369246316697384025, 3, 36)
  {
    FracTraceStep(234942164633449419977898004996750996648, 324423632185887356627369246316697384025, 324423632185887356627369246316697384025, 4, 18, 36);
  }

  lemma FracStep11AtPrice250()
    ensures FracFold(324423632185887356627369246316697384025, 3, 36) == FracFold(309303987958735385602094423272810420784, 2, 73)
  {
    FracTraceStep(324423632185887356627369246316697384025, 618607975917470771204188846545620841568, 309303987958735385602094423272810420784, 3, 36, 73);
  }

  lemma FracStep12AtPrice250()
    ensures FracFold(309303987958735385602094423272810420784, 2, 73) == FracFold(281145796159944259009494926218140051873, 1, 147)
  {
    FracTraceStep(309303987958735385602094423272810420784, 562291592319888518018989852436280103747, 281145796159944259009494926218140051873, 2, 73, 147);
  }

  lemma FracStep13AtPrice250()
    ensures FracFold(281145796159944259009494926218140051873, 1, 147) == FracFold(232286378555647716122854964628417375359, 0, 295)
  {
    FracTraceStep(281145796159944259009494926218140051873, 464572757111295432245709929256834750719, 232286378555647716122854964628417375359, 1, 147, 295);
  }

  /** The 14 fraction bits of the price `80224679980005306637834519095`, one squaring at a time. */
  lemma FracAtPrice250()
    ensures FracFold(172281188423094362957975487886456258560, 14, 0) == 295
  {
    FracStep0AtPrice250();
    FracStep1AtPrice250();
    FracStep2AtPrice250();
    FracStep3AtPrice250();
    FracStep4AtPrice250();
    FracStep5AtPrice250();
    FracStep6AtPrice250();
    FracStep7AtPrice250();
    FracStep8AtPrice250();
    FracStep9AtPrice250();
    FracStep10AtPrice250();
    FracStep11AtPrice250();
    FracStep12AtPrice250();
    FracStep13AtPrice250();
  }

  /** The logarithm of the price `80224679980005306637834519095`: top bit 128, fraction 295. */
  lemma Log2AtPrice250()
    ensures Log2(PriceRatio(80224679980005306637834519095)) == 332140472518574080
  {
    Pow2Constants();
    Pow2Split(128, 0, 128);
    assert Pow2(0) == 1;
    assert Pow2(129) == 2 * Pow2(128);
    assert Pow2(1) == 2;
    DivUnique(344562376846188725915950975772912517120, 2, 172281188423094362957975487886456258560, 0);
    MsbIs(344562376846188725915950975772912517120, 128);
    FracAtPrice250();
  }

  /** `get_tick_at_sqrt_ratio` takes the price of tick `250` back to `250`. */
  lemma RoundTrip250()
    ensures TickAtSqrtRatio(SqrtRatioAtTick(250).value) == Ok(250)
  {
    SqrtRatioAt250();
    Log2AtPrice250();
    TickAtFromLog(80224679980005306637834519095, 332140472518574080, 249, 250);
  }

  lemma FracStep0AtPrice500()
    ensures FracFold(174448109980202476741839365860774379520, 14, 0) == FracFold(178864061344297941425735534137583254795, 13, 0)
  {
    FracTraceStep(174448109980202476741839365860774379520, 178864061344297941425735534137583254795, 178864061344297941425735534137583254795, 14, 0, 0);
  }

  lemma FracStep1AtPrice500()
    ensures FracFold(178864061344297941425735534137583254795, 13, 0) == FracFold(188034147817068120001184916243105344150, 12, 0)
  {
    FracTraceStep(178864061344297941425735534137583254795, 188034147817068120001184916243105344150, 188034147817068120001184916243105344150, 13, 0, 0);
  }

  lemma FracStep2AtPrice500()
    ensures FracFold(188034147817068120001184916243105344150, 12, 0) == FracFold(207808832795064379292762072000828321658, 11, 0)
  {
    FracTraceStep(188034147817068120001184916243105344150, 207808832795064379292762072000828321658, 207808832795064379292762072000828321658, 12, 0, 0);
  }

  lemma FracStep3AtPrice500()
    ensures FracFold(207808832795064379292762072000828321658, 11, 0) == FracFold(253815743545010406162611429856948733575, 10, 0)
  {
    FracTraceStep(207808832795064379292762072000828321658, 253815743545010406162611429856948733575, 253815743545010406162611429856948733575, 11, 0, 0);
  }

  lemma FracStep4AtPrice500()
    ensures FracFold(253815743545010406162611429856948733575, 10, 0) == FracFold(189320511239638997160648225626726156114, 9, 1)
  {
    FracTraceStep(253815743545010406162611429856948733575, 378641022479277994321296451253452312228, 189320511239638997160648225626726156114, 10, 0, 1);
  }

  lemma FracStep5AtPrice500()
    ensures FracFold(189320511239638997160648225626726156114, 9, 1) == FracFold(210661847102796839979575982711209258008, 8, 2)
  {
    FracTraceStep(189320511239638997160648225626726156114, 210661847102796839979575982711209258008, 210661847102796839979575982711209258008, 9, 1, 2);
  }

  lemma FracStep6AtPrice500()
    ensures FracFold(210661847102796839979575982711209258008, 8, 2) == FracFold(260832873747308083413866261274632463442, 7, 4)
  {
    FracTraceStep(210661847102796839979575982711209258008, 260832873747308083413866261274632463442, 260832873747308083413866261274632463442, 8, 2, 4);
  }

  lemma FracStep7AtPrice500()
    ensures FracFold(260832873747308083413866261274632463442, 7, 4) == FracFold(199933333727769076420587712092706152551, 6, 9)
  {
    FracTraceStep(260832873747308083413866261274632463442, 399866667455538152841175424185412305103, 199933333727769076420587712092706152551, 7, 4, 9);
  }

  lemma FracStep8AtPrice500()
    ensures FracFold(199933333727769076420587712092706152551, 6, 9) == FracFold(234942164633449419977898005591702314543, 5, 18)
  {
    FracTraceStep(199933333727769076420587712092706152551, 234942164633449419977898005591702314543, 234942164633449419977898005591702314543, 6, 9, 18);
  }

  lemma FracStep9AtPrice500()
    ensures FracFold(234942164633449419977898005591702314543, 5, 18) == FracFold(324423632185887356627369247959793401518, 4, 36)
  {
    FracTraceStep(234942164633449419977898005591702314543, 324423632185887356627369247959793401518, 324423632185887356627369247959793401518, 5, 18, 36);
  }

  lemma FracStep10AtPrice500()
    ensures FracFold(324423632185887356627369247959793401518, 4, 36) == FracFold(309303987958735385602094426405850682897, 3, 73)
  {
    FracTraceStep(324423632185887356627369247959793401518, 618607975917470771204188852811701365795, 309303987958735385602094426405850682897, 4, 36, 73);
  }

  lemma FracStep11AtPrice500()
    ensures FracFold(309303987958735385602094426405850682897, 3, 73) == FracFold(281145796159944259009494931913773688582, 2, 147)
  {
    FracTraceStep(309303987958735385602094426405850682897, 562291592319888518018989863827547377164, 281145796159944259009494931913773688582, 3, 73, 147);
  }

  lemma FracStep12AtPrice500()
    ensures FracFold(281145796159944259009494931913773688582, 2, 147) == FracFold(232286378555647716122854974040033192643, 1, 295)
  {
    FracTraceStep(281145796159944259009494931913773688582, 464572757111295432245709948080066385286, 232286378555647716122854974040033192643, 2, 147, 295);
  }

  lemma FracStep13AtPrice500()
    ensures FracFold(232286378555647716122854974040033192643, 1, 295) == FracFold(317130518109003797867796814420699761251, 0, 590)
  {
    FracTraceStep(232286378555647716122854974040033192643, 317130518109003797867796814420699761251, 317130518109003797867796814420699761251, 1, 295, 590);
  }

  /** The 14 fraction bits of the price `81233731461783161732293370115`, one squaring at a time. */
  lemma FracAtPrice500()
    ensures FracFold(174448109980202476741839365860774379520, 14, 0) == 590
  {
    FracStep0AtPrice500();
    FracStep1AtPrice500();
    FracStep2AtPrice500();
    FracStep3AtPrice500();
    FracStep4AtPrice500();
    FracStep5AtPrice500();
    FracStep6AtPrice500();
    FracStep7AtPrice500();
    FracStep8AtPrice500();
    FracStep9AtPrice500();
    FracStep10AtPrice500();
    FracStep11AtPrice500();
    FracStep12AtPrice500();
    FracStep13AtPrice500();
  }

  /** The logarithm of the price `81233731461783161732293370115`: top bit 128, fraction 590. */
  lemma Log2AtPrice500()
    ensures Log2(PriceRatio(81233731461783161732293370115)) == 664280945037148160
  {
    Pow2Constants();
    Pow2Split(128, 0, 128);
    assert Pow2(0) == 1;
    assert Pow2(129) == 2 * Pow2(128);
    assert Pow2(1) == 2;
    DivUnique(348896219960404953483678731721548759040, 2, 174448109980202476741839365860774379520, 0);
    MsbIs(348896219960404953483678731721548759040, 128);
    FracAtPrice500();
  }

  /** `get_tick_at_sqrt_ratio` takes the price of tick `500` back to `500`. */
  lemma RoundTrip500()
    ensures TickAtSqrtRatio(SqrtRatioAtTick(500).value) == Ok(500)
  {
    SqrtRatioAt500();
    Log2AtPrice500();
    TickAtFromLog(81233731461783161732293370115, 664280945037148160, 499, 500);
  }

  lemma FracStep0AtPrice1000()
    ensures FracFold(178864061344297941425735534134647848960, 14, 0) == FracFold(188034147817068120001184916236933544957, 13, 0)
  {
    FracTraceStep(178864061344297941425735534134647848960, 188034147817068120001184916236933544957, 188034147817068120001184916236933544957, 14, 0, 0);
  }

  lemma FracStep1AtPrice1000()
    ensures FracFold(188034147817068120001184916236933544957, 13, 0) == FracFold(207808832795064379292762071987186603901, 12, 0)
  {
    FracTraceStep(188034147817068120001184916236933544957, 207808832795064379292762071987186603901, 207808832795064379292762071987186603901, 13, 0, 0);
  }

  lemma FracStep2AtPrice1000()
    ensures FracFold(207808832795064379292762071987186603901, 12, 0) == FracFold(253815743545010406162611429823625003403, 11, 0)
  {
    FracTraceStep(207808832795064379292762071987186603901, 253815743545010406162611429823625003403, 253815743545010406162611429823625003403, 12, 0, 0);
  }

  lemma FracStep3AtPrice1000()
    ensures FracFold(253815743545010406162611429823625003403, 11, 0) == FracFold(189320511239638997160648225577013986613, 10, 1)
  {
    FracTraceStep(253815743545010406162611429823625003403, 378641022479277994321296451154027973226, 189320511239638997160648225577013986613, 11, 0, 1);
  }

  lemma FracStep4AtPrice1000()
    ensures FracFold(189320511239638997160648225577013986613, 10, 1) == FracFold(210661847102796839979575982600577215215, 9, 2)
  {
    FracTraceStep(189320511239638997160648225577013986613, 210661847102796839979575982600577215215, 210661847102796839979575982600577215215, 10, 1, 2);
  }

  lemma FracStep5AtPrice1000()
    ensures FracFold(210661847102796839979575982600577215215, 9, 2) == FracFold(260832873747308083413866261000672332103, 8, 4)
  {
    FracTraceStep(210661847102796839979575982600577215215, 260832873747308083413866261000672332103, 260832873747308083413866261000672332103, 9, 2, 4);
  }

  lemma FracStep6AtPrice1000()
    ensures FracFold(260832873747308083413866261000672332103, 8, 4) == FracFold(199933333727769076420587711672714902367, 7, 9)
  {
    FracTraceStep(260832873747308083413866261000672332103, 399866667455538152841175423345429804735, 199933333727769076420587711672714902367, 8, 4, 9);
  }

  lemma FracStep7AtPrice1000()
    ensures FracFold(199933333727769076420587711672714902367, 7, 9) == FracFold(234942164633449419977898004604636760185, 6, 18)
  {
    FracTraceStep(199933333727769076420587711672714902367, 234942164633449419977898004604636760185, 234942164633449419977898004604636760185, 7, 9, 18);
  }

  lemma FracStep8AtPrice1000()
    ensures FracFold(234942164633449419977898004604636760185, 6, 18) == FracFold(324423632185887356627369245233782999341, 5, 36)
  {
    FracTraceStep(234942164633449419977898004604636760185, 324423632185887356627369245233782999341, 324423632185887356627369245233782999341, 6, 18, 36);
  }

  lemma FracStep9AtPrice1000()
    ensures FracFold(324423632185887356627369245233782999341, 5, 36) == FracFold(309303987958735385602094421207919305770, 4, 73)
  {
    FracTraceStep(324423632185887356627369245233782999341, 618607975917470771204188842415838611540, 309303987958735385602094421207919305770, 5, 36, 73);
  }

  lemma FracStep10AtPrice1000()
    ensures FracFold(309303987958735385602094421207919305770, 4, 73) == FracFold(281145796159944259009494922464321936915, 3, 147)
  {
    FracTraceStep(309303987958735385602094421207919305770, 562291592319888518018989844928643873830, 281145796159944259009494922464321936915, 4, 73, 147);
  }

  lemma FracStep11AtPrice1000()
    ensures FracFold(281145796159944259009494922464321936915, 3, 147) == FracFold(232286378555647716122854958425508937176, 2, 295)
  {
    FracTraceStep(281145796159944259009494922464321936915, 464572757111295432245709916851017874352, 232286378555647716122854958425508937176, 3, 147, 295);
  }

  lemma FracStep12AtPrice1000()
    ensures FracFold(232286378555647716122854958425508937176, 2, 295) == FracFold(317130518109003797867796771785034269781, 1, 590)
  {
    FracTraceStep(232286378555647716122854958425508937176, 317130518109003797867796771785034269781, 317130518109003797867796771785034269781, 2, 295, 590);
  }

  lemma FracStep13AtPrice1000()
    ensures FracFold(317130518109003797867796771785034269781, 1, 590) == FracFold(295553855540954691089935000946228741021, 0, 1181)
  {
    FracTraceStep(317130518109003797867796771785034269781, 591107711081909382179870001892457482042, 295553855540954691089935000946228741021, 1, 590, 1181);
  }

  /** The 14 fraction bits of the price `83290069058676223003182343270`, one squaring at a time. */
  lemma FracAtPrice1000()
    ensures FracFold(178864061344297941425735534134647848960, 14, 0) == 1181
  {
    FracStep0AtPrice1000();
    FracStep1AtPrice1000();
    FracStep2AtPrice1000();
    FracStep3AtPrice1000();
    FracStep4AtPrice1000();
    FracStep5AtPrice1000();
    FracStep6AtPrice1000();
    FracStep7AtPrice1000();
    FracStep8AtPrice1000();
    FracStep9AtPrice1000();
    FracStep10AtPrice1000();
    FracStep11AtPrice1000();
    FracStep12AtPrice1000();
    FracStep13AtPrice1000();
  }

  /** The logarithm of the price `83290069058676223003182343270`: top bit 128, fraction 1181. */
  lemma Log2AtPrice1000()
    ensures Log2(PriceRatio(83290069058676223003182343270)) == 1329687789981138944
  {
    Pow2Constants();
    Pow2Split(128, 0, 128);
    assert Pow2(0) == 1;
    assert Pow2(129) == 2 * Pow2(128);
    assert Pow2(1) == 2;
    DivUnique(357728122688595882851471068269295697920, 2, 178864061344297941425735534134647848960, 0);
    MsbIs(357728122688595882851471068269295697920, 128);
    FracAtPrice1000();
  }

  /** `get_tick_at_sqrt_ratio` takes the price of tick `1000` back to `1000`. */
  lemma RoundTrip1000()
    ensures TickAtSqrtRatio(SqrtRatioAtTick(1000).value) == Ok(1000)
  {
    SqrtRatioAt1000();
    Log2AtPrice1000();
    TickAtFromLog(83290069058676223003182343270, 1329687789981138944, 999, 1000);
  }

  lemma FracStep0AtPrice2500()
    ensures FracFold(192794013955162386359575628956649390080, 14, 0) == FracFold(218462873367630913420199855507109109618, 13, 0)
  {
    FracTraceStep(192794013955162386359575628956649390080, 218462873367630913420199855507109109618, 218462873367630913420199855507109109618, 14, 0, 0);
  }

  lemma FracStep1AtPrice2500()
    ensures FracFold(218462873367630913420199855507109109618, 13, 0) == FracFold(280508375863802850751461186278841981945, 12, 0)
  {
    FracTraceStep(218462873367630913420199855507109109618, 280508375863802850751461186278841981945, 280508375863802850751461186278841981945, 13, 0, 0);
  }

  lemma FracStep2AtPrice2500()
    ensures FracFold(280508375863802850751461186278841981945, 12, 0) == FracFold(231234282404148879634104426605692532279, 11, 1)
  {
    FracTraceStep(280508375863802850751461186278841981945, 462468564808297759268208853211385064558, 231234282404148879634104426605692532279, 12, 0, 1);
  }

  lemma FracStep3AtPrice2500()
    ensures FracFold(231234282404148879634104426605692532279, 11, 1) == FracFold(314264261429595520966358017081450136180, 10, 2)
  {
    FracTraceStep(231234282404148879634104426605692532279, 314264261429595520966358017081450136180, 314264261429595520966358017081450136180, 11, 1, 2);
  }

  lemma FracStep4AtPrice2500()
    ensures FracFold(314264261429595520966358017081450136180, 10, 2) == FracFold(290235509131848798808934652826484794984, 9, 5)
  {
    FracTraceStep(314264261429595520966358017081450136180, 580471018263697597617869305652969589969, 290235509131848798808934652826484794984, 10, 2, 5);
  }

  lemma FracStep5AtPrice2500()
    ensures FracFold(290235509131848798808934652826484794984, 9, 5) == FracFold(247549267754432638471876885010163195114, 8, 11)
  {
    FracTraceStep(290235509131848798808934652826484794984, 495098535508865276943753770020326390229, 247549267754432638471876885010163195114, 9, 5, 11);
  }

  lemma FracStep6AtPrice2500()
    ensures FracFold(247549267754432638471876885010163195114, 8, 11) == FracFold(180087615236301052443735362215024992686, 7, 23)
  {
    FracTraceStep(247549267754432638471876885010163195114, 360175230472602104887470724430049985372, 180087615236301052443735362215024992686, 8, 11, 23);
  }

  lemma FracStep7AtPrice2500()
    ensures FracFold(180087615236301052443735362215024992686, 7, 23) == FracFold(190615514138781035849371936536855383449, 6, 46)
  {
    FracTraceStep(180087615236301052443735362215024992686, 190615514138781035849371936536855383449, 190615514138781035849371936536855383449, 7, 23, 46);
  }

  lemma FracStep8AtPrice2500()
    ensures FracFold(190615514138781035849371936536855383449, 6, 46) == FracFold(213553670495267088842232615307588020739, 5, 92)
  {
    FracTraceStep(190615514138781035849371936536855383449, 213553670495267088842232615307588020739, 213553670495267088842232615307588020739, 6, 46, 92);
  }

  lemma FracStep9AtPrice2500()
    ensures FracFold(213553670495267088842232615307588020739, 5, 92) == FracFold(268043099586156686196436173370809696745, 4, 184)
  {
    FracTraceStep(213553670495267088842232615307588020739, 268043099586156686196436173370809696745, 268043099586156686196436173370809696745, 5, 92, 184);
  }

  lemma FracStep10AtPrice2500()
    ensures FracFold(268043099586156686196436173370809696745, 4, 184) == FracFold(211139659941437214164249683872090875414, 3, 369)
  {
    FracTraceStep(268043099586156686196436173370809696745, 422279319882874428328499367744181750828, 211139659941437214164249683872090875414, 4, 184, 369);
  }

  lemma FracStep11AtPrice2500()
    ensures FracFold(211139659941437214164249683872090875414, 3, 369) == FracFold(262017432190622425155454236448810707429, 2, 738)
  {
    FracTraceStep(211139659941437214164249683872090875414, 262017432190622425155454236448810707429, 262017432190622425155454236448810707429, 3, 369, 738);
  }

  lemma FracStep12AtPrice2500()
    ensures FracFold(262017432190622425155454236448810707429, 2, 738) == FracFold(201753430226134394067026619872660801120, 1, 1477)
  {
    FracTraceStep(262017432190622425155454236448810707429, 403506860452268788134053239745321602241, 201753430226134394067026619872660801120, 2, 738, 1477);
  }

  lemma FracStep13AtPrice2500()
    ensures FracFold(201753430226134394067026619872660801120, 1, 1477) == FracFold(239239235205325758808509723879204915269, 0, 2954)
  {
    FracTraceStep(201753430226134394067026619872660801120, 239239235205325758808509723879204915269, 239239235205325758808509723879204915269, 1, 1477, 2954);
  }

  /** The 14 fraction bits of the price `89776708723587163891445672585`, one squaring at a time. */
  lemma FracAtPrice2500()
    ensures FracFold(192794013955162386359575628956649390080, 14, 0) == 2954
  {
    FracStep0AtPrice2500();
    FracStep1AtPrice2500();
    FracStep2AtPrice2500();
    FracStep3AtPrice2500();
    FracStep4AtPrice2500();
    FracStep5AtPrice2500();
    FracStep6AtPrice2500();
    FracStep7AtPrice2500();
    FracStep8AtPrice2500();
    FracStep9AtPrice2500();
    FracStep10AtPrice2500();
    FracStep11AtPrice2500();
    FracStep12AtPrice2500();
    FracStep13AtPrice2500();
  }

  /** The logarithm of the price `89776708723587163891445672585`: top bit 128, fraction 2954. */
  lemma Log2AtPrice2500()
    ensures Log2(PriceRatio(89776708723587163891445672585)) == 3325908324813111296
  {
    Pow2Constants();
    Pow2Split(128, 0, 128);
    assert Pow2(0) == 1;
    assert Pow2(129) == 2 * Pow2(128);
    assert Pow2(1) == 2;
    DivUnique(385588027910324772719151257913298780160, 2, 192794013955162386359575628956649390080, 0);
    MsbIs(385588027910324772719151257913298780160, 128);
    FracAtPrice2500();
  }

  /** `get_tick_at_sqrt_ratio` takes the price of tick `2500` back to `2500`. */
  lemma RoundTrip2500()
    ensures TickAtSqrtRatio(SqrtRatioAtTick(2500).value) == Ok(2500)
  {
    SqrtRatioAt2500();
    Log2AtPrice2500();
    TickAtFromLog(89776708723587163891445672585, 3325908324813111296, 2499, 2500);
  }

  lemma FracStep0AtPrice3000()
    ensures FracFold(197674370578179731564620671904970178560, 14, 0) == FracFold(229663130282376863123623218452236788340, 13, 0)
  {
    FracTraceStep(197674370578179731564620671904970178560, 229663130282376863123623218452236788340, 229663130282376863123623218452236788340, 14, 0, 0);
  }

  lemma FracStep1AtPrice3000()
    ensures FracFold(229663130282376863123623218452236788340, 13, 0) == FracFold(310008149340014840332241285941010708582, 12, 0)
  {
    FracTraceStep(229663130282376863123623218452236788340, 310008149340014840332241285941010708582, 310008149340014840332241285941010708582, 13, 0, 0);
  }

  lemma FracStep2AtPrice3000()
    ensures FracFold(310008149340014840332241285941010708582, 12, 0) == FracFold(282427366210104225635736390835159786030, 11, 1)
  {
    FracTraceStep(310008149340014840332241285941010708582, 564854732420208451271472781670319572060, 282427366210104225635736390835159786030, 12, 0, 1);
  }

  lemma FracStep3AtPrice3000()
    ensures FracFold(282427366210104225635736390835159786030, 11, 1) == FracFold(234408905480868041431224707543716135328, 10, 3)
  {
    FracTraceStep(282427366210104225635736390835159786030, 468817810961736082862449415087432270656, 234408905480868041431224707543716135328, 11, 1, 3);
  }

  lemma FracStep4AtPrice3000()
    ensures FracFold(234408905480868041431224707543716135328, 10, 3) == FracFold(322952584736811185417042835438028120350, 9, 6)
  {
    FracTraceStep(234408905480868041431224707543716135328, 322952584736811185417042835438028120350, 322952584736811185417042835438028120350, 10, 3, 6);
  }

  lemma FracStep5AtPrice3000()
    ensures FracFold(322952584736811185417042835438028120350, 9, 6) == FracFold(306505367680188948402031022456725534319, 8, 13)
  {
    FracTraceStep(322952584736811185417042835438028120350, 613010735360377896804062044913451068639, 306505367680188948402031022456725534319, 9, 6, 13);
  }

  lemma FracStep6AtPrice3000()
    ensures FracFold(306505367680188948402031022456725534319, 8, 13) == FracFold(276081130112143643154769295473928364581, 7, 27)
  {
    FracTraceStep(306505367680188948402031022456725534319, 552162260224287286309538590947856729163, 276081130112143643154769295473928364581, 8, 13, 27);
  }

  lemma FracStep7AtPrice3000()
    ensures FracFold(276081130112143643154769295473928364581, 7, 27) == FracFold(223992771337774314167176818828520638664, 6, 55)
  {
    FracTraceStep(276081130112143643154769295473928364581, 447985542675548628334353637657041277328, 223992771337774314167176818828520638664, 7, 27, 55);
  }

  lemma FracStep8AtPrice3000()
    ensures FracFold(223992771337774314167176818828520638664, 6, 55) == FracFold(294888989197807235288262567110332790884, 5, 110)
  {
    FracTraceStep(223992771337774314167176818828520638664, 294888989197807235288262567110332790884, 294888989197807235288262567110332790884, 6, 55, 110);
  }

  lemma FracStep9AtPrice3000()
    ensures FracFold(294888989197807235288262567110332790884, 5, 110) == FracFold(255551049373971031911455513913722489410, 4, 221)
  {
    FracTraceStep(294888989197807235288262567110332790884, 511102098747942063822911027827444978821, 255551049373971031911455513913722489410, 5, 110, 221);
  }

  lemma FracStep10AtPrice3000()
    ensures FracFold(255551049373971031911455513913722489410, 4, 221) == FracFold(191918080936915307483614497542187806626, 3, 443)
  {
    FracTraceStep(255551049373971031911455513913722489410, 383836161873830614967228995084375613252, 191918080936915307483614497542187806626, 4, 221, 443);
  }

  lemma FracStep11AtPrice3000()
    ensures FracFold(191918080936915307483614497542187806626, 3, 443) == FracFold(216482271025616118613938286920512585103, 2, 886)
  {
    FracTraceStep(191918080936915307483614497542187806626, 216482271025616118613938286920512585103, 216482271025616118613938286920512585103, 3, 443, 886);
  }

  lemma FracStep12AtPrice3000()
    ensures FracFold(216482271025616118613938286920512585103, 2, 886) == FracFold(275445208004544489091334481800135270140, 1, 1772)
  {
    FracTraceStep(216482271025616118613938286920512585103, 275445208004544489091334481800135270140, 275445208004544489091334481800135270140, 2, 886, 1772);
  }

  lemma FracStep13AtPrice3000()
    ensures FracFold(275445208004544489091334481800135270140, 1, 1772) == FracFold(222962074994307606084383528078269094695, 0, 3545)
  {
    FracTraceStep(275445208004544489091334481800135270140, 445924149988615212168767056156538189390, 222962074994307606084383528078269094695, 1, 1772, 3545);
  }

  /** The 14 fraction bits of the price `92049301871182272007977902845`, one squaring at a time. */
  lemma FracAtPrice3000()
    ensures FracFold(197674370578179731564620671904970178560, 14, 0) == 3545
  {
    FracStep0AtPrice3000();
    FracStep1AtPrice3000();
    FracStep2AtPrice3000();
    FracStep3AtPrice3000();
    FracStep4AtPrice3000();
    FracStep5AtPrice3000();
    FracStep6AtPrice3000();
    FracStep7AtPrice3000();
    FracStep8AtPrice3000();
    FracStep9AtPrice3000();
    FracStep10AtPrice3000();
    FracStep11AtPrice3000();
    FracStep12AtPrice3000();
    FracStep13AtPrice3000();
  }

  /** The logarithm of the price `92049301871182272007977902845`: top bit 128, fraction 3545. */
  lemma Log2AtPrice3000()
    ensures Log2(PriceRatio(92049301871182272007977902845)) == 3991315169757102080
  {
    Pow2Constants();
    Pow2Split(128, 0, 128);
    assert Pow2(0) == 1;
    assert Pow2(129) == 2 * Pow2(128);
    assert Pow2(1) == 2;
    DivUnique(395348741156359463129241343809940357120, 2, 197674370578179731564620671904970178560, 0);
    MsbIs(395348741156359463129241343809940357120, 128);
    FracAtPrice3000();
  }

  /** `get_tick_at_sqrt_ratio` takes the price of tick `3000` back to `3000`. */
  lemma RoundTrip3000()
    ensures TickAtSqrtRatio(SqrtRatioAtTick(3000).value) == Ok(3000)
  {
    SqrtRatioAt3000();
    Log2AtPrice3000();
    TickAtFromLog(92049301871182272007977902845, 3991315169757102080, 2999, 3000);
  }

  lemma FracStep0AtPrice4000()
    ensures FracFold(207808832795064379292762071987078037504, 14, 0) == FracFold(253815743545010406162611429823359799462, 13, 0)
  {
    FracTraceStep(207808832795064379292762071987078037504, 253815743545010406162611429823359799462, 253815743545010406162611429823359799462, 14, 0, 0);
  }

  lemma FracStep1AtPrice4000()
    ensures FracFold(253815743545010406162611429823359799462, 13, 0) == FracFold(189320511239638997160648225576618356736, 12, 1)
  {
    FracTraceStep(253815743545010406162611429823359799462, 378641022479277994321296451153236713472, 189320511239638997160648225576618356736, 13, 0, 1);
  }

  lemma FracStep2AtPrice4000()
    ensures FracFold(189320511239638997160648225576618356736, 12, 1) == FracFold(210661847102796839979575982599696759947, 11, 2)
  {
    FracTraceStep(189320511239638997160648225576618356736, 210661847102796839979575982599696759947, 210661847102796839979575982599696759947, 12, 1, 2);
  }

  lemma FracStep3AtPrice4000()
    ensures FracFold(210661847102796839979575982599696759947, 11, 2) == FracFold(260832873747308083413866260998492044776, 10, 4)
  {
    FracTraceStep(210661847102796839979575982599696759947, 260832873747308083413866260998492044776, 260832873747308083413866260998492044776, 11, 2, 4);
  }

  lemma FracStep4AtPrice4000()
    ensures FracFold(260832873747308083413866260998492044776, 10, 4) == FracFold(199933333727769076420587711669372439375, 9, 9)
  {
    FracTraceStep(260832873747308083413866260998492044776, 399866667455538152841175423338744878751, 199933333727769076420587711669372439375, 10, 4, 9);
  }

  lemma FracStep5AtPrice4000()
    ensures FracFold(199933333727769076420587711669372439375, 9, 9) == FracFold(234942164633449419977898004596781286804, 8, 18)
  {
    FracTraceStep(199933333727769076420587711669372439375, 234942164633449419977898004596781286804, 234942164633449419977898004596781286804, 9, 9, 18);
  }

  lemma FracStep6AtPrice4000()
    ensures FracFold(234942164633449419977898004596781286804, 8, 18) == FracFold(324423632185887356627369245212088288128, 7, 36)
  {
    FracTraceStep(234942164633449419977898004596781286804, 324423632185887356627369245212088288128, 324423632185887356627369245212088288128, 8, 18, 36);
  }

  lemma FracStep7AtPrice4000()
    ensures FracFold(324423632185887356627369245212088288128, 7, 36) == FracFold(309303987958735385602094421166552031440, 6, 73)
  {
    FracTraceStep(324423632185887356627369245212088288128, 618607975917470771204188842333104062881, 309303987958735385602094421166552031440, 7, 36, 73);
  }

  lemma FracStep8AtPrice4000()
    ensures FracFold(309303987958735385602094421166552031440, 6, 73) == FracFold(281145796159944259009494922389119316003, 5, 147)
  {
    FracTraceStep(309303987958735385602094421166552031440, 562291592319888518018989844778238632007, 281145796159944259009494922389119316003, 6, 73, 147);
  }

  lemma FracStep9AtPrice4000()
    ensures FracFold(281145796159944259009494922389119316003, 5, 147) == FracFold(232286378555647716122854958301242135337, 4, 295)
  {
    FracTraceStep(281145796159944259009494922389119316003, 464572757111295432245709916602484270675, 232286378555647716122854958301242135337, 5, 147, 295);
  }

  lemma FracStep10AtPrice4000()
    ensures FracFold(232286378555647716122854958301242135337, 4, 295) == FracFold(317130518109003797867796771445722119873, 3, 590)
  {
    FracTraceStep(232286378555647716122854958301242135337, 317130518109003797867796771445722119873, 317130518109003797867796771445722119873, 4, 295, 590);
  }

  lemma FracStep11AtPrice4000()
    ensures FracFold(317130518109003797867796771445722119873, 3, 590) == FracFold(295553855540954691089935000313776117191, 2, 1181)
  {
    FracTraceStep(317130518109003797867796771445722119873, 591107711081909382179870000627552234383, 295553855540954691089935000313776117191, 3, 590, 1181);
  }

  lemma FracStep12AtPrice4000()
    ensures FracFold(295553855540954691089935000313776117191, 2, 1181) == FracFold(256704695913376497853147903434347772344, 1, 2363)
  {
    FracTraceStep(295553855540954691089935000313776117191, 513409391826752995706295806868695544688, 256704695913376497853147903434347772344, 2, 1181, 2363);
  }

  lemma FracStep13AtPrice4000()
    ensures FracFold(256704695913376497853147903434347772344, 1, 2363) == FracFold(193654762367659619306103600185247564171, 0, 4727)
  {
    FracTraceStep(256704695913376497853147903434347772344, 387309524735319238612207200370495128342, 193654762367659619306103600185247564171, 1, 2363, 4727);
  }

  /** The 14 fraction bits of the price `96768528593268422080558758223`, one squaring at a time. */
  lemma FracAtPrice4000()
    ensures FracFold(207808832795064379292762071987078037504, 14, 0) == 4727
  {
    FracStep0AtPrice4000();
    FracStep1AtPrice4000();
    FracStep2AtPrice4000();
    FracStep3AtPrice4000();
    FracStep4AtPrice4000();
    FracStep5AtPrice4000();
    FracStep6AtPrice4000();
    FracStep7AtPrice4000();
    FracStep8AtPrice4000();
    FracStep9AtPrice4000();
    FracStep10AtPrice4000();
    FracStep11AtPrice4000();
    FracStep12AtPrice4000();
    FracStep13AtPrice4000();
  }

  /** The logarithm of the price `96768528593268422080558758223`: top bit 128, fraction 4727. */
  lemma Log2AtPrice4000()
    ensures Log2(PriceRatio(96768528593268422080558758223)) == 5322128859645083648
  {
    Pow2Constants();
    Pow2Split(128, 0, 128);
    assert Pow2(0) == 1;
    assert Pow2(129) == 2 * Pow2(128);
    assert Pow2(1) == 2;
    DivUnique(415617665590128758585524143974156075008, 2, 207808832795064379292762071987078037504, 0);
    MsbIs(415617665590128758585524143974156075008, 128);
    FracAtPrice4000();
  }

  /** `get_tick_at_sqrt_ratio` takes the price of tick `4000` back to `4000`. */
  lemma RoundTrip4000()
    ensures TickAtSqrtRatio(SqrtRatioAtTick(4000).value) == Ok(4000)
  {
    SqrtRatioAt4000();
    Log2AtPrice4000();
    TickAtFromLog(96768528593268422080558758223, 5322128859645083648, 3999, 4000);
  }

  lemma FracStep0AtPrice5000()
    ensures FracFold(218462873367630913420199855507069992960, 14, 0) == FracFold(280508375863802850751461186278741529634, 13, 0)
  {
    FracTraceStep(218462873367630913420199855507069992960, 280508375863802850751461186278741529634, 280508375863802850751461186278741529634, 14, 0, 0);
  }

  lemma FracStep1AtPrice5000()
    ensures FracFold(280508375863802850751461186278741529634, 13, 0) == FracFold(231234282404148879634104426605526918557, 12, 1)
  {
    FracTraceStep(280508375863802850751461186278741529634, 462468564808297759268208853211053837114, 231234282404148879634104426605526918557, 13, 0, 1);
  }

  lemma FracStep2AtPrice5000()
    ensures FracFold(231234282404148879634104426605526918557, 12, 1) == FracFold(314264261429595520966358017080999973916, 11, 2)
  {
    FracTraceStep(231234282404148879634104426605526918557, 314264261429595520966358017080999973916, 314264261429595520966358017080999973916, 12, 1, 2);
  }

  lemma FracStep3AtPrice5000()
    ensures FracFold(314264261429595520966358017080999973916, 11, 2) == FracFold(290235509131848798808934652825653309576, 10, 5)
  {
    FracTraceStep(314264261429595520966358017080999973916, 580471018263697597617869305651306619152, 290235509131848798808934652825653309576, 11, 2, 5);
  }

  lemma FracStep4AtPrice5000()
    ensures FracFold(290235509131848798808934652825653309576, 10, 5) == FracFold(247549267754432638471876885008744804894, 9, 11)
  {
    FracTraceStep(290235509131848798808934652825653309576, 495098535508865276943753770017489609788, 247549267754432638471876885008744804894, 10, 5, 11);
  }

  lemma FracStep5AtPrice5000()
    ensures FracFold(247549267754432638471876885008744804894, 9, 11) == FracFold(180087615236301052443735362212961286220, 8, 23)
  {
    FracTraceStep(247549267754432638471876885008744804894, 360175230472602104887470724425922572441, 180087615236301052443735362212961286220, 9, 11, 23);
  }

  lemma FracStep6AtPrice5000()
    ensures FracFold(180087615236301052443735362212961286220, 8, 23) == FracFold(190615514138781035849371936532486682486, 7, 46)
  {
    FracTraceStep(180087615236301052443735362212961286220, 190615514138781035849371936532486682486, 190615514138781035849371936532486682486, 8, 23, 46);
  }

  lemma FracStep7AtPrice5000()
    ensures FracFold(190615514138781035849371936532486682486, 7, 46) == FracFold(213553670495267088842232615297799183454, 6, 92)
  {
    FracTraceStep(190615514138781035849371936532486682486, 213553670495267088842232615297799183454, 213553670495267088842232615297799183454, 7, 46, 92);
  }

  lemma FracStep8AtPrice5000()
    ensures FracFold(213553670495267088842232615297799183454, 6, 92) == FracFold(268043099586156686196436173346236667575, 5, 184)
  {
    FracTraceStep(213553670495267088842232615297799183454, 268043099586156686196436173346236667575, 268043099586156686196436173346236667575, 6, 92, 184);
  }

  lemma FracStep9AtPrice5000()
    ensures FracFold(268043099586156686196436173346236667575, 5, 184) == FracFold(211139659941437214164249683833378138315, 4, 369)
  {
    FracTraceStep(268043099586156686196436173346236667575, 422279319882874428328499367666756276631, 211139659941437214164249683833378138315, 5, 184, 369);
  }

  lemma FracStep10AtPrice5000()
    ensures FracFold(211139659941437214164249683833378138315, 4, 369) == FracFold(262017432190622425155454236352728218989, 3, 738)
  {
    FracTraceStep(211139659941437214164249683833378138315, 262017432190622425155454236352728218989, 262017432190622425155454236352728218989, 4, 369, 738);
  }

  lemma FracStep11AtPrice5000()
    ensures FracFold(262017432190622425155454236352728218989, 3, 738) == FracFold(201753430226134394067026619724693763467, 2, 1477)
  {
    FracTraceStep(262017432190622425155454236352728218989, 403506860452268788134053239449387526934, 201753430226134394067026619724693763467, 3, 738, 1477);
  }

  lemma FracStep12AtPrice5000()
    ensures FracFold(201753430226134394067026619724693763467, 2, 1477) == FracFold(239239235205325758808509723528286262892, 1, 2954)
  {
    FracTraceStep(201753430226134394067026619724693763467, 239239235205325758808509723528286262892, 239239235205325758808509723528286262892, 2, 1477, 2954);
  }

  lemma FracStep13AtPrice5000()
    ensures FracFold(239239235205325758808509723528286262892, 1, 2954) == FracFold(336399515376165884354221210806366827318, 0, 5908)
  {
    FracTraceStep(239239235205325758808509723528286262892, 336399515376165884354221210806366827318, 336399515376165884354221210806366827318, 1, 2954, 5908);
  }

  /** The 14 fraction bits of the price `101729702841318637793976746270`, one squaring at a time. */
  lemma FracAtPrice5000()
    ensures FracFold(218462873367630913420199855507069992960, 14, 0) == 5908
  {
    FracStep0AtPrice5000();
    FracStep1AtPrice5000();
    FracStep2AtPrice5000();
    FracStep3AtPrice5000();
    FracStep4AtPrice5000();
    FracStep5AtPrice5000();
    FracStep6AtPrice5000();
    FracStep7AtPrice5000();
    FracStep8AtPrice5000();
    FracStep9AtPrice5000();
    FracStep10AtPrice5000();
    FracStep11AtPrice5000();
    FracStep12AtPrice5000();
    FracStep13AtPrice5000();
  }

  /** The logarithm of the price `101729702841318637793976746270`: top bit 128, fraction 5908. */
  lemma Log2AtPrice5000()
    ensures Log2(PriceRatio(101729702841318637793976746270)) == 6651816649626222592
  {
    Pow2Constants();
    Pow2Split(128, 0, 128);
    assert Pow2(0) == 1;
    assert Pow2(129) == 2 * Pow2(128);
    assert Pow2(1) == 2;
    DivUnique(436925746735261826840399711014139985920, 2, 218462873367630913420199855507069992960, 0);
    MsbIs(436925746735261826840399711014139985920, 128);
    FracAtPrice5000();
  }

  /** `get_tick_at_sqrt_ratio` takes the price of tick `5000` back to `5000`. */
  lemma RoundTrip5000()
    ensures TickAtSqrtRatio(SqrtRatioAtTick(5000).value) == Ok(5000)
  {
    SqrtRatioAt5000();
    Log2AtPrice5000();
    TickAtFromLog(101729702841318637793976746270, 6651816649626222592, 4999, 5000);
  }

  lemma FracStep0AtPrice50000()
    ensures FracFold(259060610055457593818955130314682269696, 14, 0) == FracFold(197225616741695041973182922013112756961, 13, 1)
  {
    FracTraceStep(259060610055457593818955130314682269696, 394451233483390083946365844026225513923, 197225616741695041973182922013112756961, 14, 0, 1);
  }

  lemma FracStep1AtPrice50000()
    ensures FracFold(197225616741695041973182922013112756961, 13, 1) == FracFold(228621566560218301253064144141758900680, 12, 2)
  {
    FracTraceStep(197225616741695041973182922013112756961, 228621566560218301253064144141758900680, 228621566560218301253064144141758900680, 13, 1, 2);
  }

  lemma FracStep2AtPrice50000()
    ensures FracFold(228621566560218301253064144141758900680, 12, 2) == FracFold(307202639792336247311691586310701181399, 11, 4)
  {
    FracTraceStep(228621566560218301253064144141758900680, 307202639792336247311691586310701181399, 307202639792336247311691586310701181399, 12, 2, 4);
  }

  lemma FracStep3AtPrice50000()
    ensures FracFold(307202639792336247311691586310701181399, 11, 4) == FracFold(277338678313903688037257138858167575125, 10, 9)
  {
    FracTraceStep(307202639792336247311691586310701181399, 554677356627807376074514277716335150251, 277338678313903688037257138858167575125, 11, 4, 9);
  }

  lemma FracStep4AtPrice50000()
    ensures FracFold(277338678313903688037257138858167575125, 10, 9) == FracFold(226037990698395085155725093150324516505, 9, 19)
  {
    FracTraceStep(277338678313903688037257138858167575125, 452075981396790170311450186300649033011, 226037990698395085155725093150324516505, 10, 9, 19);
  }

  lemma FracStep5AtPrice50000()
    ensures FracFold(226037990698395085155725093150324516505, 9, 19) == FracFold(300298682539955299343971836999693922947, 8, 38)
  {
    FracTraceStep(226037990698395085155725093150324516505, 300298682539955299343971836999693922947, 300298682539955299343971836999693922947, 9, 19, 38);
  }

  lemma FracStep6AtPrice50000()
    ensures FracFold(300298682539955299343971836999693922947, 8, 38) == FracFold(265013140560954190877947726358685642482, 7, 77)
  {
    FracTraceStep(300298682539955299343971836999693922947, 530026281121908381755895452717371284964, 265013140560954190877947726358685642482, 8, 38, 77);
  }

  lemma FracStep7AtPrice50000()
    ensures FracFold(265013140560954190877947726358685642482, 7, 77) == FracFold(206393194291780115739963007647652227125, 6, 155)
  {
    FracTraceStep(265013140560954190877947726358685642482, 412786388583560231479926015295304454250, 206393194291780115739963007647652227125, 7, 77, 155);
  }

  lemma FracStep8AtPrice50000()
    ensures FracFold(206393194291780115739963007647652227125, 6, 155) == FracFold(250369427222550100344527823223971758599, 5, 310)
  {
    FracTraceStep(206393194291780115739963007647652227125, 250369427222550100344527823223971758599, 250369427222550100344527823223971758599, 6, 155, 310);
  }

  lemma FracStep9AtPrice50000()
    ensures FracFold(250369427222550100344527823223971758599, 5, 310) == FracFold(184214217900723813798898259585664062803, 4, 621)
  {
    FracTraceStep(250369427222550100344527823223971758599, 368428435801447627597796519171328125606, 184214217900723813798898259585664062803, 5, 310, 621);
  }

  lemma FracStep10AtPrice50000()
    ensures FracFold(184214217900723813798898259585664062803, 4, 621) == FracFold(199451287375462605841078561124100683473, 3, 1242)
  {
    FracTraceStep(184214217900723813798898259585664062803, 199451287375462605841078561124100683473, 199451287375462605841078561124100683473, 4, 621, 1242);
  }

  lemma FracStep11AtPrice50000()
    ensures FracFold(199451287375462605841078561124100683473, 3, 1242) == FracFold(233810622605502697661756200193497132443, 2, 2484)
  {
    FracTraceStep(199451287375462605841078561124100683473, 233810622605502697661756200193497132443, 233810622605502697661756200193497132443, 3, 1242, 2484);
  }

  lemma FracStep12AtPrice50000()
    ensures FracFold(233810622605502697661756200193497132443, 2, 2484) == FracFold(321306141942255196155284292283312419502, 1, 4968)
  {
    FracTraceStep(233810622605502697661756200193497132443, 321306141942255196155284292283312419502, 321306141942255196155284292283312419502, 2, 2484, 4968);
  }

  lemma FracStep13AtPrice50000()
    ensures FracFold(321306141942255196155284292283312419502, 1, 4968) == FracFold(303388147273005705893522088319665941448, 0, 9937)
  {
    FracTraceStep(321306141942255196155284292283312419502, 606776294546011411787044176639331882896, 303388147273005705893522088319665941448, 1, 4968, 9937);
  }

  /** The 14 fraction bits of the price `965075977353221155028623082916`, one squaring at a time. */
  lemma FracAtPrice50000()
    ensures FracFold(259060610055457593818955130314682269696, 14, 0) == 9937
  {
    FracStep0AtPrice50000();
    FracStep1AtPrice50000();
    FracStep2AtPrice50000();
    FracStep3AtPrice50000();
    FracStep4AtPrice50000();
    FracStep5AtPrice50000();
    FracStep6AtPrice50000();
    FracStep7AtPrice50000();
    FracStep8AtPrice50000();
    FracStep9AtPrice50000();
    FracStep10AtPrice50000();
    FracStep11AtPrice50000();
    FracStep12AtPrice50000();
    FracStep13AtPrice50000();
  }

  /** The logarithm of the price `965075977353221155028623082916`: top bit 131, fraction 9937. */
  lemma Log2AtPrice50000()
    ensures Log2(PriceRatio(965075977353221155028623082916)) == 66528299595423809536
  {
    Pow2Constants();
    Pow2Split(128, 3, 131);
    assert Pow2(3) == 8;
    assert Pow2(132) == 2 * Pow2(131);
    assert Pow2(4) == 16;
    DivUnique(4144969760887321501103282085034916315136, 16, 259060610055457593818955130314682269696, 0);
    MsbIs(4144969760887321501103282085034916315136, 131);
    FracAtPrice50000();
  }

  /** `get_tick_at_sqrt_ratio` takes the price of tick `50000` back to `50000`. */
  lemma RoundTrip50000()
    ensures TickAtSqrtRatio(SqrtRatioAtTick(50000).value) == Ok(50000)
  {
    SqrtRatioAt50000();
    Log2AtPrice50000();
    TickAtFromLog(965075977353221155028623082916, 66528299595423809536, 49999, 50000);
  }

  lemma FracStep0AtPrice150000()
    ensures FracFold(300299948269364635150341219766232940544, 14, 0) == FracFold(265015374574303459719392232565700224421, 13, 1)
  {
    FracTraceStep(300299948269364635150341219766232940544, 530030749148606919438784465131400448843, 265015374574303459719392232565700224421, 14, 0, 1);
  }

  lemma FracStep1AtPrice150000()
    ensures FracFold(265015374574303459719392232565700224421, 13, 1) == FracFold(206396674021832012377229148732556409669, 12, 3)
  {
    FracTraceStep(265015374574303459719392232565700224421, 412793348043664024754458297465112819339, 206396674021832012377229148732556409669, 13, 1, 3);
  }

  lemma FracStep2AtPrice150000()
    ensures FracFold(206396674021832012377229148732556409669, 12, 3) == FracFold(250377869607166656544417498743366460703, 11, 6)
  {
    FracTraceStep(206396674021832012377229148732556409669, 250377869607166656544417498743366460703, 250377869607166656544417498743366460703, 12, 3, 6);
  }

  lemma FracStep3AtPrice150000()
    ensures FracFold(250377869607166656544417498743366460703, 11, 6) == FracFold(184226641410392534081647542608287281135, 10, 13)
  {
    FracTraceStep(250377869607166656544417498743366460703, 368453282820785068163295085216574562270, 184226641410392534081647542608287281135, 11, 6, 13);
  }

  lemma FracStep4AtPrice150000()
    ensures FracFold(184226641410392534081647542608287281135, 10, 13) == FracFold(199478190494889107093449380472970706449, 9, 26)
  {
    FracTraceStep(184226641410392534081647542608287281135, 199478190494889107093449380472970706449, 199478190494889107093449380472970706449, 10, 13, 26);
  }

  lemma FracStep5AtPrice150000()
    ensures FracFold(199478190494889107093449380472970706449, 9, 26) == FracFold(233873702261865799473037582793254805682, 8, 52)
  {
    FracTraceStep(199478190494889107093449380472970706449, 233873702261865799473037582793254805682, 233873702261865799473037582793254805682, 9, 26, 52);
  }

  lemma FracStep6AtPrice150000()
    ensures FracFold(233873702261865799473037582793254805682, 8, 52) == FracFold(321479535390561010086077671488618827906, 7, 104)
  {
    FracTraceStep(233873702261865799473037582793254805682, 321479535390561010086077671488618827906, 321479535390561010086077671488618827906, 8, 52, 104);
  }

  lemma FracStep7AtPrice150000()
    ensures FracFold(321479535390561010086077671488618827906, 7, 104) == FracFold(303715683566240144288056729318222400762, 6, 209)
  {
    FracTraceStep(321479535390561010086077671488618827906, 607431367132480288576113458636444801524, 303715683566240144288056729318222400762, 7, 104, 209);
  }

  lemma FracStep8AtPrice150000()
    ensures FracFold(303715683566240144288056729318222400762, 6, 209) == FracFold(271078449579317732897004007250787866443, 5, 419)
  {
    FracTraceStep(303715683566240144288056729318222400762, 542156899158635465794008014501575732887, 271078449579317732897004007250787866443, 6, 209, 419);
  }

  lemma FracStep9AtPrice150000()
    ensures FracFold(271078449579317732897004007250787866443, 5, 419) == FracFold(215948673718376774770296936256940387111, 4, 839)
  {
    FracTraceStep(271078449579317732897004007250787866443, 431897347436753549540593872513880774223, 215948673718376774770296936256940387111, 5, 419, 839);
  }

  lemma FracStep10AtPrice150000()
    ensures FracFold(215948673718376774770296936256940387111, 4, 839) == FracFold(274089016734510380156241286896446682770, 3, 1678)
  {
    FracTraceStep(215948673718376774770296936256940387111, 274089016734510380156241286896446682770, 274089016734510380156241286896446682770, 4, 839, 1678);
  }

  lemma FracStep11AtPrice150000()
    ensures FracFold(274089016734510380156241286896446682770, 3, 1678) == FracFold(220771912968224056935996414188078372152, 2, 3357)
  {
    FracTraceStep(274089016734510380156241286896446682770, 441543825936448113871992828376156744305, 220771912968224056935996414188078372152, 3, 1678, 3357);
  }

  lemma FracStep12AtPrice150000()
    ensures FracFold(220771912968224056935996414188078372152, 2, 3357) == FracFold(286469369522009066007910921943293073316, 1, 6714)
  {
    FracTraceStep(220771912968224056935996414188078372152, 286469369522009066007910921943293073316, 286469369522009066007910921943293073316, 2, 3357, 6714);
  }

  lemma FracStep13AtPrice150000()
    ensures FracFold(286469369522009066007910921943293073316, 1, 6714) == FracFold(241166477172778009452454140624134649853, 0, 13429)
  {
    FracTraceStep(286469369522009066007910921943293073316, 482332954345556018904908281248269299707, 241166477172778009452454140624134649853, 1, 6714, 13429);
  }

  /** The 14 fraction bits of the price `143194173941309278083010301478497`, one squaring at a time. */
  lemma FracAtPrice150000()
    ensures FracFold(300299948269364635150341219766232940544, 14, 0) == 13429
  {
    FracStep0AtPrice150000();
    FracStep1AtPrice150000();
    FracStep2AtPrice150000();
    FracStep3AtPrice150000();
    FracStep4AtPrice150000();
    FracStep5AtPrice150000();
    FracStep6AtPrice150000();
    FracStep7AtPrice150000();
    FracStep8AtPrice150000();
    FracStep9AtPrice150000();
    FracStep10AtPrice150000();
    FracStep11AtPrice150000();
    FracStep12AtPrice150000();
    FracStep13AtPrice150000();
  }

  /** The logarithm of the price `143194173941309278083010301478497`: top bit 138, fraction 13429. */
  lemma Log2AtPrice150000()
    ensures Log2(PriceRatio(143194173941309278083010301478497)) == 199587150586085113856
  {
    Pow2Constants();
    Pow2Split(128, 10, 138);
    assert Pow2(10) == 1024;
    assert Pow2(139) == 2 * Pow2(138);
    assert Pow2(11) == 2048;
    DivUnique(615014294055658772787898818081245062234112, 2048, 300299948269364635150341219766232940544, 0);
    MsbIs(615014294055658772787898818081245062234112, 138);
    FracAtPrice150000();
  }

  /** `get_tick_at_sqrt_ratio` takes the price of tick `150000` back to `150000`. */
  lemma RoundTrip150000()
    ensures TickAtSqrtRatio(SqrtRatioAtTick(150000).value) == Ok(150000)
  {
    SqrtRatioAt150000();
    Log2AtPrice150000();
    TickAtFromLog(143194173941309278083010301478497, 199587150586085113856, 149999, 150000);
  }

  lemma FracStep0AtPrice250000()
    ensures FracFold(174052046953950391152229613307448066048, 14, 0) == FracFold(178052805515477772784320456248002025734, 13, 0)
  {
    FracTraceStep(174052046953950391152229613307448066048, 178052805515477772784320456248002025734, 178052805515477772784320456248002025734, 14, 0, 0);
  }

  lemma FracStep1AtPrice250000()
    ensures FracFold(178052805515477772784320456248002025734, 13, 0) == FracFold(186332320647683820613247908612490559586, 12, 0)
  {
    FracTraceStep(178052805515477772784320456248002025734, 186332320647683820613247908612490559586, 186332320647683820613247908612490559586, 13, 0, 0);
  }

  lemma FracStep2AtPrice250000()
    ensures FracFold(186332320647683820613247908612490559586, 12, 0) == FracFold(204064254237529004894131048720606079441, 11, 0)
  {
    FracTraceStep(186332320647683820613247908612490559586, 204064254237529004894131048720606079441, 204064254237529004894131048720606079441, 12, 0, 0);
  }

  lemma FracStep3AtPrice250000()
    ensures FracFold(204064254237529004894131048720606079441, 11, 0) == FracFold(244750970991065595522196235992154250258, 10, 0)
  {
    FracTraceStep(204064254237529004894131048720606079441, 244750970991065595522196235992154250258, 244750970991065595522196235992154250258, 11, 0, 0);
  }

  lemma FracStep4AtPrice250000()
    ensures FracFold(244750970991065595522196235992154250258, 10, 0) == FracFold(176039206330627654299727025244917392008, 9, 1)
  {
    FracTraceStep(244750970991065595522196235992154250258, 352078412661255308599454050489834784017, 176039206330627654299727025244917392008, 10, 0, 1);
  }

  lemma FracStep5AtPrice250000()
    ensures FracFold(176039206330627654299727025244917392008, 9, 1) == FracFold(182141686893329364991911437248367420864, 8, 2)
  {
    FracTraceStep(176039206330627654299727025244917392008, 182141686893329364991911437248367420864, 182141686893329364991911437248367420864, 9, 1, 2);
  }

  lemma FracStep6AtPrice250000()
    ensures FracFold(182141686893329364991911437248367420864, 8, 2) == FracFold(194988617274169131592607614736299913386, 7, 4)
  {
    FracTraceStep(182141686893329364991911437248367420864, 194988617274169131592607614736299913386, 194988617274169131592607614736299913386, 8, 2, 4);
  }

  lemma FracStep7AtPrice250000()
    ensures FracFold(194988617274169131592607614736299913386, 7, 4) == FracFold(223464772568283814731804028217985011616, 6, 8)
  {
    FracTraceStep(194988617274169131592607614736299913386, 223464772568283814731804028217985011616, 223464772568283814731804028217985011616, 7, 4, 8);
  }

  lemma FracStep8AtPrice250000()
    ensures FracFold(223464772568283814731804028217985011616, 6, 8) == FracFold(293500395162098461666238907892865604151, 5, 16)
  {
    FracTraceStep(223464772568283814731804028217985011616, 293500395162098461666238907892865604151, 293500395162098461666238907892865604151, 6, 8, 16);
  }

  lemma FracStep9AtPrice250000()
    ensures FracFold(293500395162098461666238907892865604151, 5, 16) == FracFold(253150002275382016007561106034096921658, 4, 33)
  {
    FracTraceStep(293500395162098461666238907892865604151, 506300004550764032015122212068193843317, 253150002275382016007561106034096921658, 5, 16, 33);
  }

  lemma FracStep10AtPrice250000()
    ensures FracFold(253150002275382016007561106034096921658, 4, 33) == FracFold(188328664314585167607562047813169961214, 3, 67)
  {
    FracTraceStep(253150002275382016007561106034096921658, 376657328629170335215124095626339922429, 188328664314585167607562047813169961214, 4, 33, 67);
  }

  lemma FracStep11AtPrice250000()
    ensures FracFold(188328664314585167607562047813169961214, 3, 67) == FracFold(208460321487985308509034875421380800943, 2, 134)
  {
    FracTraceStep(188328664314585167607562047813169961214, 208460321487985308509034875421380800943, 208460321487985308509034875421380800943, 3, 67, 134);
  }

  lemma FracStep12AtPrice250000()
    ensures FracFold(208460321487985308509034875421380800943, 2, 134) == FracFold(255409682423954282166311716650860101065, 1, 268)
  {
    FracTraceStep(208460321487985308509034875421380800943, 255409682423954282166311716650860101065, 255409682423954282166311716650860101065, 2, 134, 268);
  }

  lemma FracStep13AtPrice250000()
    ensures FracFold(255409682423954282166311716650860101065, 1, 268) == FracFold(191705807345173829276651457953214402604, 0, 537)
  {
    FracTraceStep(255409682423954282166311716650860101065, 383411614690347658553302915906428805208, 191705807345173829276651457953214402604, 1, 268, 537);
  }

  /** The 14 fraction bits of the price `21246587762933397357449903968194344`, one squaring at a time. */
  lemma FracAtPrice250000()
    ensures FracFold(174052046953950391152229613307448066048, 14, 0) == 537
  {
    FracStep0AtPrice250000();
    FracStep1AtPrice250000();
    FracStep2AtPrice250000();
    FracStep3AtPrice250000();
    FracStep4AtPrice250000();
    FracStep5AtPrice250000();
    FracStep6AtPrice250000();
    FracStep7AtPrice250000();
    FracStep8AtPrice250000();
    FracStep9AtPrice250000();
    FracStep10AtPrice250000();
    FracStep11AtPrice250000();
    FracStep12AtPrice250000();
    FracStep13AtPrice250000();
  }

  /** The logarithm of the price `21246587762933397357449903968194344`: top bit 146, fraction 537. */
  lemma Log2AtPrice250000()
    ensures Log2(PriceRatio(21246587762933397357449903968194344)) == 332646001576746418176
  {
    Pow2Constants();
    Pow2Split(128, 18, 146);
    assert Pow2(18) == 262144;
    assert Pow2(147) == 2 * Pow2(146);
    assert Pow2(19) == 524288;
    DivUnique(91253399593392742676420159501735331652173824, 524288, 174052046953950391152229613307448066048, 0);
    MsbIs(91253399593392742676420159501735331652173824, 146);
    FracAtPrice250000();
  }

  /** `get_tick_at_sqrt_ratio` takes the price of tick `250000` back to `250000`. */
  lemma RoundTrip250000()
    ensures TickAtSqrtRatio(SqrtRatioAtTick(250000).value) == Ok(250000)
  {
    SqrtRatioAt250000();
    Log2AtPrice250000();
    TickAtFromLog(21246587762933397357449903968194344, 332646001576746418176, 249999, 250000);
  }

  lemma FracStep0AtPrice500000()
    ensures FracFold(178052805515477772784320456275867593371, 14, 0) == FracFold(186332320647683820613247908670813211329, 13, 0)
  {
    FracTraceStep(178052805515477772784320456275867593371, 186332320647683820613247908670813211329, 186332320647683820613247908670813211329, 14, 0, 0);
  }

  lemma FracStep1AtPrice500000()
    ensures FracFold(186332320647683820613247908670813211329, 13, 0) == FracFold(204064254237529004894131048848351694283, 12, 0)
  {
    FracTraceStep(186332320647683820613247908670813211329, 204064254237529004894131048848351694283, 204064254237529004894131048848351694283, 13, 0, 0);
  }

  lemma FracStep2AtPrice500000()
    ensures FracFold(204064254237529004894131048848351694283, 12, 0) == FracFold(244750970991065595522196236298585804273, 11, 0)
  {
    FracTraceStep(204064254237529004894131048848351694283, 244750970991065595522196236298585804273, 244750970991065595522196236298585804273, 12, 0, 0);
  }

  lemma FracStep3AtPrice500000()
    ensures FracFold(244750970991065595522196236298585804273, 11, 0) == FracFold(176039206330627654299727025685724366910, 10, 1)
  {
    FracTraceStep(244750970991065595522196236298585804273, 352078412661255308599454051371448733821, 176039206330627654299727025685724366910, 11, 0, 1);
  }

  lemma FracStep4AtPrice500000()
    ensures FracFold(176039206330627654299727025685724366910, 10, 1) == FracFold(182141686893329364991911438160542926270, 9, 2)
  {
    FracTraceStep(176039206330627654299727025685724366910, 182141686893329364991911438160542926270, 182141686893329364991911438160542926270, 10, 1, 2);
  }

  lemma FracStep5AtPrice500000()
    ensures FracFold(182141686893329364991911438160542926270, 9, 2) == FracFold(194988617274169131592607616689327180720, 8, 4)
  {
    FracTraceStep(182141686893329364991911438160542926270, 194988617274169131592607616689327180720, 194988617274169131592607616689327180720, 9, 2, 4);
  }

  lemma FracStep6AtPrice500000()
    ensures FracFold(194988617274169131592607616689327180720, 8, 4) == FracFold(223464772568283814731804032694480103643, 7, 8)
  {
    FracTraceStep(194988617274169131592607616689327180720, 223464772568283814731804032694480103643, 223464772568283814731804032694480103643, 8, 4, 8);
  }

  lemma FracStep7AtPrice500000()
    ensures FracFold(223464772568283814731804032694480103643, 7, 8) == FracFold(293500395162098461666238919651793540317, 6, 16)
  {
    FracTraceStep(223464772568283814731804032694480103643, 293500395162098461666238919651793540317, 293500395162098461666238919651793540317, 7, 8, 16);
  }

  lemma FracStep8AtPrice500000()
    ensures FracFold(293500395162098461666238919651793540317, 6, 16) == FracFold(253150002275382016007561126318721289216, 5, 33)
  {
    FracTraceStep(293500395162098461666238919651793540317, 506300004550764032015122252637442578432, 253150002275382016007561126318721289216, 6, 16, 33);
  }

  lemma FracStep9AtPrice500000()
    ensures FracFold(253150002275382016007561126318721289216, 5, 33) == FracFold(188328664314585167607562077994297189565, 4, 67)
  {
    FracTraceStep(253150002275382016007561126318721289216, 376657328629170335215124155988594379130, 188328664314585167607562077994297189565, 5, 33, 67);
  }

  lemma FracStep10AtPrice500000()
    ensures FracFold(188328664314585167607562077994297189565, 4, 67) == FracFold(208460321487985308509034942236143256671, 3, 134)
  {
    FracTraceStep(188328664314585167607562077994297189565, 208460321487985308509034942236143256671, 208460321487985308509034942236143256671, 4, 67, 134);
  }

  lemma FracStep11AtPrice500000()
    ensures FracFold(208460321487985308509034942236143256671, 3, 134) == FracFold(255409682423954282166311880376380029643, 2, 268)
  {
    FracTraceStep(208460321487985308509034942236143256671, 255409682423954282166311880376380029643, 255409682423954282166311880376380029643, 3, 134, 268);
  }

  lemma FracStep12AtPrice500000()
    ensures FracFold(255409682423954282166311880376380029643, 2, 268) == FracFold(191705807345173829276651703731938866283, 1, 537)
  {
    FracTraceStep(255409682423954282166311880376380029643, 383411614690347658553303407463877732566, 191705807345173829276651703731938866283, 2, 268, 537);
  }

  lemma FracStep13AtPrice500000()
    ensures FracFold(191705807345173829276651703731938866283, 1, 537) == FracFold(216003649571437795535169668116676868371, 0, 1074)
  {
    FracTraceStep(191705807345173829276651703731938866283, 216003649571437795535169668116676868371, 216003649571437795535169668116676868371, 1, 537, 1074);
  }

  /** The 14 fraction bits of the price `5697689776495288729098254600827762987878`, one squaring at a time. */
  lemma FracAtPrice500000()
    ensures FracFold(178052805515477772784320456275867593371, 14, 0) == 1074
  {
    FracStep0AtPrice500000();
    FracStep1AtPrice500000();
    FracStep2AtPrice500000();
    FracStep3AtPrice500000();
    FracStep4AtPrice500000();
    FracStep5AtPrice500000();
    FracStep6AtPrice500000();
    FracStep7AtPrice500000();
    FracStep8AtPrice500000();
    FracStep9AtPrice500000();
    FracStep10AtPrice500000();
    FracStep11AtPrice500000();
    FracStep12AtPrice500000();
    FracStep13AtPrice500000();
  }

  /** The logarithm of the price `5697689776495288729098254600827762987878`: top bit 164, fraction 1074. */
  lemma Log2AtPrice500000()
    ensures Log2(PriceRatio(5697689776495288729098254600827762987878)) == 665292003153492836352
  {
    Pow2Constants();
    Pow2Split(128, 36, 164);
    assert Pow2(36) == 68719476736;
    assert Pow2(165) == 2 * Pow2(164);
    assert Pow2(37) == 137438953472;
    DivUnique(24471391252800814589554407081236776561775254437888, 137438953472, 178052805515477772784320456275867593371, 25769803776);
    MsbIs(24471391252800814589554407081236776561775254437888, 164);
    FracAtPrice500000();
  }

  /** `get_tick_at_sqrt_ratio` takes the price of tick `500000` back to `500000`. */
  lemma RoundTrip500000()
    ensures TickAtSqrtRatio(SqrtRatioAtTick(500000).value) == Ok(500000)
  {
    SqrtRatioAt500000();
    Log2AtPrice500000();
    TickAtFromLog(5697689776495288729098254600827762987878, 665292003153492836352, 499999, 500000);
  }

  lemma FracStep0AtPrice738203()
    ensures FracFold(201972718060792474863386470887432821110, 14, 0) == FracFold(239759580903245845828381668743040529645, 13, 0)
  {
    FracTraceStep(201972718060792474863386470887432821110, 239759580903245845828381668743040529645, 239759580903245845828381668743040529645, 14, 0, 0);
  }

  lemma FracStep1AtPrice738203()
    ensures FracFold(239759580903245845828381668743040529645, 13, 0) == FracFold(337864445666419918777097912665814285566, 12, 0)
  {
    FracTraceStep(239759580903245845828381668743040529645, 337864445666419918777097912665814285566, 337864445666419918777097912665814285566, 13, 0, 0);
  }

  lemma FracStep2AtPrice738203()
    ensures FracFold(337864445666419918777097912665814285566, 12, 0) == FracFold(335463705270392378057605604215472968855, 11, 1)
  {
    FracTraceStep(337864445666419918777097912665814285566, 670927410540784756115211208430945937711, 335463705270392378057605604215472968855, 12, 0, 1);
  }

  lemma FracStep3AtPrice738203()
    ensures FracFold(335463705270392378057605604215472968855, 11, 1) == FracFold(330713279597844642373474497891211150920, 10, 3)
  {
    FracTraceStep(335463705270392378057605604215472968855, 661426559195689284746948995782422301841, 330713279597844642373474497891211150920, 11, 1, 3);
  }

  lemma FracStep4AtPrice738203()
    ensures FracFold(330713279597844642373474497891211150920, 10, 3) == FracFold(321413284772917997066469336695486856665, 9, 7)
  {
    FracTraceStep(330713279597844642373474497891211150920, 642826569545835994132938673390973713331, 321413284772917997066469336695486856665, 10, 3, 7);
  }

  lemma FracStep5AtPrice738203()
    ensures FracFold(321413284772917997066469336695486856665, 9, 7) == FracFold(303590516791365838631739436465573590053, 8, 15)
  {
    FracTraceStep(321413284772917997066469336695486856665, 607181033582731677263478872931147180106, 303590516791365838631739436465573590053, 9, 7, 15);
  }

  lemma FracStep6AtPrice738203()
    ensures FracFold(303590516791365838631739436465573590053, 8, 15) == FracFold(270855062869192986027946545166272006095, 7, 31)
  {
    FracTraceStep(303590516791365838631739436465573590053, 541710125738385972055893090332544012190, 270855062869192986027946545166272006095, 8, 15, 31);
  }

  lemma FracStep7AtPrice738203()
    ensures FracFold(270855062869192986027946545166272006095, 7, 31) == FracFold(215592908165351957783278068445088561691, 6, 63)
  {
    FracTraceStep(270855062869192986027946545166272006095, 431185816330703915566556136890177123383, 215592908165351957783278068445088561691, 7, 31, 63);
  }

  lemma FracStep8AtPrice738203()
    ensures FracFold(215592908165351957783278068445088561691, 6, 63) == FracFold(273186662428459959065553298354192364816, 5, 126)
  {
    FracTraceStep(215592908165351957783278068445088561691, 273186662428459959065553298354192364816, 273186662428459959065553298354192364816, 6, 63, 126);
  }

  lemma FracStep9AtPrice738203()
    ensures FracFold(273186662428459959065553298354192364816, 5, 126) == FracFold(219320657735230707425691796549458583155, 4, 253)
  {
    FracTraceStep(273186662428459959065553298354192364816, 438641315470461414851383593098917166311, 219320657735230707425691796549458583155, 5, 126, 253);
  }

  lemma FracStep10AtPrice738203()
    ensures FracFold(219320657735230707425691796549458583155, 4, 253) == FracFold(282715506799035368906144054427369506493, 3, 506)
  {
    FracTraceStep(219320657735230707425691796549458583155, 282715506799035368906144054427369506493, 282715506799035368906144054427369506493, 4, 253, 506);
  }

  lemma FracStep11AtPrice738203()
    ensures FracFold(282715506799035368906144054427369506493, 3, 506) == FracFold(234887450995090723263057171915547534837, 2, 1013)
  {
    FracTraceStep(282715506799035368906144054427369506493, 469774901990181446526114343831095069675, 234887450995090723263057171915547534837, 3, 506, 1013);
  }

  lemma FracStep12AtPrice738203()
    ensures FracFold(234887450995090723263057171915547534837, 2, 1013) == FracFold(324272545381641175954870878885617012904, 1, 2026)
  {
    FracTraceStep(234887450995090723263057171915547534837, 324272545381641175954870878885617012904, 324272545381641175954870878885617012904, 2, 1013, 2026);
  }

  lemma FracStep13AtPrice738203()
    ensures FracFold(324272545381641175954870878885617012904, 1, 2026) == FracFold(309015964123465183521999602697146550948, 0, 4053)
  {
    FracTraceStep(324272545381641175954870878885617012904, 618031928246930367043999205394293101896, 309015964123465183521999602697146550948, 1, 2026, 4053);
  }

  /** The 14 fraction bits of the price `847134979253254120489401328389043031315994541`, one squaring at a time. */
  lemma FracAtPrice738203()
    ensures FracFold(201972718060792474863386470887432821110, 14, 0) == 4053
  {
    FracStep0AtPrice738203();
    FracStep1AtPrice738203();
    FracStep2AtPrice738203();
    FracStep3AtPrice738203();
    FracStep4AtPrice738203();
    FracStep5AtPrice738203();
    FracStep6AtPrice738203();
    FracStep7AtPrice738203();
    FracStep8AtPrice738203();
    FracStep9AtPrice738203();
    FracStep10AtPrice738203();
    FracStep11AtPrice738203();
    FracStep12AtPrice738203();
    FracStep13AtPrice738203();
  }

  /** The logarithm of the price `847134979253254120489401328389043031315994541`: top bit 181, fraction 4053. */
  lemma Log2AtPrice738203()
    ensures Log2(PriceRatio(847134979253254120489401328389043031315994541)) == 982240708229039390720
  {
    Pow2Constants();
    Pow2Split(128, 53, 181);
    assert Pow2(53) == 9007199254740992;
    assert Pow2(182) == 2 * Pow2(181);
    assert Pow2(54) == 18014398509481984;
    DivUnique(3638417031190364949079222220049896184238900395309531136, 18014398509481984, 201972718060792474863386470887432821110, 13044249469648896);
    MsbIs(3638417031190364949079222220049896184238900395309531136, 181);
    FracAtPrice738203();
  }

  /** `get_tick_at_sqrt_ratio` takes the price of tick `738203` back to `738203`. */
  lemma RoundTrip738203()
    ensures TickAtSqrtRatio(SqrtRatioAtTick(738203).value) == Ok(738203)
  {
    SqrtRatioAt738203();
    Log2AtPrice738203();
    TickAtFromLog(847134979253254120489401328389043031315994541, 982240708229039390720, 738202, 738203);
  }

  /** Every price in range gives a tick in `[MIN_TICK, MAX_TICK]`: the lower
      candidate is `MIN_TICK - 1` only when the higher one is `MIN_TICK`,
      whose price `MIN_SQRT_RATIO` no price in range is below. */
  lemma TickAtSqrtRatioInRange(price: U256)
    requires MIN_SQRT_RATIO <= price < MAX_SQRT_RATIO
    ensures MIN_TICK <= TickAtSqrtRatio(price).value <= MAX_TICK
  {
    TickChoice(price);
    var ls := LogSqrt10001(price);
    var low, high := TickLow(ls), TickHigh(ls);
    if low < MIN_TICK {
      SqrtRatioAtMinTick();
      assert high == MIN_TICK && SqrtRatioAtTick(high).value <= price;
    }
  }
}
