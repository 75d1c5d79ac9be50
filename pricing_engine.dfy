/** `calculate_prices`, the pricing engine of the eBay price advisor: from the active and
    the sold listings of one product and a strategy name, it derives sold-price quartiles,
    the sell-through rate and saturation of the market, a strategy target reduced by a
    tiered discount and held above a floor, and a sellability score. */
module PricingEngine {
  import opened RealArith
  import opened NumpyStats
  import opened PyBuiltins

  datatype Option<T> = None | Some(value: T)

  /** The `price` dictionary of a listing: its `value` entry, taken as a number, and how
      many other entries (such as `currency`) it holds. */
  datatype PriceDict = PriceDict(valueEntry: Option<real>, otherEntries: nat)

  /** A listing record. Only its `price` entry is read; `None` stands both for a missing
      key and for a `None` value. */
  datatype Listing = Listing(price: Option<PriceDict>)

  /** `i.get('price')` is truthy: the entry is there and the dictionary is not empty.
      A zero price still counts, since the dictionary is tested, not its value. */
  predicate HasPrice(l: Listing) {
    l.price.Some? && (l.price.value.valueEntry.Some? || l.price.value.otherEntries > 0)
  }

  /** How many listings pass the `if i.get('price')` filter. */
  function CountPriced(ls: seq<Listing>): (c: nat)
    ensures c <= |ls|
    ensures c == 0 <==> forall i :: 0 <= i < |ls| ==> !HasPrice(ls[i])
  {
    if ls == [] then 0
    else
      assert forall i :: 1 <= i < |ls| ==> ls[i] == ls[1..][i - 1];
      (if HasPrice(ls[0]) then 1 else 0) + CountPriced(ls[1..])
  }

  /** Every listing that passes the filter has a `value` entry to read. */
  predicate ValueKeysPresent(ls: seq<Listing>) {
    forall i :: 0 <= i < |ls| && HasPrice(ls[i]) ==> ls[i].price.value.valueEntry.Some?
  }

  /** The list comprehension either yields the prices, or raises `KeyError` on a listing
      whose non-empty `price` dictionary has no `value` entry. */
  datatype Extraction = Extracted(prices: seq<real>) | MissingValueKey

  /** `[float(i['price']['value']) for i in listings if i.get('price')]`. */
  function ExtractPrices(ls: seq<Listing>): (r: Extraction)
    ensures r.Extracted? <==> ValueKeysPresent(ls)
    ensures r.Extracted? ==> |r.prices| == CountPriced(ls)
  {
    if ls == [] then Extracted([])
    else
      var rest := ExtractPrices(ls[1..]);
      assert forall i :: 1 <= i < |ls| ==> ls[i] == ls[1..][i - 1];
      if !HasPrice(ls[0]) then rest
      else if ls[0].price.value.valueEntry.None? then MissingValueKey
      else if rest.MissingValueKey? then MissingValueKey
      else Extracted([ls[0].price.value.valueEntry.value] + rest.prices)
  }

  /** Extraction keeps input order: the price of the i-th listing, when it passes the
      filter, sits after exactly the prices of the listings before it that pass. */
  lemma {:induction false} ExtractedInOrder(ls: seq<Listing>, i: nat)
    requires i < |ls| && HasPrice(ls[i]) && ExtractPrices(ls).Extracted?
    ensures CountPriced(ls[..i]) < |ExtractPrices(ls).prices|
    ensures ExtractPrices(ls).prices[CountPriced(ls[..i])] == ls[i].price.value.valueEntry.value
  {
    var rest := ExtractPrices(ls[1..]);
    assert ls[..0] == [];
    if i > 0 {
      assert ls[..i] == [ls[0]] + ls[1..][..i - 1];
      assert ls[..i][1..] == ls[1..][..i - 1];
      assert ls[1..][i - 1] == ls[i];
      ExtractedInOrder(ls[1..], i - 1);
    }
  }

  /** A listing priced at zero is kept, not dropped. */
  lemma ZeroPriceKept(currencyEntries: nat)
    ensures ExtractPrices([Listing(Some(PriceDict(Some(0.0), currencyEntries)))]) == Extracted([0.0])
  {
  }

  /** `np.std` and `math.exp`, which the engine calls but which are not modelled here:
      the caller supplies them. */
  datatype Numerics = Numerics(std: seq<real> -> real, exp: real -> real)

  /** `confidence = 1 - math.exp(-S / 10)`. */
  function Confidence(num: Numerics, soldCount: nat): real {
    1.0 - num.exp(-(soldCount as real) / 10.0)
  }

  /** The only facts the engine relies on: a standard deviation is never negative, and
      for at least one sale the confidence lies strictly between 0 and 1. */
  ghost predicate Lawful(num: Numerics) {
    (forall xs :: num.std(xs) >= 0.0)
    && (forall s: nat :: s >= 1 ==> 0.0 < Confidence(num, s) < 1.0)
  }

  function MaxOne(n: nat): nat {
    if n > 1 then n else 1
  }

  function Larger(a: real, b: real): real {
    if a >= b then a else b
  }

  function Smaller(a: real, b: real): real {
    if a <= b then a else b
  }

  /** `S / max(1, A)`: sales per active listing, defined even with no active listing. */
  function SellThroughRate(soldCount: nat, activeCount: nat): (r: real)
    ensures r >= 0.0
    ensures r * MaxOne(activeCount) as real == soldCount as real
    ensures activeCount == 0 ==> r == soldCount as real
  {
    soldCount as real / MaxOne(activeCount) as real
  }

  /** `A / max(1, S)`: active listings per sale. */
  function Saturation(activeCount: nat, soldCount: nat): (r: real)
    ensures r >= 0.0
    ensures r * MaxOne(soldCount) as real == activeCount as real
    ensures activeCount == 0 ==> r == 0.0
  {
    activeCount as real / MaxOne(soldCount) as real
  }

  /** With at least one sale and one active listing, saturation is the reciprocal of the
      sell-through rate. */
  lemma RatesReciprocal(soldCount: nat, activeCount: nat)
    requires soldCount >= 1 && activeCount >= 1
    ensures SellThroughRate(soldCount, activeCount) * Saturation(activeCount, soldCount) == 1.0
  {
    var s, a := soldCount as real, activeCount as real;
    var x, y := SellThroughRate(soldCount, activeCount), Saturation(activeCount, soldCount);
    assert x * a == s && y * s == a;
    MulNonNegative(a, s);
    assert (x * y) * (a * s) == (x * a) * (y * s);
    assert (x * y - 1.0) * (a * s) == 0.0;
  }

  /** As many active listings as sales: both ratios are exactly 1, so neither the
      MAX_PROFIT lift nor the FAST_FLIP discount applies. */
  lemma BalancedMarket(n: nat)
    requires n >= 1
    ensures SellThroughRate(n, n) == 1.0 && Saturation(n, n) == 1.0
  {
    var m := MaxOne(n) as real;
    assert m == n as real && m > 0.0;
    RatioAbove(SellThroughRate(n, n), m, n as real, 1.0);
  }

  /** `price_std / median if median > 0 else 0`. */
  function Volatility(std: real, median: real): (v: real)
    ensures std >= 0.0 ==> v >= 0.0
    ensures median <= 0.0 ==> v == 0.0
  {
    if median > 0.0 then std / median else 0.0
  }

  /** `strategy.upper() == 'FAST_FLIP'`; every other name takes the MAX_PROFIT branch.
      Upper-casing never shortens a name, so the empty name and every name longer than
      nine characters take the MAX_PROFIT branch. */
  predicate IsFastFlip(strategy: string)
    ensures IsFastFlip(strategy) ==> 0 < |strategy| <= 9
  {
    Upper(strategy) == "FAST_FLIP"
  }

  /** The default name selects FAST_FLIP. */
  lemma DefaultNameIsFastFlip()
    ensures IsFastFlip("FAST_FLIP")
  {
    UpperKeepsCapitals("FAST_FLIP");
  }

  /** The comparison ignores case: the lower-case spelling selects FAST_FLIP too. */
  lemma LowerCaseNameIsFastFlip()
    ensures IsFastFlip("fast_flip")
  {
    UpperOfSmallLetters("fast_flip");
  }

  /** Python upper-cases the long s to S and the fl ligature to FL, so this spelling
      selects FAST_FLIP as well. */
  lemma LigatureSpellingIsFastFlip()
    ensures IsFastFlip("fa\U{017F}t_\U{FB02}ip")
  {
    assert Upper("fa\U{017F}t_\U{FB02}ip") == "FAST_FLIP";
  }

  /** The other documented name does not select FAST_FLIP. */
  lemma MaxProfitNameIsNotFastFlip()
    ensures !IsFastFlip("MAX_PROFIT")
  {
    assert Upper("MAX_PROFIT") != "FAST_FLIP";
  }

  /** `1.0`, less 0.10 above saturation 3.0 or else 0.05 above 1.5, less the
      aggressiveness: at most one saturation tier is taken off, and the factor falls as
      saturation rises. */
  function DiscountFactor(saturation: real, aggressiveness: real): (d: real)
    ensures 0.0 <= aggressiveness <= 0.05 ==> 0.85 <= d <= 1.0
    ensures var tier := 1.0 - aggressiveness - d;
      (tier == 0.0 || tier == 0.05 || tier == 0.10)
      && (tier == 0.0 <==> saturation <= 1.5)
      && (tier == 0.10 <==> saturation > 3.0)
  {
    var tier := if saturation > 3.0 then 0.10 else if saturation > 1.5 then 0.05 else 0.0;
    1.0 - tier - aggressiveness
  }

  /** Sellability on a 0-100 scale: 70% from the sell-through rate capped at 3, 30% from
      stability (volatility capped at 1), scaled by the confidence. */
  function Sellability(sellThroughRate: real, volatility: real, confidence: real): real {
    ScoreRaw(sellThroughRate, volatility) * 100.0 * confidence
  }

  /** `score_raw`: 70% from the sell-through rate capped at 3, 30% from stability
      (volatility capped at 1); in [0, 1] whenever both inputs are non-negative. */
  function ScoreRaw(sellThroughRate: real, volatility: real): (raw: real)
    ensures sellThroughRate >= 0.0 && volatility >= 0.0 ==> 0.0 <= raw <= 1.0
  {
    (Smaller(sellThroughRate, 3.0) / 3.0) * 0.7 + (1.0 - Smaller(volatility, 1.0)) * 0.3
  }

  /** With a confidence strictly between 0 and 1, the score lies in [0, 100). */
  lemma SellabilityBound(sellThroughRate: real, volatility: real, confidence: real)
    requires sellThroughRate >= 0.0 && volatility >= 0.0 && 0.0 < confidence < 1.0
    ensures 0.0 <= Sellability(sellThroughRate, volatility, confidence) < 100.0
  {
    var raw := ScoreRaw(sellThroughRate, volatility);
    MulNonNegative(raw, confidence);
    MulNonNegative(1.0 - raw, confidence);
    assert raw * 100.0 * confidence == 100.0 * (raw * confidence);
  }

  /** The order statistics of the sold prices (lines 27-29). */
  datatype Quartiles = Quartiles(p25: real, median: real, p75: real)

  /** The same order statistics, each moved up by `k`. */
  function Raised(q: Quartiles, k: real): Quartiles {
    Quartiles(q.p25 + k, q.median + k, q.p75 + k)
  }

  /** The strategy's decision for given order statistics and market ratios: target,
      aggressiveness, discount factor, floor and recommendation (lines 40-61). */
  datatype Pricing = Pricing(
    baseTarget: real, aggressiveness: real, discountFactor: real,
    discountedPrice: real, floorPrice: real, recommendedPrice: real)

  function Decide(fastFlip: bool, q: Quartiles, sellThroughRate: real, saturation: real): Pricing
  {
    var baseTarget :=
      if fastFlip then q.p25
      else if sellThroughRate > 2.0 then (q.median + q.p75) / 2.0
      else q.median;
    var aggressiveness := if fastFlip && saturation > 1.0 then 0.05 else 0.0;
    var discountFactor := DiscountFactor(saturation, aggressiveness);
    var discountedPrice := baseTarget * discountFactor;
    var floorPrice := q.p25 * 0.85;
    Pricing(baseTarget, aggressiveness, discountFactor, discountedPrice, floorPrice,
            Larger(discountedPrice, floorPrice))
  }

  /** FAST_FLIP aims at the lower quartile; MAX_PROFIT aims at the median, or halfway to
      the upper quartile when the sell-through rate exceeds 2. Either way the target lies
      in the band [p25, p75]. */
  lemma TargetInBand(fastFlip: bool, q: Quartiles, sellThroughRate: real, saturation: real)
    requires q.p25 <= q.median <= q.p75
    ensures var d := Decide(fastFlip, q, sellThroughRate, saturation);
      q.p25 <= d.baseTarget <= q.p75
      && (fastFlip ==> d.baseTarget == q.p25)
      && (!fastFlip && sellThroughRate <= 2.0 ==> d.baseTarget == q.median)
      && (!fastFlip && sellThroughRate > 2.0 ==> d.baseTarget == (q.median + q.p75) / 2.0)
      && (!fastFlip ==> q.median <= d.baseTarget)
  {
  }

  /** The discount factor stays in [0.85, 1.0]; the extra 0.05 comes only with FAST_FLIP
      on a saturated market, and nothing is taken off at saturation 1.0 or below. */
  lemma DiscountInRange(fastFlip: bool, q: Quartiles, sellThroughRate: real, saturation: real)
    ensures var d := Decide(fastFlip, q, sellThroughRate, saturation);
      0.85 <= d.discountFactor <= 1.0
      && d.aggressiveness == (if fastFlip && saturation > 1.0 then 0.05 else 0.0)
      && (saturation <= 1.0 ==> d.discountFactor == 1.0)
  {
  }

  /** The recommendation never falls below 85% of the lower quartile, and is either the
      discounted target or that floor. */
  lemma RecommendationAboveFloor(fastFlip: bool, q: Quartiles, sellThroughRate: real, saturation: real)
    ensures var d := Decide(fastFlip, q, sellThroughRate, saturation);
      d.discountedPrice == d.baseTarget * d.discountFactor
      && d.recommendedPrice >= 0.85 * q.p25
      && d.recommendedPrice >= d.discountedPrice
      && (d.recommendedPrice == d.discountedPrice || d.recommendedPrice == 0.85 * q.p25)
  {
  }

  /** With a non-negative lower quartile the floor never binds: the recommendation is the
      discounted target, within [0.85 * p25, p75]. */
  lemma FloorInactive(fastFlip: bool, q: Quartiles, sellThroughRate: real, saturation: real)
    requires 0.0 <= q.p25 <= q.median <= q.p75
    ensures var d := Decide(fastFlip, q, sellThroughRate, saturation);
      d.recommendedPrice == d.discountedPrice
      && 0.85 * q.p25 <= d.recommendedPrice <= q.p75
  {
    var d := Decide(fastFlip, q, sellThroughRate, saturation);
    TargetInBand(fastFlip, q, sellThroughRate, saturation);
    DiscountInRange(fastFlip, q, sellThroughRate, saturation);
    MulNonNegative(d.baseTarget - q.p25, d.discountFactor);
    MulNonNegative(q.p25, d.discountFactor - 0.85);
    MulNonNegative(d.baseTarget, 1.0 - d.discountFactor);
  }

  /** Moving all three order statistics up by `k > 0` moves the target up by `k`, keeps
      the discount, and strictly raises the recommendation. */
  lemma DecisionRisesWithPrices(fastFlip: bool, q: Quartiles, sellThroughRate: real, saturation: real, k: real)
    requires k > 0.0
    ensures var d := Decide(fastFlip, q, sellThroughRate, saturation);
      var e := Decide(fastFlip, Raised(q, k), sellThroughRate, saturation);
      e.baseTarget == d.baseTarget + k && e.discountFactor == d.discountFactor
      && e.recommendedPrice > d.recommendedPrice
  {
    var d := Decide(fastFlip, q, sellThroughRate, saturation);
    var e := Decide(fastFlip, Raised(q, k), sellThroughRate, saturation);
    DiscountInRange(fastFlip, q, sellThroughRate, saturation);
    var f := d.discountFactor;
    MulNonNegative(k, f - 0.85);
    assert e.baseTarget * f == d.baseTarget * f + k * f;
  }

  /** The quartiles of the sold prices; they are ordered and lie within the range of the
      prices. */
  function SoldQuartiles(sold: seq<real>): (q: Quartiles)
    requires |sold| > 0
    ensures Min(sold) <= q.p25 <= q.median <= q.p75 <= Max(sold)
  {
    PercentileMonotone(sold, 25.0, 50.0);
    PercentileMonotone(sold, 50.0, 75.0);
    Quartiles(Percentile(sold, 25.0), Median(sold), Percentile(sold, 75.0))
  }

  /** The price side of the engine (lines 27-33 and 40-61): quartiles, market ratios and
      the strategy's decision for `activeCount` active listings. */
  function MarketPricing(sold: seq<real>, activeCount: nat, strategy: string): Pricing
    requires |sold| > 0
  {
    Decide(IsFastFlip(strategy), SoldQuartiles(sold),
           SellThroughRate(|sold|, activeCount), Saturation(activeCount, |sold|))
  }

  /** Every quantity the engine computes for a non-empty list of sold prices, before
      rounding. */
  datatype Analysis = Analysis(
    quartiles: Quartiles, sellThroughRate: real, saturation: real,
    volatility: real, confidence: real, pricing: Pricing, sellability: real)

  /** Lines 27-65 of `calculate_prices`, for sold prices `sold` and `activeCount` active
      listings. */
  function Analyze(sold: seq<real>, activeCount: nat, strategy: string, num: Numerics): Analysis
    requires |sold| > 0
  {
    var soldCount := |sold|;
    var q := SoldQuartiles(sold);
    var sellThrough := SellThroughRate(soldCount, activeCount);
    var saturation := Saturation(activeCount, soldCount);
    var volatility := Volatility(num.std(sold), q.median);
    var confidence := Confidence(num, soldCount);
    Analysis(q, sellThrough, saturation, volatility, confidence,
             MarketPricing(sold, activeCount, strategy),
             Sellability(sellThrough, volatility, confidence))
  }

  /** Saturation exceeds 1, which switches on FAST_FLIP's aggressiveness, exactly when
      active listings outnumber sales. */
  lemma SaturatedIffMoreActive(soldCount: nat, activeCount: nat)
    requires soldCount >= 1
    ensures Saturation(activeCount, soldCount) > 1.0 <==> activeCount > soldCount
  {
    var s := soldCount as real;
    RatioAbove(Saturation(activeCount, soldCount), s, activeCount as real, 1.0);
  }

  /** The sell-through rate exceeds 2, which lifts MAX_PROFIT's target, exactly when
      sales are more than twice the active listings (or than one, with none active). */
  lemma HighSellThroughIff(soldCount: nat, activeCount: nat)
    ensures SellThroughRate(soldCount, activeCount) > 2.0 <==> soldCount > 2 * MaxOne(activeCount)
  {
    var m := MaxOne(activeCount) as real;
    RatioAbove(SellThroughRate(soldCount, activeCount), m, soldCount as real, 2.0);
    assert (2 * MaxOne(activeCount)) as real == 2.0 * m;
  }

  /** With no negative sold price, the floor never binds and the recommendation lies in
      [0.85 * p25, p75]. */
  lemma FloorInactiveForNonNegativePrices(sold: seq<real>, activeCount: nat, strategy: string)
    requires |sold| > 0
    requires forall i :: 0 <= i < |sold| ==> sold[i] >= 0.0
    ensures var q, d := SoldQuartiles(sold), MarketPricing(sold, activeCount, strategy);
      d.recommendedPrice == d.discountedPrice
      && 0.85 * q.p25 <= d.recommendedPrice <= q.p75
  {
    var q := SoldQuartiles(sold);
    var i :| 0 <= i < |sold| && sold[i] == Min(sold);
    FloorInactive(IsFastFlip(strategy), q,
                  SellThroughRate(|sold|, activeCount), Saturation(activeCount, |sold|));
  }

  /** Given a lawful standard deviation and exponential, volatility is non-negative and
      the sellability score lies in [0, 100). */
  lemma SellabilityInRange(sold: seq<real>, activeCount: nat, strategy: string, num: Numerics)
    requires |sold| > 0 && Lawful(num)
    ensures var a := Analyze(sold, activeCount, strategy, num);
      a.volatility >= 0.0 && 0.0 < a.confidence < 1.0 && 0.0 <= a.sellability < 100.0
  {
    var a := Analyze(sold, activeCount, strategy, num);
    assert num.std(sold) >= 0.0;
    assert 0.0 < Confidence(num, |sold|) < 1.0;
    SellabilityBound(a.sellThroughRate, a.volatility, a.confidence);
  }

  /** Raising every sold price by `k` raises each quartile by exactly `k`. */
  lemma QuartilesShift(sold: seq<real>, k: real)
    requires |sold| > 0
    ensures SoldQuartiles(Shift(sold, k)) == Raised(SoldQuartiles(sold), k)
  {
    var t := Shift(sold, k);
    var q, r := SoldQuartiles(sold), SoldQuartiles(t);
    assert r.p25 == Percentile(t, 25.0);
    assert r.median == Percentile(t, 50.0);
    assert r.p75 == Percentile(t, 75.0);
    PercentileShift(sold, 25.0, k);
    assert r.p25 == q.p25 + k;
    PercentileShift(sold, 50.0, k);
    assert r.median == q.median + k;
    PercentileShift(sold, 75.0, k);
    assert r.p75 == q.p75 + k;
  }

  /** Raising every sold price by `k > 0` keeps the discount and strictly raises the
      recommendation, whatever the strategy and the number of active listings. */
  lemma RaisingSoldPricesRaisesRecommendation(sold: seq<real>, k: real, activeCount: nat, strategy: string)
    requires |sold| > 0 && k > 0.0
    ensures var d, e := MarketPricing(sold, activeCount, strategy), MarketPricing(Shift(sold, k), activeCount, strategy);
      e.discountFactor == d.discountFactor && e.recommendedPrice > d.recommendedPrice
  {
    var t := Shift(sold, k);
    assert |t| == |sold|;
    QuartilesShift(sold, k);
    DecisionRisesWithPrices(IsFastFlip(strategy), SoldQuartiles(sold),
                            SellThroughRate(|sold|, activeCount), Saturation(activeCount, |sold|), k);
  }

  datatype MarketStats = MarketStats(
    activeListings: nat, soldListings: nat,
    sellThroughRate: real, saturation: real, confidenceScore: real)

  /** The dictionary `calculate_prices` returns on success. */
  datatype Report = Report(
    strategy: string, recommendedPrice: real, priceBand: (real, real),
    medianSoldPrice: real, marketStats: MarketStats, sellabilityScore: real)

  /** What a call of `calculate_prices` ends in: the `KeyError` it raises, the error
      dictionary with its debug counts, or the report. */
  datatype Outcome =
    | KeyErrorRaised
    | InsufficientSoldData(soldFound: nat, activeFound: nat)
    | Priced(report: Report)

  /** `calculate_prices(active_listings, sold_listings, strategy)`. */
  function CalculatePrices(active: seq<Listing>, sold: seq<Listing>, strategy: string := "FAST_FLIP",
                           num: Numerics): (r: Outcome)
    ensures r.KeyErrorRaised? <==> !(ValueKeysPresent(active) && ValueKeysPresent(sold))
    ensures r.InsufficientSoldData? <==>
      ValueKeysPresent(active) && ValueKeysPresent(sold) && CountPriced(sold) == 0
    ensures r.InsufficientSoldData? ==> r.soldFound == 0 && r.activeFound == CountPriced(active)
    ensures r.Priced? ==>
      r.report.strategy == Upper(strategy)
      && r.report.marketStats.activeListings == CountPriced(active)
      && r.report.marketStats.soldListings == CountPriced(sold) > 0
  {
    match ExtractPrices(active)
    case MissingValueKey => KeyErrorRaised
    case Extracted(activePrices) =>
      match ExtractPrices(sold)
      case MissingValueKey => KeyErrorRaised
      case Extracted(soldPrices) =>
        if |soldPrices| == 0 then InsufficientSoldData(|soldPrices|, |activePrices|)
        else
          Priced(Assemble(strategy, |activePrices|, |soldPrices|,
                          Analyze(soldPrices, |activePrices|, strategy, num)))
  }

  /** The returned dictionary: the counts as they are, every other number rounded, the
      score to one decimal and the rest to two. Each rounded number lies within half a
      unit of its last digit from the value computed for it. */
  function Assemble(strategy: string, activeCount: nat, soldCount: nat, a: Analysis): (rep: Report)
    ensures rep.strategy == Upper(strategy)
    ensures rep.marketStats.activeListings == activeCount
    ensures rep.marketStats.soldListings == soldCount
    ensures Near(rep.recommendedPrice, a.pricing.recommendedPrice, 0.005)
    ensures Near(rep.priceBand.0, a.quartiles.p25, 0.005)
    ensures Near(rep.priceBand.1, a.quartiles.p75, 0.005)
    ensures Near(rep.medianSoldPrice, a.quartiles.median, 0.005)
    ensures Near(rep.marketStats.sellThroughRate, a.sellThroughRate, 0.005)
    ensures Near(rep.marketStats.saturation, a.saturation, 0.005)
    ensures Near(rep.marketStats.confidenceScore, a.confidence, 0.005)
    ensures Near(rep.sellabilityScore, a.sellability, 0.05)
  {
    RoundNear(a.pricing.recommendedPrice, 2);
    RoundNear(a.quartiles.p25, 2);
    RoundNear(a.quartiles.p75, 2);
    RoundNear(a.quartiles.median, 2);
    RoundNear(a.sellThroughRate, 2);
    RoundNear(a.saturation, 2);
    RoundNear(a.confidence, 2);
    RoundNear(a.sellability, 1);
    Report(
      Upper(strategy),
      Round(a.pricing.recommendedPrice, 2),
      (Round(a.quartiles.p25, 2), Round(a.quartiles.p75, 2)),
      Round(a.quartiles.median, 2),
      MarketStats(activeCount, soldCount, Round(a.sellThroughRate, 2),
                  Round(a.saturation, 2), Round(a.confidence, 2)),
      Round(a.sellability, 1))
  }

  /** `reported` lies within `tol` of `computed`. */
  predicate Near(reported: real, computed: real, tol: real) {
    computed - tol <= reported <= computed + tol
  }

  /** Rounding to two decimals moves a value by at most 0.005, to one by at most 0.05. */
  lemma RoundNear(x: real, ndigits: nat)
    requires ndigits == 1 || ndigits == 2
    ensures Near(Round(x, ndigits), x, if ndigits == 1 then 0.05 else 0.005)
  {
    assert Pow10(1) == 10;
    assert Pow10(2) == 100;
  }

  /** An empty active list alone is no error: with readable listings and at least one
      sold price, a report comes back. */
  lemma EmptyActiveStillPriced(sold: seq<Listing>, strategy: string, num: Numerics)
    requires ValueKeysPresent(sold) && CountPriced(sold) > 0
    ensures CalculatePrices([], sold, strategy, num).Priced?
    ensures CalculatePrices([], sold, strategy, num).report.marketStats.activeListings == 0
  {
  }

  /** The reported recommendation is the computed one to within half a cent. */
  lemma ReportedPriceWithinHalfCent(active: seq<Listing>, sold: seq<Listing>, strategy: string, num: Numerics)
    requires CalculatePrices(active, sold, strategy, num).Priced?
    ensures ExtractPrices(active).Extracted? && ExtractPrices(sold).Extracted?
    ensures |ExtractPrices(sold).prices| > 0
    ensures var a := Analyze(ExtractPrices(sold).prices, |ExtractPrices(active).prices|, strategy, num);
      var reported := CalculatePrices(active, sold, strategy, num).report.recommendedPrice;
      a.pricing.recommendedPrice - 0.005 <= reported <= a.pricing.recommendedPrice + 0.005
  {
    assert Pow10(2) == 100;
  }

  /** Every other number of the report is its computed value rounded: the band ends, the
      median, the two ratios and the confidence to within 0.005, the score to within 0.05. */
  lemma ReportedFieldsWithinHalfUnit(active: seq<Listing>, sold: seq<Listing>, strategy: string, num: Numerics)
    requires CalculatePrices(active, sold, strategy, num).Priced?
    ensures ExtractPrices(active).Extracted? && ExtractPrices(sold).Extracted?
    ensures |ExtractPrices(sold).prices| > 0
    ensures var a := Analyze(ExtractPrices(sold).prices, |ExtractPrices(active).prices|, strategy, num);
      var rep := CalculatePrices(active, sold, strategy, num).report;
      Near(rep.priceBand.0, a.quartiles.p25, 0.005)
      && Near(rep.priceBand.1, a.quartiles.p75, 0.005)
      && Near(rep.medianSoldPrice, a.quartiles.median, 0.005)
      && Near(rep.marketStats.sellThroughRate, a.sellThroughRate, 0.005)
      && Near(rep.marketStats.saturation, a.saturation, 0.005)
      && Near(rep.marketStats.confidenceScore, a.confidence, 0.005)
      && Near(rep.sellabilityScore, a.sellability, 0.05)
  {
  }

  /** Rounding keeps the reported band in order: the lower quartile, the median and the
      upper quartile come out non-decreasing, so the median lies inside the band. */
  lemma ReportedBandOrdered(active: seq<Listing>, sold: seq<Listing>, strategy: string, num: Numerics)
    requires CalculatePrices(active, sold, strategy, num).Priced?
    ensures var rep := CalculatePrices(active, sold, strategy, num).report;
      rep.priceBand.0 <= rep.medianSoldPrice <= rep.priceBand.1
  {
    var prices := ExtractPrices(sold).prices;
    var q := SoldQuartiles(prices);
    RoundMonotone(q.p25, q.median, 2);
    RoundMonotone(q.median, q.p75, 2);
  }

  /** The reported sellability is the score rounded to one decimal, so it lies in
      [0, 100]; the upper end is reachable after rounding although the unrounded score
      stays below 100. */
  lemma ReportedSellabilityInRange(active: seq<Listing>, sold: seq<Listing>, strategy: string, num: Numerics)
    requires CalculatePrices(active, sold, strategy, num).Priced? && Lawful(num)
    ensures 0.0 <= CalculatePrices(active, sold, strategy, num).report.sellabilityScore <= 100.0
  {
    var prices := ExtractPrices(sold).prices;
    var a := Analyze(prices, |ExtractPrices(active).prices|, strategy, num);
    SellabilityInRange(prices, |ExtractPrices(active).prices|, strategy, num);
    ScoreRoundingInRange(a.sellability);
  }

  lemma ScoreRoundingInRange(score: real)
    requires 0.0 <= score < 100.0
    ensures 0.0 <= Round(score, 1) <= 100.0
  {
    RoundMonotone(0.0, score, 1);
    RoundMonotone(score, 100.0, 1);
    assert Pow10(1) == 10;
    assert RoundHalfEven(0.0) == 0 && RoundHalfEven(1000.0) == 1000;
  }

  /** A score of 99.96 is reported as 100.0. */
  lemma RoundedScoreReachesHundred()
    ensures Round(99.96, 1) == 100.0
  {
    assert Pow10(1) == 10;
    assert RoundHalfEven(999.6) == 1000;
  }

  /** Five sales (20, 25, 30, 22, 28), sorted ascending. */
  lemma FiveSalesSorted()
    ensures Sort([20.0, 25.0, 30.0, 22.0, 28.0]) == [20.0, 22.0, 25.0, 28.0, 30.0]
  {
    var sold, s := [20.0, 25.0, 30.0, 22.0, 28.0], [20.0, 22.0, 25.0, 28.0, 30.0];
    assert multiset(s) == multiset(sold);
    SortIsUnique(sold, s);
  }

  /** Their quartiles fall on the second, third and fourth sorted values. */
  lemma FiveSalesQuartiles()
    ensures SoldQuartiles([20.0, 25.0, 30.0, 22.0, 28.0]) == Quartiles(22.0, 25.0, 28.0)
  {
    var sold := [20.0, 25.0, 30.0, 22.0, 28.0];
    var s := [20.0, 22.0, 25.0, 28.0, 30.0];
    FiveSalesSorted();
    assert Rank(5, 25.0) == 1 as real;
    assert Rank(5, 50.0) == 2 as real;
    assert Rank(5, 75.0) == 3 as real;
    InterpolateAtIndex(s, 1);
    InterpolateAtIndex(s, 2);
    InterpolateAtIndex(s, 3);
  }

  /** Against five active listings, sell-through and saturation are both 1, so FAST_FLIP
      recommends the lower quartile 22 undiscounted and MAX_PROFIT the median 25. */
  lemma FiveSalesScenario()
    ensures MarketPricing([20.0, 25.0, 30.0, 22.0, 28.0], 5, "FAST_FLIP").recommendedPrice == 22.0
    ensures MarketPricing([20.0, 25.0, 30.0, 22.0, 28.0], 5, "MAX_PROFIT").recommendedPrice == 25.0
  {
    FiveSalesQuartiles();
    BalancedMarket(5);
    DefaultNameIsFastFlip();
    MaxProfitNameIsNotFastFlip();
  }
}
