# eBay Price Advisor: the pricing engine in Dafny

This project models `calculate_prices`, the pricing engine of the eBay Price Advisor.
The engine takes the active listings and the sold listings of one product and a strategy
name (`FAST_FLIP` by default, otherwise `MAX_PROFIT`). Its steps are:

- read the `value` of every listing whose `price` entry is present and non-empty;
- give up with an error record when no sold price is found;
- take the median and the 25th and 75th percentiles of the sold prices;
- take the sell-through rate `S / max(1, A)` and the saturation `A / max(1, S)`;
- pick a target by strategy;
- take off a tiered discount and hold the result above 85% of the lower quartile;
- score sellability;
- return a report whose numbers are rounded.

The engine is a pure function, and it is modelled as pure Dafny functions over `real`.

Modules:

- `RealArith`: sign facts about products and ratios of reals.
- `NumpyStats`: numpy's default statistics. The sample is sorted (an insertion sort, proved to
  be a permutation and proved unique). The percentile is linear interpolation at rank
  `(n - 1) * q / 100`, and the median is the 50th percentile.
- `PyBuiltins`: the two Python built-ins the engine depends on. `str.upper` decides the
  strategy branch, and `round(x, ndigits)` rounds to nearest with ties to even.
- `PricingEngine`: the engine itself.
  - `ExtractPrices` is the two list comprehensions. It includes the `KeyError` that one of
    them raises on a non-empty price dictionary with no `value`.
  - `Decide` is the strategy, discount and floor logic over given quartiles and ratios.
  - `SoldQuartiles`, `MarketPricing` and `Analyze` compose those steps.
  - `CalculatePrices` is the whole call. Its `Outcome` is the `KeyError`, the error record
    with its debug counts, or the report.

The code comments at src/core/pricing_engine.py:11 say that zero prices are filtered out.
The code does not do that: the filter tests whether the `price` dictionary is truthy, not
what its value is. The model follows the code, and `ZeroPriceKept` states the behaviour.

`calculate_prices` reads only `price['value']`. It adds no shipping cost, gives the
market no health label, does not undercut the cheapest active listing, has no competitor
ceiling and does not clamp the score.

## Model

| member | source | states |
|---|---|---|
| PricingEngine.ExtractPrices | src/core/pricing_engine.py:12-13 | Extraction succeeds exactly when every listing that passes the `price` filter has a `value` entry. Otherwise it raises `KeyError`. On success there is one price per listing that passes the filter. |
| PricingEngine.ExtractedInOrder | src/core/pricing_engine.py:12-13 | The value of the i-th listing, when it passes the filter, sits at the position equal to the number of earlier listings that pass. Extraction keeps input order and drops nothing else. |
| PricingEngine.HasPrice | src/core/pricing_engine.py:12-13 | The `if i.get('price')` filter: the `price` entry is present and its dictionary is non-empty. Its consequences are stated by `CountPriced` and `ExtractPrices`. |
| PricingEngine.CountPriced | src/core/pricing_engine.py:12-16 | The number of listings that pass the filter, which is `A` or `S`. It is at most the number of listings, and it is 0 exactly when no listing passes. |
| PricingEngine.ZeroPriceKept | src/core/pricing_engine.py:11-13 | A listing priced at 0 is kept, whatever other entries its price dictionary has. |
| PricingEngine.CalculatePrices | src/core/pricing_engine.py:5-80 | `KeyError` exactly when one of the extractions raises. Otherwise there is an error record exactly when no sold price was found, with `sold_found = 0` and `active_found = A`. Otherwise there is a report naming the upper-cased strategy and carrying `A` and `S > 0`. `ReportedPriceWithinHalfCent` and `ReportedFieldsWithinHalfUnit` tie each reported number to the value computed for it. |
| PricingEngine.EmptyActiveStillPriced | src/core/pricing_engine.py:20-24 | With no active listings and at least one sold price, a report still comes back with `active_listings = 0`. |
| PricingEngine.ReportedPriceWithinHalfCent | src/core/pricing_engine.py:57-69 | The reported recommendation is within 0.005 of the unrounded recommendation of the extracted prices. |
| PricingEngine.ReportedFieldsWithinHalfUnit | src/core/pricing_engine.py:67-80 | In the report, p25, p75, the median, the sell-through rate, the saturation and the confidence each lie within 0.005 of the value computed for that same field, and the sellability score within 0.05. |
| PricingEngine.Assemble | src/core/pricing_engine.py:67-80 | The returned dictionary carries the upper-cased strategy and the counts `A` and `S` unchanged. Each rounded number lies within half a unit of its last digit from the value computed for its own field: 0.005 for the price, the band ends, the median, the ratios and the confidence, and 0.05 for the score. |
| PricingEngine.RoundNear | src/core/pricing_engine.py:69-79 | Rounding to two decimals moves a value by at most 0.005, and rounding to one decimal by at most 0.05. |
| PricingEngine.ReportedBandOrdered | src/core/pricing_engine.py:70-71 | In the report, the lower end of the price band is at most the median sold price, which is at most the upper end. |
| NumpyStats.Sort | src/core/pricing_engine.py:27-29 | The sorted sample has the same length and is ascending. |
| NumpyStats.SortPermutes | src/core/pricing_engine.py:27-29 | The sorted sample holds the same values, with the same multiplicities, as the input. |
| NumpyStats.SortIsUnique | src/core/pricing_engine.py:27-29 | Any ascending rearrangement of the sample is the sorted sample, so the statistics do not depend on how sorting is done. |
| NumpyStats.SortedUnique | src/core/pricing_engine.py:27-29 | Two ascending sequences with the same values are equal. |
| NumpyStats.Rank | src/core/pricing_engine.py:28-29 | The interpolation rank `(n - 1) q / 100` lies in [0, n - 1] for q in [0, 100]. |
| NumpyStats.Lerp | src/core/pricing_engine.py:28-29 | Interpolating between two ordered values gives a value between them. |
| NumpyStats.Percentile | src/core/pricing_engine.py:28-29 | `np.percentile(P, q)` lies between the minimum and the maximum of `P`. |
| NumpyStats.SortedEnds | src/core/pricing_engine.py:27-29 | The first sorted value is the minimum of the sample and the last one is the maximum. |
| NumpyStats.PercentileMonotone | src/core/pricing_engine.py:27-29 | A higher percentile is never smaller. |
| NumpyStats.InterpolateAtIndex | src/core/pricing_engine.py:28-29 | At a whole rank, the percentile is that sorted value. |
| NumpyStats.MedianIsMiddle | src/core/pricing_engine.py:27 | `np.median` is the middle sorted value for an odd count. For an even count it is the mean of the two middle values. |
| NumpyStats.PercentileShift | src/core/pricing_engine.py:27-29 | Adding `k` to every price adds `k` to every percentile. |
| NumpyStats.SortShift | src/core/pricing_engine.py:27-29 | Sorting commutes with adding the same amount to every price. |
| NumpyStats.Interpolate | src/core/pricing_engine.py:28-29 | numpy's linear method at rank `h` of the sorted sample. `InterpolateWithin` bounds it by the two neighbouring values and by the ends of the sample, `InterpolateMonotone` shows it rises with `h`, and `InterpolateAtIndex` shows it reads the element at a whole rank. |
| NumpyStats.InterpolateWithin | src/core/pricing_engine.py:28-29 | The interpolated value lies between its two neighbouring sorted values, and so between the first and the last. |
| NumpyStats.InterpolateMonotone | src/core/pricing_engine.py:28-29 | Over an ascending sample, a higher rank never gives a smaller value. |
| NumpyStats.Median | src/core/pricing_engine.py:27 | `np.median(P)` lies between the minimum and the maximum of `P`. `MedianIsMiddle` states its value. |
| PricingEngine.SoldQuartiles | src/core/pricing_engine.py:27-29 | min(P) <= p25 <= median <= p75 <= max(P). |
| PricingEngine.QuartilesShift | src/core/pricing_engine.py:27-29 | Raising every sold price by `k` raises each of the three quartiles by exactly `k`. |
| PricingEngine.SellThroughRate | src/core/pricing_engine.py:32 | The sell-through rate is non-negative, and multiplied by `max(1, A)` it gives `S`, so no division by zero happens even at `A = 0`. With no active listing it is `S`. |
| PricingEngine.Saturation | src/core/pricing_engine.py:33 | Saturation is non-negative, and multiplied by `max(1, S)` it gives `A`. With no active listing it is 0. |
| PricingEngine.RatesReciprocal | src/core/pricing_engine.py:32-33 | With at least one sale and one active listing, the two ratios multiply to 1. |
| PricingEngine.BalancedMarket | src/core/pricing_engine.py:32-33 | With as many active listings as sales, both ratios are exactly 1. |
| PricingEngine.SaturatedIffMoreActive | src/core/pricing_engine.py:42 | Saturation exceeds 1.0, which turns on FAST_FLIP's aggressiveness, exactly when active listings outnumber sales. |
| PricingEngine.HighSellThroughIff | src/core/pricing_engine.py:45 | The sell-through rate exceeds 2.0 exactly when sales exceed twice `max(1, A)`. |
| PricingEngine.Volatility | src/core/pricing_engine.py:36 | Volatility is non-negative when the standard deviation is, and 0 when the median is not positive. |
| PricingEngine.Confidence | src/core/pricing_engine.py:37 | `1 - exp(-S / 10)` with the caller's exponential. `SellabilityInRange` states that it lies in (0, 1) for `S >= 1`. |
| PricingEngine.IsFastFlip | src/core/pricing_engine.py:40 | The branch test `strategy.upper() == 'FAST_FLIP'`. Only a name of one to nine characters can select FAST_FLIP, since upper-casing never shortens a name. The four lemmas below state its value for the default name, the lower-case name, a ligature spelling and `MAX_PROFIT`. |
| PricingEngine.DefaultNameIsFastFlip | src/core/pricing_engine.py:40 | The default name `FAST_FLIP` takes the FAST_FLIP branch. |
| PricingEngine.LowerCaseNameIsFastFlip | src/core/pricing_engine.py:40 | `fast_flip` takes the FAST_FLIP branch too, since the name is upper-cased before the comparison. |
| PricingEngine.LigatureSpellingIsFastFlip | src/core/pricing_engine.py:40 | A spelling with the long s and the fl ligature, which Python upper-cases to `FAST_FLIP`, takes the FAST_FLIP branch. |
| PricingEngine.MaxProfitNameIsNotFastFlip | src/core/pricing_engine.py:40-47 | `MAX_PROFIT` takes the other branch. |
| PyBuiltins.UpperChar | src/core/pricing_engine.py:40 | Python's uppercase image of one character for ASCII, for Latin-1 and for the characters whose uppercase is spelt with letters of `FAST_FLIP`: one character for most letters, and two or three for the sharp s and the Latin ligatures. Every other character maps to itself. The image is never empty. |
| PyBuiltins.Upper | src/core/pricing_engine.py:68 | `str.upper` maps each character in order and never shortens the string. `UpperAppend` and `UpperIdempotent` state its structure. |
| PyBuiltins.UpperKeepsCapitals | src/core/pricing_engine.py:40 | Upper-casing leaves a string of capitals, digits and underscores unchanged. |
| PyBuiltins.UpperOfSmallLetters | src/core/pricing_engine.py:40 | On small ASCII letters, digits and underscores, upper-casing maps each small letter to its capital and keeps the length. |
| PyBuiltins.UpperAppend | src/core/pricing_engine.py:68 | Upper-casing distributes over concatenation. |
| PyBuiltins.UpperIdempotent | src/core/pricing_engine.py:68 | The strategy name in the report is already upper case: upper-casing it again changes nothing. |
| PricingEngine.Decide | src/core/pricing_engine.py:40-61 | The strategy target, aggressiveness, tiered discount, floor and recommendation for given quartiles and ratios. `TargetInBand`, `DiscountInRange`, `RecommendationAboveFloor`, `FloorInactive` and `DecisionRisesWithPrices` state its properties. |
| PricingEngine.TargetInBand | src/core/pricing_engine.py:40-47 | FAST_FLIP targets p25. MAX_PROFIT targets the median, or (median + p75) / 2 when the sell-through rate exceeds 2.0. The target always lies in [p25, p75]. |
| PricingEngine.DiscountFactor | src/core/pricing_engine.py:50-55 | Exactly one tier of 0, 0.05 or 0.10 is taken off: 0 at saturation 1.5 or below, 0.10 exactly above 3.0. The factor stays in [0.85, 1.0] for aggressiveness in [0, 0.05]. |
| PricingEngine.DiscountInRange | src/core/pricing_engine.py:42-55 | The discount factor of any decision lies in [0.85, 1.0]. Aggressiveness is 0.05 for FAST_FLIP at saturation above 1.0 and 0 otherwise. At saturation 1.0 or below nothing is taken off. |
| PricingEngine.RecommendationAboveFloor | src/core/pricing_engine.py:57-61 | The recommendation is at least 0.85 * p25 and at least the discounted target, and it is one of the two. |
| PricingEngine.FloorInactive | src/core/pricing_engine.py:57-61 | With 0 <= p25 <= median <= p75, the floor never binds: the recommendation is target * discount, within [0.85 * p25, p75]. |
| PricingEngine.MarketPricing | src/core/pricing_engine.py:27-61 | The decision taken on the quartiles and the two ratios of the sold prices. `FloorInactiveForNonNegativePrices`, `RaisingSoldPricesRaisesRecommendation` and `FiveSalesScenario` state its properties. |
| PricingEngine.FloorInactiveForNonNegativePrices | src/core/pricing_engine.py:27-61 | With no negative sold price, the recommendation is the discounted target for either strategy, within [0.85 * p25, p75]. |
| PricingEngine.DecisionRisesWithPrices | src/core/pricing_engine.py:40-61 | Raising p25, the median and p75 by `k > 0` raises the target by `k`, keeps the discount and strictly raises the recommendation. |
| PricingEngine.RaisingSoldPricesRaisesRecommendation | src/core/pricing_engine.py:27-61 | Raising every sold price by `k > 0` keeps the discount and strictly raises the recommendation, for any strategy and any active count. |
| PricingEngine.Sellability | src/core/pricing_engine.py:65 | `score_raw * 100 * confidence`. `SellabilityBound` bounds it. |
| PricingEngine.ScoreRaw | src/core/pricing_engine.py:64 | With non-negative inputs, the raw score lies in [0, 1]. |
| PricingEngine.SellabilityBound | src/core/pricing_engine.py:64-65 | With non-negative inputs and a confidence strictly between 0 and 1, sellability lies in [0, 100). |
| PricingEngine.Analyze | src/core/pricing_engine.py:27-65 | Every unrounded quantity of a call with sold prices: quartiles, ratios, volatility, confidence, decision and sellability. `SellabilityInRange` bounds volatility, confidence and sellability. |
| PricingEngine.SellabilityInRange | src/core/pricing_engine.py:35-65 | Given a non-negative standard deviation and an exponential with 0 < 1 - exp(-S/10) < 1, volatility is non-negative, the confidence lies in (0, 1) and the unrounded sellability lies in [0, 100). |
| PyBuiltins.RoundHalfEven | src/core/pricing_engine.py:69-79 | The result is within 0.5 of its argument, and on a tie it is even. |
| PyBuiltins.NearestEvenUnique | src/core/pricing_engine.py:69-79 | Only one integer meets that contract, so it fixes Python's rounding. |
| PyBuiltins.Round | src/core/pricing_engine.py:69-79 | `round(x, ndigits)` moves `x` by at most half a unit in the last kept digit. `RoundMonotone` shows it keeps order. |
| PyBuiltins.RoundToStep | src/core/pricing_engine.py:69-79 | Rounding gives a whole number of steps, the rounded scaled value, and moves `x` by at most half a step. |
| PyBuiltins.RoundMonotone | src/core/pricing_engine.py:69-79 | `round(x, ndigits)` never reverses the order of two numbers. |
| PricingEngine.ReportedSellabilityInRange | src/core/pricing_engine.py:64-79 | The reported sellability score, rounded to one decimal, lies in [0, 100]. |
| PricingEngine.ScoreRoundingInRange | src/core/pricing_engine.py:79 | Rounding a score in [0, 100) to one decimal gives a value in [0, 100]. |
| PricingEngine.RoundedScoreReachesHundred | src/core/pricing_engine.py:79 | A score of 99.96 is reported as 100.0, so the upper end is reachable after rounding. |
| PricingEngine.FiveSalesSorted | src/core/pricing_engine.py:27 | The sales 20, 25, 30, 22, 28 sort to 20, 22, 25, 28, 30. |
| PricingEngine.FiveSalesQuartiles | src/core/pricing_engine.py:27-29 | Their p25, median and p75 are 22, 25 and 28. |
| PricingEngine.FiveSalesScenario | src/core/pricing_engine.py:27-61 | With five active listings, FAST_FLIP recommends 22 and MAX_PROFIT recommends 25. |

## Left out

- The rest of the repository is not part of this model:
  - src/core/ebay_client.py (marketplace HTTP calls);
  - src/core/llm_filter.py (the LLM relevance filter);
  - src/main.py (command-line glue);
  - src/check_models.py (model listing).
  All of these are network I/O or foreign calls.
- Floating point: prices and ratios are exact reals, so IEEE-754 rounding of the intermediate
  arithmetic is not modelled. For example, `1.0 - 0.10 - 0.05` is exactly 0.85 here.
- `np.std` and `math.exp` are supplied by the caller as the `Numerics` record. Only the
  facts the engine relies on are assumed about them (`Lawful`): the standard deviation is
  never negative, and `1 - exp(-S/10)` lies strictly in (0, 1) for `S >= 1`.
- `float()` of the `value` entry: values are taken as numbers. Two error paths are not
  modelled: a non-numeric string raises `ValueError`, and a `value` of `None` raises
  `TypeError`.
- Listings are modelled only through their `price` entry. Two more error paths are not
  modelled: a listing that is not a dictionary, where `.get` fails, and a truthy `price`
  entry that is not a dictionary, where `i['price']['value']` raises `TypeError`.
- PyBuiltins.Upper, PyBuiltins.UpperChar: upper-casing is exact for ASCII, for Latin-1, and for every character whose
  uppercase is spelt with letters of `FAST_FLIP` (sharp s, dotless i, long s, and the Latin
  ligatures U+FB00 to U+FB06). Every other character is left unchanged. So the FAST_FLIP
  test is decided exactly as in Python, but the upper-cased name in the report can differ
  from Python's for other scripts.
- PyBuiltins.Round: rounding is exact-decimal round-half-even. The quartiles, the median
  and the recommendation are numpy float64 values, so `round` at lines 69-71 is numpy's:
  it scales by 10^n, rounds half to even and divides back, all in binary floating point.
  The score at line 79 is a numpy float64 too whenever the median is positive and the
  volatility is at most 1.0, since the volatility then comes from `np.std`. Above 1.0,
  `min(volatility, 1.0)` gives the Python float `1.0` and the score is a Python float. The ratios and the confidence at lines 75-77 go
  through Python's float `round`, which rounds the exact binary value. Over exact reals
  both agree with `Round`. On doubles, a tie such as `round(2.675, 2)` can fall
  differently.
