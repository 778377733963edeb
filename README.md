# Synthetic intermittent-demand generator: verified model

`main.py` synthesises daily demand series for a number of spare-parts items
("SKUs"). Each item has a demand category, a base daily occurrence rate, a
peak year with an annual decay after it, and a demand-size distribution. For
every item and every calendar day of a window, the generator draws whether
demand occurs and how large it is. It then returns the rows sorted by
(Material, Demand Date).

This Dafny project models the deterministic core of that generator and
proves its properties. There are four modules, one per part of the program:

- `NbSolver` (`nb_solver.dfy`) models `nb_params`. It turns a target mean
  and CV of the demand size into numpy's Negative-Binomial `(r, p)`, with
  `p` clipped into [1e-6, 1 - 1e-6]. When the variance does not exceed the
  mean it returns the Poisson fallback instead. Arithmetic is over `real`.
- `DailyDemand` (`daily_demand.dfy`) models the per-day rule:
  - the ageing multiplier with its 10% floor;
  - the day-of-week factor (1.0, Saturday 0.6, Sunday 0.4);
  - the July/December factor 1.25;
  - the Bernoulli gate `u < rate`;
  - the floor of 1 on an occurring day's size.
- `Labels` (`sku_labels.dfy`) models the `SKU-%04d` label as a string
  function. It also models Python's string order, which the final sort uses.
- `Generator` (`generator.dfy`) models `generate_data`'s loops as
  imperative methods:
  - `AssembleRecords` runs the item-major outer loop.
  - `ItemDays` runs the day-minor inner loop.
  - `GenerateData` assembles the rows and then applies the sort.

  Each method is proved against the functions `Run`, `ItemRun` and
  `DayStep`, which describe the same loops as recursion. Those functions are
  stated for any daily rate `rate(item, day)` and any label function
  `skuOf(idx)`. The methods instantiate them with the program's own
  `EffectiveRate` (through `RateIn`) and `SkuLabel`.

Randomness is passed in:

- `gate(k)` is the k-th uniform draw of the occurrence gate. One draw is
  taken per row, so row k uses `gate(k)`.
- `sample(dist, k)` is the k-th raw demand-size draw, taken for an item
  whose solver result is `dist`. A draw is taken only on a day with demand.
  The model constrains only the order of these draws, not their values:
  `dist` does not carry the mean of a Poisson item, so it does not identify
  the law the source draws from. The order is proved: the row of item i
  and day d uses draw number n, where n counts the rows with demand before
  it (`Generator.RunRowDraw`).

The calendar is also given. A `Day` carries its year, month, weekday and an
ordinal that orders the days.

The sort is a library call, so it is modelled by what it produces:
`IsSortOf(out, recs)` holds when `out` is ascending by key and a
permutation of `recs`. `GenerateData` takes any function that meets this
specification. The model proves two things about the sort:

- With up to 9999 items and a window of increasing days, the appended rows
  are already strictly sorted, so the sort returns them unchanged.
- From 10000 items on, "SKU-10000" sorts before "SKU-9999", so the sort
  must reorder the rows.

## Model

| member | source | states |
|---|---|---|
| NbSolver.NbParams | main.py:27-39 | Poisson exactly when (cv*mean)^2 <= mean; otherwise an NB pair with r > 0 and p inside [1e-6, 1 - 1e-6] |
| NbSolver.Clip | main.py:38 | the clipped value lies within the bounds, is unchanged inside them, is the floor below them and the ceiling above them |
| NbSolver.ShapeSign | main.py:35-36 | on the NB branch the mean is non-zero, r = mean^2/(var - mean) is positive and r + mean has the sign of the mean, so p = r/(r + mean) never divides by zero |
| NbSolver.PoissonIffUnitDispersion | main.py:32-34 | for a positive mean the Poisson fallback is taken exactly when cv^2 * mean <= 1 |
| NbSolver.NbMomentsMatch | main.py:35-38 | before clipping, 0 < p < 1, r(1-p)/p equals the mean and r(1-p)/p^2 equals (cv*mean)^2; the solver always returns that r, returns exactly (r, p) when p needs no clipping, p = 1e-6 when p is below that, and p = 1 - 1e-6 when p is above that |
| NbSolver.NegativeMeanClipsToFloor | main.py:32-38 | a negative mean with non-zero CV always takes the NB branch, and its p is clipped to 1e-6 |
| DailyDemand.AgeingMultiplier | main.py:84-85 | the multiplier is at least 0.1, at most 1 for a non-negative decay, exactly 1 up to and including the peak year, and past the peak 1 - decay * (years since the peak) while that is at least 0.1, exactly 0.1 once it is not |
| DailyDemand.AgeingNonIncreasing | main.py:84-85 | with a non-negative decay the multiplier never grows from one year to a later one |
| DailyDemand.AgeingScenario | main.py:84-85 | peak year 1, decay 0.1 and base rate 1.0 give an aged rate of 0.6 five years after the start |
| DailyDemand.DayOfWeekFactor | main.py:88-89 | the factor lies in [0.4, 1.0] and is 1.0 exactly for weekdays 0-4 |
| DailyDemand.SeasonalFactor | main.py:90 | the factor is 1.25 exactly in July and December and 1.0 in every other month |
| DailyDemand.EffectiveRate | main.py:84-91 | for a non-negative base rate and decay the day's rate lies between 0.04 and 1.25 times the base rate |
| DailyDemand.PlainDayRateIsAged | main.py:84-91 | on a Monday-to-Friday day outside July and December the day's rate is the base rate times the ageing multiplier of the day's year |
| DailyDemand.SeasonalScaling | main.py:90-91 | in the same year and on the same weekday, a July or December rate is 1.25 times the rate in any other month |
| DailyDemand.WeekendScaling | main.py:88-91 | in the same year and month, a Saturday's rate is 0.6 times and a Sunday's 0.4 times a Monday-to-Friday rate |
| DailyDemand.SaturdayScenario | main.py:84-91 | with no decay and base rate 0.8, a Saturday's rate is 0.8 * 0.6 times the month's seasonal factor |
| DailyDemand.DayQuantity | main.py:94-100 | the quantity is 0 exactly when u >= rate; otherwise it is at least 1 and at least the raw draw, equals the draw when the draw is positive, and is exactly 1 when the draw is 0 |
| DailyDemand.SaturatedRateAlwaysOccurs | main.py:91-100 | with no clamp on the rate, a rate above 1 yields demand for every draw u in [0, 1) |
| DailyDemand.DenseRateExceedsOne | main.py:65-91 | a smooth item inside the sampled ranges reaches a rate of 1.125 (above 1) on a July weekday |
| DailyDemand.SampledRateBounds | main.py:64-91 | for items inside the sampled ranges the rate is positive and at most 1.25, and below 0.125 for the sparse categories |
| Labels.SkuLabel | main.py:62 | the label is "SKU-" followed by at least four digits |
| Labels.SkuLabelRoundTrip | main.py:62 | reading the number back from a label gives the 0-based position, so distinct items never share a label |
| Labels.SkuLabelOrder | main.py:62 | for positions below 9999, labels compare in Python string order as their positions do |
| Labels.SkuLabelsIncrease | main.py:62 | up to 9999 items, the labels strictly increase in string order with the position |
| Labels.LabelOrderBreaksPastFourDigits | main.py:62 | "SKU-10000" (position 9999) sorts before "SKU-9999" (position 9998) |
| Labels.LexLessTransitive | main.py:105 | Python's string order is transitive |
| Generator.SampledItemsSolvable | main.py:75-79 | items inside the sampled ranges never reach the solver's division by zero |
| Generator.GenerateData | main.py:58-105 | the result is a sort by (Material, Demand Date) of the appended rows, with (number of items) * (number of days) rows; up to 9999 items over increasing days it is the appended order itself |
| Generator.AssembleRecords | main.py:58-102 | the nested loops produce exactly the rows of the recursive specification Run, (number of items) * (number of days) of them |
| Generator.ItemDays | main.py:82-102 | one item's day loop appends exactly the rows and consumes exactly the size draws that ItemRun specifies |
| Generator.RunLength | main.py:58-102 | the loops append exactly (number of items) * (number of days) rows |
| Generator.RunPrefix | main.py:58-102 | the rows of the first n items are a prefix of the whole output: later items never change earlier rows |
| Generator.RunRow | main.py:60-102 | row i * (number of days) + d exists and holds day d under item i's label; its size is 0 exactly when that row's gate draw is not below the rate |
| Generator.GeneratedRow | main.py:60-102 | the same with the program's own labels and rate: date days[d], label SkuLabel(i), size 0 exactly when gate(k) >= EffectiveRate, and otherwise the day quantity of the size draw numbered by the rows with demand before row k, from the item's solved distribution |
| Generator.RunCounted | main.py:82-100 | the loops take exactly one size draw per row with demand: the draw counter they end with is the number of rows with a non-zero size |
| Generator.RunRowDraw | main.py:60-100 | row i * (number of days) + d has the day quantity of its gate draw and of the size draw numbered by the rows with demand before it, taken from item i's solved distribution; so the draws are used in order, one per occurring row, item-major and day-minor |
| Generator.SortOfStrictlySortedIsIdentity | main.py:105 | a strictly sorted sequence has exactly one sort, itself |
| Generator.RunIsSorted | main.py:60-102 | with labels increasing in string order and increasing days, the appended rows are strictly sorted by (Material, Demand Date) |
| Generator.RunNeedsNoSort | main.py:104-105 | with at most 9999 items and increasing days, every sort of the rows by key equals the appended rows |
| Labels.SkuLabelsDistinct | main.py:62 | distinct positions get distinct labels, for any number of items |
| Generator.RunKeysDistinct | main.py:60-102 | with labels distinct between items and increasing days, no two rows share a (Material, Demand Date) key |
| Generator.GeneratedKeysDistinct | main.py:60-105 | with the program's labels and increasing days, no two generated rows share a (Material, Demand Date) key, whatever the number of items |
| Generator.SortReordersPastFourDigits | main.py:62-105 | with 10000 or more items and at least one day, the appended rows are not in (Material, Demand Date) order, so the sort must reorder them |

## Left out

- The command line (`parse_args`), the `__main__` block, `print` and `to_csv` (main.py:10-23, 110-116) are I/O glue and are not modelled.
- The `tqdm` progress bar (main.py:60) is display only.
- The numpy and scipy random calls are not modelled (main.py:47-53, 66-77, 94-98). These cover the category choice, the parameter draws, `np.random.rand()`, `poisson.rvs` and `nbinom.rvs`. Items are given as a sequence of drawn parameters. The `Sampled` predicate states the ranges the draws come from.
- The single numpy stream is split into two streams: `gate` for the occurrence draws and `sample` for the size draws. How many underlying uniform draws one `rvs` call consumes is internal to scipy, so the exact interleaving of the one stream is not captured. The order within each stream is.
- `Sampled` states the sparse base rate only as 0 < rate < 0.1. The exact range [10^-3.5, 0.1) of `10 ** uniform(-3.5, -1.0)` needs an exponential, which is not modelled.
- The calendar is not modelled (main.py:55-56, 84-90). That covers `pd.date_range` and the pandas `.year`, `.month` and `.weekday()` accessors. Days are given with their year, month and weekday, ordered by an ordinal.
- Floating-point rounding is not modelled. All formulas are over exact reals.
- The pandas sort algorithm is not modelled; only its specification is (sorted by key, and a permutation). pandas sorts on two columns with a stable lexsort. Stability makes no difference here: over a window of increasing days every row's (Material, Demand Date) key is distinct, for any number of items (`Generator.GeneratedKeysDistinct`).
- Building the DataFrame (main.py:104) is modelled as the sequence of `Record(date, material, size)` rows.
- NbSolver.NbParams: requires `mean >= 0 || cv != 0`. In the one excluded case (negative mean, zero CV), in exact arithmetic, r = mean^2 / (0 - mean) = -mean is positive and r + mean is 0, so the source divides r by 0 at main.py:36 and raises `ZeroDivisionError`. In floating point r can round away from -mean (for mean = -0.1, r + mean comes out near 1.4e-17), and then p is huge and clipped to 1 - 1e-6 instead. Sampled means are at least 1, so generated items never reach it.
