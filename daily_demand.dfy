// The per-day occurrence rate and quantity rule of the daily series
// generator: ageing decay after the peak year, the day-of-week and
// July/December factors, the Bernoulli gate and the floor of 1 on an
// occurring day's size.

module DailyDemand {

  /** The demand-pattern category drawn for an item. */
  datatype Category = Smooth | Erratic | Slow | Lumpy

  /** One item's drawn parameters: base daily rate, peak year offset, annual
      decay after the peak, and the target mean and CV of the demand size. */
  datatype Item = Item(
    category: Category,
    dailyRate: real,
    peakYear: int,
    decay: real,
    meanSize: real,
    cvSize: real)

  /** Monday = 0 ... Sunday = 6. */
  type Weekday = w: int | 0 <= w <= 6

  /** January = 1 ... December = 12. */
  type Month = m: int | 1 <= m <= 12 witness 1

  /** A calendar day of the window: a day number that orders the days, and
      the year, month and weekday the calendar assigns to it. */
  datatype Day = Day(ordinal: int, year: int, month: Month, weekday: Weekday)

  /** The ranges the parameter sampler draws from, per category: a dense
      rate in [0.7, 1) for smooth and erratic items and a sparse one below
      0.1 otherwise, a peak year in 1..3, a decay in [0.05, 0.15), a mean
      size in [1, 10), and a CV in [0.3, 0.6) for smooth and slow items and
      in [0.8, 2.5) otherwise. */
  predicate Sampled(item: Item)
  {
    && (if item.category == Smooth || item.category == Erratic
        then 0.7 <= item.dailyRate < 1.0
        else 0.0 < item.dailyRate < 0.1)
    && 1 <= item.peakYear <= 3
    && 0.05 <= item.decay < 0.15
    && 1.0 <= item.meanSize < 10.0
    && (if item.category == Smooth || item.category == Slow
        then 0.3 <= item.cvSize < 0.6
        else 0.8 <= item.cvSize < 2.5)
  }

  /** The ageing multiplier max(1 - decay * max(yrs - peakYear, 0), 0.1):
      never below the 10% floor, never above 1 for a non-negative decay,
      exactly 1 up to and including the peak year, and past it 1 less the
      decay per year since the peak until that reaches the floor 0.1. */
  function AgeingMultiplier(decay: real, yrs: int, peakYear: int): (m: real)
    ensures m >= 0.1
    ensures decay >= 0.0 ==> m <= 1.0
    ensures yrs <= peakYear ==> m == 1.0
    ensures yrs > peakYear && decay * (yrs - peakYear) as real <= 0.9 ==> m == 1.0 - decay * (yrs - peakYear) as real
    ensures yrs > peakYear && decay * (yrs - peakYear) as real >= 0.9 ==> m == 0.1
  {
    var past := if yrs - peakYear > 0 then yrs - peakYear else 0;
    var decayed := 1.0 - decay * past as real;
    if decayed >= 0.1 then decayed else 0.1
  }

  /** With a non-negative decay the multiplier never grows from one year to
      a later one. */
  lemma AgeingNonIncreasing(decay: real, y1: int, y2: int, peakYear: int)
    requires decay >= 0.0 && y1 <= y2
    ensures AgeingMultiplier(decay, y2, peakYear) <= AgeingMultiplier(decay, y1, peakYear)
  {
    var p1 := if y1 - peakYear > 0 then y1 - peakYear else 0;
    var p2 := if y2 - peakYear > 0 then y2 - peakYear else 0;
    assert p1 <= p2;
    assert decay * p1 as real <= decay * p2 as real;
  }

  /** Weekdays 0-4 weigh 1.0, Saturday 0.6 and Sunday 0.4. */
  function DayOfWeekFactor(w: Weekday): (f: real)
    ensures 0.4 <= f <= 1.0
    ensures f == 1.0 <==> w <= 4
  {
    if w <= 4 then 1.0 else if w == 5 then 0.6 else 0.4
  }

  /** July and December weigh 1.25, every other month 1.0. */
  function SeasonalFactor(m: Month): (f: real)
    ensures f == 1.25 <==> m == 7 || m == 12
    ensures f == 1.0 <==> m != 7 && m != 12
  {
    if m == 7 || m == 12 then 1.25 else 1.0
  }

  /** The base rate scaled by the ageing multiplier for the day's year,
      counted from the first year of the window. */
  function AgedRate(item: Item, day: Day, startYear: int): real
  {
    item.dailyRate * AgeingMultiplier(item.decay, day.year - startYear, item.peakYear)
  }

  /** The day's occurrence rate: aged rate times day-of-week factor times
      seasonal factor. For a non-negative base rate and decay it lies
      between 0.04 (floor 0.1 times Sunday 0.4) and 1.25 times the base. */
  function EffectiveRate(item: Item, day: Day, startYear: int): (rate: real)
    ensures item.dailyRate >= 0.0 && item.decay >= 0.0 ==>
              0.04 * item.dailyRate <= rate <= 1.25 * item.dailyRate
  {
    var base := item.dailyRate;
    var m := AgeingMultiplier(item.decay, day.year - startYear, item.peakYear);
    var f := DayOfWeekFactor(day.weekday);
    var s := SeasonalFactor(day.month);
    RateBounds(base, m, f, s);
    assert AgedRate(item, day, startYear) == base * m;
    AgedRate(item, day, startYear) * f * s
  }

  /** Multiplying by a non-negative factor keeps an inequality. */
  lemma ScaleLe(x: real, y: real, z: real)
    requires x <= y && z >= 0.0
    ensures x * z <= y * z
  {
  }
  /** Bounds on a product of two non-negative bounded factors. */
  lemma ProductBounds(a: real, aLo: real, aHi: real, b: real, bLo: real, bHi: real)
    requires 0.0 <= aLo <= a <= aHi && 0.0 <= bLo <= b <= bHi
    ensures aLo * bLo <= a * b <= aHi * bHi
  {
    ScaleLe(aLo, a, bLo);
    ScaleLe(bLo, b, a);
    ScaleLe(a, aHi, b);
    ScaleLe(b, bHi, aHi);
  }
  /** The ageing, weekday and seasonal factors multiply to a value in [0.04, 1.25]. */
  lemma FactorBounds(m: real, f: real, s: real)
    requires 0.1 <= m <= 1.0 && 0.4 <= f <= 1.0 && 1.0 <= s <= 1.25
    ensures 0.04 <= m * f * s <= 1.25
  {
    ProductBounds(m, 0.1, 1.0, f, 0.4, 1.0);
    ProductBounds(m * f, 0.04, 1.0, s, 1.0, 1.25);
  }
  /** Scaling the factors' product by a non-negative base rate keeps it
      between 0.04 and 1.25 times the base. */
  lemma RateBounds(base: real, m: real, f: real, s: real)
    ensures base >= 0.0 && 0.1 <= m <= 1.0 && 0.4 <= f <= 1.0 && 1.0 <= s <= 1.25 ==>
              0.04 * base <= base * m * f * s <= 1.25 * base
  {
    if base >= 0.0 && 0.1 <= m <= 1.0 && 0.4 <= f <= 1.0 && 1.0 <= s <= 1.25 {
      FactorBounds(m, f, s);
      var p := m * f * s;
      ScaleLe(0.04, p, base);
      ScaleLe(p, 1.25, base);
      assert base * m * f * s == p * base;
    }
  }

  /** A Saturday's rate is 0.6 times, and a Sunday's 0.4 times, the rate of
      a Monday-to-Friday day of the same year and month. */
  lemma WeekendScaling(item: Item, weekday: Day, weekend: Day, startYear: int)
    requires weekday.year == weekend.year && weekday.month == weekend.month
    requires weekday.weekday <= 4 && weekend.weekday >= 5
    ensures weekend.weekday == 5 ==>
              EffectiveRate(item, weekend, startYear) == 0.6 * EffectiveRate(item, weekday, startYear)
    ensures weekend.weekday == 6 ==>
              EffectiveRate(item, weekend, startYear) == 0.4 * EffectiveRate(item, weekday, startYear)
  {
  }

  /** On a Monday-to-Friday day outside July and December the day's rate
      is the aged rate itself: both other factors are 1. */
  lemma PlainDayRateIsAged(item: Item, day: Day, startYear: int)
    requires day.weekday <= 4 && day.month != 7 && day.month != 12
    ensures EffectiveRate(item, day, startYear) == AgedRate(item, day, startYear)
    ensures EffectiveRate(item, day, startYear)
            == item.dailyRate * AgeingMultiplier(item.decay, day.year - startYear, item.peakYear)
  {
  }

  /** In the same year and on the same weekday, a July or December day's
      rate is 1.25 times that of a day in any other month. */
  lemma SeasonalScaling(item: Item, peak: Day, plain: Day, startYear: int)
    requires peak.year == plain.year && peak.weekday == plain.weekday
    requires peak.month == 7 || peak.month == 12
    requires plain.month != 7 && plain.month != 12
    ensures EffectiveRate(item, peak, startYear) == 1.25 * EffectiveRate(item, plain, startYear)
  {
  }

  /** The quantity of one day from the gate draw u and the raw size draw:
      0 exactly when u is not below the rate; otherwise the draw floored
      at 1. */
  function DayQuantity(rate: real, u: real, draw: nat): (q: nat)
    ensures q == 0 <==> u >= rate
    ensures q != 0 ==> q >= 1 && q >= draw
    ensures q != 0 && draw >= 1 ==> q == draw
    ensures u < rate && draw == 0 ==> q == 1
  {
    if u < rate then (if draw >= 1 then draw else 1) else 0
  }

  /** With no clamp on the rate, a rate above 1 opens the gate for every
      draw in [0, 1). */
  lemma SaturatedRateAlwaysOccurs(rate: real, u: real, draw: nat)
    requires rate > 1.0 && 0.0 <= u < 1.0
    ensures DayQuantity(rate, u, draw) >= 1
  {
  }

  /** A sampled dense item can reach a rate above 1: a base rate of 0.9 in a
      July week before its peak year gives 1.125. */
  lemma DenseRateExceedsOne()
    ensures Sampled(Item(Smooth, 0.9, 1, 0.1, 5.0, 0.5))
    ensures EffectiveRate(Item(Smooth, 0.9, 1, 0.1, 5.0, 0.5), Day(0, 2023, 7, 0), 2023) == 1.125
  {
  }

  /** The sparse categories never reach a rate of 0.125, so their gate is a
      genuine coin flip; dense ones stay within 1.25. */
  lemma SampledRateBounds(item: Item, day: Day, startYear: int)
    requires Sampled(item)
    ensures 0.0 < EffectiveRate(item, day, startYear)
    ensures item.category == Slow || item.category == Lumpy ==> EffectiveRate(item, day, startYear) < 0.125
    ensures EffectiveRate(item, day, startYear) <= 1.25
  {
  }

  /** With no decay and a base rate of 0.8, a Saturday's rate is
      0.8 * 0.6 times the month's seasonal factor, whatever the year. */
  lemma SaturdayScenario(item: Item, day: Day, startYear: int)
    requires item.dailyRate == 0.8 && item.decay == 0.0 && day.weekday == 5
    ensures EffectiveRate(item, day, startYear) == 0.8 * 0.6 * SeasonalFactor(day.month)
  {
  }

  /** Peak year 1, decay 0.1 and base rate 1.0: five calendar years after
      the start the aged rate is 1 - 0.1 * 4 = 0.6. */
  lemma AgeingScenario(item: Item, day: Day, startYear: int)
    requires item.dailyRate == 1.0 && item.peakYear == 1 && item.decay == 0.1
    requires day.year == startYear + 5
    ensures AgedRate(item, day, startYear) == 0.6
  {
  }
}
