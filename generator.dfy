// The record-assembly loops of generate_data: item-major, day-minor, one
// (date, SKU, quantity) row per pair, with the random draws taken from two
// call sequences in the order the loops make them; and the final sort by
// (Material, Demand Date).

module Generator {
  import opened NbSolver
  import opened DailyDemand
  import opened Labels

  /** One output row: (Demand Date, Material, Demand Size). */
  datatype Record = Record(date: Day, material: string, size: nat)

  /** What the loops carry: the rows appended so far and the number of size
      samples drawn so far. One gate draw is taken per row, so the number of
      gate draws so far is the number of rows. */
  datatype Progress = Progress(rows: seq<Record>, samples: nat)

  /** The daily rate of a window that starts in startYear, as a function
      of the item and the day. */
  function RateIn(startYear: int): (Item, Day) -> real
  {
    (item: Item, day: Day) => EffectiveRate(item, day, startYear)
  }

  /** Every item's (mean, CV) lies where the solver does not divide by zero. */
  predicate AllSolvable(items: seq<Item>)
  {
    forall i :: 0 <= i < |items| ==> Solvable(items[i].meanSize, items[i].cvSize)
  }

  /** Items drawn from the sampler's ranges have a mean size of at least 1,
      so the solver never divides by zero for them. */
  lemma SampledItemsSolvable(items: seq<Item>)
    requires forall i :: 0 <= i < |items| ==> Sampled(items[i])
    ensures AllSolvable(items)
  {
  }

  // ---------------------------------------------------------------------
  // The loops as functions

  /** One pass of the inner loop body: the next gate draw decides
      occurrence; on occurrence the next raw size draw is taken; the day's
      row is appended. */
  function DayStep(p: Progress, item: Item, dist: SizeDist, sku: string, day: Day, rate: (Item, Day) -> real,
                   gate: nat -> real, sample: (SizeDist, nat) -> nat): Progress
  {
    var u := gate(|p.rows|);
    Progress(p.rows + [Record(day, sku, DayQuantity(rate(item, day), u, sample(dist, p.samples)))],
             if u < rate(item, day) then p.samples + 1 else p.samples)
  }

  /** The inner loop over the given days for one item, from progress p. */
  function ItemRun(p: Progress, item: Item, dist: SizeDist, sku: string, days: seq<Day>, rate: (Item, Day) -> real,
                   gate: nat -> real, sample: (SizeDist, nat) -> nat): (q: Progress)
    ensures |q.rows| == |p.rows| + |days|
    decreases |days|
  {
    if days == [] then p
    else
      var prev := ItemRun(p, item, dist, sku, days[..|days| - 1], rate, gate, sample);
      DayStep(prev, item, dist, sku, days[|days| - 1], rate, gate, sample)
  }

  /** Both loops over the given items: each item resolves its size
      distribution once, then runs over every day under its label. */
  function Run(items: seq<Item>, days: seq<Day>, rate: (Item, Day) -> real, skuOf: nat -> string,
               gate: nat -> real, sample: (SizeDist, nat) -> nat): Progress
    requires AllSolvable(items)
    decreases |items|
  {
    if items == [] then Progress([], 0)
    else
      var n := |items| - 1;
      var item := items[n];
      var prev := Run(items[..n], days, rate, skuOf, gate, sample);
      ItemRun(prev, item, NbParams(item.meanSize, item.cvSize), skuOf(n), days, rate, gate, sample)
  }

  /** The run appends exactly |items| * |days| rows. */
  lemma {:induction false} RunLength(items: seq<Item>, days: seq<Day>, rate: (Item, Day) -> real, skuOf: nat -> string,
                                     gate: nat -> real, sample: (SizeDist, nat) -> nat)
    requires AllSolvable(items)
    ensures |Run(items, days, rate, skuOf, gate, sample).rows| == |items| * |days|
    decreases |items|
  {
    if items != [] {
      var n := |items| - 1;
      RunLength(items[..n], days, rate, skuOf, gate, sample);
      MulSucc(n, |days|);
    }
  }

  // ---------------------------------------------------------------------
  // The loops as a method

  /** generate_data: assembles the rows, then sorts them by (Material,
      Demand Date) with the given sort. Up to 9999 items over a window of
      increasing days, the result is the appended order itself. */
  method GenerateData(items: seq<Item>, days: seq<Day>, startYear: int,
                      gate: nat -> real, sample: (SizeDist, nat) -> nat,
                      sortByKey: seq<Record> -> seq<Record>)
    returns (df: seq<Record>)
    requires AllSolvable(items)
    requires forall s :: IsSortOf(sortByKey(s), s)
    ensures IsSortOf(df, Run(items, days, RateIn(startYear), SkuLabel, gate, sample).rows)
    ensures |df| == |items| * |days|
    ensures |items| <= 9999 && IncreasingDays(days) ==>
              df == Run(items, days, RateIn(startYear), SkuLabel, gate, sample).rows
  {
    var recs := AssembleRecords(items, days, startYear, gate, sample);
    df := sortByKey(recs);
    assert |df| == |multiset(df)| == |multiset(recs)| == |recs|;
    if |items| <= 9999 && IncreasingDays(days) {
      RunNeedsNoSort(items, days, startYear, gate, sample, df);
    }
  }

  /** The record-building loops of generate_data. gate(k) is the k-th
      uniform draw of the gate and sample(d, k) the k-th raw demand-size draw,
      taken for an item whose solver result is d. The model places no
      constraint on the draws' values (d does not carry the Poisson mean,
      for one). Returns the rows in the order they are
      appended. */
  method AssembleRecords(items: seq<Item>, days: seq<Day>, startYear: int,
                         gate: nat -> real, sample: (SizeDist, nat) -> nat)
    returns (recs: seq<Record>)
    requires AllSolvable(items)
    ensures recs == Run(items, days, RateIn(startYear), SkuLabel, gate, sample).rows
    ensures |recs| == |items| * |days|
  {
    ghost var rate := RateIn(startYear);
    ghost var skuOf: nat -> string := SkuLabel;
    recs := [];
    var samples: nat := 0;
    var idx := 0;
    while idx < |items|
      invariant 0 <= idx <= |items|
      invariant Progress(recs, samples) == Run(items[..idx], days, rate, skuOf, gate, sample)
    {
      var item := items[idx];
      var sku := SkuLabel(idx);
      var dist := NbParams(item.meanSize, item.cvSize);
      ghost var start := Progress(recs, samples);
      recs, samples := ItemDays(recs, samples, item, dist, sku, days, startYear, gate, sample);
      assert items[..idx + 1][..idx] == items[..idx] && items[..idx + 1][idx] == item;
      assert Run(items[..idx + 1], days, rate, skuOf, gate, sample)
             == ItemRun(start, item, dist, sku, days, rate, gate, sample);
      idx := idx + 1;
    }
    assert items[..|items|] == items;
    RunLength(items, days, rate, skuOf, gate, sample);
  }

  /** The inner loop of generate_data for one item: one row per day, the
      gate drawn at the position of the row, a size drawn on occurrence. */
  method ItemDays(recs0: seq<Record>, samples0: nat, item: Item, dist: SizeDist, sku: string, days: seq<Day>,
                  startYear: int, gate: nat -> real, sample: (SizeDist, nat) -> nat)
    returns (recs: seq<Record>, samples: nat)
    ensures Progress(recs, samples)
            == ItemRun(Progress(recs0, samples0), item, dist, sku, days, RateIn(startYear), gate, sample)
  {
    ghost var rate := RateIn(startYear);
    ghost var start := Progress(recs0, samples0);
    recs, samples := recs0, samples0;
    var draws := |recs|;
    var d := 0;
    while d < |days|
      invariant 0 <= d <= |days|
      invariant Progress(recs, samples) == ItemRun(start, item, dist, sku, days[..d], rate, gate, sample)
      invariant draws == |recs|
    {
      ghost var before := Progress(recs, samples);
      var day := days[d];
      var lamToday := EffectiveRate(item, day, startYear);
      assert lamToday == rate(item, day);
      var u := gate(draws);
      draws := draws + 1;
      var qty: nat;
      if u < lamToday {
        var drawn := sample(dist, samples);
        qty := if drawn >= 1 then drawn else 1;
        samples := samples + 1;
      } else {
        qty := 0;
      }
      recs := recs + [Record(day, sku, qty)];
      assert Progress(recs, samples) == DayStep(before, item, dist, sku, day, rate, gate, sample);
      assert days[..d + 1][..d] == days[..d] && days[..d + 1][d] == day;
      d := d + 1;
    }
    assert days[..|days|] == days;
  }

  // ---------------------------------------------------------------------
  // One row per (item, day)

  /** A row for the given item and day: the day's date, the item's label,
      and size 0 exactly when the gate draw u is not below the day's rate
      (a positive size otherwise, since sizes are natural numbers). */
  predicate RowFor(r: Record, item: Item, sku: string, day: Day, rate: (Item, Day) -> real, u: real)
  {
    && r.date == day
    && r.material == sku
    && (r.size == 0 <==> u >= rate(item, day))
  }

  lemma {:induction false} ItemRunPrefix(p: Progress, item: Item, dist: SizeDist, sku: string, days: seq<Day>,
                                         rate: (Item, Day) -> real, gate: nat -> real, sample: (SizeDist, nat) -> nat)
    ensures ItemRun(p, item, dist, sku, days, rate, gate, sample).rows[..|p.rows|] == p.rows
    decreases |days|
  {
    if days != [] {
      var prev := ItemRun(p, item, dist, sku, days[..|days| - 1], rate, gate, sample);
      ItemRunPrefix(p, item, dist, sku, days[..|days| - 1], rate, gate, sample);
      var q := DayStep(prev, item, dist, sku, days[|days| - 1], rate, gate, sample);
      assert q.rows[..|p.rows|] == prev.rows[..|p.rows|];
    }
  }

  /** The item's pass appends, at offset e past where it starts, the row
      for day e, decided by the gate draw taken at that row's position. */
  lemma {:induction false} ItemRunRow(p: Progress, item: Item, dist: SizeDist, sku: string, days: seq<Day>,
                                      rate: (Item, Day) -> real, gate: nat -> real, sample: (SizeDist, nat) -> nat, e: nat)
    requires e < |days|
    ensures RowFor(ItemRun(p, item, dist, sku, days, rate, gate, sample).rows[|p.rows| + e],
                   item, sku, days[e], rate, gate(|p.rows| + e))
    decreases |days|
  {
    var last := |days| - 1;
    var prev := ItemRun(p, item, dist, sku, days[..last], rate, gate, sample);
    var q := DayStep(prev, item, dist, sku, days[last], rate, gate, sample);
    if e < last {
      ItemRunRow(p, item, dist, sku, days[..last], rate, gate, sample, e);
      assert q.rows[|p.rows| + e] == prev.rows[|p.rows| + e];
    }
  }

  lemma {:induction false} RunPrefix(items: seq<Item>, n: nat, days: seq<Day>, rate: (Item, Day) -> real, skuOf: nat -> string,
                                     gate: nat -> real, sample: (SizeDist, nat) -> nat)
    requires AllSolvable(items) && n <= |items|
    ensures var whole := Run(items, days, rate, skuOf, gate, sample).rows;
            var part := Run(items[..n], days, rate, skuOf, gate, sample).rows;
            |part| <= |whole| && whole[..|part|] == part
    decreases |items|
  {
    if n < |items| {
      var m := |items| - 1;
      var prev := Run(items[..m], days, rate, skuOf, gate, sample);
      var item := items[m];
      var dist := NbParams(item.meanSize, item.cvSize);
      var whole := ItemRun(prev, item, dist, skuOf(m), days, rate, gate, sample).rows;
      assert Run(items, days, rate, skuOf, gate, sample).rows == whole;
      ItemRunPrefix(prev, item, dist, skuOf(m), days, rate, gate, sample);
      RunPrefix(items[..m], n, days, rate, skuOf, gate, sample);
      assert items[..m][..n] == items[..n];
      PrefixOfPrefix(whole, prev.rows, Run(items[..n], days, rate, skuOf, gate, sample).rows);
    } else {
      assert items[..n] == items;
    }
  }

  /** A prefix of a prefix is a prefix. */
  lemma PrefixOfPrefix(whole: seq<Record>, mid: seq<Record>, part: seq<Record>)
    requires |mid| <= |whole| && whole[..|mid|] == mid
    requires |part| <= |mid| && mid[..|part|] == part
    ensures |part| <= |whole| && whole[..|part|] == part
  {
    assert whole[..|mid|][..|part|] == whole[..|part|];
  }

  // ---------------------------------------------------------------------
  // Which size draw each row uses

  /** The number of rows with demand, that is, with a positive size. */
  function Occurrences(rows: seq<Record>): (n: nat)
    ensures n <= |rows|
  {
    if rows == [] then 0
    else Occurrences(rows[..|rows| - 1]) + (if rows[|rows| - 1].size > 0 then 1 else 0)
  }

  /** The size draws taken so far are one per row with demand. */
  predicate Counted(p: Progress)
  {
    p.samples == Occurrences(p.rows)
  }

  lemma OccurrencesAppend(rows: seq<Record>, r: Record)
    ensures Occurrences(rows + [r]) == Occurrences(rows) + (if r.size > 0 then 1 else 0)
  {
    assert (rows + [r])[..|rows|] == rows;
  }

  /** A day's pass takes a size draw exactly when its row has demand. */
  lemma DayStepCounted(p: Progress, item: Item, dist: SizeDist, sku: string, day: Day, rate: (Item, Day) -> real,
                       gate: nat -> real, sample: (SizeDist, nat) -> nat)
    requires Counted(p)
    ensures Counted(DayStep(p, item, dist, sku, day, rate, gate, sample))
  {
    var q := DayStep(p, item, dist, sku, day, rate, gate, sample);
    OccurrencesAppend(p.rows, q.rows[|p.rows|]);
    assert q.rows == p.rows + [q.rows[|p.rows|]];
  }

  lemma {:induction false} ItemRunCounted(p: Progress, item: Item, dist: SizeDist, sku: string, days: seq<Day>,
                                          rate: (Item, Day) -> real, gate: nat -> real, sample: (SizeDist, nat) -> nat)
    requires Counted(p)
    ensures Counted(ItemRun(p, item, dist, sku, days, rate, gate, sample))
    decreases |days|
  {
    if days != [] {
      var last := |days| - 1;
      ItemRunCounted(p, item, dist, sku, days[..last], rate, gate, sample);
      DayStepCounted(ItemRun(p, item, dist, sku, days[..last], rate, gate, sample),
                     item, dist, sku, days[last], rate, gate, sample);
    }
  }

  /** The loops take exactly one size draw per row with demand: the sample
      counter they end with is the number of non-zero sizes. */
  lemma {:induction false} RunCounted(items: seq<Item>, days: seq<Day>, rate: (Item, Day) -> real, skuOf: nat -> string,
                                      gate: nat -> real, sample: (SizeDist, nat) -> nat)
    requires AllSolvable(items)
    ensures Run(items, days, rate, skuOf, gate, sample).samples == Occurrences(Run(items, days, rate, skuOf, gate, sample).rows)
    decreases |items|
  {
    if items != [] {
      var n := |items| - 1;
      var item := items[n];
      RunCounted(items[..n], days, rate, skuOf, gate, sample);
      ItemRunCounted(Run(items[..n], days, rate, skuOf, gate, sample), item, NbParams(item.meanSize, item.cvSize),
                     skuOf(n), days, rate, gate, sample);
    }
  }

  /** Row k exists and its size is the day's quantity for the gate draw at
      position k and the size draw numbered by the rows with demand before
      it. */
  predicate SizeFromDraw(rows: seq<Record>, k: nat, dayRate: real, dist: SizeDist,
                         gate: nat -> real, sample: (SizeDist, nat) -> nat)
  {
    k < |rows| && rows[k].size == DayQuantity(dayRate, gate(k), sample(dist, Occurrences(rows[..k])))
  }

  /** Extending the rows after row k leaves row k and what precedes it. */
  lemma SizeFromDrawExtends(part: seq<Record>, whole: seq<Record>, k: nat, dayRate: real, dist: SizeDist,
                            gate: nat -> real, sample: (SizeDist, nat) -> nat)
    requires |part| <= |whole| && whole[..|part|] == part
    requires SizeFromDraw(part, k, dayRate, dist, gate, sample)
    ensures SizeFromDraw(whole, k, dayRate, dist, gate, sample)
  {
    assert whole[k] == part[k];
    assert whole[..k] == part[..k];
  }

  /** A day's row takes its size from the draw numbered by the rows with
      demand before it. */
  lemma DayStepDraw(p: Progress, item: Item, dist: SizeDist, sku: string, day: Day, rate: (Item, Day) -> real,
                    gate: nat -> real, sample: (SizeDist, nat) -> nat)
    requires Counted(p)
    ensures var rows := DayStep(p, item, dist, sku, day, rate, gate, sample).rows;
            |rows| == |p.rows| + 1 && rows[..|p.rows|] == p.rows &&
            SizeFromDraw(rows, |p.rows|, rate(item, day), dist, gate, sample)
  {
    var rows := DayStep(p, item, dist, sku, day, rate, gate, sample).rows;
    assert rows[..|p.rows|] == p.rows;
  }

  /** The item's row at offset e takes its size from the draw numbered by
      the rows with demand before it. */
  lemma {:induction false} ItemRunDraw(p: Progress, item: Item, dist: SizeDist, sku: string, days: seq<Day>,
                                       rate: (Item, Day) -> real, gate: nat -> real, sample: (SizeDist, nat) -> nat, e: nat)
    requires Counted(p) && e < |days|
    ensures SizeFromDraw(ItemRun(p, item, dist, sku, days, rate, gate, sample).rows, |p.rows| + e,
                         rate(item, days[e]), dist, gate, sample)
    decreases |days|
  {
    var last := |days| - 1;
    var prev := ItemRun(p, item, dist, sku, days[..last], rate, gate, sample);
    ItemRunCounted(p, item, dist, sku, days[..last], rate, gate, sample);
    DayStepDraw(prev, item, dist, sku, days[last], rate, gate, sample);
    var q := DayStep(prev, item, dist, sku, days[last], rate, gate, sample);
    assert ItemRun(p, item, dist, sku, days, rate, gate, sample) == q;
    if e < last {
      ItemRunDraw(p, item, dist, sku, days[..last], rate, gate, sample, e);
      assert days[..last][e] == days[e];
      SizeFromDrawExtends(prev.rows, q.rows, |p.rows| + e, rate(item, days[e]), dist, gate, sample);
    }
  }

  /** The row of item i and day d takes its size from the size draw
      numbered by the rows with demand before it: the draws are used one
      per occurring row, item-major and day-minor, with the item's solved
      distribution. */
  lemma RunRowDraw(items: seq<Item>, days: seq<Day>, rate: (Item, Day) -> real, skuOf: nat -> string,
                   gate: nat -> real, sample: (SizeDist, nat) -> nat, i: nat, d: nat)
    requires AllSolvable(items) && i < |items| && d < |days|
    ensures SizeFromDraw(Run(items, days, rate, skuOf, gate, sample).rows, RowPosition(i, d, |days|),
                         rate(items[i], days[d]), NbParams(items[i].meanSize, items[i].cvSize), gate, sample)
  {
    var k := RowPosition(i, d, |days|);
    var part := Run(items[..i + 1], days, rate, skuOf, gate, sample).rows;
    var whole := Run(items, days, rate, skuOf, gate, sample).rows;
    var dayRate, dist := rate(items[i], days[d]), NbParams(items[i].meanSize, items[i].cvSize);
    PrefixPosition(items, days, rate, skuOf, gate, sample, i, d);
    ItemPassDraw(items, days, rate, skuOf, gate, sample, i, d);
    RunPrefix(items, i + 1, days, rate, skuOf, gate, sample);
    SizeFromDrawExtends(part, whole, k, dayRate, dist, gate, sample);
  }

  /** Within the rows of the first i + 1 items, item i's row for day d
      takes its size from the draw numbered by the rows with demand before
      it. */
  lemma ItemPassDraw(items: seq<Item>, days: seq<Day>, rate: (Item, Day) -> real, skuOf: nat -> string,
                     gate: nat -> real, sample: (SizeDist, nat) -> nat, i: nat, d: nat)
    requires AllSolvable(items) && i < |items| && d < |days|
    ensures SizeFromDraw(Run(items[..i + 1], days, rate, skuOf, gate, sample).rows,
                         |Run(items[..i], days, rate, skuOf, gate, sample).rows| + d,
                         rate(items[i], days[d]), NbParams(items[i].meanSize, items[i].cvSize), gate, sample)
  {
    var upTo := items[..i + 1];
    assert upTo[..i] == items[..i] && upTo[i] == items[i];
    var prev := Run(items[..i], days, rate, skuOf, gate, sample);
    var item := items[i];
    var dist := NbParams(item.meanSize, item.cvSize);
    RunCounted(items[..i], days, rate, skuOf, gate, sample);
    ItemRunDraw(prev, item, dist, skuOf(i), days, rate, gate, sample, d);
    assert Run(upTo, days, rate, skuOf, gate, sample) == ItemRun(prev, item, dist, skuOf(i), days, rate, gate, sample);
  }

  /** The output holds exactly one row per (item, day) pair, at position
      i * |days| + d: zero-demand days included, none dropped. Its size is 0
      exactly when that position's gate draw is not below the day's rate. */
  lemma {:induction false} RunRow(items: seq<Item>, days: seq<Day>, rate: (Item, Day) -> real, skuOf: nat -> string,
                                  gate: nat -> real, sample: (SizeDist, nat) -> nat, i: nat, d: nat)
    requires AllSolvable(items) && i < |items| && d < |days|
    ensures var k := RowPosition(i, d, |days|);
            k < |Run(items, days, rate, skuOf, gate, sample).rows| &&
            RowFor(Run(items, days, rate, skuOf, gate, sample).rows[k], items[i], skuOf(i), days[d], rate, gate(k))
  {
    var k := RowPosition(i, d, |days|);
    var part := Run(items[..i + 1], days, rate, skuOf, gate, sample).rows;
    var whole := Run(items, days, rate, skuOf, gate, sample).rows;
    PrefixPosition(items, days, rate, skuOf, gate, sample, i, d);
    ItemPassRow(items, days, rate, skuOf, gate, sample, i, d);
    RunPrefix(items, i + 1, days, rate, skuOf, gate, sample);
    assert whole[k] == part[k];
  }

  /** Within the rows of the first i + 1 items, item i's row for day d
      follows the rows of the first i items at offset d. */
  lemma ItemPassRow(items: seq<Item>, days: seq<Day>, rate: (Item, Day) -> real, skuOf: nat -> string,
                    gate: nat -> real, sample: (SizeDist, nat) -> nat, i: nat, d: nat)
    requires AllSolvable(items) && i < |items| && d < |days|
    ensures var k := |Run(items[..i], days, rate, skuOf, gate, sample).rows| + d;
            var part := Run(items[..i + 1], days, rate, skuOf, gate, sample).rows;
            k < |part| && RowFor(part[k], items[i], skuOf(i), days[d], rate, gate(k))
  {
    var upTo := items[..i + 1];
    assert upTo[..i] == items[..i] && upTo[i] == items[i];
    var prev := Run(items[..i], days, rate, skuOf, gate, sample);
    var item := items[i];
    var dist := NbParams(item.meanSize, item.cvSize);
    ItemRunRow(prev, item, dist, skuOf(i), days, rate, gate, sample, d);
    assert Run(upTo, days, rate, skuOf, gate, sample) == ItemRun(prev, item, dist, skuOf(i), days, rate, gate, sample);
  }

  /** The rows of the first i items end where row i * |days| begins. */
  lemma PrefixPosition(items: seq<Item>, days: seq<Day>, rate: (Item, Day) -> real, skuOf: nat -> string,
                       gate: nat -> real, sample: (SizeDist, nat) -> nat, i: nat, d: nat)
    requires AllSolvable(items) && i <= |items|
    ensures RowPosition(i, d, |days|) == |Run(items[..i], days, rate, skuOf, gate, sample).rows| + d
  {
    RunLength(items[..i], days, rate, skuOf, gate, sample);
    assert |items[..i]| == i;
  }

  /** The position of cell (i, d) in a row-major block with c columns. */
  function RowPosition(i: nat, d: nat, c: nat): nat
  {
    i * c + d
  }

  lemma MulSucc(n: nat, c: nat)
    ensures (n + 1) * c == n * c + c
  {
  }

  lemma MulLe(a: nat, b: nat, c: nat)
    requires a <= b
    ensures a * c <= b * c
  {
  }

  // ---------------------------------------------------------------------
  // Order and the final sort

  /** The sort key order: Material as Python compares strings, then the
      date. */
  predicate KeyLess(a: Record, b: Record)
  {
    LexLess(a.material, b.material) || (a.material == b.material && a.date.ordinal < b.date.ordinal)
  }

  /** Rows in strictly increasing key order (so no two share a key). */
  predicate StrictlySorted(s: seq<Record>)
  {
    forall a, b :: 0 <= a < b < |s| ==> KeyLess(s[a], s[b])
  }

  /** The window's days in strictly increasing date order, as a daily
      date range is. */
  predicate IncreasingDays(days: seq<Day>)
  {
    forall a, b :: 0 <= a < b < |days| ==> days[a].ordinal < days[b].ordinal
  }

  /** Ascending by (Material, Demand Date): no row's key is below that of a
      row before it. */
  predicate SortedByKey(s: seq<Record>)
  {
    forall a, b :: 0 <= a < b < |s| ==> !KeyLess(s[b], s[a])
  }

  /** What sort_values(["Material", "Demand Date"]) may produce from recs:
      the same rows, ascending by key. */
  predicate IsSortOf(out: seq<Record>, recs: seq<Record>)
  {
    SortedByKey(out) && multiset(out) == multiset(recs)
  }

  lemma KeyLessIrreflexive(r: Record)
    ensures !KeyLess(r, r)
  {
    LexLessIrreflexive(r.material);
  }

  /** A strictly sorted sequence has exactly one sort: itself. */
  lemma {:induction false} SortOfStrictlySortedIsIdentity(recs: seq<Record>, out: seq<Record>)
    requires StrictlySorted(recs) && IsSortOf(out, recs)
    ensures out == recs
    decreases |recs|
  {
    assert |out| == |multiset(out)| == |multiset(recs)| == |recs|;
    if recs != [] {
      SortKeepsLeast(recs, out);
      MultisetTail(out, recs);
      assert StrictlySorted(recs[1..]);
      assert SortedByKey(out[1..]);
      SortOfStrictlySortedIsIdentity(recs[1..], out[1..]);
      assert out == [out[0]] + out[1..];
      assert recs == [recs[0]] + recs[1..];
    }
  }

  /** A sort of a non-empty strictly sorted sequence starts with its least
      row. */
  lemma SortKeepsLeast(recs: seq<Record>, out: seq<Record>)
    requires StrictlySorted(recs) && IsSortOf(out, recs) && recs != [] && |out| == |recs|
    ensures out[0] == recs[0]
  {
    assert out[0] in multiset(recs);
    var j :| 0 <= j < |recs| && recs[j] == out[0];
    assert recs[0] in multiset(out);
    var m :| 0 <= m < |out| && out[m] == recs[0];
    KeyLessIrreflexive(recs[0]);
    if m != 0 {
      assert !KeyLess(out[m], out[0]);
    }
  }

  /** Equal multisets with equal heads have equal tails. */
  lemma MultisetTail(s: seq<Record>, t: seq<Record>)
    requires s != [] && t != [] && s[0] == t[0] && multiset(s) == multiset(t)
    ensures multiset(s[1..]) == multiset(t[1..])
  {
    assert s == [s[0]] + s[1..];
    assert t == [t[0]] + t[1..];
    assert multiset(s) == multiset{s[0]} + multiset(s[1..]);
    assert multiset(t) == multiset{t[0]} + multiset(t[1..]);
    assert multiset(s[1..]) == multiset(s) - multiset{s[0]};
    assert multiset(t[1..]) == multiset(t) - multiset{t[0]};
  }

  /** With labels increasing in string order and increasing days, the rows
      come out of the loops already strictly sorted, and every row's label is
      at most the last item's. */
  lemma {:induction false} RunSortedUpTo(items: seq<Item>, days: seq<Day>, rate: (Item, Day) -> real, skuOf: nat -> string,
                                         gate: nat -> real, sample: (SizeDist, nat) -> nat)
    requires AllSolvable(items) && LabelsIncrease(skuOf, |items|) && IncreasingDays(days)
    ensures StrictlySorted(Run(items, days, rate, skuOf, gate, sample).rows)
    ensures items != [] ==>
              forall t :: 0 <= t < |Run(items, days, rate, skuOf, gate, sample).rows| ==>
                var mat := Run(items, days, rate, skuOf, gate, sample).rows[t].material;
                LexLess(mat, skuOf(|items| - 1)) || mat == skuOf(|items| - 1)
    decreases |items|
  {
    if items != [] {
      var n := |items| - 1;
      var prev := Run(items[..n], days, rate, skuOf, gate, sample);
      var item := items[n];
      var sku := skuOf(n);
      var q := ItemRun(prev, item, NbParams(item.meanSize, item.cvSize), sku, days, rate, gate, sample);
      assert Run(items, days, rate, skuOf, gate, sample) == q;
      var base := |prev.rows|;
      RunSortedUpTo(items[..n], days, rate, skuOf, gate, sample);
      LastItemRows(prev, item, NbParams(item.meanSize, item.cvSize), sku, days, rate, gate, sample);
      EarlierLabelsBelow(prev.rows, skuOf, n);
      forall a, b | 0 <= a < b < |q.rows|
        ensures KeyLess(q.rows[a], q.rows[b])
      {
        if b < base {
          assert q.rows[a] == prev.rows[a] && q.rows[b] == prev.rows[b];
        } else if a < base {
          assert LexLess(q.rows[a].material, sku);
        } else {
          assert days[a - base].ordinal < days[b - base].ordinal;
        }
      }
    }
  }

  /** An item's pass keeps the rows before it and appends, at offset e, a
      row for day e under the item's label. */
  lemma {:induction false} LastItemRows(p: Progress, item: Item, dist: SizeDist, sku: string, days: seq<Day>,
                     rate: (Item, Day) -> real, gate: nat -> real, sample: (SizeDist, nat) -> nat)
    ensures var q := ItemRun(p, item, dist, sku, days, rate, gate, sample);
            && q.rows[..|p.rows|] == p.rows
            && forall t :: |p.rows| <= t < |q.rows| ==>
                 q.rows[t].material == sku && q.rows[t].date == days[t - |p.rows|]
  {
    var q := ItemRun(p, item, dist, sku, days, rate, gate, sample);
    ItemRunPrefix(p, item, dist, sku, days, rate, gate, sample);
    forall t | |p.rows| <= t < |q.rows|
      ensures q.rows[t].material == sku && q.rows[t].date == days[t - |p.rows|]
    {
      ItemRunRow(p, item, dist, sku, days, rate, gate, sample, t - |p.rows|);
    }
  }

  /** With increasing labels, rows labelled at most label n - 1 are
      labelled below label n. */
  lemma EarlierLabelsBelow(rows: seq<Record>, skuOf: nat -> string, n: nat)
    requires LabelsIncrease(skuOf, n + 1)
    requires n > 0 ==> forall t :: 0 <= t < |rows| ==>
               LexLess(rows[t].material, skuOf(n - 1)) || rows[t].material == skuOf(n - 1)
    requires n == 0 ==> rows == []
    ensures forall t :: 0 <= t < |rows| ==> LexLess(rows[t].material, skuOf(n))
  {
    if n > 0 {
      assert LexLess(skuOf(n - 1), skuOf(n));
      forall t | 0 <= t < |rows|
        ensures LexLess(rows[t].material, skuOf(n))
      {
        if rows[t].material != skuOf(n - 1) {
          LexLessTransitive(rows[t].material, skuOf(n - 1), skuOf(n));
        }
      }
    }
  }

  /** A key strictly below another is not above it. */
  lemma KeyLessAsymmetric(x: Record, y: Record)
    requires KeyLess(x, y)
    ensures !KeyLess(y, x)
  {
    LexLessIrreflexive(x.material);
    if LexLess(x.material, y.material) && LexLess(y.material, x.material) {
      LexLessTransitive(x.material, y.material, x.material);
      assert false;
    }
  }

  /** Under increasing labels and days the generated rows are strictly
      sorted by (Material, Demand Date), so they are a sort of themselves. */
  lemma {:induction false} RunIsSorted(items: seq<Item>, days: seq<Day>, rate: (Item, Day) -> real, skuOf: nat -> string,
                    gate: nat -> real, sample: (SizeDist, nat) -> nat)
    requires AllSolvable(items) && LabelsIncrease(skuOf, |items|) && IncreasingDays(days)
    ensures StrictlySorted(Run(items, days, rate, skuOf, gate, sample).rows)
    ensures IsSortOf(Run(items, days, rate, skuOf, gate, sample).rows, Run(items, days, rate, skuOf, gate, sample).rows)
  {
    RunSortedUpTo(items, days, rate, skuOf, gate, sample);
    var rows := Run(items, days, rate, skuOf, gate, sample).rows;
    forall a, b | 0 <= a < b < |rows|
      ensures !KeyLess(rows[b], rows[a])
    {
      KeyLessAsymmetric(rows[a], rows[b]);
    }
  }

  /** With at most 9999 items (four-digit labels) and the window's days in
      date order, every sort of the generated rows by (Material, Demand
      Date) is the appended order itself: the sort at the end of
      generate_data changes nothing. */
  lemma RunNeedsNoSort(items: seq<Item>, days: seq<Day>, startYear: int,
                       gate: nat -> real, sample: (SizeDist, nat) -> nat, out: seq<Record>)
    requires AllSolvable(items) && |items| <= 9999 && IncreasingDays(days)
    requires IsSortOf(out, Run(items, days, RateIn(startYear), SkuLabel, gate, sample).rows)
    ensures out == Run(items, days, RateIn(startYear), SkuLabel, gate, sample).rows
  {
    SkuLabelsIncrease(|items|);
    RunIsSorted(items, days, RateIn(startYear), SkuLabel, gate, sample);
    SortOfStrictlySortedIsIdentity(Run(items, days, RateIn(startYear), SkuLabel, gate, sample).rows, out);
  }

  /** The row of item i and day d in the generated output: position
      i * |days| + d holds that day's date and that item's label, and its
      size is 0 exactly when the gate draw at that position is not below
      the item's rate for the day, and otherwise comes from the size draw
      numbered by the rows with demand before it. */
  lemma GeneratedRow(items: seq<Item>, days: seq<Day>, startYear: int,
                     gate: nat -> real, sample: (SizeDist, nat) -> nat, i: nat, d: nat)
    requires AllSolvable(items) && i < |items| && d < |days|
    ensures var rows := Run(items, days, RateIn(startYear), SkuLabel, gate, sample).rows;
            var k := RowPosition(i, d, |days|);
            && k < |rows|
            && rows[k].date == days[d]
            && rows[k].material == SkuLabel(i)
            && (rows[k].size == 0 <==> gate(k) >= EffectiveRate(items[i], days[d], startYear))
            && rows[k].size == DayQuantity(EffectiveRate(items[i], days[d], startYear), gate(k),
                                           sample(NbParams(items[i].meanSize, items[i].cvSize), Occurrences(rows[..k])))
  {
    RunRow(items, days, RateIn(startYear), SkuLabel, gate, sample, i, d);
    RunRowDraw(items, days, RateIn(startYear), SkuLabel, gate, sample, i, d);
  }

  /** From 10000 items on, labels reach five digits and "SKU-10000" sorts
      before "SKU-9999": the appended rows are no longer in key order, so
      no sort of them leaves them where they are. */
  lemma SortReordersPastFourDigits(items: seq<Item>, days: seq<Day>, startYear: int,
                                   gate: nat -> real, sample: (SizeDist, nat) -> nat)
    requires AllSolvable(items) && |items| >= 10000 && |days| >= 1
    ensures !SortedByKey(Run(items, days, RateIn(startYear), SkuLabel, gate, sample).rows)
  {
    var rows := Run(items, days, RateIn(startYear), SkuLabel, gate, sample).rows;
    GeneratedRow(items, days, startYear, gate, sample, 9998, 0);
    GeneratedRow(items, days, startYear, gate, sample, 9999, 0);
    var a, b := RowPosition(9998, 0, |days|), RowPosition(9999, 0, |days|);
    MulSucc(9998, |days|);
    assert a < b;
    LabelOrderBreaksPastFourDigits();
    assert KeyLess(rows[b], rows[a]);
  }

  /** Every position k inside an n-by-c block is cell (k / c, k % c). */
  lemma CellOfPosition(k: nat, n: nat, c: nat) returns (i: nat, d: nat)
    requires k < n * c
    ensures i == k / c && d == k % c
    ensures c > 0 && k / c < n && k % c < c && RowPosition(k / c, k % c, c) == k
  {
    if c == 0 {
      assert false;
    }
    i, d := k / c, k % c;
    if k / c >= n {
      MulLe(n, k / c, c);
      assert false;
    }
  }

  /** With labels that differ between items and days in date order, no two
      rows share a (Material, Demand Date) key, whatever the number of
      items. */
  lemma RunKeysDistinct(items: seq<Item>, days: seq<Day>, rate: (Item, Day) -> real, skuOf: nat -> string,
                        gate: nat -> real, sample: (SizeDist, nat) -> nat, a: nat, b: nat)
    requires AllSolvable(items) && IncreasingDays(days)
    requires forall i, j :: 0 <= i < j < |items| ==> skuOf(i) != skuOf(j)
    requires a < b < |Run(items, days, rate, skuOf, gate, sample).rows|
    ensures var rows := Run(items, days, rate, skuOf, gate, sample).rows;
            rows[a].material != rows[b].material || rows[a].date.ordinal != rows[b].date.ordinal
  {
    var rows := Run(items, days, rate, skuOf, gate, sample).rows;
    RowCell(items, days, rate, skuOf, gate, sample, a);
    RowCell(items, days, rate, skuOf, gate, sample, b);
    DistinctCells(rows[a], rows[b], days, skuOf, |items|, a, b);
  }

  /** Rows at distinct positions of the item-by-day layout differ in label
      or in date. */
  lemma DistinctCells(x: Record, y: Record, days: seq<Day>, skuOf: nat -> string, n: nat, a: nat, b: nat)
    requires IncreasingDays(days)
    requires forall i, j :: 0 <= i < j < n ==> skuOf(i) != skuOf(j)
    requires a < b
    requires var c := |days|;
             && c > 0 && a / c < n && a % c < c && RowPosition(a / c, a % c, c) == a
             && b / c < n && b % c < c && RowPosition(b / c, b % c, c) == b
             && x.material == skuOf(a / c) && x.date == days[a % c]
             && y.material == skuOf(b / c) && y.date == days[b % c]
    ensures x.material != y.material || x.date.ordinal != y.date.ordinal
  {
    var c := |days|;
    var ia, da, ib, db := a / c, a % c, b / c, b % c;
    if ia == ib {
      assert da < db;
      assert days[da].ordinal < days[db].ordinal;
    } else if ia < ib {
      assert skuOf(ia) != skuOf(ib);
    } else {
      assert skuOf(ib) != skuOf(ia);
    }
  }

  /** Row k of the output is the row of item k / |days| and day k % |days|. */
  lemma RowCell(items: seq<Item>, days: seq<Day>, rate: (Item, Day) -> real, skuOf: nat -> string,
                gate: nat -> real, sample: (SizeDist, nat) -> nat, k: nat)
    requires AllSolvable(items)
    requires k < |Run(items, days, rate, skuOf, gate, sample).rows|
    ensures var rows := Run(items, days, rate, skuOf, gate, sample).rows;
            var c := |days|;
            && c > 0 && k / c < |items| && k % c < c && RowPosition(k / c, k % c, c) == k
            && rows[k].material == skuOf(k / c) && rows[k].date == days[k % c]
  {
    var c := |days|;
    RunLength(items, days, rate, skuOf, gate, sample);
    var i, d := CellOfPosition(k, |items|, c);
    RunRow(items, days, rate, skuOf, gate, sample, i, d);
  }

  /** The program's labels differ between items, so over a window of
      increasing days every generated row has its own (Material, Demand
      Date) key, also past 9999 items. */
  lemma GeneratedKeysDistinct(items: seq<Item>, days: seq<Day>, startYear: int,
                              gate: nat -> real, sample: (SizeDist, nat) -> nat, a: nat, b: nat)
    requires AllSolvable(items) && IncreasingDays(days)
    requires a < b < |Run(items, days, RateIn(startYear), SkuLabel, gate, sample).rows|
    ensures var rows := Run(items, days, RateIn(startYear), SkuLabel, gate, sample).rows;
            rows[a].material != rows[b].material || rows[a].date.ordinal != rows[b].date.ordinal
  {
    forall i, j | 0 <= i < j < |items|
      ensures SkuLabel(i) != SkuLabel(j)
    {
      SkuLabelsDistinct(i, j);
    }
    RunKeysDistinct(items, days, RateIn(startYear), SkuLabel, gate, sample, a, b);
  }
}
