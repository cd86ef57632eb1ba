/**
 * Sampling and reporting: re_bin_sio2 (a scan over the integer bins 1..99)
 * and the area-percentage histogram that do_sample_percents builds from the
 * mean of the top two layers of every cell.
 */
module Reporting {
  import opened Numerics
  import opened CellKeys
  import opened Locator
  import opened Averaging

  datatype Option<T> = None | Some(value: T)

  /** The first bin of the scan, its end (exclusive) and the clamp value (s_min, s_max). */
  const BIN_MIN: int := 1
  const BIN_MAX: int := 100

  /**
   * The scan of re_bin_sio2 from bin s on: the first s with v <= s wins; once
   * v >= 100 the scan answers 100; when range(1, 100) runs out it answers nothing.
   */
  function ReBinFrom(v: real, s: int): Option<int>
    decreases BIN_MAX - s
  {
    if s >= BIN_MAX then None
    else if v <= s as real then Some(s)
    else if v >= BIN_MAX as real then Some(BIN_MAX)
    else ReBinFrom(v, s + 1)
  }

  /** re_bin_sio2(v) with its default arguments s_min = 1, s_max = 100, ds = 1. */
  function ReBin(v: real): Option<int> {
    ReBinFrom(v, BIN_MIN)
  }

  /** The scan from s, once every earlier bin was passed over. */
  lemma {:induction false} ReBinFromCeiling(v: real, s: int)
    requires BIN_MIN <= s <= BIN_MAX
    requires s == BIN_MIN || ((s - 1) as real < v && v < BIN_MAX as real)
    ensures v <= s as real && s < BIN_MAX ==> ReBinFrom(v, s) == Some(s)
    ensures s as real < v <= 99.0 ==> ReBinFrom(v, s) == Some(Ceil(v))
    ensures v >= BIN_MAX as real && s < BIN_MAX ==> ReBinFrom(v, s) == Some(BIN_MAX)
    ensures 99.0 < v < BIN_MAX as real ==> ReBinFrom(v, s) == None
    decreases BIN_MAX - s
  {
    if s < BIN_MAX && s as real < v < BIN_MAX as real {
      ReBinFromCeiling(v, s + 1);
    }
  }

  /**
   * re_bin_sio2 is a clamped ceiling: up to 99 it answers the smallest bin in
   * 1..99 that is at least v (so everything up to 1 lands in bin 1), from 100 on
   * it answers 100, and strictly between 99 and 100 it answers nothing.
   */
  lemma ReBinIsCeiling(v: real)
    ensures v <= 99.0 ==>
              && ReBin(v).Some?
              && BIN_MIN <= ReBin(v).value <= 99
              && v <= ReBin(v).value as real
              && (ReBin(v).value == BIN_MIN || (ReBin(v).value - 1) as real < v)
    ensures v >= 100.0 ==> ReBin(v) == Some(BIN_MAX)
    ensures 99.0 < v < 100.0 ==> ReBin(v) == None
  {
    ReBinFromCeiling(v, BIN_MIN);
  }

  // ---------------------------------------------------------------------------
  // The sample of the surface.

  /** np.mean. */
  function Mean(s: seq<real>): real
    requires |s| > 0
  {
    Sum(s) / |s| as real
  }

  /**
   * bar_list before its None entries are dropped: for every cell in scan order,
   * the bin of the mean of its top two layers. A column with no layers has a
   * NaN mean and is passed over.
   */
  function SampleBins(cols: map<Key, seq<real>>, cells: seq<Cell>): seq<Option<int>>
    requires forall c :: c in cells ==> KeyOf(c.lon, c.lat) in cols
  {
    if |cells| == 0 then []
    else
      var n := |cells| - 1;
      var rest := SampleBins(cols, cells[..n]);
      var top := Prefix(cols[KeyOf(cells[n].lon, cells[n].lat)], 2);
      if |top| == 0 then rest else rest + [ReBin(Mean(top))]
  }

  /** The scan extended by one cell adds that cell's bin, if its column has a layer. */
  lemma SampleBinsAppend(cols: map<Key, seq<real>>, cells: seq<Cell>, c: Cell)
    requires forall x :: x in cells + [c] ==> KeyOf(x.lon, x.lat) in cols
    ensures var top := Prefix(cols[KeyOf(c.lon, c.lat)], 2);
            SampleBins(cols, cells + [c]) == SampleBins(cols, cells) + (if |top| == 0 then [] else [ReBin(Mean(top))])
  {
    assert (cells + [c])[..|cells|] == cells;
  }

  /** bar_list with the None entries filtered out. */
  function Retained(bins: seq<Option<int>>): seq<int> {
    if |bins| == 0 then []
    else
      var rest := Retained(bins[..|bins| - 1]);
      match bins[|bins| - 1]
      case Some(b) => rest + [b]
      case None => rest
  }

  /** list.count(u). */
  function Count(s: seq<int>, u: int): nat {
    if |s| == 0 then 0 else Count(s[..|s| - 1], u) + (if s[|s| - 1] == u then 1 else 0)
  }

  /** bar_data: each bin that occurs mapped to the percentage of the sample in it. */
  function Histogram(bars: seq<int>): map<int, real> {
    map u | u in bars :: 100.0 * Count(bars, u) as real / |bars| as real
  }

  predicate DistinctBins(us: seq<int>) {
    forall i, j :: 0 <= i < j < |us| ==> us[i] != us[j]
  }

  /** The total of the percentages listed in `us`. */
  function SumPercents(h: map<int, real>, us: seq<int>): real
    requires forall u :: u in us ==> u in h
  {
    if |us| == 0 then 0.0
    else
      var u := us[|us| - 1];
      assert u in us;
      SumPercents(h, us[..|us| - 1]) + h[u]
  }

  /** The total of the counts of the bins listed in `us`. */
  function SumCounts(bars: seq<int>, us: seq<int>): int {
    if |us| == 0 then 0 else SumCounts(bars, us[..|us| - 1]) + Count(bars, us[|us| - 1])
  }

  // ---------------------------------------------------------------------------
  // Properties.

  /** Every retained bin is a bin of re_bin_sio2: an integer in 1..100. */
  lemma {:induction false} RetainedInRange(cols: map<Key, seq<real>>, cells: seq<Cell>)
    requires forall c :: c in cells ==> KeyOf(c.lon, c.lat) in cols
    ensures forall b :: b in Retained(SampleBins(cols, cells)) ==> BIN_MIN <= b <= BIN_MAX
  {
    if |cells| > 0 {
      var n := |cells| - 1;
      RetainedInRange(cols, cells[..n]);
      var top := Prefix(cols[KeyOf(cells[n].lon, cells[n].lat)], 2);
      if |top| > 0 {
        var v := Mean(top);
        ReBinIsCeiling(v);
        RetainedAppend(SampleBins(cols, cells[..n]), ReBin(v));
      }
    }
  }

  lemma RetainedAppend(bins: seq<Option<int>>, b: Option<int>)
    ensures Retained(bins + [b]) == Retained(bins) + (if b.Some? then [b.value] else [])
  {
    assert (bins + [b])[..|bins|] == bins;
  }

  /** Counting in a list extended by one element. */
  lemma CountAppend(s: seq<int>, x: int, u: int)
    ensures Count(s + [x], u) == Count(s, u) + (if x == u then 1 else 0)
  {
    assert (s + [x])[..|s|] == s;
  }

  /** Every occurring bin is counted at least once and at most the whole sample. */
  lemma {:induction false} CountBounds(s: seq<int>, u: int)
    ensures Count(s, u) <= |s|
    ensures u in s ==> 1 <= Count(s, u)
  {
    if |s| > 0 {
      var init := s[..|s| - 1];
      CountBounds(init, u);
      assert s == init + [s[|s| - 1]];
    }
  }

  /** A bin listed once in a duplicate-free list is counted once in it. */
  lemma {:induction false} CountDistinct(us: seq<int>, x: int)
    requires DistinctBins(us)
    ensures Count(us, x) == (if x in us then 1 else 0)
  {
    if |us| > 0 {
      var init := us[..|us| - 1];
      CountDistinct(init, x);
      assert us == init + [us[|us| - 1]];
    }
  }

  lemma {:induction false} SumCountsAppend(bars: seq<int>, x: int, us: seq<int>)
    ensures SumCounts(bars + [x], us) == SumCounts(bars, us) + Count(us, x)
  {
    if |us| > 0 {
      SumCountsAppend(bars, x, us[..|us| - 1]);
      CountAppend(bars, x, us[|us| - 1]);
    }
  }

  /** Counting every bin of a duplicate-free cover of the sample counts the whole sample. */
  lemma {:induction false} SumCountsCover(bars: seq<int>, us: seq<int>)
    requires DistinctBins(us)
    requires forall b :: b in bars ==> b in us
    ensures SumCounts(bars, us) == |bars|
  {
    if |bars| == 0 {
      SumCountsOfEmpty(us);
    } else {
      var init := bars[..|bars| - 1];
      var x := bars[|bars| - 1];
      assert bars == init + [x];
      SumCountsCover(init, us);
      SumCountsAppend(init, x, us);
      CountDistinct(us, x);
    }
  }

  lemma {:induction false} SumCountsOfEmpty(us: seq<int>)
    ensures SumCounts([], us) == 0
  {
    if |us| > 0 {
      SumCountsOfEmpty(us[..|us| - 1]);
    }
  }

  /** The listed percentages are the listed counts scaled by 100 / len(bar_list). */
  lemma {:induction false} SumPercentsScaled(bars: seq<int>, us: seq<int>)
    requires |bars| > 0
    requires forall u :: u in us ==> u in bars
    ensures SumPercents(Histogram(bars), us) == 100.0 * SumCounts(bars, us) as real / |bars| as real
  {
    if |us| > 0 {
      var init := us[..|us| - 1];
      var u := us[|us| - 1];
      assert u in us;
      SumPercentsScaled(bars, init);
      assert Histogram(bars)[u] == 100.0 * Count(bars, u) as real / |bars| as real;
      AddPercents(SumCounts(bars, init) as real, Count(bars, u) as real, |bars| as real);
    }
  }

  lemma AddPercents(a: real, b: real, n: real)
    requires n != 0.0
    ensures 100.0 * a / n + 100.0 * b / n == 100.0 * (a + b) / n
  {
  }

  /**
   * The sample percentages add up to 100 over the retained bins: listing every
   * bin of a non-empty histogram once, in any order, the percentages sum to 100.
   */
  lemma SamplePercentsSumTo100(bars: seq<int>, us: seq<int>)
    requires |bars| > 0
    requires DistinctBins(us)
    requires forall u :: u in us <==> u in bars
    ensures SumPercents(Histogram(bars), us) == 100.0
  {
    SumPercentsScaled(bars, us);
    SumCountsCover(bars, us);
    DivideBack(100.0, |bars| as real);
  }

  lemma DivideBack(a: real, n: real)
    requires n != 0.0
    ensures a * n / n == a
  {
  }

  /** Each percentage lies in (0, 100]. */
  lemma HistogramBounds(bars: seq<int>)
    ensures forall u :: u in Histogram(bars) ==> 0.0 < Histogram(bars)[u] <= 100.0
  {
    forall u | u in Histogram(bars)
      ensures 0.0 < Histogram(bars)[u] <= 100.0
    {
      CountBounds(bars, u);
      var n := |bars| as real;
      var c := Count(bars, u) as real;
      assert 100.0 * c / n <= 100.0 by {
        assert c <= n;
        assert 100.0 * c <= 100.0 * n;
      }
    }
  }
}
