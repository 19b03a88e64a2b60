/**
 * Timeframe selection over the price series and the summary statistics of
 * the selected points.
 */
module Timeframe {
  import opened Series

  datatype Option<T> = None | Some(value: T)

  /** The closed set of keys `'24h' | '7d' | '30d' | '1y'`. */
  datatype TimeframeKey = Last24Hours | Last7Days | Last30Days | LastYear

  /** The second argument of `Array.prototype.slice`: a bound, or absent (to the end). */
  datatype SliceEnd = At(n: nat) | ToEnd

  function Min(a: int, b: int): int {
    if a <= b then a else b
  }

  /**
   * `s.slice(start, end)` for non-negative arguments: both bounds are
   * clamped to the length, and a range whose end is not past its start is
   * empty.
   */
  function Slice<T>(s: seq<T>, start: nat, end: SliceEnd): (r: seq<T>)
    ensures var lo := Min(start, |s|);
            var hi := if end.At? then Min(end.n, |s|) else |s|;
            |r| == (if lo < hi then hi - lo else 0) &&
            forall i :: 0 <= i < |r| ==> r[i] == s[lo + i]
    ensures start <= |s| && (end.At? ==> start <= end.n <= |s|) ==>
              r == s[start..if end.At? then end.n else |s|]
  {
    var lo := Min(start, |s|);
    var hi := if end.At? then Min(end.n, |s|) else |s|;
    if lo < hi then s[lo..hi] else []
  }

  /**
   * The `slice` arguments of each `case` of `getTimeframeData`: they start
   * where the key's index range starts, and end where it ends, only the
   * 1-year case leaving the end out.
   */
  function SliceArguments(key: TimeframeKey): (args: (nat, SliceEnd))
    ensures args.0 == IndexRange(key).0
    ensures args.1.At? ==> args.1.n == IndexRange(key).1
    ensures args.1.ToEnd? <==> key == LastYear
  {
    match key
    case Last24Hours => (0, At(24))
    case Last7Days => (24, At(31))
    case Last30Days => (24, At(54))
    case LastYear => (54, ToEnd)
  }

  /** `getTimeframeData`: the points a timeframe shows. */
  function GetTimeframeData(series: seq<PricePoint>, key: TimeframeKey): (view: seq<PricePoint>)
    ensures |view| <= |series|
    ensures |series| == SeriesLength ==>
              view == series[IndexRange(key).0..IndexRange(key).1]
  {
    var (start, end) := SliceArguments(key);
    Slice(series, start, end)
  }

  /**
   * The intended index table: the half-open range of the 66-point series
   * each timeframe covers (the whole hourly segment, the first seven points
   * of the daily segment, the whole daily segment, the whole monthly
   * segment). It is kept apart from `SliceArguments`, which holds the
   * `slice` calls themselves, so that the two can be compared.
   */
  function IndexRange(key: TimeframeKey): (nat, nat) {
    match key
    case Last24Hours => (0, 24)
    case Last7Days => (24, 31)
    case Last30Days => (24, 54)
    case LastYear => (54, 66)
  }

  /** The lengths of the views of a 66-point series; the 7-day view is a prefix of the 30-day view. */
  lemma TimeframeSlices(series: seq<PricePoint>)
    requires |series| == SeriesLength
    ensures |GetTimeframeData(series, Last24Hours)| == 24
    ensures |GetTimeframeData(series, Last7Days)| == 7
    ensures |GetTimeframeData(series, Last30Days)| == 30
    ensures |GetTimeframeData(series, LastYear)| == 12
    ensures GetTimeframeData(series, Last7Days) <= GetTimeframeData(series, Last30Days)
  {
  }

  /** On the generated series the 24-hour view is the hourly segment. */
  lemma GeneratedDayView(now: Now, draws: seq<real>)
    requires |draws| == SeriesLength
    ensures var view := GetTimeframeData(SampleSeries(now, draws), Last24Hours);
            |view| == 24 && forall j :: 0 <= j < 24 ==> view[j] == HourlyPoint(now, draws[j], 23 - j)
  {
    var s := SampleSeries(now, draws);
    SampleSeriesAt(now, draws);
    var view := GetTimeframeData(s, Last24Hours);
    assert view == s[0..24];
  }

  /** On the generated series the 30-day view is the daily segment. */
  lemma GeneratedMonthView(now: Now, draws: seq<real>)
    requires |draws| == SeriesLength
    ensures var view := GetTimeframeData(SampleSeries(now, draws), Last30Days);
            |view| == 30 && forall j :: 0 <= j < 30 ==> view[j] == DailyPoint(now, draws[24 + j], 29 - j)
  {
    var s := SampleSeries(now, draws);
    SampleSeriesAt(now, draws);
    var view := GetTimeframeData(s, Last30Days);
    assert view == s[24..54];
    forall j | 0 <= j < 30 ensures view[j] == DailyPoint(now, draws[24 + j], 29 - j) {
      assert view[j] == s[24 + j];
    }
  }

  /**
   * On the generated series the 7-day view is the oldest week of the daily
   * segment: its point j is 29 - j days before now, so it ends 23 days
   * before now rather than at now.
   */
  lemma GeneratedWeekView(now: Now, draws: seq<real>)
    requires |draws| == SeriesLength
    ensures var view := GetTimeframeData(SampleSeries(now, draws), Last7Days);
            |view| == 7 && forall j :: 0 <= j < 7 ==>
              view[j].timestamp == Instant(now.ms - (29 - j) * 86400000)
    ensures var view := GetTimeframeData(SampleSeries(now, draws), Last7Days);
            |view| == 7 && view[6].timestamp == Instant(now.ms - 23 * 86400000)
  {
    var s := SampleSeries(now, draws);
    DailyTimestamps(now, draws);
    var view := GetTimeframeData(s, Last7Days);
    assert view == s[24..31];
    forall j | 0 <= j < 7 ensures view[j].timestamp == Instant(now.ms - (29 - j) * 86400000) {
      assert view[j] == s[24 + j];
    }
  }

  /** On the generated series the 1-year view is the monthly segment. */
  lemma GeneratedYearView(now: Now, draws: seq<real>)
    requires |draws| == SeriesLength
    ensures var view := GetTimeframeData(SampleSeries(now, draws), LastYear);
            |view| == 12 && forall j :: 0 <= j < 12 ==> view[j] == MonthlyPoint(now, draws[54 + j], 11 - j)
  {
    var s := SampleSeries(now, draws);
    SampleSeriesAt(now, draws);
    var view := GetTimeframeData(s, LastYear);
    assert view == s[54..66];
    forall j | 0 <= j < 12 ensures view[j] == MonthlyPoint(now, draws[54 + j], 11 - j) {
      assert view[j] == s[54 + j];
    }
  }

  /** `currentData.map(d => d.price)`. */
  function Prices(view: seq<PricePoint>): seq<real> {
    seq(|view|, i requires 0 <= i < |view| => view[i].price)
  }

  /** Taking the prices commutes with slicing: the prices of a slice are the slice of the prices. */
  lemma PricesOfSlice(series: seq<PricePoint>, lo: nat, hi: nat)
    requires lo <= hi <= |series|
    ensures Prices(series[lo..hi]) == Prices(series)[lo..hi]
  {
    assert |Prices(series[lo..hi])| == |Prices(series)[lo..hi]|;
    forall i | 0 <= i < hi - lo ensures Prices(series[lo..hi])[i] == Prices(series)[lo..hi][i] {
      assert series[lo..hi][i] == series[lo + i];
    }
  }

  /** `Math.max(...prices)` of a non-empty list of prices. */
  function MaxPrice(ps: seq<real>): (m: real)
    requires |ps| > 0
    ensures forall i :: 0 <= i < |ps| ==> ps[i] <= m
    ensures m in ps
  {
    if |ps| == 1 then ps[0]
    else
      var rest := MaxPrice(ps[1..]);
      if ps[0] >= rest then ps[0] else rest
  }

  /** `Math.min(...prices)` of a non-empty list of prices. */
  function MinPrice(ps: seq<real>): (m: real)
    requires |ps| > 0
    ensures forall i :: 0 <= i < |ps| ==> m <= ps[i]
    ensures m in ps
  {
    if |ps| == 1 then ps[0]
    else
      var rest := MinPrice(ps[1..]);
      if ps[0] <= rest then ps[0] else rest
  }

  /** The `priceStats` object. */
  datatype PriceStats = PriceStats(current: real, highest: real, lowest: real, timeframe: TimeframeKey)

  /**
   * `priceStats` over the points of a view: the last price, the highest
   * and the lowest, tagged with the timeframe; no statistics for an empty
   * view.
   */
  function StatsOf(view: seq<PricePoint>, key: TimeframeKey): (r: Option<PriceStats>)
    ensures r.None? <==> |view| == 0
    ensures r.Some? ==> r.value.timeframe == key
    ensures r.Some? ==> r.value.current == view[|view| - 1].price
    ensures r.Some? ==> forall i :: 0 <= i < |view| ==> r.value.lowest <= view[i].price <= r.value.highest
    ensures r.Some? ==> exists i :: 0 <= i < |view| && view[i].price == r.value.highest
    ensures r.Some? ==> exists i :: 0 <= i < |view| && view[i].price == r.value.lowest
    ensures r.Some? ==> r.value.lowest <= r.value.current <= r.value.highest
  {
    var prices := Prices(view);
    if |prices| == 0 then None
    else
      var hi := MaxPrice(prices);
      var lo := MinPrice(prices);
      assert prices[|prices| - 1] == view[|view| - 1].price;
      assert forall i :: 0 <= i < |view| ==> prices[i] == view[i].price;
      Some(PriceStats(prices[|prices| - 1], hi, lo, key))
  }

  /** The statistics the chart shows for a timeframe of a series. */
  function PriceStatsFor(series: seq<PricePoint>, key: TimeframeKey): (r: Option<PriceStats>)
    ensures |series| == SeriesLength ==> r.Some?
  {
    StatsOf(GetTimeframeData(series, key), key)
  }

  /** Bounds that hold of every price of a non-empty view hold of its statistics. */
  lemma StatsWithinBounds(view: seq<PricePoint>, key: TimeframeKey, low: real, high: real)
    requires |view| > 0
    requires forall i :: 0 <= i < |view| ==> low <= view[i].price < high
    ensures var r := StatsOf(view, key);
            r.Some? && low <= r.value.lowest <= r.value.highest < high &&
            low <= r.value.current < high
  {
    var r := StatsOf(view, key);
    var i :| 0 <= i < |view| && view[i].price == r.value.highest;
    var j :| 0 <= j < |view| && view[j].price == r.value.lowest;
  }

  /**
   * Over the generated series, every timeframe has statistics, its
   * current price is the price of the last point of its slice, and all
   * three lie in [30000, 35000) when every draw lies in [0, 1).
   */
  lemma GeneratedStats(now: Now, draws: seq<real>, key: TimeframeKey)
    requires |draws| == SeriesLength
    requires forall n :: 0 <= n < |draws| ==> 0.0 <= draws[n] < 1.0
    ensures var r := PriceStatsFor(SampleSeries(now, draws), key);
            r.Some? &&
            r.value.current == SampleSeries(now, draws)[IndexRange(key).1 - 1].price &&
            30000.0 <= r.value.lowest <= r.value.highest < 35000.0 &&
            30000.0 <= r.value.current < 35000.0
  {
    var s := SampleSeries(now, draws);
    PricesInRange(now, draws);
    var view := GetTimeframeData(s, key);
    var (lo, hi) := IndexRange(key);
    assert view == s[lo..hi];
    assert view[|view| - 1] == s[hi - 1];
    forall i | 0 <= i < |view| ensures 30000.0 <= view[i].price < 35000.0 {
      assert view[i] == s[lo + i];
    }
    StatsWithinBounds(view, key, 30000.0, 35000.0);
    assert PriceStatsFor(s, key) == StatsOf(view, key);
  }

  /**
   * A worked case: when the daily segment holds the prices 100, 101, ...,
   * 129 in order, the 7-day view shows 100 .. 106 and its statistics are
   * current 106, highest 106, lowest 100.
   */
  lemma SevenDayExample(series: seq<PricePoint>)
    requires |series| == SeriesLength
    requires forall n :: 24 <= n < 54 ==> series[n].price == 76.0 + n as real
    ensures Prices(GetTimeframeData(series, Last7Days)) == [100.0, 101.0, 102.0, 103.0, 104.0, 105.0, 106.0]
    ensures PriceStatsFor(series, Last7Days) == Some(PriceStats(106.0, 106.0, 100.0, Last7Days))
  {
    var view := GetTimeframeData(series, Last7Days);
    assert view == series[24..31];
    var ps := Prices(view);
    forall j | 0 <= j < 7 ensures ps[j] == 100.0 + j as real {
      assert view[j] == series[24 + j];
    }
    var r := StatsOf(view, Last7Days);
    var i :| 0 <= i < |view| && view[i].price == r.value.highest;
    assert view[i] == series[24 + i];
    assert view[6] == series[30];
    var k :| 0 <= k < |view| && view[k].price == r.value.lowest;
    assert view[k] == series[24 + k];
    assert view[0] == series[24];
  }
}
