/**
 * The synthetic price series of the price chart: 24 hourly points, then
 * 30 daily points, then 12 monthly points, all ending at "now".
 *
 * `Math.random` is replaced by an injected sequence of draws (one per
 * point, consumed in order), JavaScript numbers by exact reals, and the
 * time of the monthly points by the (year, month) they fall on.
 */
module Series {

  const HourMs: int := 60 * 60 * 1000
  const DayMs: int := 24 * 60 * 60 * 1000

  const HourlyCount: nat := 24
  const DailyCount: nat := 30
  const MonthlyCount: nat := 12
  const SeriesLength: nat := HourlyCount + DailyCount + MonthlyCount

  /** Offsets of the daily and monthly segments in the series. */
  const DailyStart: nat := HourlyCount
  const MonthlyStart: nat := HourlyCount + DailyCount

  /** The instant `new Date()` read once: `getTime()`, `getFullYear()` and `getMonth()` (0-based). */
  datatype Now = Now(ms: int, year: int, month: int)

  predicate ValidNow(now: Now) {
    0 <= now.month < 12
  }

  /**
   * The `timestamp` of a point: an instant in epoch milliseconds for the
   * hourly and daily points, and local midnight of day 1 of a month for
   * the monthly points, kept as that (year, 0-based month).
   */
  datatype Moment = Instant(ms: int) | MonthStart(year: int, month: int)

  /**
   * The `date` label: which locale formatter was applied to which date.
   * The rendered string itself depends on the locale and is not modelled.
   */
  datatype Label =
    | DateTimeLabel(ms: int)              // toLocaleString()
    | DateOnlyLabel(ms: int)              // toLocaleDateString()
    | MonthYearLabel(year: int, month: int)  // toLocaleDateString('en-US', {month: 'short', year: 'numeric'})

  datatype PricePoint = PricePoint(timestamp: Moment, price: real, date: Label)

  /** Months since year 0 of a calendar month. */
  function MonthNumber(year: int, month: int): int {
    year * 12 + month
  }

  /** The price drawn from one value of the random source. */
  function Price(draw: real): (p: real)
    ensures 0.0 <= draw < 1.0 ==> 30000.0 <= p < 35000.0
    ensures draw < 1.0 ==> p < 35000.0
  {
    30000.0 + draw * 5000.0
  }

  /**
   * The hourly point `i` hours before now, labelled with its date and
   * time; offset 0 is now itself, and no offset is in the future.
   */
  function HourlyPoint(now: Now, draw: real, i: int): (p: PricePoint)
    ensures i == 0 ==> p.timestamp == Instant(now.ms)
    ensures p.timestamp.Instant? && (i >= 0 <==> p.timestamp.ms <= now.ms)
  {
    var ms := now.ms - i * HourMs;
    PricePoint(Instant(ms), Price(draw), DateTimeLabel(ms))
  }

  /**
   * The daily point `i` days before now, labelled with its date; offset 0
   * is now itself, and no offset is in the future.
   */
  function DailyPoint(now: Now, draw: real, i: int): (p: PricePoint)
    ensures i == 0 ==> p.timestamp == Instant(now.ms)
    ensures p.timestamp.Instant? && (i >= 0 <==> p.timestamp.ms <= now.ms)
  {
    var ms := now.ms - i * DayMs;
    PricePoint(Instant(ms), Price(draw), DateOnlyLabel(ms))
  }

  /**
   * The monthly point for `new Date(year, month - i, 1)`: the Date
   * constructor carries a month outside 0..11 into the year
   * (year + floor(m / 12), m mod 12); Dafny's `/` and `%` by a positive
   * divisor are exactly that floor and modulus. The result is a valid
   * 0-based month exactly `i` months before now's (year, month), and its
   * label names that same month.
   */
  function MonthlyPoint(now: Now, draw: real, i: int): (p: PricePoint)
    ensures p.timestamp.MonthStart? && 0 <= p.timestamp.month < 12
    ensures MonthNumber(p.timestamp.year, p.timestamp.month) == MonthNumber(now.year, now.month) - i
    ensures p.date == MonthYearLabel(p.timestamp.year, p.timestamp.month)
    ensures p.price == Price(draw)
  {
    var m := now.month - i;
    var year, month := now.year + m / 12, m % 12;
    assert m == (m / 12) * 12 + m % 12;
    PricePoint(MonthStart(year, month), Price(draw), MonthYearLabel(year, month))
  }

  /** The series `generateSampleData` builds, segment by segment. */
  function SampleSeries(now: Now, draws: seq<real>): (s: seq<PricePoint>)
    requires |draws| == SeriesLength
    ensures |s| == SeriesLength
  {
    seq(HourlyCount, k requires 0 <= k < HourlyCount => HourlyPoint(now, draws[k], 23 - k))
    + seq(DailyCount, k requires 0 <= k < DailyCount => DailyPoint(now, draws[DailyStart + k], 29 - k))
    + seq(MonthlyCount, k requires 0 <= k < MonthlyCount => MonthlyPoint(now, draws[MonthlyStart + k], 11 - k))
  }

  /**
   * `generateSampleData`: three counting-down loops that push onto one
   * array, each point taking the next draw of the random source.
   */
  method GenerateSampleData(now: Now, draws: seq<real>) returns (data: seq<PricePoint>)
    requires |draws| == SeriesLength
    ensures |data| == SeriesLength
    ensures forall k :: 0 <= k < HourlyCount ==> data[k] == HourlyPoint(now, draws[k], 23 - k)
    ensures forall n :: DailyStart <= n < MonthlyStart ==> data[n] == DailyPoint(now, draws[n], 53 - n)
    ensures forall n :: MonthlyStart <= n < SeriesLength ==> data[n] == MonthlyPoint(now, draws[n], 65 - n)
    ensures data == SampleSeries(now, draws)
  {
    data := [];

    // hourly data for the last 24 hours
    var i: int := 23;
    while i >= 0
      invariant -1 <= i <= 23
      invariant |data| == 23 - i
      invariant forall k :: 0 <= k < |data| ==> data[k] == HourlyPoint(now, draws[k], 23 - k)
    {
      var ms := now.ms - i * 60 * 60 * 1000;
      data := data + [PricePoint(Instant(ms), 30000.0 + draws[|data|] * 5000.0, DateTimeLabel(ms))];
      i := i - 1;
    }

    // daily data for the last 30 days
    i := 29;
    while i >= 0
      invariant -1 <= i <= 29
      invariant |data| == DailyStart + 29 - i
      invariant forall k :: 0 <= k < HourlyCount ==> data[k] == HourlyPoint(now, draws[k], 23 - k)
      invariant forall n :: DailyStart <= n < |data| ==> data[n] == DailyPoint(now, draws[n], 53 - n)
    {
      var ms := now.ms - i * 24 * 60 * 60 * 1000;
      data := data + [PricePoint(Instant(ms), 30000.0 + draws[|data|] * 5000.0, DateOnlyLabel(ms))];
      i := i - 1;
    }

    // monthly data for the last year
    i := 11;
    while i >= 0
      invariant -1 <= i <= 11
      invariant |data| == MonthlyStart + 11 - i
      invariant forall k :: 0 <= k < HourlyCount ==> data[k] == HourlyPoint(now, draws[k], 23 - k)
      invariant forall n :: DailyStart <= n < MonthlyStart ==> data[n] == DailyPoint(now, draws[n], 53 - n)
      invariant forall n :: MonthlyStart <= n < |data| ==> data[n] == MonthlyPoint(now, draws[n], 65 - n)
    {
      var year, month := now.year + (now.month - i) / 12, (now.month - i) % 12;
      data := data + [PricePoint(MonthStart(year, month), 30000.0 + draws[|data|] * 5000.0, MonthYearLabel(year, month))];
      i := i - 1;
    }

    SampleSeriesAt(now, draws);
    assert |data| == |SampleSeries(now, draws)|;
    forall n | 0 <= n < SeriesLength ensures data[n] == SampleSeries(now, draws)[n] {
    }
  }

  /** Layout of the series: 66 points, hourly at 0..23, daily at 24..53, monthly at 54..65. */
  lemma SampleSeriesAt(now: Now, draws: seq<real>)
    requires |draws| == SeriesLength
    ensures |SampleSeries(now, draws)| == 66
    ensures forall n :: 0 <= n < 24 ==> SampleSeries(now, draws)[n] == HourlyPoint(now, draws[n], 23 - n)
    ensures forall n :: 24 <= n < 54 ==> SampleSeries(now, draws)[n] == DailyPoint(now, draws[n], 53 - n)
    ensures forall n :: 54 <= n < 66 ==> SampleSeries(now, draws)[n] == MonthlyPoint(now, draws[n], 65 - n)
  {
  }

  /** Timestamp in milliseconds of an instant. */
  function Millis(t: Moment): int
    requires t.Instant?
  {
    t.ms
  }

  /**
   * The hourly segment: point n is exactly 23 - n hours before now, the
   * timestamps strictly increase by one hour, and the last one is now.
   */
  lemma HourlyTimestamps(now: Now, draws: seq<real>)
    requires |draws| == SeriesLength
    ensures forall n :: 0 <= n < 24 ==>
              SampleSeries(now, draws)[n].timestamp == Instant(now.ms - (23 - n) * 3600000)
    ensures forall j, n :: 0 <= j < n < 24 ==>
              Millis(SampleSeries(now, draws)[j].timestamp) < Millis(SampleSeries(now, draws)[n].timestamp)
    ensures forall n :: 0 <= n < 23 ==>
              Millis(SampleSeries(now, draws)[n + 1].timestamp) == Millis(SampleSeries(now, draws)[n].timestamp) + 3600000
    ensures SampleSeries(now, draws)[23].timestamp == Instant(now.ms)
  {
    SampleSeriesAt(now, draws);
  }

  /**
   * The daily segment: point n is exactly 53 - n days before now (the
   * k-th daily point, n = 24 + k, is 29 - k days before), the timestamps
   * strictly increase by one day, and the last one is now.
   */
  lemma DailyTimestamps(now: Now, draws: seq<real>)
    requires |draws| == SeriesLength
    ensures forall n :: 24 <= n < 54 ==>
              SampleSeries(now, draws)[n].timestamp == Instant(now.ms - (53 - n) * 86400000)
    ensures forall j, n :: 24 <= j < n < 54 ==>
              Millis(SampleSeries(now, draws)[j].timestamp) < Millis(SampleSeries(now, draws)[n].timestamp)
    ensures forall n :: 24 <= n < 53 ==>
              Millis(SampleSeries(now, draws)[n + 1].timestamp) == Millis(SampleSeries(now, draws)[n].timestamp) + 86400000
    ensures SampleSeries(now, draws)[53].timestamp == Instant(now.ms)
  {
    SampleSeriesAt(now, draws);
  }

  /** Months since year 0 of a month start. */
  function MonthOf(t: Moment): int
    requires t.MonthStart?
  {
    MonthNumber(t.year, t.month)
  }

  /**
   * The monthly segment: point n is day 1 of the month 65 - n months
   * before now's month (the k-th monthly point, n = 54 + k, is 11 - k
   * months before), with a valid 0-based month even across a year
   * boundary; the months are consecutive and the last one is now's month.
   */
  lemma MonthlyMonths(now: Now, draws: seq<real>)
    requires |draws| == SeriesLength
    requires ValidNow(now)
    ensures forall n :: 54 <= n < 66 ==>
              var t := SampleSeries(now, draws)[n].timestamp;
              t.MonthStart? && 0 <= t.month < 12 &&
              MonthOf(t) == MonthNumber(now.year, now.month) - (65 - n)
    ensures forall n :: 54 <= n < 65 ==>
              MonthOf(SampleSeries(now, draws)[n + 1].timestamp) == MonthOf(SampleSeries(now, draws)[n].timestamp) + 1
    ensures forall j, n :: 54 <= j < n < 66 ==>
              MonthOf(SampleSeries(now, draws)[j].timestamp) < MonthOf(SampleSeries(now, draws)[n].timestamp)
    ensures SampleSeries(now, draws)[65].timestamp == MonthStart(now.year, now.month)
  {
    SampleSeriesAt(now, draws);
    forall n | 54 <= n < 66
      ensures var t := SampleSeries(now, draws)[n].timestamp;
              t.MonthStart? && 0 <= t.month < 12 &&
              MonthOf(t) == MonthNumber(now.year, now.month) - (65 - n)
    {
      assert SampleSeries(now, draws)[n] == MonthlyPoint(now, draws[n], 65 - n);
    }
    MonthlyPointMonth(now, draws[65]);
  }

  /** The monthly point of offset 0 falls on now's own (year, month). */
  lemma MonthlyPointMonth(now: Now, draw: real)
    requires ValidNow(now)
    ensures MonthlyPoint(now, draw, 0).timestamp == MonthStart(now.year, now.month)
  {
  }

  /** Hourly points at offsets i and j lie exactly (i - j) hours apart. */
  lemma HourlyPointsApart(now: Now, d1: real, d2: real, i: int, j: int)
    ensures Millis(HourlyPoint(now, d2, j).timestamp) - Millis(HourlyPoint(now, d1, i).timestamp) == (i - j) * 3600000
  {
  }

  /** Daily points at offsets i and j lie exactly (i - j) days apart. */
  lemma DailyPointsApart(now: Now, d1: real, d2: real, i: int, j: int)
    ensures Millis(DailyPoint(now, d2, j).timestamp) - Millis(DailyPoint(now, d1, i).timestamp) == (i - j) * 86400000
  {
  }

  /** Every price of the series lies in [30000, 35000) when every draw lies in [0, 1). */
  lemma PricesInRange(now: Now, draws: seq<real>)
    requires |draws| == SeriesLength
    requires forall n :: 0 <= n < |draws| ==> 0.0 <= draws[n] < 1.0
    ensures forall n :: 0 <= n < |SampleSeries(now, draws)| ==>
              30000.0 <= SampleSeries(now, draws)[n].price < 35000.0
  {
    SampleSeriesAt(now, draws);
  }
}
