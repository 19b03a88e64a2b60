/**
 * The state of the price chart component: the series generated once at
 * start-up and the selected timeframe, which any timeframe button may set.
 */
module Chart {
  import opened Series
  import opened Timeframe

  class PriceChart {
    /** The series shared by every selection (`sampleData`), fixed once built. */
    const sampleData: seq<PricePoint>
    /** The selected timeframe (the `timeframe` state). */
    var timeframe: TimeframeKey

    /** The series is the 66-point series `generateSampleData` always builds. */
    predicate Valid() {
      |sampleData| == SeriesLength
    }

    /** Mounting the component: the selection starts at the 24-hour view. */
    constructor (sampleData: seq<PricePoint>)
      ensures this.sampleData == sampleData
      ensures Valid() <==> |sampleData| == SeriesLength
      ensures timeframe == Last24Hours
    {
      this.sampleData := sampleData;
      timeframe := Last24Hours;
    }

    /** `setTimeframe`, as every timeframe button calls it: any key from any key. */
    method SetTimeframe(key: TimeframeKey)
      modifies this
      ensures timeframe == key
    {
      timeframe := key;
    }

    /** The points the chart plots for the selected timeframe. */
    function CurrentData(): (view: seq<PricePoint>)
      reads this
      requires Valid()
      ensures view == sampleData[IndexRange(timeframe).0..IndexRange(timeframe).1]
    {
      GetTimeframeData(sampleData, timeframe)
    }

    /** The statistics the stat cards show for the selected timeframe. */
    function Stats(): (r: Option<PriceStats>)
      reads this
      requires Valid()
      ensures r.Some? && r.value.timeframe == timeframe
      ensures r.value.current == sampleData[IndexRange(timeframe).1 - 1].price
    {
      StatsOf(CurrentData(), timeframe)
    }
  }

  /**
   * Start-up: the series is generated once (`sampleData`) from the
   * instant and the random draws, and the chart starts on the 24-hour
   * view, whose current price is that of the newest hourly point.
   */
  method Startup(now: Now, draws: seq<real>) returns (chart: PriceChart)
    requires |draws| == SeriesLength
    ensures fresh(chart)
    ensures chart.sampleData == SampleSeries(now, draws)
    ensures chart.timeframe == Last24Hours
    ensures chart.Valid()
    ensures chart.Stats().Some? && chart.Stats().value.current == Price(draws[23])
  {
    var data := GenerateSampleData(now, draws);
    chart := new PriceChart(data);
    SampleSeriesAt(now, draws);
  }
}
