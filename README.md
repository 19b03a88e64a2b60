# Price chart: series, timeframes and statistics

A Dafny model of the logic of the Bitcoin price chart page
(`my-app/src/app/HomePage.tsx`):

- **Series** (`series.dfy`). `generateSampleData` builds one synthetic series in a single pass. It has 24 hourly points ending at now, then 30 daily points ending at now, then 12 monthly points on the first day of each month, ending at the current month. 66 points in all, at offsets 0–23, 24–53 and 54–65.
  - The generator is an imperative method. Its three counting-down loops push onto a local sequence.
  - It is proved equal to the specification function `SampleSeries`.
  - Lemmas about `SampleSeries` give the layout, the exact timestamps, the months and the price bounds.
- **Timeframe** (`timeframe.dfy`). `getTimeframeData` maps the closed key set `'24h' | '7d' | '30d' | '1y'` to a slice of the series. `priceStats` computes the current (last), highest and lowest price of that slice.
  - `Array.prototype.slice` is modelled with its clamping of bounds, so any series can be given to the selector.
  - `Math.max` and `Math.min` are recursive functions. Each is proved to give a bound that is attained.
- **Chart** (`chart.dfy`). The component state is a class.
  - The `timeframe` field starts at `'24h'` and is set by `SetTimeframe`.
  - It reads the series built once at start-up.

Inputs `HomePage.tsx` reads from the environment are parameters here:
- `new Date()` becomes a `Now` value: milliseconds, full year and 0-based month.
- `Math.random` becomes a sequence of 66 draws, consumed one per point in push order.
- A price is `30000 + draw * 5000`, computed on exact reals.

The `'7d'` key is modelled as written: `slice(24, 31)` is the *oldest* week of the daily segment. Its points lie 29 down to 23 days before now (`Timeframe.GeneratedWeekView`). It is not the most recent week.

The current price is one of the prices of the slice. So besides `highest >= lowest`, the model also proves `lowest <= current <= highest`.

## Model

| member | source | states |
|---|---|---|
| `Series.Price` | my-app/src/app/HomePage.tsx:33 | a draw in [0, 1) gives a price in [30000, 35000) |
| `Series.GenerateSampleData` | my-app/src/app/HomePage.tsx:24-59 | the three loops push exactly 66 points. Point n < 24 is the hourly point 23 - n hours back. Point 24 ≤ n < 54 is the daily point 53 - n days back. Point 54 ≤ n < 66 is the monthly point 65 - n months back. Each point takes draw n. The result equals `SampleSeries` |
| `Series.HourlyPoint` | my-app/src/app/HomePage.tsx:30-35 | offset 0 is exactly now, and a point is not after now exactly when its offset is non-negative. Its exact timestamps are stated by `HourlyTimestamps` |
| `Series.HourlyPointsApart` | my-app/src/app/HomePage.tsx:30 | hourly points at offsets i and j lie exactly (i - j)·3600000 ms apart |
| `Series.DailyPoint` | my-app/src/app/HomePage.tsx:40-45 | offset 0 is exactly now, and a point is not after now exactly when its offset is non-negative. Its exact timestamps are stated by `DailyTimestamps` |
| `Series.DailyPointsApart` | my-app/src/app/HomePage.tsx:40 | daily points at offsets i and j lie exactly (i - j)·86400000 ms apart |
| `Series.MonthlyPoint` | my-app/src/app/HomePage.tsx:50-55 | `new Date(year, month - i, 1)` carries the month into the year: the point is on a valid 0-based month exactly i months before now's (year, month), and its month-and-year label names that same month |
| `Series.SampleSeries` | my-app/src/app/HomePage.tsx:24-59 | the specification of the generated series; its own contract states only its length, 66. Its layout is stated by `SampleSeriesAt` |
| `Series.SampleSeriesAt` | my-app/src/app/HomePage.tsx:29-56 | the series has length 66: hourly points at 0..23, daily at 24..53, monthly at 54..65, in that order |
| `Series.HourlyTimestamps` | my-app/src/app/HomePage.tsx:29-32 | point n (0 ≤ n < 24) has timestamp now - (23 - n)·3600000. Timestamps strictly increase, one hour apart. The last one is now |
| `Series.DailyTimestamps` | my-app/src/app/HomePage.tsx:39-42 | point n (24 ≤ n < 54) has timestamp now - (53 - n)·86400000. Timestamps strictly increase, one day apart. The last one is now |
| `Series.MonthlyPointMonth` | my-app/src/app/HomePage.tsx:50 | for a valid now (month 0..11), the point of offset 0 is on now's own (year, month) |
| `Series.MonthlyMonths` | my-app/src/app/HomePage.tsx:49-50 | point n (54 ≤ n < 66) is day 1 of the month 65 - n months before now's month. The months are consecutive and strictly increasing. The last one is now's (year, month) |
| `Series.PricesInRange` | my-app/src/app/HomePage.tsx:29-55 | when every draw is in [0, 1), every price of the series is in [30000, 35000) |
| `Timeframe.Slice` | my-app/src/app/HomePage.tsx:87-93 | `slice` clamps both bounds to the length and is empty when the end is not past the start. The result is the contiguous run from the clamped start. When the bounds are in range it is exactly `s[start..end]` |
| `Timeframe.SliceArguments` | my-app/src/app/HomePage.tsx:86-93 | each `case`'s `slice` starts where the key's index range starts and, when it has an end, ends where the range ends; only `'1y'` leaves the end out |
| `Timeframe.GetTimeframeData` | my-app/src/app/HomePage.tsx:84-97 | never longer than the series. For a 66-point series it is exactly the key's index range: [0,24), [24,31), [24,54) or [54,66) |
| `Timeframe.TimeframeSlices` | my-app/src/app/HomePage.tsx:86-93 | on a 66-point series the four views have lengths 24, 7, 30 and 12, and the 7-day view is a prefix of the 30-day view. The views' index ranges are stated by `GetTimeframeData` |
| `Timeframe.GeneratedDayView` | my-app/src/app/HomePage.tsx:86-87 | on the generated series the 24h view is the hourly segment: its point j is the hourly point 23 - j hours back |
| `Timeframe.GeneratedWeekView` | my-app/src/app/HomePage.tsx:88-89 | on the generated series the 7d view's point j lies 29 - j days before now, so it is the oldest week and ends 23 days before now |
| `Timeframe.GeneratedMonthView` | my-app/src/app/HomePage.tsx:90-91 | on the generated series the 30d view is the daily segment: its point j is the daily point 29 - j days back |
| `Timeframe.GeneratedYearView` | my-app/src/app/HomePage.tsx:92-93 | on the generated series the 1y view is the monthly segment: its point j is the monthly point 11 - j months back |
| `Timeframe.Prices` | my-app/src/app/HomePage.tsx:101 | the `map` to prices; no contract of its own; its facts are stated by `PricesOfSlice` and `StatsOf` |
| `Timeframe.PricesOfSlice` | my-app/src/app/HomePage.tsx:100-101 | mapping to prices commutes with slicing: the prices of `series[lo..hi]` are the prices of the series, sliced at `lo..hi`. The other price facts are stated by `StatsOf` |
| `Timeframe.MaxPrice` | my-app/src/app/HomePage.tsx:104 | `Math.max` of a non-empty list is at least every element and is one of them |
| `Timeframe.MinPrice` | my-app/src/app/HomePage.tsx:105 | `Math.min` of a non-empty list is at most every element and is one of them |
| `Timeframe.StatsOf` | my-app/src/app/HomePage.tsx:99-108 | there are no statistics iff the view is empty. Otherwise `current` is the last point's price. `highest` and `lowest` bound every price and are attained. `lowest <= current <= highest`, and the result carries the timeframe |
| `Timeframe.PriceStatsFor` | my-app/src/app/HomePage.tsx:99-108 | for a 66-point series every timeframe has statistics |
| `Timeframe.StatsWithinBounds` | my-app/src/app/HomePage.tsx:103-105 | bounds that hold of every price of a non-empty view also hold of its `current`, `highest` and `lowest` |
| `Timeframe.GeneratedStats` | my-app/src/app/HomePage.tsx:99-108 | on the generated series, each key's `current` is the price of the last point of its index range. When every draw is in [0, 1), `lowest`, `current` and `highest` lie in [30000, 35000) |
| `Timeframe.SevenDayExample` | my-app/src/app/HomePage.tsx:88-89 | if the daily segment holds prices 100..129, the 7d view shows prices 100..106, with current 106, highest 106 and lowest 100 |
| `Chart.PriceChart.constructor` | my-app/src/app/HomePage.tsx:64 | the selected timeframe starts at `'24h'`, over the given series; the chart is valid exactly when that series has 66 points |
| `Chart.PriceChart.SetTimeframe` | my-app/src/app/HomePage.tsx:153-176 | any key can be selected from any state, and afterwards it is the selected key |
| `Chart.PriceChart.CurrentData` | my-app/src/app/HomePage.tsx:183 | for a valid chart (66-point series) the plotted points are the selected key's index range of the series |
| `Chart.PriceChart.Stats` | my-app/src/app/HomePage.tsx:99-108 | for a valid chart the stat cards always have statistics for the selected key, and `current` is the price at the end of its index range |
| `Chart.Startup` | my-app/src/app/HomePage.tsx:61-64 | the series is generated once and the chart is valid. It starts on `'24h'` and its current price is that of the newest hourly point (index 23, 0 hours back, draw 23) |

## Left out

- Presentation: `CustomTooltip`, `TimeframeButton`, `StatCard`, the chart and icon components and their class strings. Only the data they receive is modelled.
- `formatPrice` and the `toLocaleString` / `toLocaleDateString` labels. They depend on the locale. A label records which formatter was applied to which date, and the rendered text is opaque.
- `Math.random` is a parameter: a sequence of 66 draws, one per point, in push order. The price bound holds under the hypothesis that every draw is in [0, 1).
- Floating point: prices are exact reals. Under IEEE-754 rounding, a draw just below 1 can make `30000 + draw * 5000` round to exactly 35000. The model has no such rounding.
- `new Date()`, time zones and the epoch value of local midnight are out of scope. Milliseconds, year and month are given together, and nothing ties them to one another. Monthly points keep their (year, month) in place of a millisecond timestamp.
- The Date constructor's other rules are not modelled: years 0–99 read as 1900–1999, and dates outside the representable range give an invalid date.
- The `default` branch of `getTimeframeData` cannot be reached, because the key is a closed datatype.
- `useMemo` caching and re-rendering: the statistics are a pure function of the series and the key.
- `Timeframe.StatsOf`: for an empty view `priceStats` in `HomePage.tsx` gives `undefined`, `-Infinity` and `+Infinity`. The model returns `None`. That case cannot happen for the generated series.
