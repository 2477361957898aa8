# Telemetry chart geometry and row demultiplexer — a Dafny model

This project models the algorithmic core of a vehicle-telemetry viewer:

- the **line-chart geometry engine** of `LineChart.tsx`, which turns a list of
  `(time, value)` samples into drawable geometry: it drops negative readings,
  decimates long lists by a uniform stride, computes padded axis extents, maps
  time and value to screen coordinates, builds a smoothed SVG path and the area
  under it, generates value and time ticks, chooses label formats, and finds the
  sample nearest to the pointer (with a debounced hover);
- the **backend row demultiplexer** of `handlers.go`, which checks the required
  query parameters, converts dynamically typed column values to numbers, picks an
  event time, and splits pivoted database rows into four series and a GPS track.

Numbers are `real` (no IEEE rounding). Chart sample times are epoch
milliseconds, already parsed. Path output is a list of commands
`M(x, y) | L(x, y) | Q(cx, cy, x, y) | Z` rather than text. Backend records carry
their `_time` as Unix nanoseconds and their columns as a map from name to a tagged
`Value`. RFC 3339 parsing (section 5.6 of RFC 3339) is a parameter
`parse: string -> Option<int>` that returns Unix seconds, so the model treats it
as an uninterpreted partial function.

Modules: `Wrappers` (Option), `Extent`, `Sampling`, `Labels`, `Geometry`, `Chart`
and `Debounce` for the chart, and `Telemetry` for the backend.

Three consequences of the code are worth spelling out:

- A constant series `v` is padded by `max(1, abs(v)) * 0.1` on each side, so
  for `0 < abs(v) < 1` the padding is ±0.1 (`Extent.ConstantSeriesExtent`).
- Leaving the chart sets the raw hover to `null`. That goes through the same
  50-unit debounce as every other hover change, so the old hover stays on
  screen until the delay passes (`Debounce.LeaveIsDelayed`).
- The path is empty iff fewer than 2 points remain after downsampling
  (`Chart.PreparedDrawing`). With a cap of 2 or more, that is the same as fewer
  than 2 non-negative samples (`Sampling.DownsampleKeepsTwo`); with a cap of 1,
  two samples are decimated to one and the path is empty
  (`Sampling.CapOneKeepsOne`).

The time-label format is chosen from the padded time extent. That extent is
1.1 times the samples' span, so a window of data spanning more than about
21.8 hours already gets `DD.MM HH:MM` labels (`Chart.TimeLabelsUsePaddedSpan`).

## Model

| member | source | states |
|---|---|---|
| Extent.Min | submissions/frontend/src/components/LineChart.tsx:30-36 | the running minimum is an element of the list and no element is smaller |
| Extent.Max | submissions/frontend/src/components/LineChart.tsx:30-36 | the running maximum is an element of the list and no element is larger |
| Extent.ScanMinMax | submissions/frontend/src/components/LineChart.tsx:30-36 | the single pass returns an element that bounds the list from below and one that bounds it from above, i.e. the true minimum and maximum |
| Extent.ConstantIffMinIsMax | submissions/frontend/src/components/LineChart.tsx:38 | the `min === max` test holds exactly when every value equals the first one |
| Extent.CalculateExtent | submissions/frontend/src/components/LineChart.tsx:27-45 | empty input gives [0,1]; otherwise every value lies strictly inside the range, so lo < hi; a constant series is centred on its value with width max(1,abs(v))/5; otherwise each side is padded by 5 % of max − min |
| Extent.CalculateYExtent | submissions/frontend/src/components/LineChart.tsx:47-66 | same upper bound as the time extent, lower bound clamped to max(0, ·); for non-negative values lo < hi and every value lies in [lo, hi) |
| Extent.ConstantSeriesExtent | submissions/frontend/src/components/LineChart.tsx:38-41 | a constant series v gives v ± max(1,abs(v))/10: ±abs(v)/10 when abs(v) ≥ 1, ±0.1 below |
| Sampling.FilterNonNegative | submissions/frontend/src/components/LineChart.tsx:209 | a sample survives iff it is in the input with value ≥ 0; the result is no longer than the input |
| Sampling.FilterDistributes | submissions/frontend/src/components/LineChart.tsx:209 | filtering a concatenation concatenates the filtered parts, so relative order is preserved |
| Sampling.FilterEmptyIffAllNegative | submissions/frontend/src/components/LineChart.tsx:209-227 | nothing survives the filter exactly when every reading is negative, which is when the chart takes its empty branch |
| Sampling.CeilDiv | submissions/frontend/src/components/LineChart.tsx:231 | `Math.ceil(n / c)` is the least q with q·c ≥ n |
| Sampling.Stride | submissions/frontend/src/components/LineChart.tsx:231 | the stride is at least 1 and is the least k with k·cap ≥ n; a cap of 0 keeps index 0 only |
| Sampling.KeepEvery | submissions/frontend/src/components/LineChart.tsx:231 | keeping indices divisible by k yields exactly xs[0], xs[k], xs[2k], … : ceil(n/k) elements, in order |
| Sampling.Downsample | submissions/frontend/src/components/LineChart.tsx:230-232 | a list within the cap is returned unchanged; otherwise the result is exactly the elements at multiples of ceil(n/cap), in order; element 0 is always kept; the length is ≤ cap when cap ≥ 1 |
| Sampling.DecimatedFitsCap | submissions/frontend/src/components/LineChart.tsx:230-232 | with stride ceil(n/cap) at most cap indices below n are kept |
| Sampling.DownsampleKeepsTwo | submissions/frontend/src/components/LineChart.tsx:230-232 | with a cap ≥ 2, two or more samples never decimate to fewer than two |
| Sampling.CapOneKeepsOne | submissions/frontend/src/components/LineChart.tsx:230-232 | with a cap of 1, two samples decimate to one |
| Labels.TimeLabelFormat | submissions/frontend/src/components/LineChart.tsx:99-115 | a span ≤ 24 h (86 400 000 ms) selects HH:MM, a span ≤ 168 h selects DD.MM HH:MM, and anything longer selects DD.MM; each holds in both directions |
| Labels.TimeLabelExamples | submissions/frontend/src/components/LineChart.tsx:108-114 | spans of 10 h and 24 h give HH:MM, 100 h and 168 h give DD.MM HH:MM, and 300 h gives DD.MM |
| Labels.ValueLabelFormat | submissions/frontend/src/components/LineChart.tsx:117-131 | "0" iff v = 0; exponential iff v ≠ 0 and abs(v) < 0.01 or abs(v) > 1e6; plain integer iff 0.01 ≤ abs(v) ≤ 1e6 and v is whole; two decimals otherwise |
| Labels.ValueLabelExamples | submissions/frontend/src/components/LineChart.tsx:117-131 | 0 is "0" and never exponential, 0.00005 and 2 000 000 are exponential, 1 000 000 and 5 are plain, and 5.256 gets two decimals |
| Geometry.LayoutFor | submissions/frontend/src/components/LineChart.tsx:245-249 | the canvas width is max(1000, 2·height) and the height is the given one, so the plot is always at least 890 wide |
| Geometry.SX | submissions/frontend/src/components/LineChart.tsx:251 | sx(xmin) is the plot's left edge and sx(xmax) its right edge; a one-point extent maps to the centre |
| Geometry.SY | submissions/frontend/src/components/LineChart.tsx:252 | sy(ymin) is the baseline and sy(ymax) the top (inverted); a one-point extent maps to the centre |
| Geometry.ScaleXMonotone | submissions/frontend/src/components/LineChart.tsx:251 | sx is monotone: later times are never drawn further left |
| Geometry.ScaleYAntitone | submissions/frontend/src/components/LineChart.tsx:252 | sy is antitone: larger values are never drawn lower |
| Geometry.ScaleXWithinPlot | submissions/frontend/src/components/LineChart.tsx:251 | a time inside the extent is drawn between the plot's left and right edges |
| Geometry.ScaleYWithinPlot | submissions/frontend/src/components/LineChart.tsx:252 | a value inside the extent is drawn between the top edge and the baseline |
| Geometry.ControlPoint | submissions/frontend/src/components/LineChart.tsx:83-84 | the curve's control point is the horizontal midpoint of the two points, at the previous point's height |
| Geometry.PathFrom | submissions/frontend/src/components/LineChart.tsx:76-86 | the loop emits exactly one command per remaining point: L for the second point, Q for every later one |
| Geometry.SmoothPath | submissions/frontend/src/components/LineChart.tsx:68-89 | the path is empty iff there are fewer than 2 points; otherwise it is M p0, L p1, then Q(midpoint x, previous y, pᵢ) for each i ≥ 2, so n − 1 segments; the 2-point shortcut agrees with this rule |
| Geometry.SmoothPathVisitsPoints | submissions/frontend/src/components/LineChart.tsx:68-89 | command i ends at point i and only the first command is a move |
| Geometry.CreateArea | submissions/frontend/src/components/LineChart.tsx:91-97 | the area is empty iff there are fewer than 2 points; otherwise it is the whole smooth path, then a drop to the baseline under the last point, a run to the first point's x, and a close: n + 3 commands |
| Geometry.YTicks | submissions/frontend/src/components/LineChart.tsx:258-262 | there are exactly 6 ticks, from ymin to ymax in 5 equal steps, each at sy of its value; with ymin < ymax the first sits on the baseline and the last at the top |
| Geometry.TimeTickIntervals | submissions/frontend/src/components/LineChart.tsx:265-266 | the interval count lies between 3 and 8; it is 3 exactly when the plot is narrower than 400 and 8 exactly when it is at least 800 wide; in between it is the number of whole 100-pixel bands, so the count is max(3, min(8, floor(innerWidth/100))) |
| Geometry.TimeTicks | submissions/frontend/src/components/LineChart.tsx:264-275 | intervals + 1 ticks; the first is at the left edge and time xmin, the last at svgWidth − right and time xmax; ticks are evenly spaced in x and in time; every label uses the format of the full span |
| Geometry.TimeTickSpacing | submissions/frontend/src/components/LineChart.tsx:268-275 | tick i and tick i+1 are innerWidth/n apart on screen and (xmax − xmin)/n apart in time |
| Geometry.AlwaysNineTimeTicks | submissions/frontend/src/components/LineChart.tsx:245-268 | because the canvas is at least 1000 wide, there are always 9 time ticks |
| Chart.ProjectKeepsTimeOrder | submissions/frontend/src/components/LineChart.tsx:251-254 | one screen point per sample, and with a proper time extent samples in time order are drawn left to right (non-decreasing screen x) |
| Chart.DownsampledNonNegative | submissions/frontend/src/components/LineChart.tsx:209-232 | every sample that survives filtering and downsampling is an input sample with a non-negative value |
| Chart.ExtentsContainSamples | submissions/frontend/src/components/LineChart.tsx:240-243 | for non-negative samples the time extent and the value extent are proper ranges, the value extent starts at 0 or above, every time lies strictly inside its range and every value in [lo, hi) |
| Chart.Prepare | submissions/frontend/src/components/LineChart.tsx:190-292 | empty data, or data whose readings are all negative, gives the empty chart: no path, area, ticks or points, extents [0,1] and width 1000; otherwise the points are the downsampled filtered samples, starting with the first kept sample, at most the cap of them when the cap is at least 1 (one sample when the cap is 0); the time extent is `calculateExtent` of their times and the value extent `calculateYExtent` of their values; xmin < xmax and 0 ≤ ymin < ymax, so the centring branch of the scales is never taken; every point lies inside the extents |
| Chart.DefaultChartFitsCap | submissions/frontend/src/components/LineChart.tsx:21-23 | with the default height 400 and cap 1000, at most 1000 samples are plotted |
| Chart.PreparedDrawing | submissions/frontend/src/components/LineChart.tsx:254-286 | a non-empty chart draws the smoothed path through the projected samples, empty iff fewer than 2 samples remain; the area is empty iff it is switched off or fewer than 2 samples remain; there are 6 value ticks and 9 time ticks |
| Chart.PlottedPointsInsidePlot | submissions/frontend/src/components/LineChart.tsx:240-254 | for a chart at least 40 high, every sample is drawn inside the plot rectangle |
| Chart.TimeLabelsUsePaddedSpan | submissions/frontend/src/components/LineChart.tsx:264-272 | the label format is that of the padded extent, whose span is 1.1 times the samples' span |
| Chart.FirstNearestUnique | submissions/frontend/src/components/LineChart.tsx:297-306 | at most one index is nearest with all earlier ones strictly farther, so the scan's answer is determined |
| Chart.NearestIndex | submissions/frontend/src/components/LineChart.tsx:297-306 | returns nothing iff the list is empty; otherwise the returned index has the least distance abs(x − target), and every earlier index is strictly farther (ties keep the first) |
| Chart.FindNearestPoint | submissions/frontend/src/components/LineChart.tsx:294-309 | returns nothing iff the chart has no points; otherwise the position of the first point whose screen x is nearest to the pointer |
| Chart.HitTestExample | submissions/frontend/src/components/LineChart.tsx:297-306 | with points at screen x 10, 50 and 90 and the pointer at 52, the point at 50 is chosen |
| Chart.HandleMouseMove | submissions/frontend/src/components/LineChart.tsx:311-337 | no change on an empty chart; a pointer left of `left` or right of `svgWidth − right` clears the hover; inside the plot the hover is the first nearest point, at its screen position |
| Debounce.MountShowsInitial | submissions/frontend/src/components/LineChart.tsx:134-145 | after mounting with a value, that value is raw and shown at every later time, and the mount timer is pending exactly until 50 after mounting |
| Debounce.Update | submissions/frontend/src/components/LineChart.tsx:137-145 | a changed raw value replaces the pending timer with one due 50 later and leaves the shown value alone; an unchanged value changes nothing |
| Debounce.Advance | submissions/frontend/src/components/LineChart.tsx:138-140 | once the timer is due the latest raw value is shown and nothing is pending; before that nothing changes |
| Debounce.BurstCoalesces | submissions/frontend/src/components/LineChart.tsx:134-148 | during a burst of changes, each less than 50 after the previous one, nothing new is shown and only the last value stays pending |
| Debounce.BurstSettlesOnLast | submissions/frontend/src/components/LineChart.tsx:134-148 | 50 after a burst's last change, the last value is shown |
| Debounce.LeaveIsDelayed | submissions/frontend/src/components/LineChart.tsx:339 | after mouse-leave sets the raw hover to null, the old hover stays shown for 50 time units and is cleared after that |
| Telemetry.ToFloat64 | submissions/backend/handlers.go:145-158 | returns (value, true) exactly for float64, int64, int32 and int, and (0, false) for every other dynamic type, including nil |
| Telemetry.UnixSeconds | submissions/backend/handlers.go:172 | Unix seconds are the whole seconds of the nanosecond time, rounded down |
| Telemetry.GetEventTime | submissions/backend/handlers.go:160-173 | an int64 event_time is returned unchanged; a string that parses as RFC 3339 gives its Unix seconds; a missing key, an unparseable string or any other type gives the record time's Unix seconds |
| Telemetry.SeriesOf | submissions/backend/handlers.go:108-121 | a series is never longer than the record list |
| Telemetry.SeriesDistributes | submissions/backend/handlers.go:103-121 | the series of a concatenation is the concatenation of the series, so points keep record order |
| Telemetry.SeriesOfOne | submissions/backend/handlers.go:109-111 | a single record adds exactly one point, stamped with its time, when its column converts, and nothing otherwise |
| Telemetry.SeriesOneToOne | submissions/backend/handlers.go:103-121 | when every record's field converts to a number, the series has one point per record, and point i belongs to record i |
| Telemetry.SeriesProvenance | submissions/backend/handlers.go:109-111 | every series point comes from a record whose column converts, with that record's time and value |
| Telemetry.SeriesInTimeOrder | submissions/backend/handlers.go:103-121 | records sorted by time give series sorted by time |
| Telemetry.TrackOf | submissions/backend/handlers.go:122-132 | the track is never longer than the record list |
| Telemetry.TrackProvenance | submissions/backend/handlers.go:122-132 | every fix comes from a record whose latitude and longitude both convert |
| Telemetry.TrackDistributes | submissions/backend/handlers.go:103-133 | the track of a concatenation is the concatenation of the tracks, so fixes keep record order |
| Telemetry.TrackOfOne | submissions/backend/handlers.go:122-132 | a record adds a fix iff both latitude and longitude convert |
| Telemetry.SplitRecords | submissions/backend/handlers.go:100-133 | the record loop builds exactly the four per-field series and the track |
| Telemetry.Strings | submissions/backend/handlers.go:55-60 | keeps exactly the string values and never adds entries |
| Telemetry.StringsDistributes | submissions/backend/handlers.go:55-60 | the strings of concatenated rows are the strings of the first part followed by those of the second, so row order and repeats are kept |
| Telemetry.GetFields | submissions/backend/handlers.go:35-62 | an empty imei is rejected with 400 "imei required" and no query is issued; otherwise a query error gives 500 with its message and rows give 200 with the string field names |
| Telemetry.GetTelemetry | submissions/backend/handlers.go:63-143 | a missing imei, start or end is rejected with 400 and no query is issued; otherwise a query error gives 500 and rows give 200 with the four series and the track split from them |

## Left out

- Text rendering: number printing (`toExponential`, `toFixed`, template-literal coordinates), the tick and hover label strings, and RFC 3339 formatting of `_time`. Only the chosen label format and the whole-second time stamp are modelled.
- `Date` parsing and local-time field extraction (`getDate`, `getHours`, `toLocaleString('ru-RU')`): these depend on the host time zone. Sample times enter as epoch milliseconds.
- IEEE-754 behaviour: NaN values, rounding, and `float64(int64)` precision loss are outside a model over `real`.
- `maxDataPoints` is a `nat`. Fractional and negative caps are not modelled: a fractional cap still gives a whole stride `ceil(n / cap)` but a different length bound than `Sampling.DecimatedFitsCap` states, and a negative cap gives a stride `ceil(n / cap)` of −0 or below: at −0 `i % stride` is NaN and nothing is kept, below it every abs(stride)-th index is kept.
- React hooks, SVG/JSX rendering, the `svgRef` null check, and the `getBoundingClientRect` mapping from client x to canvas x (LineChart.tsx:312-316). `Chart.HandleMouseMove` receives the canvas x directly.
- Debounce.Update: React reschedules the timer when the hover object's identity changes. The model compares hovers by value, so re-setting an equal hover does not restart the timer.
- Chart.FindNearestPoint: returns the position of the chosen point in `pts` instead of the point record itself.
- The `sx`/`sy` closures are not stored in `Chart.Prepared`. `Chart.ScreenX` and `Chart.ScreenY` rebuild them from the extents and the layout, and they are the constant 0 when there are no points.
- `page.tsx`, `api.ts`, `MapComponent.tsx`, `MapView.tsx`, `main.go`, `config.go` and `influx.go`: UI state, fetch wiring, map rendering and client construction.
- The Flux query text, including the voltage division by 1000 and the `limit(n:10000)`, runs inside InfluxDB. The query outcome is a parameter of the handlers.
- `GetIMEIsHandler`: not part of this model. Its string filtering is the same as `Telemetry.Strings`.
- JSON encoding, including `null` for empty Go slices, and the HTTP framework.
