/**
 * Which text format the chart picks for its axis labels (`formatTimeLabel` and
 * `formatYValue` in LineChart.tsx). Only the branch is modelled; the rendered
 * digits depend on the host time zone and on JavaScript number printing.
 */
module Labels {

  import opened Extent

  /** The three time-label layouts, chosen by the span of the time axis. */
  datatype TimeFormat =
    | HoursMinutes          // `HH:MM`
    | DayMonthHoursMinutes  // `DD.MM HH:MM`
    | DayMonth              // `DD.MM`

  const MillisPerHour: real := 1000.0 * 60.0 * 60.0

  /** The layout `formatTimeLabel` uses for a time axis spanning `timeRange` milliseconds. */
  function TimeLabelFormat(timeRange: real): (f: TimeFormat)
    ensures f == HoursMinutes <==> timeRange <= 86_400_000.0
    ensures f == DayMonthHoursMinutes <==> 86_400_000.0 < timeRange <= 604_800_000.0
    ensures f == DayMonth <==> 604_800_000.0 < timeRange
  {
    var hours := timeRange / MillisPerHour;
    if hours <= 24.0 then HoursMinutes
    else if hours <= 168.0 then DayMonthHoursMinutes
    else DayMonth
  }

  /** Spans of 10, 100 and 300 hours select the three layouts in turn. */
  lemma TimeLabelExamples()
    ensures TimeLabelFormat(10.0 * MillisPerHour) == HoursMinutes
    ensures TimeLabelFormat(24.0 * MillisPerHour) == HoursMinutes
    ensures TimeLabelFormat(100.0 * MillisPerHour) == DayMonthHoursMinutes
    ensures TimeLabelFormat(168.0 * MillisPerHour) == DayMonthHoursMinutes
    ensures TimeLabelFormat(300.0 * MillisPerHour) == DayMonth
  {
  }

  /** The four value-label formats of `formatYValue`. */
  datatype ValueFormat =
    | ZeroText     // `"0"`
    | Exponential  // `toExponential(2)`
    | IntegerText  // `toString()` of a whole number
    | TwoDecimals  // `toFixed(2)` with trailing zeros dropped

  /** `Number.isInteger` on a finite number. */
  predicate IsInteger(v: real)
  {
    v == v.Floor as real
  }

  /** The format `formatYValue` picks for `v`: zero, tiny or huge, whole, or fractional. */
  function ValueLabelFormat(v: real): (f: ValueFormat)
    ensures f == ZeroText <==> v == 0.0
    ensures f == Exponential <==> v != 0.0 && (Abs(v) < 0.01 || Abs(v) > 1_000_000.0)
    ensures f == IntegerText <==> 0.01 <= Abs(v) <= 1_000_000.0 && IsInteger(v)
    ensures f == TwoDecimals <==> 0.01 <= Abs(v) <= 1_000_000.0 && !IsInteger(v)
  {
    if v == 0.0 then ZeroText
    else if Abs(v) < 0.01 || Abs(v) > 1_000_000.0 then Exponential
    else if IsInteger(v) then IntegerText
    else TwoDecimals
  }

  /**
   * The order of the tests matters: zero is never exponential, and a whole
   * number above one million is exponential rather than plain.
   */
  lemma ValueLabelExamples()
    ensures ValueLabelFormat(0.0) == ZeroText
    ensures ValueLabelFormat(0.00005) == Exponential
    ensures ValueLabelFormat(2_000_000.0) == Exponential
    ensures ValueLabelFormat(1_000_000.0) == IntegerText
    ensures ValueLabelFormat(5.0) == IntegerText
    ensures ValueLabelFormat(5.256) == TwoDecimals
  {
    assert IsInteger(1_000_000.0) by { assert (1_000_000.0).Floor == 1_000_000; }
    assert IsInteger(5.0) by { assert (5.0).Floor == 5; }
    assert !IsInteger(5.256) by { assert (5.256).Floor == 5; }
  }
}
