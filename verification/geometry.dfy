/**
 * The geometry builder of the chart (LineChart.tsx:68-97 and 245-275): canvas
 * layout, the two axis scales, the smoothed path, the area under it, and the
 * value and time ticks.
 */
module Geometry {

  import opened Extent
  import opened Labels

  /** Fixed insets of the plot inside the canvas. */
  const PadTop: real := 10.0
  const PadRight: real := 50.0
  const PadBottom: real := 30.0
  const PadLeft: real := 60.0

  /** The canvas is never narrower than this. */
  const MinSvgWidth: real := 1000.0

  /** Canvas size; the plot is the canvas minus the four insets. */
  datatype Layout = Layout(svgWidth: real, svgHeight: real) {

    function InnerWidth(): real { svgWidth - PadLeft - PadRight }

    function InnerHeight(): real { svgHeight - PadTop - PadBottom }

    /** Screen y of the plot's bottom edge, where the area closes. */
    function Baseline(): real { PadTop + InnerHeight() }

    /** Screen x of the plot's right edge. */
    function PlotRight(): real { svgWidth - PadRight }
  }

  /** LineChart.tsx:245-249: the canvas for a chart `height` pixels high. */
  function LayoutFor(height: real): (l: Layout)
    ensures l.svgHeight == height
    ensures l.svgWidth >= MinSvgWidth && l.svgWidth >= 2.0 * height
    ensures l.svgWidth == MinSvgWidth || l.svgWidth == 2.0 * height
    ensures l.InnerWidth() >= 890.0
  {
    Layout(MaxOf(MinSvgWidth, height * 2.0), height)
  }

  /** Division by a positive number preserves order. */
  lemma DivMonotone(p: real, q: real, d: real)
    requires d > 0.0 && p <= q
    ensures p / d <= q / d
  {
    var a, b := p / d, q / d;
    assert a * d == p && b * d == q;
  }

  /** Zero and the divisor itself, divided by a non-zero number. */
  lemma DivFacts(d: real)
    requires d != 0.0
    ensures 0.0 / d == 0.0 && d / d == 1.0
  {
  }

  /** Division distributes over a sum. */
  lemma DivAdd(p: real, q: real, d: real)
    requires d != 0.0
    ensures (p + q) / d == p / d + q / d
  {
    var a, b := p / d, q / d;
    assert a * d == p && b * d == q;
    assert (a + b) * d == p + q;
  }

  /** The position of `t` inside `[lo, hi]`, as a fraction in `[0, 1]`. */
  lemma FractionInUnit(t: real, lo: real, hi: real)
    requires lo < hi && lo <= t <= hi
    ensures 0.0 <= (t - lo) / (hi - lo) <= 1.0
  {
    DivFacts(hi - lo);
    DivMonotone(0.0, t - lo, hi - lo);
    DivMonotone(t - lo, hi - lo, hi - lo);
  }

  /** `sx`: time to screen x; the centre of the plot when the extent is a single point. */
  function SX(l: Layout, xmin: real, xmax: real, t: real): (x: real)
    ensures xmin == xmax ==> x == PadLeft + l.InnerWidth() / 2.0
    ensures xmin != xmax && t == xmin ==> x == PadLeft
    ensures xmin != xmax && t == xmax ==> x == l.PlotRight()
  {
    var f := if xmin == xmax then 0.5 else (DivFacts(xmax - xmin); (t - xmin) / (xmax - xmin));
    PadLeft + f * l.InnerWidth()
  }

  /** `sy`: value to screen y, inverted because screen y grows downwards. */
  function SY(l: Layout, ymin: real, ymax: real, v: real): (y: real)
    ensures ymin == ymax ==> y == PadTop + l.InnerHeight() / 2.0
    ensures ymin != ymax && v == ymin ==> y == l.Baseline()
    ensures ymin != ymax && v == ymax ==> y == PadTop
  {
    var f := if ymax == ymin then 0.5 else (DivFacts(ymax - ymin); 1.0 - (v - ymin) / (ymax - ymin));
    PadTop + f * l.InnerHeight()
  }

  /** A fraction in `[0, 1]` of a non-negative length stays inside that length. */
  lemma FractionOfLength(f: real, w: real)
    requires 0.0 <= f <= 1.0 && w >= 0.0
    ensures 0.0 <= f * w <= w
  {
  }

  /** Scaling by a non-negative length preserves order. */
  lemma ScaleMonotone(p: real, q: real, w: real)
    requires p <= q && w >= 0.0
    ensures p * w <= q * w
  {
    assert q * w - p * w == (q - p) * w;
  }

  /** `sx` is monotone: later times are drawn further right. */
  lemma ScaleXMonotone(l: Layout, xmin: real, xmax: real, a: real, b: real)
    requires xmin < xmax && l.InnerWidth() >= 0.0 && a <= b
    ensures SX(l, xmin, xmax, a) <= SX(l, xmin, xmax, b)
  {
    var d, w := xmax - xmin, l.InnerWidth();
    DivMonotone(a - xmin, b - xmin, d);
    var fa, fb := (a - xmin) / d, (b - xmin) / d;
    ScaleMonotone(fa, fb, w);
    var xa, xb := SX(l, xmin, xmax, a), SX(l, xmin, xmax, b);
    assert xa == PadLeft + fa * w;
    assert xb == PadLeft + fb * w;
  }

  /** Away from a flat extent, `sy` is the baseline minus the scaled fraction. */
  lemma SYFromBaseline(l: Layout, ymin: real, ymax: real, v: real)
    requires ymin < ymax
    ensures SY(l, ymin, ymax, v) == l.Baseline() - ((v - ymin) / (ymax - ymin)) * l.InnerHeight()
  {
    var g, h := (v - ymin) / (ymax - ymin), l.InnerHeight();
    assert (1.0 - g) * h == h - g * h;
  }

  /** `sy` is antitone: larger values are drawn higher up. */
  lemma ScaleYAntitone(l: Layout, ymin: real, ymax: real, a: real, b: real)
    requires ymin < ymax && l.InnerHeight() >= 0.0 && a <= b
    ensures SY(l, ymin, ymax, a) >= SY(l, ymin, ymax, b)
  {
    var d, h := ymax - ymin, l.InnerHeight();
    var ga, gb := (a - ymin) / d, (b - ymin) / d;
    DivMonotone(a - ymin, b - ymin, d);
    ScaleMonotone(ga, gb, h);
    var base := l.Baseline();
    var pa, pb := ga * h, gb * h;
    assert base - pa >= base - pb;
    SYFromBaseline(l, ymin, ymax, a);
    SYFromBaseline(l, ymin, ymax, b);
  }

  /** A time inside the extent is drawn between the plot's left and right edges. */
  lemma ScaleXWithinPlot(l: Layout, xmin: real, xmax: real, t: real)
    requires xmin < xmax && xmin <= t <= xmax && l.InnerWidth() >= 0.0
    ensures PadLeft <= SX(l, xmin, xmax, t) <= l.PlotRight()
  {
    var f := (t - xmin) / (xmax - xmin);
    var w := l.InnerWidth();
    FractionInUnit(t, xmin, xmax);
    FractionOfLength(f, w);
    var x := SX(l, xmin, xmax, t);
    assert x == PadLeft + f * w;
    assert x <= PadLeft + w;
  }

  /** A value inside the extent is drawn between the plot's top edge and its baseline. */
  lemma ScaleYWithinPlot(l: Layout, ymin: real, ymax: real, v: real)
    requires ymin < ymax && ymin <= v <= ymax && l.InnerHeight() >= 0.0
    ensures PadTop <= SY(l, ymin, ymax, v) <= l.Baseline()
  {
    var f := 1.0 - (v - ymin) / (ymax - ymin);
    var h := l.InnerHeight();
    FractionInUnit(v, ymin, ymax);
    FractionOfLength(f, h);
    var y := SY(l, ymin, ymax, v);
    assert y == PadTop + f * h;
    assert y <= PadTop + h;
  }

  /** A screen point of the path. */
  datatype Point = Point(x: real, y: real)

  /** SVG path commands: move, line, quadratic curve (control point, end point), close. */
  datatype Cmd =
    | M(x: real, y: real)
    | L(x: real, y: real)
    | Q(cx: real, cy: real, x: real, y: real)
    | Z

  /** The control point of the curve into `cur`: half-way across, at the previous point's height. */
  function ControlPoint(prev: Point, cur: Point): (c: Point)
    ensures c.x == (prev.x + cur.x) / 2.0 && c.y == prev.y
  {
    Point(prev.x + (cur.x - prev.x) * 0.5, prev.y)
  }

  /** The command the loop of `createSmoothPath` emits for `points[i]`. */
  function StepTo(points: seq<Point>, i: nat): Cmd
    requires 1 <= i < |points|
  {
    var cur := points[i];
    if i == 1 then L(cur.x, cur.y)
    else
      var c := ControlPoint(points[i - 1], cur);
      Q(c.x, c.y, cur.x, cur.y)
  }

  /** The commands the loop appends for `points[i..]`. */
  function PathFrom(points: seq<Point>, i: nat): (r: seq<Cmd>)
    requires 1 <= i <= |points|
    ensures |r| == |points| - i
    ensures forall j :: 0 <= j < |r| ==> r[j] == StepTo(points, i + j)
    decreases |points| - i
  {
    if i == |points| then [] else [StepTo(points, i)] + PathFrom(points, i + 1)
  }

  /** `createSmoothPath` (LineChart.tsx:68-89), with its two-point shortcut. */
  function SmoothPath(points: seq<Point>): (r: seq<Cmd>)
    ensures r == [] <==> |points| < 2
    ensures |points| >= 2 ==>
      && |r| == |points|
      && r[0] == M(points[0].x, points[0].y)
      && r[1] == L(points[1].x, points[1].y)
      && forall i :: 2 <= i < |points| ==>
           r[i] == Q((points[i - 1].x + points[i].x) / 2.0, points[i - 1].y, points[i].x, points[i].y)
  {
    if |points| < 2 then []
    else if |points| == 2 then [M(points[0].x, points[0].y), L(points[1].x, points[1].y)]
    else [M(points[0].x, points[0].y)] + PathFrom(points, 1)
  }

  /** The point a drawing command ends at. */
  function EndOf(c: Cmd): Point
    requires !c.Z?
  {
    match c
    case M(x, y) => Point(x, y)
    case L(x, y) => Point(x, y)
    case Q(_, _, x, y) => Point(x, y)
  }

  /** The path visits the points in order, one command each, and draws `n - 1` segments. */
  lemma SmoothPathVisitsPoints(points: seq<Point>)
    requires |points| >= 2
    ensures forall i :: 0 <= i < |points| ==> !SmoothPath(points)[i].Z? && EndOf(SmoothPath(points)[i]) == points[i]
    ensures forall i :: 1 <= i < |points| ==> !SmoothPath(points)[i].M?
  {
  }

  /** `createArea` (LineChart.tsx:91-97): the path closed down to `bottomY` and back. */
  function CreateArea(points: seq<Point>, bottomY: real): (r: seq<Cmd>)
    ensures r == [] <==> |points| < 2
    ensures |points| >= 2 ==>
      && |r| == |points| + 3
      && r[..|points|] == SmoothPath(points)
      && r[|points|] == L(points[|points| - 1].x, bottomY)
      && r[|points| + 1] == L(points[0].x, bottomY)
      && r[|points| + 2] == Z
  {
    if |points| < 2 then []
    else
      var path := SmoothPath(points);
      var lastPoint := points[|points| - 1];
      var firstPoint := points[0];
      path + [L(lastPoint.x, bottomY), L(firstPoint.x, bottomY), Z]
  }

  /** A value-axis tick: its screen y and the value it marks. */
  datatype YTick = YTick(y: real, val: real)

  const YTickCount: nat := 6

  function YTickAt(l: Layout, ymin: real, ymax: real, i: nat): YTick
  {
    var val := ymin + (ymax - ymin) * (i as real / 5.0);
    YTick(SY(l, ymin, ymax, val), val)
  }

  /** LineChart.tsx:258-262: six evenly spaced value ticks from `ymin` to `ymax`. */
  function YTicks(l: Layout, ymin: real, ymax: real): (r: seq<YTick>)
    ensures |r| == YTickCount
    ensures r[0].val == ymin && r[5].val == ymax
    ensures forall i :: 0 <= i < 5 ==> r[i + 1].val - r[i].val == (ymax - ymin) / 5.0
    ensures forall i :: 0 <= i < |r| ==> r[i].y == SY(l, ymin, ymax, r[i].val)
    ensures ymin < ymax ==> r[0].y == l.Baseline() && r[5].y == PadTop
  {
    seq(YTickCount, i requires 0 <= i < YTickCount => YTickAt(l, ymin, ymax, i))
  }

  /** A time-axis tick: screen x, the time it marks, and the label layout. */
  datatype TimeTick = TimeTick(x: real, time: real, format: TimeFormat)

  /** LineChart.tsx:265-266: one tick interval per 100 pixels, between 3 and 8. */
  function TimeTickIntervals(l: Layout): (n: nat)
    ensures 3 <= n <= 8
    ensures n == 8 <==> l.InnerWidth() >= 800.0
    ensures n == 3 <==> l.InnerWidth() < 400.0
    ensures 3 < n < 8 ==> n as real * 100.0 <= l.InnerWidth() < (n + 1) as real * 100.0
  {
    var maxTimeTicks := if (l.InnerWidth() / 100.0).Floor < 8 then (l.InnerWidth() / 100.0).Floor else 8;
    if maxTimeTicks < 3 then 3 else maxTimeTicks
  }

  function TimeTickAt(l: Layout, xmin: real, xmax: real, n: nat, i: nat): TimeTick
    requires n > 0
  {
    var ratio := i as real / n as real;
    TimeTick(PadLeft + l.InnerWidth() * ratio, xmin + (xmax - xmin) * ratio, TimeLabelFormat(xmax - xmin))
  }

  /** Consecutive ratios `i / n` and `(i + 1) / n` scale `w` to values `w / n` apart. */
  lemma TickRatioStep(w: real, i: nat, n: nat)
    requires n > 0
    ensures w * ((i + 1) as real / n as real) - w * (i as real / n as real) == w / n as real
  {
    DivAdd(i as real, 1.0, n as real);
    var a, b := i as real / n as real, 1.0 / n as real;
    assert w * (a + b) - w * a == w * b;
    assert b * n as real == 1.0;
    assert (w * b) * n as real == w;
  }

  lemma TimeTickSpacing(l: Layout, xmin: real, xmax: real, n: nat)
    requires n > 0
    ensures TimeTickAt(l, xmin, xmax, n, 0).x == PadLeft
    ensures TimeTickAt(l, xmin, xmax, n, 0).time == xmin
    ensures TimeTickAt(l, xmin, xmax, n, n).x == l.PlotRight()
    ensures TimeTickAt(l, xmin, xmax, n, n).time == xmax
    ensures forall i :: 0 <= i < n ==>
      && TimeTickAt(l, xmin, xmax, n, i + 1).x - TimeTickAt(l, xmin, xmax, n, i).x == l.InnerWidth() / n as real
      && TimeTickAt(l, xmin, xmax, n, i + 1).time - TimeTickAt(l, xmin, xmax, n, i).time == (xmax - xmin) / n as real
  {
    DivFacts(n as real);
    forall i | 0 <= i < n
      ensures TimeTickAt(l, xmin, xmax, n, i + 1).x - TimeTickAt(l, xmin, xmax, n, i).x == l.InnerWidth() / n as real
      ensures TimeTickAt(l, xmin, xmax, n, i + 1).time - TimeTickAt(l, xmin, xmax, n, i).time == (xmax - xmin) / n as real
    {
      TickRatioStep(l.InnerWidth(), i, n);
      TickRatioStep(xmax - xmin, i, n);
    }
  }

  /** LineChart.tsx:264-275: evenly spaced time ticks from the plot's left edge to its right edge. */
  function TimeTicks(l: Layout, xmin: real, xmax: real): (r: seq<TimeTick>)
    ensures |r| == TimeTickIntervals(l) + 1
    ensures r[0].x == PadLeft && r[0].time == xmin
    ensures r[|r| - 1].x == l.PlotRight() && r[|r| - 1].time == xmax
    ensures forall i :: 0 <= i < |r| - 1 ==>
      && r[i + 1].x - r[i].x == l.InnerWidth() / TimeTickIntervals(l) as real
      && r[i + 1].time - r[i].time == (xmax - xmin) / TimeTickIntervals(l) as real
    ensures forall i :: 0 <= i < |r| ==> r[i].format == TimeLabelFormat(xmax - xmin)
  {
    var n := TimeTickIntervals(l);
    TimeTickSpacing(l, xmin, xmax, n);
    seq(n + 1, i requires 0 <= i <= n => TimeTickAt(l, xmin, xmax, n, i))
  }

  /** Because the canvas is at least 1000 wide, the plot always gets 8 intervals, 9 ticks. */
  lemma AlwaysNineTimeTicks(height: real, xmin: real, xmax: real)
    ensures |TimeTicks(LayoutFor(height), xmin, xmax)| == 9
  {
  }
}
