/**
 * The chart's derived geometry (the `prepared` memo of LineChart.tsx:190-292)
 * and its pointer interaction (`findNearestPoint` and `handleMouseMove`,
 * LineChart.tsx:294-337).
 */
module Chart {

  import opened Wrappers
  import opened Extent
  import opened Sampling
  import opened Geometry
  import Labels

  const DefaultHeight: real := 400.0
  const DefaultMaxDataPoints: nat := 1000

  /**
   * Everything one build derives from the samples. The scales `sx` and `sy` are
   * not stored: `ScreenX` and `ScreenY` recompute them from the extents and the
   * layout, and are the constant 0 for a chart without points.
   */
  datatype Prepared = Prepared(
    path: seq<Cmd>,
    area: seq<Cmd>,
    yTicks: seq<YTick>,
    timeTicks: seq<TimeTick>,
    xmin: real,
    xmax: real,
    ymin: real,
    ymax: real,
    layout: Layout,
    pts: seq<Sample>)

  /** The geometry of a chart with nothing to draw. */
  function EmptyChart(height: real): Prepared
  {
    Prepared([], [], [], [], 0.0, 1.0, 0.0, 1.0, Layout(MinSvgWidth, height), [])
  }

  /** The sample times, in milliseconds, as reals. */
  function Times(pts: seq<Sample>): seq<real>
  {
    seq(|pts|, i requires 0 <= i < |pts| => pts[i].time as real)
  }

  /** The sample values. */
  function Values(pts: seq<Sample>): seq<real>
  {
    seq(|pts|, i requires 0 <= i < |pts| => pts[i].value)
  }

  /** Position i of `Times` and `Values` is sample i's time and value. */
  lemma TimesAndValuesAt(pts: seq<Sample>)
    ensures |Times(pts)| == |pts| && |Values(pts)| == |pts|
    ensures forall i :: 0 <= i < |pts| ==> Times(pts)[i] == pts[i].time as real && Values(pts)[i] == pts[i].value
  {
  }

  /** The screen points of the samples under the two scales (LineChart.tsx:254). */
  function Project(l: Layout, xmin: real, xmax: real, ymin: real, ymax: real, pts: seq<Sample>): seq<Point>
  {
    seq(|pts|, i requires 0 <= i < |pts| =>
      Point(SX(l, xmin, xmax, pts[i].time as real), SY(l, ymin, ymax, pts[i].value)))
  }

  /**
   * Samples in time order are drawn left to right: with a proper time extent,
   * projection keeps the order of the samples' times on the screen x axis.
   */
  lemma ProjectKeepsTimeOrder(l: Layout, xmin: real, xmax: real, ymin: real, ymax: real, pts: seq<Sample>)
    requires xmin < xmax && l.InnerWidth() >= 0.0
    requires forall i, j :: 0 <= i < j < |pts| ==> pts[i].time <= pts[j].time
    ensures var ps := Project(l, xmin, xmax, ymin, ymax, pts);
      && |ps| == |pts|
      && forall i, j :: 0 <= i < j < |ps| ==> ps[i].x <= ps[j].x
  {
    var ps := Project(l, xmin, xmax, ymin, ymax, pts);
    forall i, j | 0 <= i < j < |ps|
      ensures ps[i].x <= ps[j].x
    {
      ScaleXMonotone(l, xmin, xmax, pts[i].time as real, pts[j].time as real);
    }
  }

  /** Every downsampled sample passed the filter, so none is negative. */
  lemma DownsampledNonNegative(data: seq<Sample>, cap: nat)
    ensures forall i :: 0 <= i < |Downsample(FilterNonNegative(data), cap)| ==>
      Downsample(FilterNonNegative(data), cap)[i] in data &&
      Downsample(FilterNonNegative(data), cap)[i].value >= 0.0
  {
    var filtered := FilterNonNegative(data);
    var pts := Downsample(filtered, cap);
    var k := DownsampleStride(|filtered|, cap);
    forall i | 0 <= i < |pts|
      ensures pts[i] in data && pts[i].value >= 0.0
    {
      assert pts[i] == filtered[i * k];
      assert filtered[i * k] in filtered;
    }
  }

  /**
   * The padded extents of non-negative samples are proper ranges that hold
   * every sample: times strictly inside, values in [lo, hi) with lo >= 0.
   */
  lemma ExtentsContainSamples(pts: seq<Sample>)
    requires forall i :: 0 <= i < |pts| ==> pts[i].value >= 0.0
    ensures var x, y := CalculateExtent(Times(pts)), CalculateYExtent(Values(pts));
      && x.lo < x.hi
      && 0.0 <= y.lo < y.hi
      && forall i :: 0 <= i < |pts| ==>
           x.lo < pts[i].time as real < x.hi && y.lo <= pts[i].value < y.hi
  {
    TimesAndValuesAt(pts);
  }

  /** The `prepared` memo body: filter, downsample, extents, scales, path, area and ticks. */
  function Prepare(data: seq<Sample>, height: real, maxDataPoints: nat, showArea: bool): (p: Prepared)
    ensures (forall i :: 0 <= i < |data| ==> data[i].value < 0.0) ==> p == EmptyChart(height)
    ensures FilterNonNegative(data) != [] ==>
      && p.pts == Downsample(FilterNonNegative(data), maxDataPoints)
      && p.layout == LayoutFor(height)
      && |p.pts| > 0
      && (maxDataPoints >= 1 ==> |p.pts| <= maxDataPoints)
      && (maxDataPoints == 0 ==> |p.pts| == 1)
      && p.pts[0] == FilterNonNegative(data)[0]
      && (forall i :: 0 <= i < |p.pts| ==> p.pts[i] in data && p.pts[i].value >= 0.0)
    ensures FilterNonNegative(data) != [] ==>
      && Range(p.xmin, p.xmax) == CalculateExtent(Times(p.pts))
      && Range(p.ymin, p.ymax) == CalculateYExtent(Values(p.pts))
      && p.xmin < p.xmax
      && 0.0 <= p.ymin < p.ymax
      && forall i :: 0 <= i < |p.pts| ==>
           p.xmin < p.pts[i].time as real < p.xmax && p.ymin <= p.pts[i].value < p.ymax
  {
    FilterEmptyIffAllNegative(data);
    if |data| == 0 then EmptyChart(height)
    else
      var filteredData := FilterNonNegative(data);
      if |filteredData| == 0 then EmptyChart(height)
      else
        var pts := Downsample(filteredData, maxDataPoints);
        DownsampledNonNegative(data, maxDataPoints);
        ExtentsContainSamples(pts);
        var x := CalculateExtent(Times(pts));
        var y := CalculateYExtent(Values(pts));
        Draw(LayoutFor(height), x, y, pts, showArea)
  }

  /** The drawing step of `Prepare`: project the kept samples and build path, area and ticks. */
  function Draw(layout: Layout, x: Range, y: Range, pts: seq<Sample>, showArea: bool): Prepared
  {
    var pathPoints := Project(layout, x.lo, x.hi, y.lo, y.hi, pts);
    var path := SmoothPath(pathPoints);
    var area := if showArea then CreateArea(pathPoints, layout.Baseline()) else [];
    Prepared(path, area, YTicks(layout, y.lo, y.hi), TimeTicks(layout, x.lo, x.hi),
             x.lo, x.hi, y.lo, y.hi, layout, pts)
  }

  /** With the default cap, a chart never plots more than 1000 samples. */
  lemma DefaultChartFitsCap(data: seq<Sample>, showArea: bool)
    ensures |Prepare(data, DefaultHeight, DefaultMaxDataPoints, showArea).pts| <= 1000
  {
    FilterEmptyIffAllNegative(data);
  }

  /**
   * What a non-empty chart draws: the smoothed path through the projected
   * samples (absent below two samples), the area under it when asked for,
   * six value gridlines and nine time gridlines.
   */
  lemma PreparedDrawing(data: seq<Sample>, height: real, maxDataPoints: nat, showArea: bool)
    requires FilterNonNegative(data) != []
    ensures var p := Prepare(data, height, maxDataPoints, showArea);
      var pp := Project(p.layout, p.xmin, p.xmax, p.ymin, p.ymax, p.pts);
      && p.path == SmoothPath(pp)
      && (p.path == [] <==> |p.pts| < 2)
      && (p.area == [] <==> !showArea || |p.pts| < 2)
      && (showArea ==> p.area == CreateArea(pp, p.layout.Baseline()))
      && p.yTicks == YTicks(p.layout, p.ymin, p.ymax)
      && p.timeTicks == TimeTicks(p.layout, p.xmin, p.xmax)
      && |p.yTicks| == 6
      && |p.timeTicks| == 9
  {
    var p := Prepare(data, height, maxDataPoints, showArea);
    AlwaysNineTimeTicks(height, p.xmin, p.xmax);
  }

  /** `prepared.sx`: the constant 0 for an empty chart, the time scale otherwise. */
  function ScreenX(p: Prepared, t: real): real
  {
    if |p.pts| == 0 then 0.0 else SX(p.layout, p.xmin, p.xmax, t)
  }

  /** `prepared.sy`: the constant 0 for an empty chart, the value scale otherwise. */
  function ScreenY(p: Prepared, v: real): real
  {
    if |p.pts| == 0 then 0.0 else SY(p.layout, p.ymin, p.ymax, v)
  }

  /**
   * On a chart at least 40 high (so the plot has a non-negative height) every
   * sample is drawn inside the plot rectangle, and the scales never take their
   * centring branch.
   */
  lemma PlottedPointsInsidePlot(data: seq<Sample>, height: real, maxDataPoints: nat, showArea: bool)
    requires height >= PadTop + PadBottom
    requires FilterNonNegative(data) != []
    ensures var p := Prepare(data, height, maxDataPoints, showArea);
      p.xmin != p.xmax && p.ymin != p.ymax && DrawnInsidePlot(p)
  {
    var p := Prepare(data, height, maxDataPoints, showArea);
    assert p.layout == LayoutFor(height);
    assert p.xmin < p.xmax && p.ymin < p.ymax;
    PointsInsideExtentsDrawInsidePlot(p);
  }

  /** Every point of `p` is drawn inside the plot rectangle. */
  predicate DrawnInsidePlot(p: Prepared)
  {
    forall i :: 0 <= i < |p.pts| ==>
      && PadLeft <= ScreenX(p, p.pts[i].time as real) <= p.layout.PlotRight()
      && PadTop <= ScreenY(p, p.pts[i].value) <= p.layout.Baseline()
  }

  /** Points inside proper extents, on a plot of non-negative size, are drawn inside it. */
  lemma PointsInsideExtentsDrawInsidePlot(p: Prepared)
    requires p.xmin < p.xmax && p.ymin < p.ymax
    requires p.layout.InnerWidth() >= 0.0 && p.layout.InnerHeight() >= 0.0
    requires forall i :: 0 <= i < |p.pts| ==>
      p.xmin <= p.pts[i].time as real <= p.xmax && p.ymin <= p.pts[i].value <= p.ymax
    ensures DrawnInsidePlot(p)
  {
    forall i | 0 <= i < |p.pts|
      ensures PadLeft <= ScreenX(p, p.pts[i].time as real) <= p.layout.PlotRight()
      ensures PadTop <= ScreenY(p, p.pts[i].value) <= p.layout.Baseline()
    {
      ScaleXWithinPlot(p.layout, p.xmin, p.xmax, p.pts[i].time as real);
      ScaleYWithinPlot(p.layout, p.ymin, p.ymax, p.pts[i].value);
    }
  }

  /**
   * Time labels are chosen from the padded time extent, which is 1.1 times the
   * span of the samples: samples spanning 22 hours already get `DD.MM HH:MM` labels.
   */
  lemma TimeLabelsUsePaddedSpan(data: seq<Sample>, height: real, maxDataPoints: nat, showArea: bool)
    requires FilterNonNegative(data) != []
    ensures var p := Prepare(data, height, maxDataPoints, showArea);
      var ts := Times(p.pts);
      && |ts| > 0
      && (forall i :: 0 <= i < |p.timeTicks| ==> p.timeTicks[i].format == Labels.TimeLabelFormat(p.xmax - p.xmin))
      && (Min(ts) < Max(ts) ==> p.xmax - p.xmin == (Max(ts) - Min(ts)) * 1.1)
  {
  }

  /**
   * `k` is where the scan of `findNearestPoint` stops: no screen x is closer to
   * `target` than `xs[k]`, and every earlier one is strictly farther (ties keep
   * the first).
   */
  predicate IsFirstNearest(xs: seq<real>, target: real, k: nat)
  {
    && k < |xs|
    && (forall j :: 0 <= j < |xs| ==> Abs(xs[k] - target) <= Abs(xs[j] - target))
    && (forall j :: 0 <= j < k ==> Abs(xs[j] - target) > Abs(xs[k] - target))
  }

  /** At most one index is the first nearest one. */
  lemma FirstNearestUnique(xs: seq<real>, target: real, a: nat, b: nat)
    requires IsFirstNearest(xs, target, a) && IsFirstNearest(xs, target, b)
    ensures a == b
  {
    var da, db := Abs(xs[a] - target), Abs(xs[b] - target);
    assert da <= db && db <= da;
  }

  /** The linear scan of LineChart.tsx:297-306 over screen x coordinates. */
  method NearestIndex(xs: seq<real>, target: real) returns (r: Option<nat>)
    ensures r.None? <==> |xs| == 0
    ensures r.Some? ==> IsFirstNearest(xs, target, r.value)
  {
    if |xs| == 0 {
      return None;
    }
    var nearest := 0;
    var minDistance := Abs(xs[0] - target);
    var i := 0;
    while i < |xs|
      invariant 0 <= i <= |xs|
      invariant nearest < |xs| && minDistance == Abs(xs[nearest] - target)
      invariant nearest <= i
      invariant forall j :: 0 <= j < i ==> minDistance <= Abs(xs[j] - target)
      invariant forall j :: 0 <= j < nearest ==> Abs(xs[j] - target) > minDistance
    {
      var distance := Abs(xs[i] - target);
      if distance < minDistance {
        minDistance := distance;
        nearest := i;
      }
      i := i + 1;
    }
    return Some(nearest);
  }

  /** Screen x of every point, the coordinate the hit test compares. */
  function ScreenXs(p: Prepared): seq<real>
  {
    seq(|p.pts|, i requires 0 <= i < |p.pts| => ScreenX(p, p.pts[i].time as real))
  }

  /**
   * `findNearestPoint` (LineChart.tsx:294-309): the position in `p.pts` of the
   * point whose screen x is nearest to `mouseX`, or nothing when there are no points.
   */
  method FindNearestPoint(p: Prepared, mouseX: real) returns (r: Option<nat>)
    ensures r.None? <==> |p.pts| == 0
    ensures r.Some? ==> r.value < |p.pts| && IsFirstNearest(ScreenXs(p), mouseX, r.value)
  {
    r := NearestIndex(ScreenXs(p), mouseX);
  }

  /** Points at screen x 10, 50 and 90 with the pointer at 52: the middle one is nearest. */
  lemma HitTestExample()
    ensures IsFirstNearest([10.0, 50.0, 90.0], 52.0, 1)
  {
  }

  /** The hover record the chart shows for a point (its text label is not modelled). */
  datatype Hover = Hover(x: real, y: real, time: int, value: real)

  /** What a pointer move does to the hover state. */
  datatype HoverUpdate = Unchanged | SetHover(hover: Option<Hover>)

  /** The pointer is left of the plot or right of it (LineChart.tsx:319). */
  predicate OutsidePlot(p: Prepared, svgX: real)
  {
    svgX < PadLeft || svgX > p.layout.svgWidth - PadRight
  }

  function HoverAt(p: Prepared, k: nat): Hover
    requires k < |p.pts|
  {
    var s := p.pts[k];
    Hover(ScreenX(p, s.time as real), ScreenY(p, s.value), s.time, s.value)
  }

  /**
   * `handleMouseMove` (LineChart.tsx:311-337) for a pointer already mapped to
   * canvas x `svgX`: nothing on an empty chart, a cleared hover outside the
   * plot, the nearest point's hover inside it.
   */
  method HandleMouseMove(p: Prepared, svgX: real) returns (u: HoverUpdate)
    ensures |p.pts| == 0 ==> u == Unchanged
    ensures |p.pts| > 0 && OutsidePlot(p, svgX) ==> u == SetHover(None)
    ensures |p.pts| > 0 && !OutsidePlot(p, svgX) ==>
      && u.SetHover? && u.hover.Some?
      && exists k :: 0 <= k < |p.pts| && IsFirstNearest(ScreenXs(p), svgX, k) && u.hover.value == HoverAt(p, k)
  {
    if |p.pts| == 0 {
      return Unchanged;
    }
    if OutsidePlot(p, svgX) {
      return SetHover(None);
    }
    var nearest := FindNearestPoint(p, svgX);
    match nearest {
      case None =>
        return Unchanged;
      case Some(k) =>
        return SetHover(Some(HoverAt(p, k)));
    }
  }
}
