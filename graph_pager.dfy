/** The graph layout of graphPager.py: a fixed grid on the 800x480 panel, a
    per-series value-to-row mapping derived from the collector's extrema, and
    the plot that walks the history backwards from the "now" column. Drawing
    is modelled as the list of commands issued to each of the two surfaces
    (black and red), not as pixels. */
module GraphPager {
  import DataCollection

  // ---------------------------------------------------------------------------
  // Integer conversions

  /** Python's `int()` on a float: truncation toward zero. */
  function Trunc(r: real): int
  {
    if r >= 0.0 then r.Floor else -((-r).Floor)
  }

  /** Truncation moves toward zero by less than one. */
  lemma TruncBounds(r: real)
    ensures r >= 0.0 ==> 0 <= Trunc(r) && Trunc(r) as real <= r < Trunc(r) as real + 1.0
    ensures r < 0.0 ==> Trunc(r) <= 0 && Trunc(r) as real - 1.0 < r <= Trunc(r) as real
  {
  }

  /** `math.ceil`. */
  function Ceil(r: real): (n: int)
    ensures r <= n as real < r + 1.0
  {
    -((-r).Floor)
  }

  lemma TruncMonotone(a: real, b: real)
    requires a <= b
    ensures Trunc(a) <= Trunc(b)
  {
  }

  lemma TruncAntitone(z: real, p: real, q: real)
    requires q <= p
    ensures Trunc(z - p) <= Trunc(z - q)
  {
    TruncMonotone(z - p, z - q);
  }

  lemma TruncShift(z: real, p: real, q: real)
    requires p <= q
    ensures Trunc(z + p) <= Trunc(z + q)
  {
    TruncMonotone(z + p, z + q);
  }

  lemma MulMonotone(h: real, v1: real, v2: real)
    requires h >= 0.0 && v1 <= v2
    ensures h * v1 <= h * v2 && v1 * h <= v2 * h
  {
    assert h * (v2 - v1) >= 0.0;
    assert (v2 - v1) * h >= 0.0;
  }

  function Min(a: int, b: int): int { if a <= b then a else b }
  function Max(a: int, b: int): int { if a >= b then a else b }

  // ---------------------------------------------------------------------------
  // Geometry (class attributes of GraphPaper) and panel size

  const CellWidth: int := 80
  const CellHeight: int := 80
  const RowCount: int := 4
  const ColumnCount: int := 9
  const Width: int := ColumnCount * CellWidth
  const Height: int := RowCount * CellHeight
  const MarginTop: int := 130
  const MarginLeft: int := 40
  const HoursPerCell: int := 2
  const ColumnNow: int := -1
  /** The "now" column: the last column but one. */
  const NowPos: int := ColumnCount + ColumnNow

  /** Resolution of the 7.5 inch panel (`EPD_WIDTH`, `EPD_HEIGHT`). */
  const PanelWidth: int := 800
  const PanelHeight: int := 480

  /** Radius of the plotted markers and width of the connecting segments. */
  const MarkerRadius: int := 5
  const SegmentWidth: int := 2

  // ---------------------------------------------------------------------------
  // Drawing commands

  datatype Point = Point(x: int, y: int)

  datatype Color = Black | Red

  datatype Command =
    | HLine(x: int, y: int, len: int, color: Color)
    | VLine(x: int, y: int, len: int, color: Color)
    | Line(x1: int, y1: int, x2: int, y2: int, color: Color)
      /** `circle(display, center, radius, color)` */
    | Marker(center: Point, radius: int, color: Color)
      /** `line_w(display, from, to, width, color)` */
    | Segment(from: Point, to: Point, width: int, color: Color)
      /** `text(str(round(value, digits)), x, y)`; the rounding itself is not modelled. */
    | ValueLabel(x: int, y: int, value: real, digits: int, rightFit: bool)
      /** `text(str(hour), x, y)` */
    | HourLabel(x: int, y: int, hour: int)
      /** `text('{:02d}:{:02d}'.format(hour, minute), x, y)` */
    | ClockLabel(x: int, y: int, hour: int, minute: int)

  // ---------------------------------------------------------------------------
  // GraphData: the value-to-row mapping of one series

  /** The numbers the `GraphData` constructor derives. */
  datatype Scale = Scale(unit: real, max: int, heightPerUnit: real, zeroY: int)

  /** `GraphData.__init__`: half the lifetime range is one grid unit, the top
      grid line is the ceiling of one unit above the maximum, and a flat
      series (unit 0) divides by nothing. */
  function ScaleOf(dataMax: real, dataMin: real, cellHeight: int, offset: int): (s: Scale)
    ensures s.unit == (dataMax - dataMin) / 2.0
    ensures dataMax + s.unit <= s.max as real < dataMax + s.unit + 1.0
    ensures s.unit >= 0.0 ==> s.max as real >= dataMax
    ensures s.unit == 0.0 ==> s.heightPerUnit == 0.0 && s.zeroY == 0
    ensures s.unit > 0.0 && cellHeight > 0 ==> s.heightPerUnit > 0.0
  {
    var unit := (dataMax - dataMin) / 2.0;
    var max := Ceil(dataMax + unit);
    if unit == 0.0 then Scale(unit, max, 0.0, 0)
    else Scale(unit, max, cellHeight as real / unit,
               Trunc(offset as real + cellHeight as real * (max as real / unit)))
  }

  /** The row `get_pos` gives a value. */
  function Row(zeroY: int, heightPerUnit: real, value: real): int
  {
    Trunc(zeroY as real - heightPerUnit * value)
  }

  /** With a positive unit, a larger value never maps to a lower row on
      screen (rows grow downwards). */
  lemma RowMonotone(heightPerUnit: real, zeroY: int, v1: real, v2: real)
    requires heightPerUnit >= 0.0 && v1 <= v2
    ensures Row(zeroY, heightPerUnit, v2) <= Row(zeroY, heightPerUnit, v1)
  {
    MulMonotone(heightPerUnit, v1, v2);
    TruncAntitone(zeroY as real, heightPerUnit * v2, heightPerUnit * v1);
  }

  /** A flat series is drawn on row 0 whatever its value. */
  lemma FlatSeriesRow(dataMax: real, cellHeight: int, offset: int, value: real)
    ensures var s := ScaleOf(dataMax, dataMax, cellHeight, offset);
            Row(s.zeroY, s.heightPerUnit, value) == 0
  {
  }

  /** The i-th Y label, `max - i*unit`. */
  function YLabelValue(max: int, unit: real, i: int): real
  {
    max as real - i as real * unit
  }

  /** The labels start at the top grid value, which is at least the series
      maximum, and strictly decrease downwards when the unit is positive. */
  lemma YLabelsDecrease(dataMax: real, dataMin: real, i: int, j: int)
    requires dataMin < dataMax && 0 <= i < j
    ensures var s := ScaleOf(dataMax, dataMin, CellHeight, MarginTop);
            YLabelValue(s.max, s.unit, 0) >= dataMax &&
            YLabelValue(s.max, s.unit, j) < YLabelValue(s.max, s.unit, i)
  {
    var s := ScaleOf(dataMax, dataMin, CellHeight, MarginTop);
    assert (j - i) as real * s.unit > 0.0;
  }

  /** The mapping is consistent with the frame: the value of the i-th Y label
      lands within one pixel of the i-th horizontal grid line. */
  lemma {:induction false} LabelOnGridLine(dataMax: real, dataMin: real, i: int)
    requires dataMax != dataMin
    ensures var s := ScaleOf(dataMax, dataMin, CellHeight, MarginTop);
            var row := Row(s.zeroY, s.heightPerUnit, YLabelValue(s.max, s.unit, i));
            MarginTop + CellHeight * i - 1 <= row <= MarginTop + CellHeight * i + 1
  {
    var s := ScaleOf(dataMax, dataMin, CellHeight, MarginTop);
    var u, m, ch := s.unit, s.max as real, CellHeight as real;
    var a := MarginTop as real + ch * (m / u);
    assert s.heightPerUnit == ch / u;
    assert s.zeroY == Trunc(a);
    assert (ch / u) * (m - i as real * u) == ch * (m / u) - ch * i as real;
    var r := s.zeroY as real - s.heightPerUnit * YLabelValue(s.max, s.unit, i);
    assert r == s.zeroY as real - a + MarginTop as real + ch * i as real;
    assert a - 1.0 < s.zeroY as real < a + 1.0;
  }

  class GraphData {
    const data: DataCollection.DataCollector
    var unit: real
    var max: int
    var heightPerUnit: real
    var zeroY: int
    var lastPos: Point

    constructor (data: DataCollection.DataCollector, cellHeight: int, offset: int)
      ensures this.data == data && lastPos == Point(0, 0)
      ensures Scale(unit, max, heightPerUnit, zeroY) == ScaleOf(data.max, data.min, cellHeight, offset)
    {
      this.data := data;
      var s := ScaleOf(data.max, data.min, cellHeight, offset);
      unit := s.unit;
      max := s.max;
      heightPerUnit := s.heightPerUnit;
      zeroY := s.zeroY;
      lastPos := Point(0, 0);
    }

    /** `get_pos`: the point for a value at column x, remembered as `last_pos`. */
    method GetPos(x: int, value: real) returns (p: Point)
      modifies this`lastPos
      ensures p == lastPos == Point(x, Row(zeroY, heightPerUnit, value))
    {
      lastPos := Point(x, Trunc(zeroY as real - heightPerUnit * value));
      p := lastPos;
    }
  }

  // ---------------------------------------------------------------------------
  // Horizontal density: how many history entries one cell holds

  datatype ArithError = ZeroDivisionError

  datatype Density = Density(perHour: int, perCell: int, widthPerData: real)

  datatype DensityResult = DensityOk(value: Density) | DensityErr(error: ArithError)

  /** The arithmetic of `GraphPaper.__init__`: `int(3600 / data_interval)`
      entries per hour, `hours_per_cell` times that per cell, and the pixel
      width of one entry. It divides by zero for a zero interval and for an
      interval longer than an hour (no entry per cell). */
  /** The entries per hour: none exactly when the interval is longer than an
      hour, and the exact count when the interval divides an hour. */
  lemma PerHour(d: int)
    requires d != 0
    ensures var q := Trunc(3600.0 / d as real);
            && (q == 0 <==> d < -3600 || d > 3600)
            && (0 < d <= 3600 ==> q >= 1)
            && (0 < d && 3600 % d == 0 ==> q * d == 3600)
  {
    var r := 3600.0 / d as real;
    assert r * d as real == 3600.0;
    if d > 3600 {
      if r >= 1.0 { MulMonotone(d as real, 1.0, r); }
    } else if d < -3600 {
      if r <= -1.0 { MulMonotone(-d as real, r, -1.0); }
    } else if d > 0 {
      if r < 1.0 { MulMonotone(d as real, r, 1.0); }
    } else {
      if r > -1.0 { MulMonotone(-d as real, -1.0, r); }
    }
    if 0 < d && 3600 % d == 0 {
      var k := 3600 / d;
      assert k * d == 3600;
      assert (k as real) * (d as real) == 3600.0;
      assert k as real == r;
    }
  }

  function CellDensity(dataInterval: int): (r: DensityResult)
    ensures r.DensityOk? <==> dataInterval != 0 && -3600 <= dataInterval <= 3600
    ensures r.DensityOk? ==> r.value.perCell == HoursPerCell * r.value.perHour
    ensures r.DensityOk? ==> r.value.widthPerData * r.value.perCell as real == CellWidth as real
    ensures 0 < dataInterval <= 3600 ==> r.DensityOk? && r.value.perCell >= 2
    ensures 0 < dataInterval && 3600 % dataInterval == 0 ==> r.DensityOk? ==> r.value.perHour * dataInterval == 3600
  {
    if dataInterval == 0 then DensityErr(ZeroDivisionError)
    else
      PerHour(dataInterval);
      var perHour := Trunc(3600.0 / dataInterval as real);
      var perCell := HoursPerCell * perHour;
      if perCell == 0 then DensityErr(ZeroDivisionError)
      else DensityOk(Density(perHour, perCell, CellWidth as real / perCell as real))
  }

  /** x of the i-th plot position, `int(margin_left + i*width_per_data)`. */
  function XPos(d: Density, i: int): int
  {
    Trunc(MarginLeft as real + i as real * d.widthPerData)
  }

  lemma XPosMonotone(d: Density, i: int, j: int)
    requires d.widthPerData >= 0.0 && i <= j
    ensures XPos(d, i) <= XPos(d, j)
  {
    var p, q := i as real * d.widthPerData, j as real * d.widthPerData;
    MulMonotone(d.widthPerData, i as real, j as real);
    assert p <= q;
    TruncShift(MarginLeft as real, p, q);
  }

  /** The last position before "now"'s end lies on the "now" column's grid line. */
  lemma NowOffset(d: Density)
    requires WellFormed(d)
    ensures (NowPos * d.perCell) as real * d.widthPerData == (CellWidth * NowPos) as real
  {
    assert (NowPos * d.perCell) as real == NowPos as real * d.perCell as real;
  }

  lemma XPosNow(d: Density)
    requires WellFormed(d)
    ensures XPos(d, NowPos * d.perCell) == MarginLeft + CellWidth * NowPos
  {
    NowOffset(d);
  }

  /** Plot positions from the left grid line to the "now" column. */
  lemma XPosBounds(d: Density, i: int)
    requires WellFormed(d)
    requires 0 <= i <= NowPos * d.perCell
    ensures MarginLeft <= XPos(d, i) <= MarginLeft + CellWidth * NowPos
    ensures i == NowPos * d.perCell ==> XPos(d, i) == MarginLeft + CellWidth * NowPos
  {
    WellFormedPositive(d);
    XPosMonotone(d, 0, i);
    XPosMonotone(d, i, NowPos * d.perCell);
    XPosNow(d);
  }

  lemma WellFormedPositive(d: Density)
    requires WellFormed(d)
    ensures d.widthPerData > 0.0
  {
  }

  // ---------------------------------------------------------------------------
  // Plotting one series

  /** What `plot_series` needs of a series: its history, its mapping and the
      color chosen for it. */
  datatype Track = Track(data: seq<real>, zeroY: int, heightPerUnit: real, color: Color)

  /** `plot_series` for one history index counted back from the newest entry:
      nothing when the history is too short; otherwise a marker, and a
      segment from the previous point when there is one (`last_pos[0] != 0`). */
  function SeriesPoint(t: Track, last: Point, index: int, x: int): (r: (seq<Command>, Point))
    requires index >= 0
  {
    if |t.data| <= index then ([], last)
    else
      var p := Point(x, Row(t.zeroY, t.heightPerUnit, t.data[|t.data| - 1 - index]));
      ([Marker(p, MarkerRadius, t.color)] +
       (if last.x != 0 then [Segment(last, p, SegmentWidth, t.color)] else []), p)
  }

  /** One iteration of the loop in `plot`: positions right of "now" are skipped. */
  function PlotStep(d: Density, t: Track, last: Point, i: int): (seq<Command>, Point)
  {
    if i > NowPos * d.perCell then ([], last)
    else SeriesPoint(t, last, NowPos * d.perCell - i, XPos(d, i))
  }

  /** The first k iterations of the loop in `plot` for one series: the
      commands issued and the series' `last_pos` afterwards. */
  function SeriesRun(d: Density, t: Track, last: Point, k: nat): (seq<Command>, Point)
  {
    if k == 0 then ([], last)
    else
      var r := SeriesRun(d, t, last, k - 1);
      var s := PlotStep(d, t, r.1, k - 1);
      (r.0 + s.0, s.1)
  }

  /** Number of iterations of `range(0, column_count*dcpc + 1)`. */
  function Passes(d: Density): nat
  {
    if ColumnCount * d.perCell + 1 > 0 then ColumnCount * d.perCell + 1 else 0
  }

  /** Whether iteration i plots a point, and which. */
  predicate Plotted(d: Density, t: Track, i: int)
  {
    i <= NowPos * d.perCell && NowPos * d.perCell - i < |t.data|
  }

  function PointAt(d: Density, t: Track, i: int): Point
    requires Plotted(d, t, i)
  {
    Point(XPos(d, i), Row(t.zeroY, t.heightPerUnit, t.data[|t.data| - 1 - (NowPos * d.perCell - i)]))
  }

  /** The points plotted in the first k iterations, in order. */
  function PlottedPoints(d: Density, t: Track, k: nat): seq<Point>
  {
    if k == 0 then []
    else PlottedPoints(d, t, k - 1) + (if Plotted(d, t, k - 1) then [PointAt(d, t, k - 1)] else [])
  }

  /** A connected scatter plot: every point gets a marker, every point but
      the first also a segment from its predecessor. */
  function Polyline(ps: seq<Point>, c: Color): seq<Command>
  {
    if |ps| == 0 then []
    else if |ps| == 1 then [Marker(ps[0], MarkerRadius, c)]
    else Polyline(ps[..|ps| - 1], c) +
         [Marker(ps[|ps| - 1], MarkerRadius, c), Segment(ps[|ps| - 2], ps[|ps| - 1], SegmentWidth, c)]
  }

  /** The shape of a polyline command list, element by element. */
  lemma {:induction false} PolylineShape(ps: seq<Point>, c: Color)
    requires ps != []
    ensures |Polyline(ps, c)| == 2 * |ps| - 1
    ensures Polyline(ps, c)[0] == Marker(ps[0], MarkerRadius, c)
    ensures forall j | 1 <= j < |ps| ::
              Polyline(ps, c)[2 * j - 1] == Marker(ps[j], MarkerRadius, c) &&
              Polyline(ps, c)[2 * j] == Segment(ps[j - 1], ps[j], SegmentWidth, c)
  {
    if |ps| > 1 {
      var init := ps[..|ps| - 1];
      PolylineShape(init, c);
      forall j | 1 <= j < |ps|
        ensures Polyline(ps, c)[2 * j - 1] == Marker(ps[j], MarkerRadius, c) &&
                Polyline(ps, c)[2 * j] == Segment(ps[j - 1], ps[j], SegmentWidth, c)
      {
        if j < |ps| - 1 {
          assert Polyline(ps, c)[2 * j - 1] == Polyline(init, c)[2 * j - 1];
          assert Polyline(ps, c)[2 * j] == Polyline(init, c)[2 * j];
        }
      }
    }
  }

  /** One loop iteration in terms of `Plotted` and `PointAt`. */
  lemma PlotStepShape(d: Density, t: Track, last: Point, i: int)
    ensures Plotted(d, t, i) ==>
              PlotStep(d, t, last, i) ==
              ([Marker(PointAt(d, t, i), MarkerRadius, t.color)] +
               (if last.x != 0 then [Segment(last, PointAt(d, t, i), SegmentWidth, t.color)] else []),
               PointAt(d, t, i))
    ensures !Plotted(d, t, i) ==> PlotStep(d, t, last, i) == ([], last)
  {
  }

  /** Adding a point to a polyline adds its marker and, unless it is the
      first, the segment from the previous point. */
  lemma PolylineSnoc(ps: seq<Point>, p: Point, c: Color)
    ensures Polyline(ps + [p], c) ==
            if ps == [] then [Marker(p, MarkerRadius, c)]
            else Polyline(ps, c) + [Marker(p, MarkerRadius, c), Segment(ps[|ps| - 1], p, SegmentWidth, c)]
  {
    var ps' := ps + [p];
    assert ps'[..|ps'| - 1] == ps;
  }

  /** Every plotted point lies right of the left margin, so it never looks
      like the initial `last_pos` (0, 0). */
  lemma PlottedPointsRightOfMargin(d: Density, t: Track, k: nat, j: int)
    requires d.widthPerData >= 0.0 && 0 <= j < |PlottedPoints(d, t, k)|
    ensures PlottedPoints(d, t, k)[j].x >= MarginLeft
  {
    var ps := PlottedPoints(d, t, k);
    if j == |ps| - 1 && Plotted(d, t, k - 1) && ps[j] == PointAt(d, t, k - 1) {
      assert (k - 1) as real * d.widthPerData >= 0.0;
    } else {
      PlottedPointsRightOfMargin(d, t, k - 1, j);
    }
  }

  /** Starting from a fresh `last_pos`, the commands of one series are exactly
      the polyline through the plotted points, and `last_pos` ends on the last
      of them. */
  lemma {:induction false} SeriesRunIsPolyline(d: Density, t: Track, last: Point, k: nat)
    requires last.x == 0 && d.widthPerData >= 0.0
    ensures SeriesRun(d, t, last, k).0 == Polyline(PlottedPoints(d, t, k), t.color)
    ensures var ps := PlottedPoints(d, t, k);
            SeriesRun(d, t, last, k).1 == if ps == [] then last else ps[|ps| - 1]
  {
    if k > 0 {
      SeriesRunIsPolyline(d, t, last, k - 1);
      SeriesRunStep(d, t, last, k);
    }
  }

  /** The inductive step of `SeriesRunIsPolyline`. */
  lemma SeriesRunStep(d: Density, t: Track, last: Point, k: nat)
    requires last.x == 0 && d.widthPerData >= 0.0 && k > 0
    requires SeriesRun(d, t, last, k - 1).0 == Polyline(PlottedPoints(d, t, k - 1), t.color)
    requires var ps := PlottedPoints(d, t, k - 1);
             SeriesRun(d, t, last, k - 1).1 == if ps == [] then last else ps[|ps| - 1]
    ensures SeriesRun(d, t, last, k).0 == Polyline(PlottedPoints(d, t, k), t.color)
    ensures var ps := PlottedPoints(d, t, k);
            SeriesRun(d, t, last, k).1 == if ps == [] then last else ps[|ps| - 1]
  {
    var r := SeriesRun(d, t, last, k - 1);
    var ps := PlottedPoints(d, t, k - 1);
    PlotStepShape(d, t, r.1, k - 1);
    var s := PlotStep(d, t, r.1, k - 1);
    assert SeriesRun(d, t, last, k) == (r.0 + s.0, s.1);
    if Plotted(d, t, k - 1) {
      var p := PointAt(d, t, k - 1);
      assert PlottedPoints(d, t, k) == ps + [p];
      PolylineSnoc(ps, p, t.color);
      if ps != [] {
        PlottedPointsRightOfMargin(d, t, k - 1, |ps| - 1);
        assert s.0 == [Marker(p, MarkerRadius, t.color), Segment(r.1, p, SegmentWidth, t.color)];
      } else {
        assert s.0 == [Marker(p, MarkerRadius, t.color)];
      }
    } else {
      assert PlottedPoints(d, t, k) == ps;
    }
  }

  /** The first position that has history behind it: positions left of it
      would index past the oldest entry. */
  function FirstPlotted(d: Density, t: Track): int
  {
    Max(0, NowPos * d.perCell + 1 - |t.data|)
  }

  lemma PlottedPointsSkip(d: Density, t: Track, k: nat)
    requires k > 0 && !Plotted(d, t, k - 1)
    ensures PlottedPoints(d, t, k) == PlottedPoints(d, t, k - 1)
  {
    assert PlottedPoints(d, t, k) == PlottedPoints(d, t, k - 1) + [];
  }

  /** After k iterations, the points plotted are those of the positions from
      `FirstPlotted` up to min(k, "now") ... */
  lemma {:induction false} PlottedPointsCount(d: Density, t: Track, k: nat)
    ensures |PlottedPoints(d, t, k)| == Max(0, Min(k, NowPos * d.perCell + 1) - FirstPlotted(d, t))
  {
    if k > 0 {
      PlottedPointsCount(d, t, k - 1);
      if !Plotted(d, t, k - 1) {
        PlottedPointsSkip(d, t, k);
      }
    }
  }

  /** ... each with the entry that many steps back from the newest. */
  lemma {:induction false} PlottedPointsAt(d: Density, t: Track, k: nat, j: int)
    requires 0 <= j < |PlottedPoints(d, t, k)|
    ensures Plotted(d, t, FirstPlotted(d, t) + j)
    ensures PlottedPoints(d, t, k)[j] == PointAt(d, t, FirstPlotted(d, t) + j)
  {
    var ps := PlottedPoints(d, t, k - 1);
    if !Plotted(d, t, k - 1) {
      PlottedPointsSkip(d, t, k);
      PlottedPointsAt(d, t, k - 1, j);
    } else if j < |ps| {
      assert PlottedPoints(d, t, k) == ps + [PointAt(d, t, k - 1)];
      PlottedPointsAt(d, t, k - 1, j);
    } else {
      assert PlottedPoints(d, t, k) == ps + [PointAt(d, t, k - 1)];
      PlottedPointsCount(d, t, k - 1);
      assert j == k - 1 - FirstPlotted(d, t);
    }
  }

  /** The number of points a pass plots: the whole history, or `now*dcpc + 1`
      entries when it is longer. */
  function PassCount(d: Density, t: Track): int
  {
    Min(|t.data|, NowPos * d.perCell + 1)
  }

  predicate WellFormed(d: Density)
  {
    d.perCell >= 1 && d.widthPerData * d.perCell as real == CellWidth as real
  }

  /** The j-th point of a pass shows the entry j places after the oldest one
      plotted, at a column between the left margin and "now". */
  lemma PlotPassPoint(d: Density, t: Track, j: int)
    requires WellFormed(d) && 0 <= j < PassCount(d, t)
    ensures |PlottedPoints(d, t, Passes(d))| == PassCount(d, t)
    ensures var p := PlottedPoints(d, t, Passes(d))[j];
            && p.y == Row(t.zeroY, t.heightPerUnit, t.data[|t.data| - PassCount(d, t) + j])
            && MarginLeft <= p.x <= MarginLeft + CellWidth * NowPos
            && p.x == XPos(d, FirstPlotted(d, t) + j)
  {
    PlottedPointsCount(d, t, Passes(d));
    PlottedPointsAt(d, t, Passes(d), j);
    XPosBounds(d, FirstPlotted(d, t) + j);
  }

  /** What one plot pass does for one series, starting from a fresh
      `last_pos` and a well-formed density: the commands are a polyline
      through exactly min(len(history), now*dcpc + 1) points, oldest entry
      first, left to right, never right of the "now" column, and the last
      point is the newest entry on the "now" column. */
  lemma PlotPass(d: Density, t: Track)
    requires WellFormed(d)
    ensures var ps := PlottedPoints(d, t, Passes(d));
            var m := PassCount(d, t);
            && SeriesRun(d, t, Point(0, 0), Passes(d)).0 == Polyline(ps, t.color)
            && |ps| == m
            && (forall j | 0 <= j < m ::
                  ps[j].y == Row(t.zeroY, t.heightPerUnit, t.data[|t.data| - m + j]) &&
                  MarginLeft <= ps[j].x <= MarginLeft + CellWidth * NowPos)
            && (forall j | 0 < j < m :: ps[j - 1].x <= ps[j].x)
            && (m > 0 ==> ps[m - 1] == Point(MarginLeft + CellWidth * NowPos,
                                           Row(t.zeroY, t.heightPerUnit, t.data[|t.data| - 1])))
  {
    assert d.widthPerData > 0.0;
    SeriesRunIsPolyline(d, t, Point(0, 0), Passes(d));
    PlotPassPoints(d, t);
    PlotPassOrdered(d, t);
    if PassCount(d, t) > 0 {
      PlotPassNewest(d, t);
    }
  }

  lemma PlotPassPoints(d: Density, t: Track)
    requires WellFormed(d)
    ensures var ps := PlottedPoints(d, t, Passes(d));
            var m := PassCount(d, t);
            && |ps| == m
            && forall j | 0 <= j < m ::
                 ps[j].y == Row(t.zeroY, t.heightPerUnit, t.data[|t.data| - m + j]) &&
                 MarginLeft <= ps[j].x <= MarginLeft + CellWidth * NowPos
  {
    PlottedPointsCount(d, t, Passes(d));
    forall j | 0 <= j < PassCount(d, t)
      ensures var ps := PlottedPoints(d, t, Passes(d));
              ps[j].y == Row(t.zeroY, t.heightPerUnit, t.data[|t.data| - PassCount(d, t) + j]) &&
              MarginLeft <= ps[j].x <= MarginLeft + CellWidth * NowPos
    {
      PlotPassPoint(d, t, j);
    }
  }

  lemma PlotPassOrdered(d: Density, t: Track)
    requires WellFormed(d)
    ensures var ps := PlottedPoints(d, t, Passes(d));
            |ps| == PassCount(d, t) && forall j | 0 < j < |ps| :: ps[j - 1].x <= ps[j].x
  {
    PlottedPointsCount(d, t, Passes(d));
    var ps := PlottedPoints(d, t, Passes(d));
    forall j | 0 < j < |ps|
      ensures ps[j - 1].x <= ps[j].x
    {
      PlotPassPoint(d, t, j - 1);
      PlotPassPoint(d, t, j);
      assert d.widthPerData > 0.0;
      XPosMonotone(d, FirstPlotted(d, t) + j - 1, FirstPlotted(d, t) + j);
    }
  }

  lemma PlotPassNewest(d: Density, t: Track)
    requires WellFormed(d) && PassCount(d, t) > 0
    ensures var ps := PlottedPoints(d, t, Passes(d));
            |ps| == PassCount(d, t) &&
            ps[|ps| - 1] == Point(MarginLeft + CellWidth * NowPos,
                                  Row(t.zeroY, t.heightPerUnit, t.data[|t.data| - 1]))
  {
    var m := PassCount(d, t);
    PlotPassPoint(d, t, m - 1);
    XPosBounds(d, NowPos * d.perCell);
  }

  // ---------------------------------------------------------------------------
  // The frame

  function HLinesUpTo(n: nat): seq<Command>
  {
    if n == 0 then []
    else HLinesUpTo(n - 1) + [HLine(MarginLeft, MarginTop + CellHeight * (n - 1), Width, Black)]
  }

  function VLinesUpTo(n: nat): seq<Command>
  {
    if n == 0 then []
    else VLinesUpTo(n - 1) + [VLine(MarginLeft + CellWidth * (n - 1), MarginTop, Height, Black)]
  }

  /** The grid: `row_count + 1` horizontal lines one cell apart from the top
      margin, all inside the panel. */
  lemma {:induction false} HLinesInPanel(n: nat)
    requires n <= RowCount + 1
    ensures |HLinesUpTo(n)| == n
    ensures forall i | 0 <= i < n ::
              HLinesUpTo(n)[i] == HLine(MarginLeft, MarginTop + CellHeight * i, Width, Black) &&
              0 <= MarginLeft && MarginLeft + Width <= PanelWidth &&
              0 <= MarginTop + CellHeight * i < PanelHeight
  {
    if n > 0 {
      HLinesInPanel(n - 1);
    }
  }

  /** ... and `column_count + 1` vertical lines one cell apart from the left
      margin, all inside the panel. */
  lemma {:induction false} VLinesInPanel(n: nat)
    requires n <= ColumnCount + 1
    ensures |VLinesUpTo(n)| == n
    ensures forall i | 0 <= i < n ::
              VLinesUpTo(n)[i] == VLine(MarginLeft + CellWidth * i, MarginTop, Height, Black) &&
              0 <= MarginLeft + CellWidth * i < PanelWidth &&
              0 <= MarginTop && MarginTop + Height <= PanelHeight
  {
    if n > 0 {
      VLinesInPanel(n - 1);
    }
  }

  /** What the Y labels of both series need: each series' top value and
      unit, and the rounding precision, which both take from series 1. */
  datatype Axis = Axis(max1: int, unit1: real, max2: int, unit2: real, digits: int)

  function YLabelsUpTo(a: Axis, n: nat): seq<Command>
  {
    if n == 0 then []
    else
      var y := MarginTop + CellHeight * (n - 1) - 10;
      YLabelsUpTo(a, n - 1) +
      [ValueLabel(8, y, YLabelValue(a.max1, a.unit1, n - 1), a.digits, false),
       ValueLabel(Width + 48, y, YLabelValue(a.max2, a.unit2, n - 1), a.digits, true)]
  }

  /** The hour shown under column i: `hour - (now_pos - i)*hours_per_cell`,
      brought back once by 24 when it leaves [0, 24]. For a clock hour, every
      column's value is in [0, 24] (24 itself is not wrapped), it is the clock
      hour modulo 24, and only the "now" column shows the clock hour. */
  function HourValue(hour: int, i: int): (v: int)
    ensures 0 <= hour <= 23 && 0 <= i <= ColumnCount ==>
              0 <= v <= 24 && v % 24 == (hour - (NowPos - i) * HoursPerCell) % 24 &&
              (v == hour <==> i == NowPos)
  {
    var value := hour - (NowPos - i) * HoursPerCell;
    if value < 0 then value + 24
    else if value > 24 then value - 24
    else value
  }

  /** Late in the evening the last column is labelled 24, not 0. */
  lemma HourValueNotWrapped()
    ensures HourValue(22, ColumnCount) == 24
  {
  }

  function XBlackUpTo(hour: int, n: nat): seq<Command>
  {
    if n == 0 then []
    else
      var v := HourValue(hour, n - 1);
      XBlackUpTo(hour, n - 1) +
      (if v != hour then [HourLabel(MarginLeft + CellWidth * (n - 1) - 12, MarginTop - 30, v)] else [])
  }

  function XRedUpTo(hour: int, minute: int, n: nat): seq<Command>
  {
    if n == 0 then []
    else
      XRedUpTo(hour, minute, n - 1) +
      (if HourValue(hour, n - 1) == hour
       then [ClockLabel(MarginLeft + CellWidth * (n - 1) - 36, MarginTop - 30, hour, minute)]
       else [])
  }

  /** For a clock hour the red surface gets exactly one label, the HH:MM of
      the "now" column, and the black surface an hour label for each of the
      other columns. */
  lemma {:induction false} TimeAxisLabels(hour: int, minute: int, n: nat)
    requires 0 <= hour <= 23 && n <= ColumnCount + 1
    ensures XRedUpTo(hour, minute, n) ==
              if n <= NowPos then []
              else [ClockLabel(MarginLeft + CellWidth * NowPos - 36, MarginTop - 30, hour, minute)]
    ensures |XBlackUpTo(hour, n)| == if n <= NowPos then n else n - 1
  {
    if n > 0 {
      TimeAxisLabels(hour, minute, n - 1);
    }
  }

  // ---------------------------------------------------------------------------
  // Pixel spans of a marker and offsets of a thick segment

  /** `int(math.sqrt(n))` on a non-negative integer, taken as the exact
      integer square root. */
  method IntSqrt(n: int) returns (a: int)
    requires n >= 0
    ensures 0 <= a && a * a <= n < (a + 1) * (a + 1)
  {
    a := 0;
    while (a + 1) * (a + 1) <= n
      invariant 0 <= a && a * a <= n
      decreases n - a * a
    {
      a := a + 1;
    }
  }

  /** Row offset of the k-th span after the centre row: 1, -1, 2, -2, ... */
  function SpanRow(k: int): int
  {
    if k % 2 == 1 then (k + 1) / 2 else -(k / 2)
  }

  /** a is the largest half-width whose ends on row offset dy lie within radius r. */
  predicate HalfWidthFits(r: int, dy: int, a: int)
  {
    0 <= a && a * a + dy * dy <= r * r < (a + 1) * (a + 1) + dy * dy
  }

  /** A span of a circle of radius r on row offset dy: centred on the
      centre's column, and the widest whose ends stay inside the circle. */
  predicate SpanFits(center: Point, r: int, c: Color, dy: int, s: Command)
  {
    && s.HLine? && s.color == c && s.y == center.y + dy
    && s.len == 2 * (center.x - s.x) && HalfWidthFits(r, dy, center.x - s.x)
  }

  lemma SquareMonotone(i: int, r: int)
    requires 0 <= i < r
    ensures i * i < r * r
  {
    assert i * i <= i * r;
    assert i * r < r * r;
  }

  /** The square root taken for row offset i gives the widest half-width on
      both that row and its mirror. */
  lemma RowHalfWidth(r: int, i: int, a: int)
    requires 1 <= i < r && 0 <= a && a * a <= r * r - i * i < (a + 1) * (a + 1)
    ensures HalfWidthFits(r, i, a) && HalfWidthFits(r, -i, a)
  {
    assert (-i) * (-i) == i * i;
  }

  lemma RowSpans(center: Point, r: int, c: Color, i: int, a: int)
    requires HalfWidthFits(r, i, a) && HalfWidthFits(r, -i, a)
    ensures SpanFits(center, r, c, i, HLine(center.x - a, center.y + i, a * 2, c))
    ensures SpanFits(center, r, c, -i, HLine(center.x - a, center.y - i, a * 2, c))
  {
    assert center.x - (center.x - a) == a;
  }

  /** `circle`: the centre row spans the full diameter; every other row
      within the radius, above and below, gets the widest centred span that
      fits the circle. */
  method Circle(center: Point, r: int, c: Color) returns (spans: seq<Command>)
    ensures |spans| == if r >= 1 then 2 * r - 1 else 1
    ensures spans[0] == HLine(center.x - r, center.y, r * 2, c)
    ensures forall k | 1 <= k < |spans| :: SpanFits(center, r, c, SpanRow(k), spans[k])
  {
    spans := [HLine(center.x - r, center.y, r * 2, c)];
    var i := 1;
    while i < r
      invariant r >= 1 ==> 1 <= i <= r
      invariant |spans| == if r >= 1 then 2 * i - 1 else 1
      invariant spans[0] == HLine(center.x - r, center.y, r * 2, c)
      invariant forall k | 1 <= k < |spans| :: SpanFits(center, r, c, SpanRow(k), spans[k])
    {
      SquareMonotone(i, r);
      var a := IntSqrt(r * r - i * i);
      RowHalfWidth(r, i, a);
      RowSpans(center, r, c, i, a);
      assert SpanRow(2 * i - 1) == i && SpanRow(2 * i) == -i;
      spans := spans + [HLine(center.x - a, center.y + i, a * 2, c),
                        HLine(center.x - a, center.y - i, a * 2, c)];
      i := i + 1;
    }
  }

  /** `lines` holds the offset rows -h .. i-1 of `line_w`: each a translate
      of the segment p1-p2 by an offset in [-h, i) x [-h, h), the offsets in
      strictly increasing row-major order. */
  predicate LineWPrefix(lines: seq<Command>, p1: Point, p2: Point, c: Color, h: int, i: int)
  {
    && |lines| == (i + h) * (2 * h)
    && (forall k | 0 <= k < |lines| ::
          && lines[k].Line? && lines[k].color == c
          && lines[k].x2 - lines[k].x1 == p2.x - p1.x
          && lines[k].y2 - lines[k].y1 == p2.y - p1.y
          && -h <= lines[k].x1 - p1.x < i && -h <= lines[k].y1 - p1.y < h)
    && (forall k | 0 < k < |lines| ::
          lines[k - 1].x1 < lines[k].x1 ||
          (lines[k - 1].x1 == lines[k].x1 && lines[k - 1].y1 < lines[k].y1))
  }

  /** One pass of the outer loop of `line_w` appends the row of offset i. */
  lemma LineWAppendRow(prefix: seq<Command>, lines: seq<Command>, p1: Point, p2: Point, c: Color, h: int, i: int)
    requires -h <= i < h
    requires LineWPrefix(prefix, p1, p2, c, h, i)
    requires |lines| == |prefix| + 2 * h && lines[..|prefix|] == prefix
    requires forall k | |prefix| <= k < |lines| ::
               lines[k] == Line(p1.x + i, p1.y + (k - |prefix|) - h, p2.x + i, p2.y + (k - |prefix|) - h, c)
    ensures LineWPrefix(lines, p1, p2, c, h, i + 1)
  {
    assert (i + 1 + h) * (2 * h) == (i + h) * (2 * h) + 2 * h;
    var n := |prefix|;
    forall k | 0 <= k < n
      ensures lines[k] == prefix[k]
    {
      assert lines[..n][k] == prefix[k];
    }
    forall k | 0 <= k < |lines|
      ensures && lines[k].Line? && lines[k].color == c
              && lines[k].x2 - lines[k].x1 == p2.x - p1.x
              && lines[k].y2 - lines[k].y1 == p2.y - p1.y
              && -h <= lines[k].x1 - p1.x < i + 1 && -h <= lines[k].y1 - p1.y < h
    {
      if k < n {
        assert lines[k] == prefix[k];
      }
    }
    forall k | 0 < k < |lines|
      ensures lines[k - 1].x1 < lines[k].x1 ||
              (lines[k - 1].x1 == lines[k].x1 && lines[k - 1].y1 < lines[k].y1)
    {
      if k < n {
        assert lines[k - 1] == prefix[k - 1] && lines[k] == prefix[k];
      } else if k == n {
        assert lines[k - 1] == prefix[k - 1];
        assert lines[k].x1 == p1.x + i;
      }
    }
  }

  /** `line_w`: the segment drawn once for every offset (i, j) in
      [-w/2, w/2) x [-w/2, w/2), in row-major order of the offsets. */
  method LineW(p1: Point, p2: Point, w: int, c: Color) returns (lines: seq<Command>)
    ensures var h := Trunc(w as real / 2.0);
            |lines| == if h > 0 then 4 * h * h else 0
    ensures var h := Trunc(w as real / 2.0);
            forall k | 0 <= k < |lines| ::
              && lines[k].Line? && lines[k].color == c
              && lines[k].x2 - lines[k].x1 == p2.x - p1.x
              && lines[k].y2 - lines[k].y1 == p2.y - p1.y
              && -h <= lines[k].x1 - p1.x < h && -h <= lines[k].y1 - p1.y < h
    ensures forall k | 0 < k < |lines| ::
              lines[k - 1].x1 < lines[k].x1 ||
              (lines[k - 1].x1 == lines[k].x1 && lines[k - 1].y1 < lines[k].y1)
  {
    var h := Trunc(w as real / 2.0);
    lines := [];
    if h <= 0 {
      return;
    }
    var i := -h;
    while i < h
      invariant -h <= i <= h
      invariant LineWPrefix(lines, p1, p2, c, h, i)
    {
      ghost var prefix := lines;
      var j := -h;
      while j < h
        invariant -h <= j <= h
        invariant |lines| == |prefix| + (j + h) && lines[..|prefix|] == prefix
        invariant forall k | |prefix| <= k < |lines| ::
                    lines[k] == Line(p1.x + i, p1.y + (k - |prefix|) - h, p2.x + i, p2.y + (k - |prefix|) - h, c)
      {
        lines := lines + [Line(p1.x + i, p1.y + j, p2.x + i, p2.y + j, c)];
        j := j + 1;
      }
      LineWAppendRow(prefix, lines, p1, p2, c, h, i);
      i := i + 1;
    }
    assert (h + h) * (2 * h) == 4 * h * h;
  }

  // ---------------------------------------------------------------------------
  // GraphPaper

  /** The keyword parameters of `Writer.text` (font/writer.py:149, modelled by
      `TextWriter.Writer.Text`): besides the positional `text`, `x` and `y` it
      takes only `fontSize` and `bold`, and it has no `**kwargs` that would
      absorb another keyword. */
  const TextKeywords: set<string> := {"fontSize", "bold"}

  /** The as-written `draw_frame` (see README, Findings): the second Y label
      passes `rightFit=True` to `Writer.text`, which is not among its keyword
      parameters, so the call raises `TypeError` after the grid and the first
      label. */

  datatype FrameResult =
    | Drawn(black: seq<Command>, red: seq<Command>)
    | Raised(black: seq<Command>, red: seq<Command>)

  function DrawFrameAsWritten(hour: int, minute: int, a: Axis): FrameResult
  {
    var first := ValueLabel(8, MarginTop - 10, YLabelValue(a.max1, a.unit1, 0), a.digits, false);
    if "rightFit" in TextKeywords
    then Drawn(Grid() + YLabelsUpTo(a, RowCount + 1) + XBlackUpTo(hour, ColumnCount + 1),
               XRedUpTo(hour, minute, ColumnCount + 1))
    else Raised(Grid() + [first], [])
  }

  /** As written, every frame stops with an exception before any label of
      series 2 or of the time axis is drawn. */
  lemma DrawFrameAsWrittenRaises(hour: int, minute: int, a: Axis)
    ensures var r := DrawFrameAsWritten(hour, minute, a);
            && r.Raised? && r.red == []
            && forall k | 0 <= k < |r.black| :: !r.black[k].HourLabel? && !(r.black[k].ValueLabel? && r.black[k].rightFit)
  {
    assert "rightFit" !in TextKeywords by {
      assert "rightFit"[0] != "fontSize"[0] && "rightFit"[0] != "bold"[0];
    }
    GridOnlyLines();
  }

  /** The as-written `plot`: it calls `draw_frame` before its loop, so the
      exception of the first right-hand label ends it before any position is
      plotted. */
  function PlotAsWritten(hour: int, minute: int, a: Axis): FrameResult
  {
    DrawFrameAsWritten(hour, minute, a)
  }

  /** As written, `plot` raises on every call and neither series gets a
      marker or a segment: the surfaces hold the grid and one left label. */
  lemma PlotAsWrittenDrawsNoSeries(hour: int, minute: int, a: Axis)
    ensures var r := PlotAsWritten(hour, minute, a);
            && r.Raised? && r.red == []
            && forall k | 0 <= k < |r.black| :: !r.black[k].Marker? && !r.black[k].Segment?
  {
    assert "rightFit" !in TextKeywords by {
      assert "rightFit"[0] != "fontSize"[0] && "rightFit"[0] != "bold"[0];
    }
    GridOnlyLines();
  }

  /** The grid of `draw_frame`: the horizontal lines, then the vertical ones. */
  function Grid(): seq<Command>
  {
    HLinesUpTo(RowCount + 1) + VLinesUpTo(ColumnCount + 1)
  }

  /** The grid holds nothing but straight lines. */
  lemma GridOnlyLines()
    ensures forall k | 0 <= k < |Grid()| :: Grid()[k].HLine? || Grid()[k].VLine?
  {
    HLinesInPanel(RowCount + 1);
    VLinesInPanel(ColumnCount + 1);
  }

  /** The grid loops of `draw_frame`. */
  method DrawGrid() returns (black: seq<Command>)
    ensures black == Grid()
  {
    black := [];
    for i := 0 to RowCount + 1
      invariant black == HLinesUpTo(i)
    {
      black := black + [HLine(MarginLeft, MarginTop + CellHeight * i, Width, Black)];
    }
    ghost var grid := black;
    for i := 0 to ColumnCount + 1
      invariant black == grid + VLinesUpTo(i)
    {
      black := black + [VLine(MarginLeft + CellWidth * i, MarginTop, Height, Black)];
    }
  }

  /** The time axis of `draw_frame`: hour labels on black, the clock on red. */
  method DrawTimeLabels(hour: int, minute: int) returns (black: seq<Command>, red: seq<Command>)
    ensures black == XBlackUpTo(hour, ColumnCount + 1)
    ensures red == XRedUpTo(hour, minute, ColumnCount + 1)
  {
    black, red := [], [];
    for i := 0 to ColumnCount + 1
      invariant black == XBlackUpTo(hour, i)
      invariant red == XRedUpTo(hour, minute, i)
    {
      var value := hour - (NowPos - i) * HoursPerCell;
      if value < 0 {
        value := value + 24;
      } else if value > 24 {
        value := value - 24;
      }
      if value != hour {
        black := black + [HourLabel(MarginLeft + CellWidth * i - 12, MarginTop - 30, value)];
      } else {
        red := red + [ClockLabel(MarginLeft + CellWidth * i - 36, MarginTop - 30, hour, minute)];
      }
    }
  }

  class GraphPaper {
    const data1: DataCollection.DataCollector
    const data2: DataCollection.DataCollector
    const dataCountPerHour: int
    const dataCountPerCell: int
    const widthPerData: real
    var series1: GraphData?
    var series2: GraphData?

    /** `__init__` without the panel driver. */
    constructor (data1: DataCollection.DataCollector, data2: DataCollection.DataCollector, dataInterval: int)
      requires CellDensity(dataInterval).DensityOk?
      ensures this.data1 == data1 && this.data2 == data2
      ensures Density(dataCountPerHour, dataCountPerCell, widthPerData) == CellDensity(dataInterval).value
      ensures series1 == null && series2 == null
    {
      var d := CellDensity(dataInterval).value;
      this.data1 := data1;
      this.data2 := data2;
      dataCountPerHour := d.perHour;
      dataCountPerCell := d.perCell;
      widthPerData := d.widthPerData;
      series1 := null;
      series2 := null;
    }

    function DensityOf(): Density
    {
      Density(dataCountPerHour, dataCountPerCell, widthPerData)
    }

    /** The series construction at the start of `display`. */
    method BuildSeries()
      modifies this
      ensures fresh(series1) && fresh(series2) && series1 != series2
      ensures series1 != null && series2 != null
      ensures series1.data == data1 && series2.data == data2
      ensures series1.lastPos == Point(0, 0) && series2.lastPos == Point(0, 0)
      ensures Scale(series1.unit, series1.max, series1.heightPerUnit, series1.zeroY) ==
              ScaleOf(data1.max, data1.min, CellHeight, MarginTop)
      ensures Scale(series2.unit, series2.max, series2.heightPerUnit, series2.zeroY) ==
              ScaleOf(data2.max, data2.min, CellHeight, MarginTop)
    {
      series1 := new GraphData(data1, CellHeight, MarginTop);
      series2 := new GraphData(data2, CellHeight, MarginTop);
    }

    function AxisOf(): Axis
      reads this, series1, series2
      requires series1 != null && series2 != null
      reads series1.data
    {
      Axis(series1.max, series1.unit, series2.max, series2.unit, 3 - series1.data.scale)
    }

    /** `draw_frame`, with the clock's hour and minute passed in. */
    method DrawFrame(hour: int, minute: int) returns (black: seq<Command>, red: seq<Command>)
      requires series1 != null && series2 != null
      ensures black == Grid() + YLabelsUpTo(AxisOf(), RowCount + 1) + XBlackUpTo(hour, ColumnCount + 1)
      ensures red == XRedUpTo(hour, minute, ColumnCount + 1)
    {
      var grid := DrawGrid();
      var labels := DrawValueLabels();
      var hours;
      hours, red := DrawTimeLabels(hour, minute);
      black := grid + labels + hours;
    }

    /** The value labels of both series, one pair per grid row. */
    method DrawValueLabels() returns (black: seq<Command>)
      requires series1 != null && series2 != null
      ensures black == YLabelsUpTo(AxisOf(), RowCount + 1)
    {
      black := [];
      var digits := 3 - series1.data.scale;
      for i := 0 to RowCount + 1
        invariant black == YLabelsUpTo(AxisOf(), i)
      {
        var value1 := series1.max as real - i as real * series1.unit;
        var value2 := series2.max as real - i as real * series2.unit;
        black := black + [ValueLabel(8, MarginTop + CellHeight * i - 10, value1, digits, false),
                          ValueLabel(Width + 48, MarginTop + CellHeight * i - 10, value2, digits, true)];
      }
    }

    function TrackOf(g: GraphData, c: Color): Track
      reads g, g.data
    {
      Track(g.data.commitedData, g.zeroY, g.heightPerUnit, c)
    }

    /** `plot_series`: color 1 is the red surface, any other the black one. */
    method PlotSeries(series: GraphData, index: int, x: int, color: int) returns (cmds: seq<Command>)
      requires index >= 0
      modifies series`lastPos
      ensures (cmds, series.lastPos) ==
              SeriesPoint(TrackOf(series, if color == 1 then Red else Black), old(series.lastPos), index, x)
    {
      var c := if color == 1 then Red else Black;
      var data := series.data.GetData();
      assert data == series.data.commitedData;
      if |data| <= index {
        return [];
      }
      var value := data[(|data| - 1) - index];
      var lastPos := series.lastPos;
      var point := series.GetPos(x, value);
      cmds := [Marker(point, MarkerRadius, c)];
      if lastPos.x != 0 {
        cmds := cmds + [Segment(lastPos, point, SegmentWidth, c)];
      }
      ghost var t := TrackOf(series, c);
      assert t.data == data;
      assert point == Point(x, Row(t.zeroY, t.heightPerUnit, t.data[|t.data| - 1 - index]));
      assert SeriesPoint(t, lastPos, index, x).0 == cmds;
    }

    /** One iteration of the loop in `plot`: position i of both series,
        skipped right of the "now" column. */
    method PlotPosition(i: int) returns (c1: seq<Command>, c2: seq<Command>)
      requires series1 != null && series2 != null && series1 != series2
      modifies series1`lastPos, series2`lastPos
      ensures (c1, series1.lastPos) == PlotStep(DensityOf(), TrackOf(series1, Red), old(series1.lastPos), i)
      ensures (c2, series2.lastPos) == PlotStep(DensityOf(), TrackOf(series2, Black), old(series2.lastPos), i)
    {
      var d := DensityOf();
      assert d.perCell == dataCountPerCell;
      if i > NowPos * dataCountPerCell {
        return [], [];
      }
      var x := XPos(d, i);
      var index := NowPos * dataCountPerCell - i;
      ghost var t1, t2 := TrackOf(series1, Red), TrackOf(series2, Black);
      ghost var l1, l2 := series1.lastPos, series2.lastPos;
      c1 := PlotSeries(series1, index, x, 1);
      assert (c1, series1.lastPos) == SeriesPoint(t1, l1, index, x);
      c2 := PlotSeries(series2, index, x, 2);
      assert (c2, series2.lastPos) == SeriesPoint(t2, l2, index, x);
      assert (c1, series1.lastPos) == SeriesPoint(t1, l1, index, x);
    }

    /** `plot`: the frame, then both series position by position up to the
        "now" column; series 1 goes to the red surface, series 2 to the black
        one. */
    method Plot(hour: int, minute: int) returns (black: seq<Command>, red: seq<Command>)
      requires series1 != null && series2 != null && series1 != series2
      modifies series1`lastPos, series2`lastPos
      ensures var r1 := SeriesRun(DensityOf(), TrackOf(series1, Red), old(series1.lastPos), Passes(DensityOf()));
              var r2 := SeriesRun(DensityOf(), TrackOf(series2, Black), old(series2.lastPos), Passes(DensityOf()));
              && black == Grid() +
                          YLabelsUpTo(AxisOf(), RowCount + 1) + XBlackUpTo(hour, ColumnCount + 1) + r2.0
              && red == XRedUpTo(hour, minute, ColumnCount + 1) + r1.0
              && series1.lastPos == r1.1 && series2.lastPos == r2.1
    {
      black, red := DrawFrame(hour, minute);
      ghost var a := AxisOf();
      var s1, s2 := PlotRuns();
      assert AxisOf() == a;
      red := red + s1;
      black := black + s2;
    }

    /** The loop of `plot` over positions 0 .. column_count*dcpc. */
    method PlotRuns() returns (red: seq<Command>, black: seq<Command>)
      requires series1 != null && series2 != null && series1 != series2
      modifies series1`lastPos, series2`lastPos
      ensures (red, series1.lastPos) == SeriesRun(DensityOf(), TrackOf(series1, Red), old(series1.lastPos), Passes(DensityOf()))
      ensures (black, series2.lastPos) == SeriesRun(DensityOf(), TrackOf(series2, Black), old(series2.lastPos), Passes(DensityOf()))
    {
      ghost var d := DensityOf();
      ghost var t1, t2 := TrackOf(series1, Red), TrackOf(series2, Black);
      ghost var l1, l2 := series1.lastPos, series2.lastPos;
      red, black := [], [];
      var n := ColumnCount * dataCountPerCell + 1;
      var i := 0;
      while i < n
        invariant 0 <= i <= Max(n, 0)
        invariant TrackOf(series1, Red) == t1 && TrackOf(series2, Black) == t2
        invariant (red, series1.lastPos) == SeriesRun(d, t1, l1, i)
        invariant (black, series2.lastPos) == SeriesRun(d, t2, l2, i)
      {
        var c1, c2 := PlotPosition(i);
        red := red + c1;
        black := black + c2;
        i := i + 1;
      }
      assert i == Passes(d);
    }
  }
}
