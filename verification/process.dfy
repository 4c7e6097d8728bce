/**
 The arithmetic of main.py's `process` for one report: the contour handed to
 the enclosing-circle solver, the canvas cell marked for each sample, the axis
 guide position, and the fitted circle converted back to pixels.

 The solver itself (OpenCV's `minEnclosingCircle`) is not modelled: its result
 enters as an opaque `Circle`.
 */
module Process {
  import opened Truncation
  import opened SampleValue

  /** Side length, in pixels, of the square canvas each report is drawn on. */
  const CanvasSize: int := 1024

  /** One report sample; only its `x` and `y` readings are used. */
  datatype RawSample = RawSample(x: int, y: int)

  /** A contour point in solver space. */
  datatype Point2D = Point2D(x: real, y: real)

  /** The enclosing circle reported by the solver, in solver space. */
  datatype Circle = Circle(centre: Point2D, radius: real)

  /** The fitted circle in canvas pixels: centre column, centre row, radius. */
  datatype PixelCircle = PixelCircle(x: int, y: int, radius: int)

  /** A canvas cell addressed as numpy does, row first. */
  datatype Cell = Cell(row: int, col: int)

  /** Both readings lie within full scale on either side of zero. */
  predicate InRange(s: RawSample) {
    -MaxSampleValue <= s.x <= MaxSampleValue && -MaxSampleValue <= s.y <= MaxSampleValue
  }

  /** The cell exists on a `size` by `size` canvas. */
  predicate OnCanvas(c: Cell, size: int) {
    0 <= c.row < size && 0 <= c.col < size
  }

  /** The solver-space point of one sample: relative `x`, and relative `y`
      negated so that sensor "up" is image "up". */
  function SolverPoint(s: RawSample): (p: Point2D)
    ensures p.x * MaxSampleValue as real == s.x as real
    ensures p.y * MaxSampleValue as real == -s.y as real
    ensures InRange(s) ==> -1.0 <= p.x <= 1.0 && -1.0 <= p.y <= 1.0
    ensures 0.0 <= p.x <==> 0 <= s.x
    ensures p.y <= 0.0 <==> 0 <= s.y
  {
    Point2D(ToRelative(s.x), -ToRelative(s.y))
  }

  /** The cell main.py marks for a sample, as written: row `size - y`,
      column `x`, from the two pixel coordinates. The image is flipped
      vertically: the top reading is row 0 and the bottom reading row `size`. */
  function MarkerCell(s: RawSample, size: int): (c: Cell)
    ensures InRange(s) && 0 <= size ==> 0 <= c.row <= size && 0 <= c.col <= size
    ensures s.y == MaxSampleValue ==> c.row == 0
    ensures s.y == -MaxSampleValue ==> c.row == size
    ensures s.x == -MaxSampleValue ==> c.col == 0
    ensures s.x == MaxSampleValue ==> c.col == size
  {
    Cell(size - ToPixel(s.y, size), ToPixel(s.x, size))
  }

  /** Markers keep the samples' order: a larger `x` reading is never marked
      further left, and a larger `y` reading is never marked lower down. */
  lemma MarkerCellOrder(s: RawSample, t: RawSample, size: int)
    requires 0 <= size
    ensures s.x <= t.x ==> MarkerCell(s, size).col <= MarkerCell(t, size).col
    ensures s.y <= t.y ==> MarkerCell(t, size).row <= MarkerCell(s, size).row
  {
    if s.x <= t.x {
      ToPixelMonotone(s.x, t.x, size);
    }
    if s.y <= t.y {
      ToPixelMonotone(s.y, t.y, size);
    }
  }

  /** A full-scale `x` reading is marked one column past the canvas edge,
      so the pixel write at that cell fails for every positive canvas size. */
  lemma FullScaleMarkerOffCanvas(size: int)
    requires 0 < size
    ensures InRange(RawSample(MaxSampleValue, 0))
    ensures !OnCanvas(MarkerCell(RawSample(MaxSampleValue, 0), size), size)
  {
  }

  /** As written, an in-range sample is marked on the canvas exactly when it
      is short of full scale in `x` and its `y` pixel is not the bottom edge. */
  lemma MarkerCellOnCanvasIff(s: RawSample, size: int)
    requires InRange(s)
    requires 0 <= size
    ensures OnCanvas(MarkerCell(s, size), size)
        <==> ToPixel(s.x, size) < size && 0 < ToPixel(s.y, size)
  {
  }

  /** The cell with both indices kept at most `size - 1`, so that full-scale
      readings are marked on the last row or column instead of past it. */
  function ClampedMarkerCell(s: RawSample, size: int): (c: Cell)
    ensures InRange(s) && 0 < size ==> OnCanvas(c, size)
    ensures OnCanvas(MarkerCell(s, size), size) ==> c == MarkerCell(s, size)
  {
    var m := MarkerCell(s, size);
    Cell(if m.row < size then m.row else size - 1, if m.col < size then m.col else size - 1)
  }

  /** The contour loop: one solver point and one marked cell per sample, in
      sample order, the two derived independently from the raw readings. */
  method BuildContour(samples: seq<RawSample>, size: int) returns (contour: seq<Point2D>, cells: seq<Cell>)
    ensures |contour| == |samples| && |cells| == |samples|
    ensures forall i :: 0 <= i < |samples| ==>
      contour[i].x == ToRelative(samples[i].x) && contour[i].y == -ToRelative(samples[i].y)
    ensures forall i :: 0 <= i < |samples| ==> cells[i] == ClampedMarkerCell(samples[i], size)
    ensures 0 < size ==> forall i :: 0 <= i < |samples| && InRange(samples[i]) ==> OnCanvas(cells[i], size)
  {
    contour := [];
    cells := [];
    var index := 0;
    while index < |samples|
      invariant 0 <= index <= |samples|
      invariant |contour| == index && |cells| == index
      invariant forall i :: 0 <= i < index ==> contour[i] == SolverPoint(samples[i])
      invariant forall i :: 0 <= i < index ==> cells[i] == ClampedMarkerCell(samples[i], size)
    {
      var sample := samples[index];
      contour := contour + [SolverPoint(sample)];
      cells := cells + [ClampedMarkerCell(sample, size)];
      index := index + 1;
    }
  }

  /** `int(size / 2)`: where the two axis guides are drawn. */
  function HalfSize(size: int): (h: int)
    ensures h == TruncDiv(size, 2)
    ensures 0 <= size ==> 2 * h <= size <= 2 * h + 1
  {
    TruncOfQuotient(size, 2);
    Trunc(size as real / 2.0)
  }

  /** The midpoint reading's pixel is the axis-guide pixel, so a sample with
      `x` at the midpoint is marked in the vertical guide's column. */
  lemma MidpointOnAxes(size: int)
    ensures ToPixel(0, size) == HalfSize(size)
  {
  }

  /** On a canvas of even size, a sample with `y` at the midpoint is marked in
      the horizontal guide's row; on a positive odd size the flipped row `size - y`
      is one below it. */
  lemma MidpointRowOnHorizontalGuide(s: RawSample, size: int)
    requires s.y == 0
    ensures size % 2 == 0 ==> MarkerCell(s, size).row == HalfSize(size)
    ensures 0 <= size && size % 2 == 1 ==> MarkerCell(s, size).row == HalfSize(size) + 1
  {
    MidpointOnAxes(size);
  }

  /** A fitted-centre coordinate converted to pixels: `int((c / 2 + 0.5) * size)`,
      written out inline as main.py does. */
  function CentrePixel(c: real, size: int): (p: int)
    ensures -1.0 <= c <= 1.0 && 0 <= size ==> 0 <= p <= size
  {
    ScaleToPixel(c / 2.0 + 0.5, size)
  }

  /** The centre conversion is the sample conversion applied to a relative
      value: a centre at a sample's relative position gets that sample's pixel. */
  lemma CentrePixelOfSample(n: int, size: int)
    ensures CentrePixel(ToRelative(n), size) == ToPixel(n, size)
  {
  }

  /** The solver's `y` is the negated relative reading, so the centre row of
      a circle at a sample's point is the row its marker uses, or one less
      when the scaled abs-relative value is not a whole number of pixels. */
  lemma CentreRowBesideMarkerRow(n: int, size: int)
    requires -MaxSampleValue <= n <= MaxSampleValue
    requires 0 <= size
    ensures var row := size - ToPixel(n, size);
      var c := CentrePixel(-ToRelative(n), size);
      (c == row <==> ((n + MaxSampleValue) * size) % (2 * MaxSampleValue) == 0)
      && (c != row ==> c == row - 1)
  {
    var m := (n + MaxSampleValue) * size;
    var d := 2 * MaxSampleValue;
    NegatedCentreAsDifference(n, size);
    ToPixelIsIntegerQuotient(n, size);
    assert 0 <= n + MaxSampleValue;
    assert 0 <= m;
    TruncOfDifference(size, m, d);
  }

  /** The centre pixel of the negated relative reading is `size` minus the
      exact pixel quotient, truncated; that difference is not negative. */
  lemma NegatedCentreAsDifference(n: int, size: int)
    requires -MaxSampleValue <= n <= MaxSampleValue
    requires 0 <= size
    ensures var w := size as real - ((n + MaxSampleValue) * size) as real / (2 * MaxSampleValue) as real;
      0.0 <= w && CentrePixel(-ToRelative(n), size) == Trunc(w)
  {
    var a := ToAbsRelative(n);
    var v := a * size as real;
    ScaledAsQuotient(n, size);
    var b := -ToRelative(n) / 2.0 + 0.5;
    assert b == 1.0 - a;
    assert b * size as real == size as real - v;
    ScaleMonotone(0.0, b, size as real);
  }

  /** The fitted radius in pixels: `int(radius / 2 * size)`. */
  function RadiusPixel(radius: real, size: int): (p: int)
    ensures 0.0 <= radius && 0 <= size ==> 0 <= p
  {
    ScaleToPixel(radius / 2.0, size)
  }

  /** A non-negative radius is drawn with a non-negative pixel radius, and a
      larger one is never drawn smaller. */
  lemma RadiusPixelMonotone(r1: real, r2: real, size: int)
    requires 0.0 <= r1 <= r2
    requires 0 <= size
    ensures 0 <= RadiusPixel(r1, size) <= RadiusPixel(r2, size)
  {
    ScaleToPixelMonotone(r1 / 2.0, r2 / 2.0, size);
  }

  /** The fitted circle converted to canvas pixels. */
  function FitToPixel(fit: Circle, size: int): (pc: PixelCircle)
    ensures -1.0 <= fit.centre.x <= 1.0 && 0 <= size ==> 0 <= pc.x <= size
    ensures -1.0 <= fit.centre.y <= 1.0 && 0 <= size ==> 0 <= pc.y <= size
    ensures 0.0 <= fit.radius && 0 <= size ==> 0 <= pc.radius
  {
    PixelCircle(CentrePixel(fit.centre.x, size), CentrePixel(fit.centre.y, size), RadiusPixel(fit.radius, size))
  }

  /** What one report contributes to its drawing. */
  datatype ReportView = ReportView(contour: seq<Point2D>, cells: seq<Cell>, halfSize: int, circle: PixelCircle)

  /** One report on the fixed canvas, with the solver's answer for its contour
      passed in as `fit`. */
  method ProcessReport(samples: seq<RawSample>, fit: Circle) returns (view: ReportView)
    ensures |view.contour| == |samples| && |view.cells| == |samples|
    ensures forall i :: 0 <= i < |samples| ==> view.contour[i] == SolverPoint(samples[i])
    ensures forall i :: 0 <= i < |samples| && InRange(samples[i]) ==> OnCanvas(view.cells[i], CanvasSize)
    ensures view.halfSize == CanvasSize / 2
    ensures forall i :: 0 <= i < |samples| && samples[i].x == 0 ==> view.cells[i].col == view.halfSize
    ensures forall i :: 0 <= i < |samples| && samples[i].y == 0 ==> view.cells[i].row == view.halfSize
    ensures 0.0 <= fit.radius ==> 0 <= view.circle.radius
    ensures forall i :: 0 <= i < |samples| ==> view.cells[i] == ClampedMarkerCell(samples[i], CanvasSize)
    ensures view.circle == FitToPixel(fit, CanvasSize)
  {
    var contour, cells := BuildContour(samples, CanvasSize);
    var halfSize := HalfSize(CanvasSize);
    forall i | 0 <= i < |samples| && samples[i].x == 0
      ensures cells[i].col == halfSize
    {
      MidpointOnAxes(CanvasSize);
    }
    forall i | 0 <= i < |samples| && samples[i].y == 0
      ensures cells[i].row == halfSize
    {
      MidpointRowOnHorizontalGuide(samples[i], CanvasSize);
    }
    view := ReportView(contour, cells, halfSize, FitToPixel(fit, CanvasSize));
  }
}
