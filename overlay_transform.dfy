/**
 * The perspective geometry of src/util/overlayTransform.js: the 8×8 system
 * whose solution is the homography taking an overlay rectangle onto a
 * four-corner quad, its packing into a CSS `matrix3d`, its inverse, and the
 * conversions between the unit square and pixels.  All arithmetic is exact
 * (`real`); the solver's 1e-12 thresholds are `LinearSystem.Eps`.
 */
module OverlayTransform {
  import opened Wrappers
  import opened Reals
  import opened LinearSystem
  import opened Mat3Algebra

  datatype Point = Point(x: real, y: real)
  datatype Size = Size(width: real, height: real)

  /** Four corners in the source's `{tl, tr, br, bl}` shape. */
  datatype Quad = Quad(tl: Point, tr: Point, br: Point, bl: Point)

  /** `clamp01`: the nearest point of [0, 1]. */
  function Clamp01(v: real): (r: real)
    ensures 0.0 <= r <= 1.0
    ensures 0.0 <= v <= 1.0 ==> r == v
    ensures v < 0.0 ==> r == 0.0
    ensures v > 1.0 ==> r == 1.0
  {
    Max(0.0, Min(1.0, v))
  }

  predicate InUnitSquare(p: Point) {
    0.0 <= p.x <= 1.0 && 0.0 <= p.y <= 1.0
  }

  /** `toDisplayPoint`: a unit-square point scaled to pixels. */
  function ToDisplayPoint(p: Point, s: Size): (r: Point)
    ensures InUnitSquare(p) && s.width >= 0.0 && s.height >= 0.0 ==> 0.0 <= r.x <= s.width && 0.0 <= r.y <= s.height
  {
    var x := p.x * s.width;
    var y := p.y * s.height;
    ScaleStaysWithin(p.x, s.width, x);
    ScaleStaysWithin(p.y, s.height, y);
    Point(x, y)
  }

  /** A fraction in [0, 1] of a length `w` lies in [0, w]. */
  lemma ScaleStaysWithin(t: real, w: real, tw: real)
    requires tw == t * w
    ensures 0.0 <= t <= 1.0 && w >= 0.0 ==> 0.0 <= tw <= w
  {
    if 0.0 <= t <= 1.0 && w >= 0.0 {
      assert w - tw == (1.0 - t) * w;
    }
  }

  /** `toNormalizedPoint`: a pixel point scaled back and clamped into the unit square. */
  function ToNormalizedPoint(p: Point, s: Size): (r: Point)
    requires s.width != 0.0 && s.height != 0.0
    ensures InUnitSquare(r)
  {
    Point(Clamp01(p.x / s.width), Clamp01(p.y / s.height))
  }

  /** Normalizing a displayed unit-square point gives the point back. */
  lemma NormalizeAfterDisplay(p: Point, s: Size)
    requires InUnitSquare(p) && s.width > 0.0 && s.height > 0.0
    ensures ToNormalizedPoint(ToDisplayPoint(p, s), s) == p
  {
    assert p.x * s.width / s.width == p.x;
    assert p.y * s.height / s.height == p.y;
  }

  // ---------------------------------------------------------------------------
  // homographyFromPoints
  // ---------------------------------------------------------------------------

  /** The equation for X of the correspondence p ↦ q. */
  function XRow(p: Point, q: Point): seq<real> {
    [p.x, p.y, 1.0, 0.0, 0.0, 0.0, -p.x * q.x, -p.y * q.x]
  }

  /** The equation for Y of the correspondence p ↦ q. */
  function YRow(p: Point, q: Point): seq<real> {
    [0.0, 0.0, 0.0, p.x, p.y, 1.0, -p.x * q.y, -p.y * q.y]
  }

  /** The rows of A after `count` rounds of the push loop. */
  function EquationRows(src: seq<Point>, dst: seq<Point>, count: nat): (rows: Matrix)
    requires count <= |src| && count <= |dst|
    ensures |rows| == 2 * count
    ensures forall k :: 0 <= k < |rows| ==> |rows[k]| == 8
  {
    if count == 0 then []
    else EquationRows(src, dst, count - 1) + [XRow(src[count - 1], dst[count - 1]), YRow(src[count - 1], dst[count - 1])]
  }

  /** The entries of b after `count` rounds of the push loop. */
  function EquationRhs(src: seq<Point>, dst: seq<Point>, count: nat): (rhs: seq<real>)
    requires count <= |src| && count <= |dst|
    ensures |rhs| == 2 * count
  {
    if count == 0 then []
    else EquationRhs(src, dst, count - 1) + [dst[count - 1].x, dst[count - 1].y]
  }

  /** The solved coefficients h0 .. h7 laid out as a matrix with h[2][2] = 1. */
  function FromCoefficients(h: seq<real>): Mat3
    requires |h| == 8
  {
    Mat3(h[0], h[1], h[2], h[3], h[4], h[5], h[6], h[7], 1.0)
  }

  /** The first eight entries of a matrix, the unknowns of the system. */
  function Coefficients(m: Mat3): seq<real> {
    [m.a, m.b, m.c, m.d, m.e, m.f, m.g, m.h]
  }

  /** What `homographyFromPoints(src, dst)` returns; None is null. */
  function Homography(src: seq<Point>, dst: seq<Point>): (r: Option<Mat3>)
    requires |src| >= 4 && |dst| >= 4
    ensures r.Some? ==> r.value.i == 1.0
  {
    match Solve(EquationRows(src, dst, 4), EquationRhs(src, dst, 4))
    case None => None
    case Some(h) => Some(FromCoefficients(h))
  }

  /** m sends p to q in homogeneous coordinates: (a·x + b·y + c, d·x + e·y + f) = q · (g·x + h·y + i). */
  predicate MapsPoint(m: Mat3, p: Point, q: Point) {
    m.a * p.x + m.b * p.y + m.c == q.x * (m.g * p.x + m.h * p.y + m.i) &&
    m.d * p.x + m.e * p.y + m.f == q.y * (m.g * p.x + m.h * p.y + m.i)
  }

  /** m sends each of the first four source points to its destination. */
  predicate MapsAll(m: Mat3, src: seq<Point>, dst: seq<Point>)
    requires |src| >= 4 && |dst| >= 4
  {
    forall k :: 0 <= k < 4 ==> MapsPoint(m, src[k], dst[k])
  }

  /** `homographyFromPoints`: the push loop, then the solver. */
  method HomographyFromPoints(src: seq<Point>, dst: seq<Point>) returns (r: Option<Mat3>)
    requires |src| >= 4 && |dst| >= 4
    ensures r == Homography(src, dst)
  {
    var a: Matrix := [];
    var b: seq<real> := [];
    for i := 0 to 4
      invariant a == EquationRows(src, dst, i) && b == EquationRhs(src, dst, i)
    {
      var p := src[i];
      var q := dst[i];
      a := a + [XRow(p, q)];
      b := b + [q.x];
      a := a + [YRow(p, q)];
      b := b + [q.y];
    }
    var h := SolveLinearSystem(a, b);
    if h.None? {
      return None;
    }
    r := Some(FromCoefficients(h.value));
  }

  lemma {:induction false} EquationRowsAt(src: seq<Point>, dst: seq<Point>, count: nat, k: nat)
    requires count <= |src| && count <= |dst| && k < count
    ensures EquationRows(src, dst, count)[2 * k] == XRow(src[k], dst[k])
    ensures EquationRows(src, dst, count)[2 * k + 1] == YRow(src[k], dst[k])
    ensures EquationRhs(src, dst, count)[2 * k] == dst[k].x
    ensures EquationRhs(src, dst, count)[2 * k + 1] == dst[k].y
  {
    if k < count - 1 {
      EquationRowsAt(src, dst, count - 1, k);
    }
  }

  lemma DotOfEight(row: seq<real>, x: seq<real>)
    requires |row| == 8 && |x| == 8
    ensures Dot(row, x, 8) == row[0] * x[0] + row[1] * x[1] + row[2] * x[2] + row[3] * x[3]
                             + row[4] * x[4] + row[5] * x[5] + row[6] * x[6] + row[7] * x[7]
  {
    assert Dot(row, x, 1) == row[0] * x[0];
    assert Dot(row, x, 2) == Dot(row, x, 1) + row[1] * x[1];
    assert Dot(row, x, 3) == Dot(row, x, 2) + row[2] * x[2];
    assert Dot(row, x, 4) == Dot(row, x, 3) + row[3] * x[3];
    assert Dot(row, x, 5) == Dot(row, x, 4) + row[4] * x[4];
    assert Dot(row, x, 6) == Dot(row, x, 5) + row[5] * x[5];
    assert Dot(row, x, 7) == Dot(row, x, 6) + row[6] * x[6];
  }

  /** The pair of equations of a correspondence holds exactly when the matrix maps the point. */
  lemma CorrespondenceEquations(p: Point, q: Point, m: Mat3)
    requires m.i == 1.0
    ensures (Dot(XRow(p, q), Coefficients(m), 8) == q.x && Dot(YRow(p, q), Coefficients(m), 8) == q.y)
            <==> MapsPoint(m, p, q)
  {
    DotOfEight(XRow(p, q), Coefficients(m));
    DotOfEight(YRow(p, q), Coefficients(m));
  }

  /** The two equations contributed by correspondence k. */
  lemma EquationPairAt(src: seq<Point>, dst: seq<Point>, m: Mat3, k: nat)
    requires |src| >= 4 && |dst| >= 4 && m.i == 1.0 && k < 4
    ensures (Dot(EquationRows(src, dst, 4)[2 * k], Coefficients(m), 8) == EquationRhs(src, dst, 4)[2 * k] &&
             Dot(EquationRows(src, dst, 4)[2 * k + 1], Coefficients(m), 8) == EquationRhs(src, dst, 4)[2 * k + 1])
            <==> MapsPoint(m, src[k], dst[k])
  {
    EquationRowsAt(src, dst, 4, k);
    CorrespondenceEquations(src[k], dst[k], m);
  }

  /** A matrix with i = 1 satisfies the 8×8 system exactly when it maps all four correspondences. */
  lemma SystemMeansCorrespondences(src: seq<Point>, dst: seq<Point>, m: Mat3)
    requires |src| >= 4 && |dst| >= 4 && m.i == 1.0
    ensures IsSquareSystem(EquationRows(src, dst, 4), EquationRhs(src, dst, 4))
    ensures SatisfiesSystem(EquationRows(src, dst, 4), EquationRhs(src, dst, 4), Coefficients(m))
            <==> MapsAll(m, src, dst)
  {
    var rows := EquationRows(src, dst, 4);
    var rhs := EquationRhs(src, dst, 4);
    var x := Coefficients(m);
    EquationPairAt(src, dst, m, 0);
    EquationPairAt(src, dst, m, 1);
    EquationPairAt(src, dst, m, 2);
    EquationPairAt(src, dst, m, 3);
    if MapsAll(m, src, dst) {
      assert MapsPoint(m, src[0], dst[0]) && MapsPoint(m, src[1], dst[1]);
      assert MapsPoint(m, src[2], dst[2]) && MapsPoint(m, src[3], dst[3]);
      forall j | 0 <= j < 8 ensures Dot(rows[j], x, 8) == rhs[j] {
        assert j == 0 || j == 1 || j == 2 || j == 3 || j == 4 || j == 5 || j == 6 || j == 7;
      }
    }
    if SatisfiesSystem(rows, rhs, x) {
      assert Dot(rows[0], x, 8) == rhs[0] && Dot(rows[1], x, 8) == rhs[1];
      assert Dot(rows[2], x, 8) == rhs[2] && Dot(rows[3], x, 8) == rhs[3];
      assert Dot(rows[4], x, 8) == rhs[4] && Dot(rows[5], x, 8) == rhs[5];
      assert Dot(rows[6], x, 8) == rhs[6] && Dot(rows[7], x, 8) == rhs[7];
      forall k | 0 <= k < 4 ensures MapsPoint(m, src[k], dst[k]) {
        assert k == 0 || k == 1 || k == 2 || k == 3;
      }
    }
  }

  /**
   * A non-null homography has h[2][2] = 1 and sends each of the four source
   * points to its destination.
   */
  lemma HomographyMapsCorrespondences(src: seq<Point>, dst: seq<Point>)
    requires |src| >= 4 && |dst| >= 4 && Homography(src, dst).Some?
    ensures Homography(src, dst).value.i == 1.0
    ensures MapsAll(Homography(src, dst).value, src, dst)
  {
    var rows := EquationRows(src, dst, 4);
    var rhs := EquationRhs(src, dst, 4);
    var h := Solve(rows, rhs).value;
    assert Homography(src, dst) == Some(FromCoefficients(h));
    SolveSatisfiesSystem(rows, rhs);
    SolutionMapsCorrespondences(src, dst, h);
  }

  /** Coefficients that solve the eight equations give a matrix that sends each source point to its destination. */
  lemma SolutionMapsCorrespondences(src: seq<Point>, dst: seq<Point>, h: seq<real>)
    requires |src| >= 4 && |dst| >= 4 && |h| == 8
    requires IsSquareSystem(EquationRows(src, dst, 4), EquationRhs(src, dst, 4))
    requires SatisfiesSystem(EquationRows(src, dst, 4), EquationRhs(src, dst, 4), h)
    ensures MapsAll(FromCoefficients(h), src, dst)
  {
    var m := FromCoefficients(h);
    assert Coefficients(m) == h;
    SystemMeansCorrespondences(src, dst, m);
  }

  /**
   * A non-null homography is the only matrix with h[2][2] = 1 that sends the
   * four source points to their destinations.
   */
  lemma HomographyIsUnique(src: seq<Point>, dst: seq<Point>, m: Mat3)
    requires |src| >= 4 && |dst| >= 4 && Homography(src, dst).Some?
    requires m.i == 1.0 && MapsAll(m, src, dst)
    ensures m == Homography(src, dst).value
  {
    var rows := EquationRows(src, dst, 4);
    var rhs := EquationRhs(src, dst, 4);
    SystemMeansCorrespondences(src, dst, m);
    SolveGivesTheUniqueSolution(rows, rhs, Coefficients(m));
  }

  /** Two different matrices with i = 1 that fit the correspondences force the null result. */
  lemma AmbiguousCorrespondencesGiveNull(src: seq<Point>, dst: seq<Point>, m1: Mat3, m2: Mat3)
    requires |src| >= 4 && |dst| >= 4
    requires m1.i == 1.0 && m2.i == 1.0 && m1 != m2
    requires MapsAll(m1, src, dst) && MapsAll(m2, src, dst)
    ensures Homography(src, dst) == None
  {
    if Homography(src, dst).Some? {
      HomographyIsUnique(src, dst, m1);
      HomographyIsUnique(src, dst, m2);
    }
  }

  // ---------------------------------------------------------------------------
  // computeHomography
  // ---------------------------------------------------------------------------

  /** (0, 0), (w, 0), (w, h), (0, h): the overlay rectangle, clockwise from the top left. */
  function RectangleCorners(s: Size): seq<Point> {
    [Point(0.0, 0.0), Point(s.width, 0.0), Point(s.width, s.height), Point(0.0, s.height)]
  }

  /** The corners tl, tr, br, bl in that order, scaled to the output size. */
  function DisplayCorners(corners: Quad, outputSize: Size): seq<Point> {
    [ToDisplayPoint(corners.tl, outputSize), ToDisplayPoint(corners.tr, outputSize),
     ToDisplayPoint(corners.br, outputSize), ToDisplayPoint(corners.bl, outputSize)]
  }

  /** `computeHomography(overlaySize, corners, outputSize)`. */
  function ComputeHomography(overlaySize: Size, corners: Quad, outputSize: Size): (r: Option<Mat3>)
    ensures r.Some? ==> r.value.i == 1.0
  {
    Homography(RectangleCorners(overlaySize), DisplayCorners(corners, outputSize))
  }

  /**
   * A non-null result pairs the rectangle's top-left, top-right, bottom-right
   * and bottom-left corners with tl, tr, br and bl scaled to the output.
   */
  lemma ComputeHomographyPairsCorners(overlaySize: Size, corners: Quad, outputSize: Size)
    requires ComputeHomography(overlaySize, corners, outputSize).Some?
    ensures var m := ComputeHomography(overlaySize, corners, outputSize).value;
      MapsPoint(m, Point(0.0, 0.0), ToDisplayPoint(corners.tl, outputSize)) &&
      MapsPoint(m, Point(overlaySize.width, 0.0), ToDisplayPoint(corners.tr, outputSize)) &&
      MapsPoint(m, Point(overlaySize.width, overlaySize.height), ToDisplayPoint(corners.br, outputSize)) &&
      MapsPoint(m, Point(0.0, overlaySize.height), ToDisplayPoint(corners.bl, outputSize))
  {
    var src := RectangleCorners(overlaySize);
    var dst := DisplayCorners(corners, outputSize);
    HomographyMapsCorrespondences(src, dst);
    var m := ComputeHomography(overlaySize, corners, outputSize).value;
    assert MapsPoint(m, src[0], dst[0]) && MapsPoint(m, src[1], dst[1]);
    assert MapsPoint(m, src[2], dst[2]) && MapsPoint(m, src[3], dst[3]);
  }

  /** A quad whose four corners coincide has no homography: the result is null. */
  lemma CollapsedQuadGivesNull(overlaySize: Size, p: Point, outputSize: Size)
    ensures ComputeHomography(overlaySize, Quad(p, p, p, p), outputSize) == None
  {
    var q := ToDisplayPoint(p, outputSize);
    var src := RectangleCorners(overlaySize);
    var dst := DisplayCorners(Quad(p, p, p, p), outputSize);
    var constant := Mat3(0.0, 0.0, q.x, 0.0, 0.0, q.y, 0.0, 0.0, 1.0);
    var skewed := Mat3(q.x, 0.0, q.x, q.y, 0.0, q.y, 1.0, 0.0, 1.0);
    forall k | 0 <= k < 4 ensures MapsPoint(constant, src[k], dst[k]) && MapsPoint(skewed, src[k], dst[k]) {
      assert dst[k] == q;
    }
    AmbiguousCorrespondencesGiveNull(src, dst, constant, skewed);
  }

  /** The unit square's own corners, as a quad. */
  const FullFrame: Quad := Quad(Point(0.0, 0.0), Point(1.0, 0.0), Point(1.0, 1.0), Point(0.0, 1.0))

  /** The pure scaling from overlay pixels to output pixels. */
  function PixelScale(overlaySize: Size, outputSize: Size): Mat3
    requires overlaySize.width != 0.0 && overlaySize.height != 0.0
  {
    Mat3(outputSize.width / overlaySize.width, 0.0, 0.0, 0.0, outputSize.height / overlaySize.height, 0.0, 0.0, 0.0, 1.0)
  }

  lemma PixelScaleMapsFullFrame(overlaySize: Size, outputSize: Size)
    requires overlaySize.width != 0.0 && overlaySize.height != 0.0
    ensures MapsAll(PixelScale(overlaySize, outputSize), RectangleCorners(overlaySize), DisplayCorners(FullFrame, outputSize))
  {
    var src := RectangleCorners(overlaySize);
    var dst := DisplayCorners(FullFrame, outputSize);
    var sx := outputSize.width / overlaySize.width;
    var sy := outputSize.height / overlaySize.height;
    var scale := PixelScale(overlaySize, outputSize);
    assert sx * overlaySize.width == outputSize.width;
    assert sy * overlaySize.height == outputSize.height;
    assert dst[0] == Point(0.0, 0.0);
    assert dst[1] == Point(outputSize.width, 0.0);
    assert dst[2] == Point(outputSize.width, outputSize.height);
    assert dst[3] == Point(0.0, outputSize.height);
    assert MapsPoint(scale, src[0], dst[0]) && MapsPoint(scale, src[1], dst[1]);
    assert MapsPoint(scale, src[2], dst[2]) && MapsPoint(scale, src[3], dst[3]);
  }

  /**
   * Corners at the unit square's own corners: a non-null result is the pure
   * scaling from overlay pixels to output pixels.
   */
  lemma FullFrameIsPureScale(overlaySize: Size, outputSize: Size)
    requires overlaySize.width != 0.0 && overlaySize.height != 0.0
    requires ComputeHomography(overlaySize, FullFrame, outputSize).Some?
    ensures ComputeHomography(overlaySize, FullFrame, outputSize).value == PixelScale(overlaySize, outputSize)
  {
    PixelScaleMapsFullFrame(overlaySize, outputSize);
    HomographyIsUnique(RectangleCorners(overlaySize), DisplayCorners(FullFrame, outputSize), PixelScale(overlaySize, outputSize));
  }

  // ---------------------------------------------------------------------------
  // homographyToCssMatrix3d
  // ---------------------------------------------------------------------------

  /** `homographyToCssMatrix3d`: the 3×3 matrix as a column-major 4×4 acting on (x, y, 0, 1). */
  function HomographyToCssMatrix3d(hm: Option<Mat3>): (r: Option<seq<real>>)
    requires hm.Some? ==> hm.value.i != 0.0
    ensures r.None? <==> hm.None?
    ensures r.Some? ==> |r.value| == 16
    ensures r.Some? ==> r.value[2] == 0.0 && r.value[6] == 0.0 && r.value[8] == 0.0 && r.value[9] == 0.0
                        && r.value[11] == 0.0 && r.value[14] == 0.0 && r.value[10] == 1.0 && r.value[15] == 1.0
  {
    match hm
    case None => None
    case Some(m) =>
      Some([m.a / m.i, m.d / m.i, 0.0, m.g / m.i,
            m.b / m.i, m.e / m.i, 0.0, m.h / m.i,
            0.0, 0.0, 1.0, 0.0,
            m.c / m.i, m.f / m.i, 0.0, 1.0])
  }

  /** Row r of a column-major 4×4 applied to the column vector v. */
  function ApplyRow(css: seq<real>, r: nat, v: seq<real>): real
    requires |css| == 16 && r < 4 && |v| == 4
  {
    css[r] * v[0] + css[4 + r] * v[1] + css[8 + r] * v[2] + css[12 + r] * v[3]
  }

  /**
   * The CSS matrix sends the plane point (x, y, 0, 1) to the homography's
   * image scaled by 1/i: (a·x + b·y + c, d·x + e·y + f, 0, g·x + h·y + i) / i,
   * so after the perspective divide it is the same projective map.
   */
  lemma CssMatrixActsAsHomography(m: Mat3, x: real, y: real)
    requires m.i != 0.0
    ensures ApplyRow(HomographyToCssMatrix3d(Some(m)).value, 0, [x, y, 0.0, 1.0]) == (m.a * x + m.b * y + m.c) / m.i
    ensures ApplyRow(HomographyToCssMatrix3d(Some(m)).value, 1, [x, y, 0.0, 1.0]) == (m.d * x + m.e * y + m.f) / m.i
    ensures ApplyRow(HomographyToCssMatrix3d(Some(m)).value, 2, [x, y, 0.0, 1.0]) == 0.0
    ensures ApplyRow(HomographyToCssMatrix3d(Some(m)).value, 3, [x, y, 0.0, 1.0]) == (m.g * x + m.h * y + m.i) / m.i
  {
    var css := HomographyToCssMatrix3d(Some(m)).value;
    CssRow(css, 0, m.a, m.b, m.c, m.i, x, y);
    CssRow(css, 1, m.d, m.e, m.f, m.i, x, y);
    CssWeightRow(m, x, y);
  }

  /** The last row: its constant entry is 1 = i/i. */
  lemma CssWeightRow(m: Mat3, x: real, y: real)
    requires m.i != 0.0
    ensures ApplyRow(HomographyToCssMatrix3d(Some(m)).value, 3, [x, y, 0.0, 1.0]) == (m.g * x + m.h * y + m.i) / m.i
  {
    assert m.i / m.i == 1.0;
    CssRow(HomographyToCssMatrix3d(Some(m)).value, 3, m.g, m.h, m.i, m.i, x, y);
  }

  /** A row whose entries are p/d, q/d, 0 and r/d sends (x, y, 0, 1) to (p·x + q·y + r)/d. */
  lemma CssRow(css: seq<real>, k: nat, p: real, q: real, r: real, d: real, x: real, y: real)
    requires |css| == 16 && k < 4 && d != 0.0
    requires css[k] == p / d && css[4 + k] == q / d && css[8 + k] == 0.0 && css[12 + k] == r / d
    ensures ApplyRow(css, k, [x, y, 0.0, 1.0]) == (p * x + q * y + r) / d
  {
    DivideThrough(p, q, r, x, y, d);
  }

  /** Dividing each coefficient by d divides the affine combination by d. */
  lemma DivideThrough(p: real, q: real, r: real, x: real, y: real, d: real)
    requires d != 0.0
    ensures p / d * x + q / d * y + r / d == (p * x + q * y + r) / d
  {
    assert p / d * x == (p * x) / d;
    assert q / d * y == (q * y) / d;
  }

  // ---------------------------------------------------------------------------
  // invertHomography
  // ---------------------------------------------------------------------------

  /** `invertHomography(h)`: null when |det| < 1e-12, else the adjugate times 1/det. */
  function InvertHomography(m: Mat3): (r: Option<Mat3>)
    ensures r.None? <==> Abs(Det(m)) < Eps
  {
    var det := Det(m);
    if Abs(det) < Eps then None
    else Some(Scale(Adjugate(m), 1.0 / det))
  }

  /** A non-null inverse is a two-sided inverse in exact arithmetic. */
  lemma InverseIsTwoSided(m: Mat3)
    requires InvertHomography(m).Some?
    ensures Mul(m, InvertHomography(m).value) == Identity
    ensures Mul(InvertHomography(m).value, m) == Identity
  {
    ScaledAdjugateIsInverse(m);
  }
}
