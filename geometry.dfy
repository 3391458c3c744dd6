/** The exact part of src/cinemol/geometry.py: vector and point arithmetic,
    the sign helper, the same-side-of-a-plane test and the sampling of points
    along a 3-D line. Coordinates are reals, so every identity below holds
    exactly; the functions that need square roots, randomness or
    trigonometry are not part of this model. */
module Geometry {

  // ===========================================================================
  // Basic geometry classes
  // ===========================================================================

  /** A vector in 3-D space. */
  datatype Vector3D = Vector3D(x: real, y: real, z: real)

  /** A point in 2-D space. */
  datatype Point2D = Point2D(x: real, y: real)

  /** A point in 3-D space. */
  datatype Point3D = Point3D(x: real, y: real, z: real)

  /** A line in 3-D, given by its start and end points. */
  datatype Line3D = Line3D(start: Point3D, end: Point3D)

  /** A plane in 3-D, given by a point on it and its normal vector. */
  datatype Plane3D = Plane3D(center: Point3D, normal: Vector3D)

  const Zero: Vector3D := Vector3D(0.0, 0.0, 0.0)

  // ---------------------------------------------------------------------------
  // Vector3D
  // ---------------------------------------------------------------------------

  /** `a.dot(b)`. */
  function Dot(a: Vector3D, b: Vector3D): real {
    a.x * b.x + a.y * b.y + a.z * b.z
  }

  /** `a.cross(b)`: a vector orthogonal to both factors. */
  function Cross(a: Vector3D, b: Vector3D): (c: Vector3D)
    ensures Dot(a, c) == 0.0 && Dot(b, c) == 0.0
  {
    Vector3D(
      a.y * b.z - a.z * b.y,
      a.z * b.x - a.x * b.z,
      a.x * b.y - a.y * b.x
    )
  }

  /** `a.subtract(b)`. */
  function Subtract(a: Vector3D, b: Vector3D): Vector3D {
    Vector3D(a.x - b.x, a.y - b.y, a.z - b.z)
  }

  /** `a.multiply(s)`. */
  function Multiply(a: Vector3D, s: real): Vector3D {
    Vector3D(a.x * s, a.y * s, a.z * s)
  }

  lemma DotSymmetric(a: Vector3D, b: Vector3D)
    ensures Dot(a, b) == Dot(b, a)
  {
  }

  /** Dot is linear in its first argument. */
  lemma DotLinear(a: Vector3D, b: Vector3D, c: Vector3D, s: real)
    ensures Dot(Subtract(a, b), c) == Dot(a, c) - Dot(b, c)
    ensures Dot(Multiply(a, s), c) == s * Dot(a, c)
  {
  }

  /** `a x b = -(b x a)`. */
  lemma CrossAnticommutative(a: Vector3D, b: Vector3D)
    ensures Cross(a, b) == Multiply(Cross(b, a), -1.0)
  {
  }

  /** `a x a` is the zero vector, and so is the product with any multiple. */
  lemma CrossParallelZero(a: Vector3D, s: real)
    ensures Cross(a, a) == Zero
    ensures Cross(a, Multiply(a, s)) == Zero
  {
  }

  /** Lagrange's identity: the squared length of `a x b` is
      `|a|^2 |b|^2 - (a.b)^2`. */
  lemma CrossLength(a: Vector3D, b: Vector3D)
    ensures Dot(Cross(a, b), Cross(a, b)) == Dot(a, a) * Dot(b, b) - Dot(a, b) * Dot(a, b)
  {
  }

  /** The scalar triple product may be read either way round. */
  lemma TripleProduct(a: Vector3D, b: Vector3D, c: Vector3D)
    ensures Dot(a, Cross(b, c)) == Dot(Cross(a, b), c)
  {
  }

  lemma SubtractSelf(a: Vector3D)
    ensures Subtract(a, a) == Zero
  {
  }

  lemma SubtractAntisymmetric(a: Vector3D, b: Vector3D)
    ensures Subtract(a, b) == Multiply(Subtract(b, a), -1.0)
  {
  }

  /** Multiplying by one is the identity, by zero gives the zero vector. */
  lemma MultiplyUnitAndZero(a: Vector3D)
    ensures Multiply(a, 1.0) == a
    ensures Multiply(a, 0.0) == Zero
  {
  }

  // ---------------------------------------------------------------------------
  // Point2D
  // ---------------------------------------------------------------------------

  /** `p.subtract_point(q)`. */
  function SubtractPoint(p: Point2D, q: Point2D): Point2D {
    Point2D(p.x - q.x, p.y - q.y)
  }

  /** `p.cross(q)`: the signed area of the parallelogram spanned by the two
      points seen as vectors. */
  function Cross2D(p: Point2D, q: Point2D): real {
    p.x * q.y - p.y * q.x
  }

  lemma SubtractPointSelf(p: Point2D)
    ensures SubtractPoint(p, p) == Point2D(0.0, 0.0)
  {
  }

  /** The 2-D cross product is antisymmetric, so zero on equal points. */
  lemma Cross2DAntisymmetric(p: Point2D, q: Point2D)
    ensures Cross2D(p, q) == -Cross2D(q, p)
    ensures Cross2D(p, p) == 0.0
  {
  }

  /** The 2-D cross product is linear in its first argument; in particular
      shifting `p` by `q` does not change `p x q`. */
  lemma Cross2DSubtract(p: Point2D, q: Point2D, s: Point2D)
    ensures Cross2D(SubtractPoint(p, q), s) == Cross2D(p, s) - Cross2D(q, s)
    ensures Cross2D(SubtractPoint(p, q), q) == Cross2D(p, q)
  {
  }

  // ---------------------------------------------------------------------------
  // Point3D
  // ---------------------------------------------------------------------------

  /** `p.create_vector(q)`: the difference `p - q`, that is, the vector from
      `q` to `p` (the docstring says "from this point to another"). */
  function CreateVector(p: Point3D, q: Point3D): Vector3D {
    Vector3D(p.x - q.x, p.y - q.y, p.z - q.z)
  }

  /** `p.midpoint(q)`. */
  function Midpoint(p: Point3D, q: Point3D): Point3D {
    Point3D((p.x + q.x) / 2.0, (p.y + q.y) / 2.0, (p.z + q.z) / 2.0)
  }

  /** `create_vector` is antisymmetric and zero from a point to itself. */
  lemma CreateVectorAntisymmetric(p: Point3D, q: Point3D)
    ensures CreateVector(p, q) == Multiply(CreateVector(q, p), -1.0)
    ensures CreateVector(p, p) == Zero
  {
  }

  /** Differences taken against a common point subtract to the difference
      of the two points. */
  lemma CreateVectorTranslation(p: Point3D, q: Point3D, o: Point3D)
    ensures Subtract(CreateVector(p, o), CreateVector(q, o)) == CreateVector(p, q)
  {
  }

  /** The midpoint is symmetric, fixes equal points, and lies halfway: the
      step from `p` to the midpoint equals the step from the midpoint to
      `q`. */
  lemma MidpointProperties(p: Point3D, q: Point3D)
    ensures Midpoint(p, q) == Midpoint(q, p)
    ensures Midpoint(p, p) == p
    ensures CreateVector(Midpoint(p, q), p) == CreateVector(q, Midpoint(p, q))
  {
  }

  // ===========================================================================
  // Helper functions
  // ===========================================================================

  /** `sign(x)`: -1, 0 or 1, zero exactly for zero and positive exactly for
      positive numbers. */
  function Sign(x: real): (s: int)
    ensures -1 <= s <= 1
    ensures s == 0 <==> x == 0.0
    ensures s == 1 <==> x > 0.0
  {
    if x < 0.0 then -1
    else if x > 0.0 then 1
    else 0
  }

  lemma SignNegate(x: real)
    ensures Sign(-x) == -Sign(x)
  {
  }

  /** The sign of a product is the product of the signs. */
  lemma SignProduct(x: real, y: real)
    ensures Sign(x * y) == Sign(x) * Sign(y)
  {
    if x > 0.0 && y < 0.0 {
      assert x * y < 0.0 by { assert x * (-y) > 0.0; }
    } else if x < 0.0 && y > 0.0 {
      assert x * y < 0.0 by { assert (-x) * y > 0.0; }
    } else if x < 0.0 && y < 0.0 {
      assert x * y > 0.0 by { assert (-x) * (-y) > 0.0; }
    }
  }

  // ===========================================================================
  // Check if points are on the same side of a plane
  // ===========================================================================

  /** The signed offset of `p` from the plane, in units of the normal's
      length: `(p - center) . normal`. */
  function Side(plane: Plane3D, p: Point3D): real {
    Dot(CreateVector(p, plane.center), plane.normal)
  }

  /** `same_side_of_plane(plane, p1, p2)`: both points strictly on the side
      the normal points to, both strictly on the other side, or both on the
      plane. */
  function SameSideOfPlane(plane: Plane3D, p1: Point3D, p2: Point3D): (same: bool)
    ensures same <==>
      || (Side(plane, p1) > 0.0 && Side(plane, p2) > 0.0)
      || (Side(plane, p1) < 0.0 && Side(plane, p2) < 0.0)
      || (Side(plane, p1) == 0.0 && Side(plane, p2) == 0.0)
  {
    var left := Sign(Dot(CreateVector(p1, plane.center), plane.normal));
    var right := Sign(Dot(CreateVector(p2, plane.center), plane.normal));
    left == right
  }

  /** Being on the same side is an equivalence relation. */
  lemma SameSideIsEquivalence(plane: Plane3D, p1: Point3D, p2: Point3D, p3: Point3D)
    ensures SameSideOfPlane(plane, p1, p1)
    ensures SameSideOfPlane(plane, p1, p2) == SameSideOfPlane(plane, p2, p1)
    ensures SameSideOfPlane(plane, p1, p2) && SameSideOfPlane(plane, p2, p3) ==> SameSideOfPlane(plane, p1, p3)
  {
  }

  /** Scaling the normal by any non-zero factor, in particular negating it,
      does not change the answer. */
  lemma SameSideScaledNormal(plane: Plane3D, s: real, p1: Point3D, p2: Point3D)
    requires s != 0.0
    ensures SameSideOfPlane(Plane3D(plane.center, Multiply(plane.normal, s)), p1, p2) == SameSideOfPlane(plane, p1, p2)
  {
    var scaled := Plane3D(plane.center, Multiply(plane.normal, s));
    ScaledSide(plane, s, p1);
    ScaledSide(plane, s, p2);
    SignProduct(s, Side(plane, p1));
    SignProduct(s, Side(plane, p2));
  }

  lemma ScaledSide(plane: Plane3D, s: real, p: Point3D)
    ensures Side(Plane3D(plane.center, Multiply(plane.normal, s)), p) == s * Side(plane, p)
  {
    var v := CreateVector(p, plane.center);
    DotSymmetric(v, Multiply(plane.normal, s));
    DotLinear(plane.normal, plane.normal, v, s);
    DotSymmetric(plane.normal, v);
  }

  lemma SameSideNegatedNormal(plane: Plane3D, p1: Point3D, p2: Point3D)
    ensures SameSideOfPlane(Plane3D(plane.center, Multiply(plane.normal, -1.0)), p1, p2) == SameSideOfPlane(plane, p1, p2)
  {
    SameSideScaledNormal(plane, -1.0, p1, p2);
  }

  /** The plane's own center is on the same side only as the points of the
      plane. */
  lemma CenterIsOnPlane(plane: Plane3D, p: Point3D)
    ensures SameSideOfPlane(plane, plane.center, p) <==> Side(plane, p) == 0.0
  {
  }

  // ===========================================================================
  // Points along a line
  // ===========================================================================

  /** The point at parameter `t` on the line: `start + (end - start) * t`,
      coordinate by coordinate. */
  function PointAt(line: Line3D, t: real): Point3D {
    var s, e := line.start, line.end;
    Point3D(s.x + (e.x - s.x) * t, s.y + (e.y - s.y) * t, s.z + (e.z - s.z) * t)
  }

  /** The parameter of the k-th of n points: `k / n`. */
  function Parameter(k: nat, n: nat): real
    requires k < n
  {
    k as real / n as real
  }

  /** The points `get_points_on_line_3d(line, n)` returns: none when n <= 0,
      otherwise the points at parameters 0/n, 1/n, ..., (n-1)/n. */
  function LinePoints(line: Line3D, n: int): (ps: seq<Point3D>)
    ensures |ps| == if n > 0 then n else 0
  {
    if n <= 0 then [] else seq(n, k requires 0 <= k < n => PointAt(line, Parameter(k, n)))
  }

  /** `get_points_on_line_3d(line, num_points)`: grows the list one point
      per loop step. */
  method GetPointsOnLine3D(line: Line3D, numPoints: int) returns (points: seq<Point3D>)
    ensures |points| == if numPoints > 0 then numPoints else 0
    ensures points == LinePoints(line, numPoints)
  {
    var sx, sy, sz := line.start.x, line.start.y, line.start.z;
    var ex, ey, ez := line.end.x, line.end.y, line.end.z;
    points := [];
    var i := 0;
    while i < numPoints
      invariant 0 <= i <= |LinePoints(line, numPoints)|
      invariant points == LinePoints(line, numPoints)[..i]
    {
      var t := i as real / numPoints as real;
      var x := sx + (ex - sx) * t;
      var y := sy + (ey - sy) * t;
      var z := sz + (ez - sz) * t;
      var point := Point3D(x, y, z);
      assert t == Parameter(i, numPoints);
      assert point == PointAt(line, t);
      assert point == LinePoints(line, numPoints)[i];
      assert LinePoints(line, numPoints)[..i + 1] == points + [point];
      points := points + [point];
      i := i + 1;
    }
  }

  /** Every parameter lies in [0, 1), so the first point is the start. */
  lemma ParameterRange(k: nat, n: nat)
    requires k < n
    ensures 0.0 <= Parameter(k, n) < 1.0
    ensures k == 0 ==> Parameter(k, n) == 0.0
  {
  }

  lemma PointAtEnds(line: Line3D)
    ensures PointAt(line, 0.0) == line.start
    ensures PointAt(line, 1.0) == line.end
  {
  }

  /** Each point lies on the segment: its offset from the start is the
      line's direction scaled by its parameter. */
  lemma LinePointsOnSegment(line: Line3D, n: int, k: nat)
    requires k < |LinePoints(line, n)|
    ensures CreateVector(LinePoints(line, n)[k], line.start)
      == Multiply(CreateVector(line.end, line.start), Parameter(k, n))
  {
  }

  /** On a line of non-zero length, different parameters give different
      points. */
  lemma PointAtInjective(line: Line3D, t1: real, t2: real)
    requires line.start != line.end
    requires PointAt(line, t1) == PointAt(line, t2)
    ensures t1 == t2
  {
    var s, e := line.start, line.end;
    var d := t1 - t2;
    assert (e.x - s.x) * d == 0.0 && (e.y - s.y) * d == 0.0 && (e.z - s.z) * d == 0.0;
    if d != 0.0 {
      ZeroProduct(e.x - s.x, d);
      ZeroProduct(e.y - s.y, d);
      ZeroProduct(e.z - s.z, d);
      assert false;
    }
  }

  lemma ZeroProduct(a: real, d: real)
    requires a * d == 0.0 && d != 0.0
    ensures a == 0.0
  {
    if a != 0.0 {
      SignProduct(a, d);
    }
  }

  /** The first point is the start; when the line has non-zero length the
      points are pairwise distinct and the end is never among them. */
  lemma LinePointsShape(line: Line3D, n: int)
    ensures n > 0 ==> LinePoints(line, n)[0] == line.start
    ensures line.start != line.end ==> line.end !in LinePoints(line, n)
    ensures line.start != line.end ==>
      forall i, j :: 0 <= i < j < |LinePoints(line, n)| ==> LinePoints(line, n)[i] != LinePoints(line, n)[j]
  {
    var ps := LinePoints(line, n);
    if line.start != line.end {
      forall k | 0 <= k < |ps|
        ensures ps[k] != line.end
      {
        ParameterRange(k, n);
        PointAtEnds(line);
        if ps[k] == line.end {
          PointAtInjective(line, Parameter(k, n), 1.0);
        }
      }
      forall i, j | 0 <= i < j < |ps|
        ensures ps[i] != ps[j]
      {
        if ps[i] == ps[j] {
          PointAtInjective(line, Parameter(i, n), Parameter(j, n));
          ParameterDistinct(i, j, n);
        }
      }
    }
  }

  lemma ParameterDistinct(i: nat, j: nat, n: nat)
    requires i < j < n
    ensures Parameter(i, n) < Parameter(j, n)
  {
  }

  /** With an even number of points the middle one is the midpoint of the
      line. */
  lemma LinePointsMidpoint(line: Line3D, n: int)
    requires n > 0 && n % 2 == 0
    ensures LinePoints(line, n)[n / 2] == Midpoint(line.start, line.end)
  {
    ParameterHalf(n);
    PointAtHalf(line);
  }

  lemma ParameterHalf(n: nat)
    requires n > 0 && n % 2 == 0
    ensures Parameter(n / 2, n) == 0.5
  {
    var m := (n / 2) as real;
    assert n as real == 2.0 * m;
    HalfQuotient(m);
  }

  lemma HalfQuotient(m: real)
    requires m > 0.0
    ensures m / (2.0 * m) == 0.5
  {
  }

  lemma PointAtHalf(line: Line3D)
    ensures PointAt(line, 0.5) == Midpoint(line.start, line.end)
  {
  }
}
