/** The Plane value of algepy/plane.py: a normal vector and a point, the
    coefficients a, b, c copied from the normal, and the offset d of the
    equation a*x + b*y + c*z + d = 0. */
module Planes {
  import opened Outcomes
  import opened Vectors
  import opened Points

  datatype Plane = Plane(normal: Vector, point: Point, a: real, b: real, c: real, d: real)

  /** The keyword arguments of the constructor. */
  datatype PlaneArgs = PlaneArgs(normal: Option<Vector>, point: Option<Point>)

  /** `Vector(x=0, y=0, z=0)`, the default normal. */
  function DefaultNormal(): Vector {
    MakeVector(VectorArgs(Some(0.0), Some(0.0), Some(0.0), None))
  }

  /** Whether a point satisfies the plane equation with the cached offset. */
  predicate OnPlane(pl: Plane, pt: Point) {
    pl.a * pt.x + pl.b * pt.y + pl.c * pt.z + pl.d == 0.0
  }

  /** What the constructor establishes: the coefficients are the normal's
      stored coordinates and the offset is the one of the stored point. */
  predicate Consistent(pl: Plane) {
    && pl.a == pl.normal.x && pl.b == pl.normal.y && pl.c == pl.normal.z
    && pl.d == FindD(pl, pl.point)
  }

  /** `find_d`: the offset that puts `pt` on the plane with coefficients a, b, c,
      computed afresh from them and `pt` on every call. */
  function FindD(pl: Plane, pt: Point): (d: real)
    ensures pl.a * pt.x + pl.b * pt.y + pl.c * pt.z + d == 0.0
  {
    var sum := pl.a * pt.x + pl.b * pt.y + pl.c * pt.z;
    -sum
  }

  /** The offset does not depend on the cached `d`. */
  lemma FindDIgnoresCachedOffset(pl: Plane, pt: Point, e: real)
    ensures FindD(pl.(d := e), pt) == FindD(pl, pt)
    ensures OnPlane(pl, pt) <==> pl.d == FindD(pl, pt)
  {
  }

  /** The constructor: normal and point default to the zero vector and the
      origin; a, b, c are read from the normal with `get`, then d from the point. */
  function NewPlane(args: PlaneArgs): (pl: Plane)
    ensures Consistent(pl)
    ensures pl.normal == args.normal.GetOr(DefaultNormal())
    ensures pl.point == args.point.GetOr(Point(0.0, 0.0, 0.0))
  {
    var normal := args.normal.GetOr(DefaultNormal());
    var point := args.point.GetOr(NewPoint(Some(0.0), Some(0.0), Some(0.0)));
    var a, b, c := Get(normal, "x").value, Get(normal, "y").value, Get(normal, "z").value;
    var pl := Plane(normal, point, a, b, c, 0.0);
    pl.(d := FindD(pl, point))
  }

  /** The stored point lies on the plane. */
  lemma StoredPointOnPlane(pl: Plane)
    requires Consistent(pl)
    ensures OnPlane(pl, pl.point)
  {
  }

  /** A plane built without a point passes through the origin, so its
      offset is 0 whatever its normal. */
  lemma DefaultPointOffsetIsZero(args: PlaneArgs)
    requires args.point.None?
    ensures NewPlane(args).d == 0.0
    ensures OnPlane(NewPlane(args), Point(0.0, 0.0, 0.0))
  {
    var pl := NewPlane(args);
    StoredPointOnPlane(pl);
  }

  /** `find_intersection`: the point where the plane meets the named axis, the
      other two coordinates being 0. The offset is recomputed from the stored
      point and the divisor is the normal's coordinate on that axis. */
  function FindIntersection(pl: Plane, axis: string): (r: Result<Point>)
    ensures ParseAxis(axis).None? ==> r == Failure(InvalidAxis)
    ensures ParseAxis(axis).Some? ==>
      (r.Failure? <==> Coord(pl.normal, ParseAxis(axis).value) == 0.0)
    ensures ParseAxis(axis).Some? && r.Failure? ==> r.error == DivisionByZero
    ensures r.Success? ==>
      && (axis == "x" || r.value.x == 0.0)
      && (axis == "y" || r.value.y == 0.0)
      && (axis == "z" || r.value.z == 0.0)
  {
    match ParseAxis(axis)
    case None => Failure(InvalidAxis)
    case Some(ax) =>
      var d := FindD(pl, pl.point);
      var divisor := Get(pl.normal, axis).value;
      if divisor == 0.0 then Failure(DivisionByZero)
      else
        var v := -d / divisor;
        Success(Point(if ax == X then v else 0.0,
                      if ax == Y then v else 0.0,
                      if ax == Z then v else 0.0))
  }

  /** The intercept lies on the plane. */
  lemma IntersectionOnPlane(pl: Plane, axis: string)
    requires Consistent(pl)
    requires FindIntersection(pl, axis).Success?
    ensures OnPlane(pl, FindIntersection(pl, axis).value)
  {
  }
}
