/** The Point value of algepy/point.py: three coordinates and no dimension. */
module Points {
  import opened Outcomes
  import opened Vectors

  datatype Point = Point(x: real, y: real, z: real)

  /** The constructor: each coordinate is the supplied value or 0. */
  function NewPoint(x: Option<real>, y: Option<real>, z: Option<real>): (p: Point)
    ensures x.None? ==> p.x == 0.0
    ensures y.None? ==> p.y == 0.0
    ensures z.None? ==> p.z == 0.0
    ensures x.Some? ==> p.x == x.value
    ensures y.Some? ==> p.y == y.value
    ensures z.Some? ==> p.z == z.value
  {
    Point(x.GetOr(0.0), y.GetOr(0.0), z.GetOr(0.0))
  }

  /** `__eq__`: exact comparison of the three coordinates. */
  function PointEquals(p: Point, q: Point): (b: bool)
    ensures b <==> p == q
  {
    p.x == q.x && p.y == q.y && p.z == q.z
  }

  /** Point equality is reflexive, symmetric and transitive. */
  lemma PointEqualsIsEquivalence(p: Point, q: Point, r: Point)
    ensures PointEquals(p, p)
    ensures PointEquals(p, q) == PointEquals(q, p)
    ensures PointEquals(p, q) && PointEquals(q, r) ==> PointEquals(p, r)
  {
  }

  /** `p + q`: the vector that leads from `p` to `q`, built by the vector
      constructor with its default dimension. */
  function Displacement(p: Point, q: Point): (v: Vector)
    ensures v.dimension == 3
    ensures v == Zero(3) <==> p == q
  {
    MakeVector(VectorArgs(Some(q.x - p.x), Some(q.y - p.y), Some(q.z - p.z), None))
  }

  /** The displacement goes from the first point to the second. */
  lemma DisplacementDirection(p: Point, q: Point)
    ensures Get(Displacement(p, q), "x") == Success(q.x - p.x)
    ensures Get(Displacement(p, q), "y") == Success(q.y - p.y)
    ensures Get(Displacement(p, q), "z") == Success(q.z - p.z)
  {
    assert AxisName(X) == "x" && AxisName(Y) == "y" && AxisName(Z) == "z";
  }

  /** `p + p` is the zero vector. */
  lemma DisplacementToSelfIsZero(p: Point)
    ensures Displacement(p, p) == Zero(3)
  {
  }

  /** Swapping the points reverses the displacement. */
  lemma DisplacementReversed(p: Point, q: Point)
    ensures Displacement(q, p) == Opposite(Displacement(p, q))
  {
  }

  /** Displacements chain: from p to q and then from q to r is from p to r. */
  lemma DisplacementsChain(p: Point, q: Point, r: Point)
    ensures Plus(Displacement(p, q), Displacement(q, r)) == Displacement(p, r)
  {
  }
}
