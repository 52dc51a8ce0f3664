/** The Vector value of algepy/vector.py.

    A vector always stores the three coordinates x, y and z. Its `dimension`
    (default 3, never validated) only selects, through the slice
    `axes[0:dimension]`, the leading "active" axes that the arithmetic
    operators, equality and the magnitude look at; `get`, `opposite`, the dot
    product and `cross` read all three stored coordinates. */
module Vectors {
  import opened Outcomes
  import opened Squares

  datatype Axis = X | Y | Z

  /** The axes in the order a vector visits them. */
  const Axes: seq<Axis> := [X, Y, Z]

  /** Position of an axis in `Axes`. */
  function Index(a: Axis): (i: nat)
    ensures i < |Axes| && Axes[i] == a
  {
    match a
    case X => 0
    case Y => 1
    case Z => 2
  }

  function AxisName(a: Axis): string {
    match a
    case X => "x"
    case Y => "y"
    case Z => "z"
  }

  /** The axis a name denotes; only "x", "y" and "z" denote one. */
  function ParseAxis(name: string): (r: Option<Axis>)
    ensures r.Some? <==> name in {"x", "y", "z"}
    ensures r.Some? ==> AxisName(r.value) == name
  {
    if name == "x" then Some(X)
    else if name == "y" then Some(Y)
    else if name == "z" then Some(Z)
    else None
  }

  datatype Vector = Vector(x: real, y: real, z: real, dimension: int)

  /** The stored coordinate of an axis (`getattr(v, axis)`). */
  function Coord(v: Vector, a: Axis): real {
    match a
    case X => v.x
    case Y => v.y
    case Z => v.z
  }

  function WithCoord(v: Vector, a: Axis, value: real): Vector {
    match a
    case X => v.(x := value)
    case Y => v.(y := value)
    case Z => v.(z := value)
  }

  /** Two vectors with the same dimension and the same three coordinates are equal. */
  lemma Extensional(v: Vector, w: Vector)
    requires v.dimension == w.dimension
    requires forall a :: Coord(v, a) == Coord(w, a)
    ensures v == w
  {
    assert Coord(v, X) == Coord(w, X) && Coord(v, Y) == Coord(w, Y) && Coord(v, Z) == Coord(w, Z);
  }

  // ---------------------------------------------------------------------------
  // Active axes

  /** The end of the Python slice `s[0:stop]` on a sequence of length `len`:
      a negative stop counts from the end, and the result is clamped to [0, len]. */
  function SliceStop(stop: int, len: nat): (k: nat)
    ensures k <= len
  {
    if stop < 0 then (if len + stop < 0 then 0 else len + stop)
    else if stop > len then len
    else stop
  }

  /** The number of axes in `axes[0:dimension]`. */
  function ActiveCount(dimension: int): (n: nat)
    ensures n <= |Axes|
  {
    SliceStop(dimension, |Axes|)
  }

  predicate IsActive(dimension: int, a: Axis) {
    Index(a) < ActiveCount(dimension)
  }

  /** The active axes are a prefix of x, y, z: with a non-negative dimension
      the first min(dimension, 3) axes, with a negative one the slice counts
      from the end, so dimension -1 keeps x and y. */
  lemma ActiveAxes(dimension: int)
    ensures 0 <= dimension ==> ActiveCount(dimension) == if dimension < 3 then dimension else 3
    ensures dimension < 0 ==> ActiveCount(dimension) == if dimension <= -3 then 0 else 3 + dimension
    ensures forall a, b :: IsActive(dimension, b) && Index(a) <= Index(b) ==> IsActive(dimension, a)
  {
  }

  // ---------------------------------------------------------------------------
  // Construction and get

  /** The keyword arguments of the constructor; `None` is an argument left out. */
  datatype VectorArgs = VectorArgs(x: Option<real>, y: Option<real>, z: Option<real>, dimension: Option<int>)

  function Supplied(args: VectorArgs, a: Axis): Option<real> {
    match a
    case X => args.x
    case Y => args.y
    case Z => args.z
  }

  /** The vector the constructor builds. */
  function MakeVector(args: VectorArgs): Vector {
    Vector(args.x.GetOr(0.0), args.y.GetOr(0.0), args.z.GetOr(0.0), args.dimension.GetOr(3))
  }

  /** `Vector(dimension=d)`: all three coordinates 0. */
  function Zero(dimension: int): Vector {
    MakeVector(VectorArgs(None, None, None, Some(dimension)))
  }

  /** The constructor: it records the dimension, then `check_axes` visits x, y
      and z in turn and stores the supplied value or 0, whatever the dimension. */
  method NewVector(args: VectorArgs) returns (v: Vector)
    ensures v.dimension == args.dimension.GetOr(3)
    ensures forall a :: Coord(v, a) == Supplied(args, a).GetOr(0.0)
    ensures v == MakeVector(args)
  {
    // an axis not yet visited holds no attribute; 0 stands for it here
    v := Vector(0.0, 0.0, 0.0, args.dimension.GetOr(3));
    for i := 0 to |Axes|
      invariant v.dimension == args.dimension.GetOr(3)
      invariant forall a :: Coord(v, a) == if Index(a) < i then Supplied(args, a).GetOr(0.0) else 0.0
    {
      var axis := Axes[i];
      if Supplied(args, axis).Some? {
        v := WithCoord(v, axis, Supplied(args, axis).value);
      } else {
        v := WithCoord(v, axis, 0.0);
      }
    }
    Extensional(v, MakeVector(args));
  }

  /** `get`: the stored coordinate of a named axis, for every dimension. */
  function Get(v: Vector, name: string): (r: Result<real>)
    ensures r.Success? <==> name in {"x", "y", "z"}
    ensures r.Failure? ==> r.error == InvalidAxis
    ensures forall a :: name == AxisName(a) ==> r == Success(Coord(v, a))
  {
    match ParseAxis(name)
    case None => Failure(InvalidAxis)
    case Some(a) => Success(Coord(v, a))
  }

  /** Every coordinate given to the constructor can be read back with `get`,
      whatever the dimension, and a coordinate left out reads as 0. */
  lemma ConstructorStoresAllAxes(args: VectorArgs, a: Axis)
    ensures Get(MakeVector(args), AxisName(a)) == Success(Supplied(args, a).GetOr(0.0))
    ensures MakeVector(args).dimension == if args.dimension.Some? then args.dimension.value else 3
  {
  }

  // ---------------------------------------------------------------------------
  // Magnitude and null vectors

  /** Sum of the squares of the first `n` coordinates. */
  function SumOfSquares(v: Vector, n: nat): real
    requires n <= |Axes|
  {
    if n == 0 then 0.0
    else SumOfSquares(v, n - 1) + Square(Coord(v, Axes[n - 1]))
  }

  /** The squared magnitude: the sum of squares over the active axes. */
  function NormSquared(v: Vector): real {
    SumOfSquares(v, ActiveCount(v.dimension))
  }

  /** The loop of `magnitude`, which accumulates the squares of the active
      coordinates (the square root it then takes is not modelled). */
  method SquaredMagnitude(v: Vector) returns (sum: real)
    ensures sum == NormSquared(v)
    ensures sum >= 0.0
    ensures sum == 0.0 <==> forall a :: IsActive(v.dimension, a) ==> Coord(v, a) == 0.0
  {
    sum := 0.0;
    var n := ActiveCount(v.dimension);
    for i := 0 to n
      invariant sum == SumOfSquares(v, i)
    {
      var value := Coord(v, Axes[i]);
      sum := sum + value * value;
    }
    NullIffActiveAxesZero(v);
  }

  lemma {:induction false} SumOfSquaresZero(v: Vector, n: nat)
    requires n <= |Axes|
    ensures SumOfSquares(v, n) >= 0.0
    ensures SumOfSquares(v, n) == 0.0 <==> forall i :: 0 <= i < n ==> Coord(v, Axes[i]) == 0.0
  {
    if n > 0 {
      SumOfSquaresZero(v, n - 1);
      var c := Coord(v, Axes[n - 1]);
      SquareSign(c);
      if c != 0.0 {
        assert !(forall i :: 0 <= i < n ==> Coord(v, Axes[i]) == 0.0) by {
          assert Coord(v, Axes[n - 1]) != 0.0;
        }
      } else {
        assert (forall i :: 0 <= i < n ==> Coord(v, Axes[i]) == 0.0)
          <==> (forall i :: 0 <= i < n - 1 ==> Coord(v, Axes[i]) == 0.0);
      }
    }
  }

  /** `isnull`. */
  predicate IsNull(v: Vector) {
    NormSquared(v) == 0.0
  }

  /** The squared magnitude is never negative, and a vector is null exactly
      when all its active coordinates are 0 (its inactive ones may not be). */
  lemma NullIffActiveAxesZero(v: Vector)
    ensures NormSquared(v) >= 0.0
    ensures IsNull(v) <==> forall a :: IsActive(v.dimension, a) ==> Coord(v, a) == 0.0
  {
    var n := ActiveCount(v.dimension);
    SumOfSquaresZero(v, n);
    if forall i :: 0 <= i < n ==> Coord(v, Axes[i]) == 0.0 {
      forall a | IsActive(v.dimension, a) ensures Coord(v, a) == 0.0 {
        assert Axes[Index(a)] == a;
      }
    }
    if forall a :: IsActive(v.dimension, a) ==> Coord(v, a) == 0.0 {
      forall i | 0 <= i < n ensures Coord(v, Axes[i]) == 0.0 {
        assert Index(Axes[i]) == i;
      }
    }
  }

  // ---------------------------------------------------------------------------
  // Opposite, dot product, perpendicularity, projection, cross product

  /** `opposite`: all three stored coordinates negated, dimension kept. */
  function Opposite(u: Vector): (r: Vector)
    ensures r.dimension == u.dimension
    ensures forall a :: Coord(r, a) == -Coord(u, a)
  {
    MakeVector(VectorArgs(Some(-u.x), Some(-u.y), Some(-u.z), Some(u.dimension)))
  }

  lemma OppositeIsInvolution(u: Vector)
    ensures Opposite(Opposite(u)) == u
  {
  }

  /** The sum of the products of all three stored coordinates. */
  function Inner(u: Vector, v: Vector): real {
    u.x * v.x + u.y * v.y + u.z * v.z
  }

  /** `u * v` for two vectors. With a null operand the source reaches
      `return x` before `x` is assigned, so it raises instead of returning. */
  function Dot(u: Vector, v: Vector): (r: Result<real>)
    ensures r.Success? <==> u.dimension == v.dimension && !IsNull(u) && !IsNull(v)
    ensures r.Success? ==> r.value == Inner(u, v)
  {
    if u.dimension != v.dimension then Failure(DimensionMismatch)
    else if IsNull(v) || IsNull(u) then Failure(UnboundLocal)
    else Success(Inner(u, v))
  }

  /** The dot product is symmetric, and a null operand of matching dimension
      is an unbound-local error, never the value 0. */
  lemma DotSymmetricAndNullFails(u: Vector, v: Vector)
    ensures Dot(u, v) == Dot(v, u)
    ensures u.dimension != v.dimension ==> Dot(u, v) == Failure(DimensionMismatch)
    ensures u.dimension == v.dimension && (IsNull(u) || IsNull(v)) ==> Dot(u, v) == Failure(UnboundLocal)
  {
  }

  /** For a vector whose three axes are all active, its dot product with
      itself is its squared magnitude. */
  lemma InnerSelfIsNormSquared(v: Vector)
    requires ActiveCount(v.dimension) == 3
    ensures Inner(v, v) == NormSquared(v)
  {
    assert SumOfSquares(v, 1) == v.x * v.x;
    assert SumOfSquares(v, 2) == v.x * v.x + v.y * v.y;
  }

  /** The two checks `perpendicular`, `angle`, `projection` and `cross` make
      before computing: equal dimensions first, then no null operand. */
  function CheckOperands(u: Vector, v: Vector): (r: Option<Error>)
    ensures r.None? <==> u.dimension == v.dimension && !IsNull(u) && !IsNull(v)
    ensures r == Some(DimensionMismatch) <==> u.dimension != v.dimension
    ensures r.Some? ==> r.value in {DimensionMismatch, NullVector}
  {
    if u.dimension != v.dimension then Some(DimensionMismatch)
    else if IsNull(v) || IsNull(u) then Some(NullVector)
    else None
  }

  /** `perpendicular`: whether the dot product is 0, after the operand checks. */
  function Perpendicular(u: Vector, v: Vector): (r: Result<bool>)
    ensures r.Success? <==> CheckOperands(u, v).None?
    ensures r.Failure? ==> Some(r.error) == CheckOperands(u, v)
    ensures r.Success? ==> (r.value <==> Inner(u, v) == 0.0)
  {
    match CheckOperands(u, v)
    case Some(e) => Failure(e)
    case None => Success(Dot(u, v).value == 0.0)
  }

  lemma PerpendicularIsSymmetric(u: Vector, v: Vector)
    ensures Perpendicular(u, v) == Perpendicular(v, u)
  {
  }

  /** `projection`: the projection `p` of `u` onto `v` and the remainder `u - p`. */
  function Projection(u: Vector, v: Vector): (r: Result<(Vector, Vector)>)
    ensures r.Success? <==> CheckOperands(u, v).None?
    ensures r.Failure? ==> Some(r.error) == CheckOperands(u, v)
  {
    match CheckOperands(u, v)
    case Some(e) => Failure(e)
    case None =>
      var productScalar := Dot(u, v).value;
      var otherMagnitude := NormSquared(v);
      var projectionMagnitude := productScalar / otherMagnitude;
      var p := Scaled(v, projectionMagnitude);
      Success((p, Minus(u, p)))
  }

  /** The projection and the remainder add back up to `u` under `==`, which
      compares the active axes. */
  lemma ProjectionRecomposes(u: Vector, v: Vector)
    requires Projection(u, v).Success?
    ensures var (p, r) := Projection(u, v).value;
      p.dimension == r.dimension == u.dimension && SameActive(Plus(p, r), u)
  {
  }

  /** The projection lies along `v`: it is `v` scaled by the dot product over
      the squared magnitude of `v`. */
  lemma ProjectionAlongOther(u: Vector, v: Vector)
    requires Projection(u, v).Success?
    ensures Projection(u, v).value.0 == Scaled(v, Inner(u, v) / NormSquared(v))
    ensures exists k :: Projection(u, v).value.0 == Scaled(v, k)
  {
    var k := Inner(u, v) / NormSquared(v);
    assert Projection(u, v).value.0 == Scaled(v, k);
  }

  /** With all three axes active the remainder is orthogonal to `v`. */
  lemma ProjectionOrthogonal(u: Vector, v: Vector)
    requires Projection(u, v).Success?
    requires ActiveCount(u.dimension) == 3
    ensures Inner(Projection(u, v).value.1, v) == 0.0
  {
    var (p, r) := Projection(u, v).value;
    var n := NormSquared(v);
    var k := Inner(u, v) / n;
    InnerSelfIsNormSquared(v);
    assert n != 0.0;
    assert k * n == Inner(u, v);
    assert p == Vector(v.x * k, v.y * k, v.z * k, v.dimension);
    assert r == Vector(u.x - v.x * k, u.y - v.y * k, u.z - v.z * k, u.dimension);
    calc {
      Inner(r, v);
      (u.x - v.x * k) * v.x + (u.y - v.y * k) * v.y + (u.z - v.z * k) * v.z;
      Inner(u, v) - k * Inner(v, v);
      Inner(u, v) - k * n;
      0.0;
    }
  }

  /** With dimension 2 a stored z takes part in the dot product but not in the
      squared magnitude, so the remainder need not be orthogonal. */
  lemma ProjectionNotOrthogonalInTwoDimensions()
    ensures var u := Vector(1.0, 0.0, 1.0, 2);
      Projection(u, u).Success? && Inner(Projection(u, u).value.1, u) == -1.0
  {
  }

  /** `cross`: the right-handed cross product of the three stored coordinates,
      with the first operand's dimension. */
  function Cross(u: Vector, v: Vector): (r: Result<Vector>)
    ensures r.Success? <==> CheckOperands(u, v).None?
    ensures r.Failure? ==> Some(r.error) == CheckOperands(u, v)
    ensures r.Success? ==> r.value.dimension == u.dimension
    ensures r.Success? ==> Inner(r.value, u) == 0.0 && Inner(r.value, v) == 0.0
  {
    match CheckOperands(u, v)
    case Some(e) => Failure(e)
    case None =>
      var x := u.y * v.z - u.z * v.y;
      var y := u.x * v.z - u.z * v.x;
      var z := u.x * v.y - u.y * v.x;
      Success(MakeVector(VectorArgs(Some(x), Some(-y), Some(z), Some(u.dimension))))
  }

  /** Swapping the operands negates the cross product. */
  lemma CrossAntiCommutes(u: Vector, v: Vector)
    requires Cross(u, v).Success?
    ensures Cross(v, u) == Success(Opposite(Cross(u, v).value))
  {
  }

  /** Component by component the result is the standard right-handed cross
      product (y1z2 - z1y2, z1x2 - x1z2, x1y2 - y1x2), for every pair of operands. */
  lemma CrossIsStandard(u: Vector, v: Vector)
    requires Cross(u, v).Success?
    ensures Cross(u, v).value == Vector(u.y * v.z - u.z * v.y, u.z * v.x - u.x * v.z, u.x * v.y - u.y * v.x, u.dimension)
  {
  }

  /** Cross product of the unit vectors along x and y is the unit vector along z. */
  lemma CrossIsRightHanded()
    ensures Cross(Vector(1.0, 0.0, 0.0, 3), Vector(0.0, 1.0, 0.0, 3)) == Success(Vector(0.0, 0.0, 1.0, 3))
  {
  }

  // ---------------------------------------------------------------------------
  // Equality and arithmetic on the active axes

  /** The active coordinates of `u` (by `u`'s dimension) equal those of `v`. */
  predicate SameActive(u: Vector, v: Vector) {
    forall a :: IsActive(u.dimension, a) ==> Coord(u, a) == Coord(v, a)
  }

  /** `__eq__`: compares the active coordinates, stopping at the first that differs. */
  method Equals(u: Vector, v: Vector) returns (r: Result<bool>)
    ensures u.dimension != v.dimension ==> r == Failure(DimensionMismatch)
    ensures u.dimension == v.dimension ==> r == Success(SameActive(u, v))
  {
    if u.dimension != v.dimension {
      return Failure(DimensionMismatch);
    }
    var n := ActiveCount(u.dimension);
    for i := 0 to n
      invariant forall a :: Index(a) < i ==> Coord(u, a) == Coord(v, a)
    {
      var axis := Axes[i];
      if Coord(u, axis) != Coord(v, axis) {
        assert !SameActive(u, v) by { assert IsActive(u.dimension, axis); }
        return Success(false);
      }
    }
    return Success(true);
  }

  /** What the arithmetic operators build: `Vector(dimension=d)`, zero on all
      three axes, with the active axes then set to the given values. */
  function Masked(dimension: int, x: real, y: real, z: real): Vector {
    Vector(if IsActive(dimension, X) then x else 0.0,
           if IsActive(dimension, Y) then y else 0.0,
           if IsActive(dimension, Z) then z else 0.0,
           dimension)
  }

  function Plus(u: Vector, v: Vector): Vector {
    Masked(u.dimension, u.x + v.x, u.y + v.y, u.z + v.z)
  }

  function Minus(u: Vector, v: Vector): Vector {
    Masked(u.dimension, u.x - v.x, u.y - v.y, u.z - v.z)
  }

  function Scaled(v: Vector, k: real): Vector {
    Masked(v.dimension, v.x * k, v.y * k, v.z * k)
  }

  function Quotient(v: Vector, k: real): Vector
    requires k != 0.0
  {
    Masked(v.dimension, v.x / k, v.y / k, v.z / k)
  }

  /** `__add__`: component-wise sum on the active axes, 0 on the others. */
  method Add(u: Vector, v: Vector) returns (r: Result<Vector>)
    ensures u.dimension != v.dimension ==> r == Failure(DimensionMismatch)
    ensures u.dimension == v.dimension ==> r.Success? && r.value == Plus(u, v)
    ensures r.Success? ==> (r.value.dimension == u.dimension
      && forall a :: Coord(r.value, a) == if IsActive(u.dimension, a) then Coord(u, a) + Coord(v, a) else 0.0)
  {
    if u.dimension != v.dimension {
      return Failure(DimensionMismatch);
    }
    var vec := NewVector(VectorArgs(None, None, None, Some(u.dimension)));
    var n := ActiveCount(u.dimension);
    for i := 0 to n
      invariant vec.dimension == u.dimension
      invariant forall a :: Coord(vec, a) == if Index(a) < i then Coord(u, a) + Coord(v, a) else 0.0
    {
      var axis := Axes[i];
      vec := WithCoord(vec, axis, Coord(u, axis) + Coord(v, axis));
    }
    Extensional(vec, Plus(u, v));
    return Success(vec);
  }

  /** `__sub__`: component-wise difference on the active axes, 0 on the others. */
  method Subtract(u: Vector, v: Vector) returns (r: Result<Vector>)
    ensures u.dimension != v.dimension ==> r == Failure(DimensionMismatch)
    ensures u.dimension == v.dimension ==> r.Success? && r.value == Minus(u, v)
    ensures r.Success? ==> (r.value.dimension == u.dimension
      && forall a :: Coord(r.value, a) == if IsActive(u.dimension, a) then Coord(u, a) - Coord(v, a) else 0.0)
  {
    if u.dimension != v.dimension {
      return Failure(DimensionMismatch);
    }
    var vec := NewVector(VectorArgs(None, None, None, Some(u.dimension)));
    var n := ActiveCount(u.dimension);
    for i := 0 to n
      invariant vec.dimension == u.dimension
      invariant forall a :: Coord(vec, a) == if Index(a) < i then Coord(u, a) - Coord(v, a) else 0.0
    {
      var axis := Axes[i];
      vec := WithCoord(vec, axis, Coord(u, axis) - Coord(v, axis));
    }
    Extensional(vec, Minus(u, v));
    return Success(vec);
  }

  /** `u * k` for a scalar: the active axes scaled, the others 0. */
  method Scale(v: Vector, k: real) returns (r: Vector)
    ensures r == Scaled(v, k)
    ensures r.dimension == v.dimension
    ensures forall a :: Coord(r, a) == if IsActive(v.dimension, a) then Coord(v, a) * k else 0.0
  {
    r := NewVector(VectorArgs(None, None, None, Some(v.dimension)));
    var n := ActiveCount(v.dimension);
    for i := 0 to n
      invariant r.dimension == v.dimension
      invariant forall a :: Coord(r, a) == if Index(a) < i then Coord(v, a) * k else 0.0
    {
      var axis := Axes[i];
      r := WithCoord(r, axis, Coord(v, axis) * k);
    }
    Extensional(r, Scaled(v, k));
  }

  /** `__truediv__`: the active axes divided by `k`, the others 0. Division
      by 0 raises at the first active axis, so it raises only when some axis
      is active. */
  method Divide(v: Vector, k: real) returns (r: Result<Vector>)
    ensures r.Failure? <==> k == 0.0 && ActiveCount(v.dimension) > 0
    ensures r.Failure? ==> r.error == DivisionByZero
    ensures r.Success? && k != 0.0 ==> r.value == Quotient(v, k)
    ensures r.Success? && k == 0.0 ==> r.value == Zero(v.dimension)
  {
    var vec := NewVector(VectorArgs(None, None, None, Some(v.dimension)));
    var n := ActiveCount(v.dimension);
    for i := 0 to n
      invariant vec.dimension == v.dimension
      invariant k != 0.0 ==> forall a :: Coord(vec, a) == if Index(a) < i then Coord(v, a) / k else 0.0
      invariant k == 0.0 ==> i == 0 && vec == Zero(v.dimension)
    {
      var axis := Axes[i];
      if k == 0.0 {
        return Failure(DivisionByZero);
      }
      vec := WithCoord(vec, axis, Coord(v, axis) / k);
    }
    if k != 0.0 {
      Extensional(vec, Quotient(v, k));
    }
    return Success(vec);
  }

  /** A vector plus its opposite is the zero vector of the same dimension. */
  lemma AddOppositeIsZero(u: Vector)
    ensures Plus(u, Opposite(u)) == Zero(u.dimension)
    ensures SameActive(Plus(u, Opposite(u)), Zero(u.dimension))
  {
  }

  /** Subtracting what was added gives back the active coordinates. */
  lemma SubtractUndoesAdd(u: Vector, v: Vector)
    ensures SameActive(Minus(Plus(u, v), v), u)
  {
  }

  /** Scaling by `k` undoes dividing by `k` on the active axes. */
  lemma ScaleUndoesDivide(v: Vector, k: real)
    requires k != 0.0
    ensures Scaled(Quotient(v, k), k).dimension == v.dimension
    ensures SameActive(Scaled(Quotient(v, k), k), v)
  {
  }

  /** Equality is reflexive and, between vectors of one dimension, symmetric
      and transitive. */
  lemma SameActiveIsEquivalence(u: Vector, v: Vector, w: Vector)
    ensures SameActive(u, u)
    ensures u.dimension == v.dimension ==> (SameActive(u, v) <==> SameActive(v, u))
    ensures u.dimension == v.dimension && SameActive(u, v) && SameActive(v, w) ==> SameActive(u, w)
  {
  }
}
