# algepy value algebra in Dafny

This project models the small analytic-geometry library algepy: its `Vector`,
`Point`, `Plane` and `Line` value objects and their operations. These are
component-wise arithmetic, the dot and cross products, projection, the plane
offset and axis intercept, each with its error cases. Numbers are mathematical
reals.

Modules:

- `Outcomes` (outcomes.dfy): optional keyword arguments (`Option`), the
  exceptions the library raises (`Error`) and `Result`, which holds either a
  value or one of those exceptions.
- `Squares` (squares.dfy): squares of reals and their sign.
- `Vectors` (vector.dfy): the vector record `(x, y, z, dimension)`. A vector
  always stores all three coordinates. `dimension` (default 3, never
  validated) picks the *active* axes through the slice `axes[0:dimension]`.
  Only `+`, `-`, scalar `*`, `/`, `==` and the magnitude restrict themselves to
  the active axes. `get`, `opposite`, the dot product and `cross` read all three
  stored coordinates. The source's loops (`check_axes`, the sum in
  `magnitude`, `__eq__`, `__add__`, `__sub__`, scalar `__mul__`,
  `__truediv__`) are methods with loop invariants, proved against the
  functions `MakeVector`, `NormSquared`, `SameActive`, `Plus`, `Minus`,
  `Scaled` and `Quotient`. A vector is never changed after it is built, so
  the loops work on local values.
- `Points` (point.dfy): points, their equality, and `p + q`, the displacement
  vector from `p` to `q`.
- `Planes` (plane.dfy): a plane built from a normal and a point. It caches
  the coefficients a, b, c and the offset d of `a*x + b*y + c*z + d = 0`.
  Also the axis intercepts.
- `Lines` (line.dfy): a line built from a point and a direction vector.

Three behaviours of the code worth noting, where the model follows the code
rather than the methods' docstrings or a first reading of them:

- The dot product with a null operand does not return 0. The branch for a
  null operand returns the local `x` before that local is assigned, so Python
  raises `UnboundLocalError`. `Vectors.Dot` returns `Failure(UnboundLocal)`
  there.
- The active axes follow Python's slice exactly. A dimension of 0 or less
  than -2 keeps no axis. A dimension of -1 keeps x and y, and -2 keeps x.
  A dimension of 3 or more keeps all three.
- The negation of the middle component in `cross` makes it the standard
  right-handed cross product, for all operands (`Vectors.CrossIsStandard`).

## Model

| member | source | states |
|---|---|---|
| Vectors.ParseAxis | algepy/vector.py:68-70 | only "x", "y" and "z" name an axis, and each names the axis whose name it is |
| Vectors.ActiveAxes | algepy/vector.py:83 | `axes[0:dimension]` keeps the first min(dimension, 3) axes for a non-negative dimension, and counts from the end for a negative one; the active axes are always a prefix of x, y, z |
| Vectors.NewVector | algepy/vector.py:9-43 | the constructor sets the dimension (default 3) and each of x, y, z to the supplied value or 0, whatever the dimension; the result is `MakeVector(args)` |
| Vectors.Get | algepy/vector.py:58-70 | `get` succeeds exactly for "x", "y", "z" and returns that stored coordinate whatever the dimension; any other name raises the axis error |
| Vectors.ConstructorStoresAllAxes | algepy/vector.py:25-27 | every coordinate given to the constructor reads back through `get`; one left out reads 0; the dimension defaults to 3 |
| Vectors.SquaredMagnitude | algepy/vector.py:82-84 | the loop's sum is the sum of squares of the active coordinates; it is never negative, and it is 0 exactly when every active coordinate is 0 |
| Vectors.SumOfSquaresZero | algepy/vector.py:82-84 | a partial sum of squares is never negative, and it is 0 exactly when each coordinate it covers is 0 |
| Vectors.NullIffActiveAxesZero | algepy/vector.py:100-110 | `isnull` holds exactly when every active coordinate is 0; inactive coordinates do not matter |
| Vectors.Opposite | algepy/vector.py:87-98 | `opposite` negates all three stored coordinates and keeps the dimension |
| Vectors.OppositeIsInvolution | algepy/vector.py:87-98 | taking the opposite twice gives back the vector |
| Vectors.Dot | algepy/vector.py:295-303 | the dot product succeeds exactly when the dimensions agree and neither operand is null, and is then x·x' + y·y' + z·z' over all stored coordinates |
| Vectors.DotSymmetricAndNullFails | algepy/vector.py:296-299 | the dot product is symmetric; differing dimensions raise the dimension error; a null operand raises the unbound-local error and never yields 0 |
| Vectors.InnerSelfIsNormSquared | algepy/vector.py:82-84 | with all three axes active, a vector's dot product with itself is its squared magnitude |
| Vectors.CheckOperands | algepy/vector.py:140-143 | the checks of `perpendicular`, `angle`, `projection` and `cross`: the dimension error comes first, then the null-vector error, and they pass exactly for equal dimensions and two non-null operands |
| Vectors.Perpendicular | algepy/vector.py:130-144 | `perpendicular` fails exactly when the operand checks fail, and otherwise says whether the dot product is 0 |
| Vectors.PerpendicularIsSymmetric | algepy/vector.py:130-144 | `u.perpendicular(v)` and `v.perpendicular(u)` agree, errors included |
| Vectors.Projection | algepy/vector.py:166-186 | `projection` fails exactly when the operand checks fail, with their error |
| Vectors.ProjectionRecomposes | algepy/vector.py:182-186 | the projection `p` and the remainder `r` keep `u`'s dimension, and `p + r == u` under `==` |
| Vectors.ProjectionAlongOther | algepy/vector.py:182-185 | the projection is `other` scaled by self·other over the squared magnitude of `other`, so it lies along `other` |
| Vectors.ProjectionOrthogonal | algepy/vector.py:182-186 | with all three axes active, the remainder's dot product with `other` is 0 |
| Vectors.ProjectionNotOrthogonalInTwoDimensions | algepy/vector.py:182-186 | with dimension 2 and a stored z the remainder need not be orthogonal: u = (1, 0, 1) gives dot product -1 |
| Vectors.Cross | algepy/vector.py:188-205 | `cross` fails exactly when the operand checks fail; otherwise it keeps the first operand's dimension and is orthogonal to both operands |
| Vectors.CrossIsStandard | algepy/vector.py:202-205 | for all operands, the result's components are y1z2 − z1y2, z1x2 − x1z2 and x1y2 − y1x2: the standard right-handed cross product, with the first operand's dimension |
| Vectors.CrossAntiCommutes | algepy/vector.py:202-205 | swapping the operands gives the opposite vector |
| Vectors.CrossIsRightHanded | algepy/vector.py:202-205 | the cross product of the x and y unit vectors is the z unit vector |
| Vectors.Equals | algepy/vector.py:207-222 | `==` raises the dimension error for differing dimensions, and otherwise says whether all active coordinates agree |
| Vectors.SameActiveIsEquivalence | algepy/vector.py:219-222 | `==` is reflexive, and symmetric and transitive between vectors of one dimension |
| Vectors.Add | algepy/vector.py:251-266 | `+` raises the dimension error for differing dimensions; otherwise it keeps the dimension, adds the active coordinates and leaves the others 0 |
| Vectors.Subtract | algepy/vector.py:268-283 | `-` raises the dimension error for differing dimensions; otherwise it keeps the dimension, subtracts the active coordinates and leaves the others 0 |
| Vectors.Scale | algepy/vector.py:304-307 | scalar `*` keeps the dimension, multiplies the active coordinates and leaves the others 0 |
| Vectors.Divide | algepy/vector.py:309-322 | `/` raises division by zero exactly when the divisor is 0 and some axis is active; otherwise it divides the active coordinates and leaves the others 0 |
| Vectors.AddOppositeIsZero | algepy/vector.py:87-98 | `u + u.opposite()` is `Vector(dimension=u.dimension)` |
| Vectors.SubtractUndoesAdd | algepy/vector.py:263-283 | `(u + v) - v == u` |
| Vectors.ScaleUndoesDivide | algepy/vector.py:304-322 | `(v / k) * k == v` for a non-zero `k` |
| Points.NewPoint | algepy/point.py:4-7 | each coordinate is the supplied value, or 0 when left out |
| Points.PointEquals | algepy/point.py:15-16 | point equality holds exactly when the two points are the same value |
| Points.PointEqualsIsEquivalence | algepy/point.py:15-16 | point equality is reflexive, symmetric and transitive |
| Points.Displacement | algepy/point.py:18-19 | `p + q` has dimension 3, and is the zero vector exactly when p and q are the same point |
| Points.DisplacementDirection | algepy/point.py:18-19 | `p + q` reads back, through `get`, as q − p on each axis |
| Points.DisplacementToSelfIsZero | algepy/point.py:18-19 | `p + p` is the zero vector |
| Points.DisplacementReversed | algepy/point.py:18-19 | `q + p` is the opposite of `p + q` |
| Points.DisplacementsChain | algepy/point.py:18-19 | `(p + q) + (q + r) == p + r` |
| Planes.FindD | algepy/plane.py:32-49 | `find_d(pt)` is the offset that puts `pt` on the plane with coefficients a, b, c |
| Planes.FindDIgnoresCachedOffset | algepy/plane.py:47-49 | `find_d` does not depend on the cached d, and a point lies on the plane exactly when d equals its `find_d` |
| Planes.NewPlane | algepy/plane.py:10-30 | the constructor stores the normal (default zero vector) and the point (default origin), copies a, b, c from the normal's coordinates, and sets d to `find_d` of the point |
| Planes.StoredPointOnPlane | algepy/plane.py:30 | the stored point satisfies the plane equation with the cached d |
| Planes.DefaultPointOffsetIsZero | algepy/plane.py:26-30 | a plane built without a point has d = 0 and passes through the origin |
| Planes.FindIntersection | algepy/plane.py:51-75 | `find_intersection` raises the axis error for a name other than "x", "y", "z"; for a valid name it raises division by zero, and only that error, exactly when the normal's coordinate on that axis is 0; otherwise the other two coordinates of the point are 0 |
| Planes.IntersectionOnPlane | algepy/plane.py:66-75 | the intercept lies on the plane |
| Lines.NewLine | algepy/line.py:10-27 | the constructor raises exactly when no keyword argument is given; a missing point is the origin, a missing vector the zero vector of dimension 3, and supplied ones are stored unchanged |

## Left out

- `magnitude`'s square root is not modelled; the model works with the squared magnitude.
- `direction_cosine` and `angle` are left out because they use `acos`, degrees and rounding. Only their checks are modelled: the axis check through `ParseAxis`, and the operand checks of `angle` through `CheckOperands`.
- Vectors.Projection: divides by the squared magnitude where the source divides by the square of the float square root of it. Reals make the two equal; floats may differ in the last bits.
- All arithmetic is on reals, so float rounding, overflow to infinity and NaN are not modelled.
- `__str__` and `__repr__` of every class are left out: they are text rendering only.
- `null()` is not modelled: only the dead `kwargs is None` branch calls it.
- The `kwargs is None` branches of the vector and plane constructors are dead code.
- The `isinstance` check of `find_d` is not modelled: the types rule its failure out.
- Python's dynamic typing is not modelled. The model does not cover coordinates of other types, `*` with an operand that is neither a vector nor a number, or attribute access on missing fields.
- Lines.NewLine: keyword arguments other than `point` and `vector` are modelled only by their count. They make construction succeed and are otherwise ignored.
- algepy/plot.py (matplotlib rendering), the demo scripts and the package's re-exports are not part of this model.
