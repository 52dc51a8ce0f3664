/** The Line value of algepy/line.py: a point and a direction vector. */
module Lines {
  import opened Outcomes
  import opened Vectors
  import opened Points

  datatype Line = Line(point: Point, vector: Vector)

  /** The keyword arguments of the constructor: `point`, `vector`, and how
      many other keyword arguments were passed (they are ignored). */
  datatype LineArgs = LineArgs(point: Option<Point>, vector: Option<Vector>, others: nat)

  /** The constructor fails only when no keyword argument at all is given;
      a missing point is the origin, a missing vector the zero vector of
      dimension 3, and a supplied one is kept as it is, even a zero vector. */
  function NewLine(args: LineArgs): (r: Result<Line>)
    ensures r.Failure? <==> args.point.None? && args.vector.None? && args.others == 0
    ensures r.Failure? ==> r.error == NoArguments
    ensures r.Success? ==> r.value.point == args.point.GetOr(Point(0.0, 0.0, 0.0))
    ensures r.Success? ==> r.value.vector == args.vector.GetOr(Vector(0.0, 0.0, 0.0, 3))
  {
    if args.point.None? && args.vector.None? && args.others == 0 then Failure(NoArguments)
    else
      var point := args.point.GetOr(NewPoint(Some(0.0), Some(0.0), Some(0.0)));
      var vector := args.vector.GetOr(MakeVector(VectorArgs(Some(0.0), Some(0.0), Some(0.0), None)));
      Success(Line(point, vector))
  }
}
