/** Optional keyword arguments, the exceptions the geometry operations raise,
    and the result type that carries either a value or one of those exceptions. */
module Outcomes {

  /** A keyword argument that the caller may leave out. */
  datatype Option<T> = None | Some(value: T) {

    /** The supplied value, or `default` when the argument was left out. */
    function GetOr(default: T): T {
      match this
      case Some(v) => v
      case None => default
    }
  }

  /** The kinds of exception raised by the vector, plane and line operations. */
  datatype Error =
    | DimensionMismatch   // ValueError: the two vectors have different dimensions
    | NullVector          // ValueError: an operand has squared magnitude 0
    | InvalidAxis         // ValueError: an axis name other than "x", "y" or "z"
    | DivisionByZero      // ZeroDivisionError
    | UnboundLocal        // UnboundLocalError: a local read before it is assigned
    | NoArguments         // ValueError: a line built without any keyword argument

  /** The value an operation returns, or the exception it raises. */
  datatype Result<T> = Success(value: T) | Failure(error: Error)
}
