/** Values shared by every part of the model: optional values, results and
    the Ruby exceptions the library can raise. */
module Types {

  datatype Option<+T> = None | Some(value: T)

  /** A value or an error; usable with `:-`. */
  datatype Result<+T, +E> = Ok(value: T) | Err(error: E) {
    predicate IsFailure() { Err? }

    function PropagateFailure<U>(): Result<U, E>
      requires Err?
    {
      Err(error)
    }

    function Extract(): T
      requires Ok?
    {
      value
    }
  }

  /** The exceptions the library raises.  `HardLimitExceeded` carries the
      effective hard limit its message reports.  `RangeError` is raised by
      FFI when a resource id does not fit the C `int` parameter.
      `NameError` and `TypeError` only arise in the as-written variants of
      the Findings. */
  datatype Error =
    | ArgumentError
    | RuntimeError
    | PermissionDenied
    | HardLimitExceeded(hard: int)
    | NameError
    | TypeError
    | RangeError
}
