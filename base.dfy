/** Small failure-carrying datatypes shared by every module of the model. */
module Base {

  /** A value that may be absent; `None` stands for Go's nil map, nil pointer, or "not found". */
  datatype Option<+T> = None | Some(value: T)

  /** The two results of a Go call returning `(T, error)`: a value, or a non-nil error. */
  datatype Result<+T, +E> = Success(value: T) | Failure(error: E)
  {
    predicate IsFailure() { Failure? }

    function PropagateFailure<U>(): Result<U, E>
      requires Failure?
    {
      Failure(error)
    }

    function Extract(): T
      requires Success?
    {
      value
    }
  }

  function Min(a: int, b: int): int
  {
    if a < b then a else b
  }
}
