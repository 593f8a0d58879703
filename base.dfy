/** Small shared vocabulary: optional values (Java's null / Optional), results that carry
    either a value or the exception a Java method would throw, and bytes. */
module Base {

  datatype Option<+T> = None | Some(value: T)

  /** Success or the failure a Java method signals by throwing. Usable with `:-`. */
  datatype Result<+R, +E> = Success(value: R) | Failure(error: E) {
    predicate IsFailure() {
      Failure?
    }

    function PropagateFailure<U>(): Result<U, E>
      requires Failure?
    {
      Failure(error)
    }

    function Extract(): R
      requires Success?
    {
      value
    }
  }

  /** An unsigned 8-bit value, as okio's ByteString stores it. */
  type byte = x: int | 0 <= x < 256
}
