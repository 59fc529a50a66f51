/** Java-level values shared by the whole model: 32-bit integers, optional values,
    results, and the exceptions the server builder throws or lets through. */
module Common {

  /** A Java `int`. */
  newtype int32 = x: int | -0x8000_0000 <= x < 0x8000_0000

  /** A value that may be Java `null`. */
  datatype Option<+T> = None | Some(value: T) {
    function GetOr(default: T): T {
      match this
      case Some(v) => v
      case None => default
    }
  }

  /** A call that either returns a value or throws. */
  datatype Result<+R, +E> = Success(value: R) | Failure(error: E)

  /** Something thrown by code outside this model: a user callback, the transport
      layer, or Reactor's blocking read (which also throws on timeout). */
  datatype Cause = Cause(id: nat)

  datatype Exception =
    | NullPointer(message: string)      // Objects.requireNonNull(x, message)
    | IllegalArgument(message: string)  // new IllegalArgumentException(message)
    | Rethrown(cause: Cause)            // an exception from a collaborator, propagated unchanged
}
