/** Java's nullable references and thrown exceptions, as values. */
module Wrappers {

  /** A nullable reference: `None` is Java's `null`. */
  datatype Option<+T> = None | Some(value: T)

  /** The two kinds of exception the backend's handlers distinguish: a plain
      `RuntimeException` carrying a message, and Spring Security's
      `AuthenticationException` (bad credentials or unknown user, which the
      backend never tells apart). */
  datatype Error = RuntimeError(message: string) | AuthenticationError

  /** The outcome of a call that either returns a value or throws. */
  datatype Result<+T> = Success(value: T) | Failure(error: Error)
}
