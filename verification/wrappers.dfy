/** Small value wrappers shared by every component. */
module Wrappers {

  /** An optional value: `undefined`/`null` in the application become `None`. */
  datatype Option<+T> = None | Some(value: T)

  /** A checked value, or the reason it was refused. */
  datatype Result<+T, +E> = Success(value: T) | Failure(error: E)

  /** What an awaited call into an outside service delivers: a value, or a
      rejected promise (the `catch` branch of the caller). */
  datatype Reply<+T> = Ok(value: T) | Fail
}
