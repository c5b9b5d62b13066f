/** Kotlin's nullable values and the exceptions the library lets escape. */
module Wrappers {

  /** A Kotlin `T?`: `None` stands for `null`. */
  datatype Option<+T> = None | Some(value: T)

  /** The JVM exceptions that the modelled code can throw. */
  datatype Failure =
    | NoSuchElement      // java.util.NoSuchElementException
    | IndexOutOfBounds   // StringIndexOutOfBoundsException and friends

  /** A call that returns a value or throws one of the exceptions above. */
  datatype Result<+T> = Ok(value: T) | Err(failure: Failure)
}
