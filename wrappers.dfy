/** Option and Result types standing in for Java's null and thrown exceptions. */
module Wrappers {

  datatype Option<T> = None | Some(value: T)

  /** The Java exception classes the modelled code throws or catches. */
  datatype Exn =
    | IllegalArgument
    | IllegalState
    | IRFailure
    | NotInitialized
    | NumberFormat
    | IndexOutOfBounds
    | NoSuchElement
    | NullPointer
    | SlotMapping
    | IOError
    | Unsupported
    | ClassCast
    | Runtime                  // a RuntimeException wrapping a checked exception

  datatype Result<T> = Ok(value: T) | Err(error: Exn)
}
