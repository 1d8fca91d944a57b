/** Success/failure values used wherever the source throws, returns early or
    uses `null` for "nothing". */
module Wrappers {

  datatype Option<+T> = None | Some(value: T)

  /** `Failure` carries the message of the exception the source would throw. */
  datatype Result<+R> = Success(value: R) | Failure(error: string)
}
