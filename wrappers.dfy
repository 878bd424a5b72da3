/** Option and Result: PHP's null and thrown exceptions, as values. */
module Wrappers {

  /** None stands for PHP's null (an unset key, an unassigned variable). */
  datatype Option<+T> = None | Some(value: T)

  /** Failure carries the message of the exception the PHP code throws. */
  datatype Result<+T> = Success(value: T) | Failure(message: string)
}
