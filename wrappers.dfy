/** Result wrappers and the error taxonomy of the notification library.
    Exceptions thrown by the C# code become `Failure`/`Fail` values carrying an `Error`. */
module Wrappers {

  /** A value that may be absent; stands for a C# nullable reference or `out` value. */
  datatype Option<+T> = None | Some(value: T)

  /** The result of an operation that either returns a value or throws. */
  datatype Result<+T, +E> = Success(value: T) | Failure(error: E)

  /** The result of an operation that returns nothing or throws. */
  datatype Outcome<+E> = Pass | Fail(error: E)

  /** The exceptions the modelled code throws, one variant per exception type. */
  datatype Error =
    | ArgumentNull(paramName: string)      // ArgumentNullException
    | Argument(paramName: string)          // ArgumentException
    | Scheduling(scheduledTime: int)       // NotificationSchedulingException
    | Delivery(errorCode: Option<int>)     // NotificationDeliveryException
    | KeyNotFound                          // KeyNotFoundException from a dictionary indexer
    | OutOfRange                           // ArgumentOutOfRangeException
}
