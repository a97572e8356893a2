/** Optional values, the exceptions the services raise, and results that carry either. */
module Wrappers {

  /** A Java reference that may be null, or a `java.util.Optional`. */
  datatype Option<T> = None | Some(value: T)

  /**
   * The exceptions the services throw, one constructor per exception class.
   * `BadRequest` and `OperationFailed` carry a short tag naming the check that
   * raised them, so that contracts can tell apart two checks of the same kind.
   */
  datatype Failure =
    | BadRequest(why: string)          // BadRequestException
    | NotFound(what: string)           // ResourceNotFoundException
    | OperationFailed(why: string)     // OperationFailedException
    | AccessDenied                     // AccessDeniedException
    | IllegalArgument(why: string)     // IllegalArgumentException
    | RuntimeFailure(why: string)      // any other unchecked exception

  /** Either the value a service method returns or the exception it throws. */
  datatype Result<T> = Ok(value: T) | Err(error: Failure)
}
