/** Optional values, results of calls that may fail, and the errors the controller tells apart. */
module Wrappers {
  datatype Option<+T> = None | Some(value: T) {
    function GetOr(default: T): T {
      if Some? then value else default
    }
  }

  /** The errors of the cloud API, as far as the controller distinguishes them. */
  datatype Error = Conflict | DuplicatePolicy | TimedOut | Invalid(message: string) | Failed

  datatype Result<+T> = Ok(value: T) | Err(error: Error)

  datatype Outcome = Done | Failure(error: Error)
}
