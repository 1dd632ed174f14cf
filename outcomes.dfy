/** Optional values and the two failures the robot client can raise. */
module Outcomes {

  /** A value that may be absent (Kotlin's nullable types). */
  datatype Option<+T> = None | Some(value: T)

  /** The exceptions thrown by the modelled operations. */
  datatype Error =
    | IllegalArgument   // `require(...)` failing
    | RemoteException   // service missing, or the cross-process call failing

  /** A call that either completes with a value or throws. */
  datatype Result<+T> = Ok(value: T) | Err(error: Error)
}
