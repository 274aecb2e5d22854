/** Small failure-compatible wrappers shared by the rest of the model. */
module Wrappers {

  /** A value that may be absent: a nullable Java field or an optional TypeScript property. */
  datatype Option<+T> = None | Some(value: T)

  /** The result of one call to the remote item gateway. A failure carries no detail:
      the controller only logs it and maps it to a fixed message. */
  datatype Outcome<+T> = Ok(value: T) | Fail
}
