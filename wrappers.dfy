/** Failure-carrying results shared by every solver: `Option` for a missing value
    (JavaScript `null`, `undefined`, `-1` or `Infinity` sentinels) and `Result` for a
    thrown `Error`. */
module Wrappers {

  datatype Option<+T> = None | Some(value: T)

  /** `Err` stands for a JavaScript `throw`; its text is the thrown message. */
  datatype Result<+T> = Ok(value: T) | Err(message: string)
}
