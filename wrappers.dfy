/**
 * Optional values, used where the recorders, the scheduler and the status viewer return None,
 * and the byte type of recorded files.
 */
module Wrappers {

  type Byte = bv8

  datatype Option<+T> = None | Some(value: T)

  /** A value or the text of the exception that replaced it. */
  datatype Result<+T> = Ok(value: T) | Err(error: string)
}
