/** Option and Result values used for the optional sample of a telemetry line
    and for the error returns of the capability probe. */
module Wrappers {

  datatype Option<+T> = None | Some(value: T)

  datatype Result<+T> = Ok(value: T) | Err(error: string)
}
