/**
 * Optional values and results with an error message, the shapes the
 * converter uses for attributes that may be absent and for operations that
 * may raise.
 */
module Base {

  datatype Option<+T> = None | Some(value: T)

  /** `Err` carries the message of the exception the source would raise. */
  datatype Result<+T> = Ok(value: T) | Err(error: string)

}
