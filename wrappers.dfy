/** Small wrapper types shared by the model: an optional value (Python's None),
    the two Python exceptions the core can raise, and results that carry them. */
module Wrappers {

  datatype Option<+T> = None | Some(value: T)

  /** The exceptions raised by the modelled code paths: `datetime.strptime` raises
      ValueError on a string outside the format, and `None.strftime` raises
      AttributeError when a date column is null. */
  datatype Exception = ValueError | AttributeError

  /** The value a Python call returns, or the exception it raises. */
  datatype Result<+T> = Ok(value: T) | Err(error: Exception)

  /** The outcome of a Python call whose return value is not used. */
  datatype Outcome = Pass | Fail(error: Exception)
}
