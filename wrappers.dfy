// Result types standing in for Python's None and for the exceptions the
// modelled code raises or lets escape.
module Wrappers {

  datatype Option<T> = None | Some(value: T)

  /** The Python exceptions that the modelled code raises. */
  datatype PyError =
    | TypeError       // e.g. item assignment on a str, ','.join over a non-str
    | AttributeError  // e.g. `setdefault` called on a non-dict value
    | ValueError      // e.g. int("abc"), str.split("")
    | UnboundLocalError  // a local variable read before any assignment
    | NotImplementedError  // the `update()` a provider inherits from ConfigProviderBase

  datatype Result<T> = Ok(value: T) | Err(error: PyError)

  /**
   * The outcome of a Python conversion whose behaviour on some inputs is
   * outside the model (float and Decimal formatting): `Unmodelled` marks
   * exactly those inputs.
   */
  datatype Outcome<T> = Returned(value: T) | Raised(error: PyError) | Unmodelled
}
