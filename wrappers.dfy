/** Option and Result values, and the Python exceptions the modelled code can raise. */
module Wrappers {

  datatype Option<+T> = None | Some(value: T)

  /** The exceptions the modelled code of launch_hyperfine and check_ram_usage raises. */
  datatype Error =
    | AttributeError(attribute: string)  // the namespace has no such attribute
    | TypeError(attribute: string)       // an attribute that must be a string is None
    | ValueError(literal: string)        // int() was given a string that is not an integer
    | ZeroDivisionError                  // an average over zero samples

  datatype Result<+T> = Ok(value: T) | Err(error: Error)
}
