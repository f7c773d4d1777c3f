/** Option and Result values, used for the optional fields of the parsers'
    result dictionaries and for the outcomes of the external libraries. */
module Wrappers {

  datatype Option<+T> = None | Some(value: T)

  /** The outcome of a call into a library that either returns a value or
      raises an exception whose text is `error`. */
  datatype Result<+R> = Ok(value: R) | Err(error: string)
}
