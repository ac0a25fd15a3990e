// Option and Result, the two shapes used for values that may be missing and
// for operations that raise in the original Python.
module Wrappers {

  datatype Option<T> = None | Some(value: T)

  /** A Python exception, reduced to its class and message. */
  datatype Error =
    | ValueError(msg: string)
    | KeyError(key: string)
    | TypeError(msg: string)
    | NameError(name: string)
    | AttributeError(name: string)
    | IndexError(msg: string)
    | CalledModuleError(moduleName: string)   // a GRASS module exited with an error

  datatype Result<T> = Ok(value: T) | Err(error: Error)
}
