/** Option and Result values, and the exceptions the modelled Python code raises.
    A Python function that returns a value or raises is modelled as a function or
    method returning `Result<T>`. */
module Errors {

  datatype Option<+T> = None | Some(value: T)

  /** The Python exception classes that the modelled code raises or lets escape. */
  datatype Error =
    | ValueError(message: string)
    | ImportError(message: string)
    | FileNotFoundError(message: string)
    /** `d[key]` on a dictionary without `key` */
    | KeyError(key: string)
    /** `xs[0]` or `.iloc[0]` on an empty sequence */
    | IndexError
    /** an attribute looked up on an object that does not have it */
    | AttributeError(attribute: string)
    /** the GIS library could not read the dataset at `path` */
    | ReadError(path: string)
    /** an operation applied to a value of the wrong type, such as `str.join`
        over a list holding None */
    | TypeError(message: string)
    /** `raise_for_status()` on a non-2xx HTTP response */
    | HttpError(status: int)

  datatype Result<+T> = Ok(value: T) | Err(error: Error)
}
