/** Optional values and results with an error, standing for std::optional and
    for an exception thrown to the caller. */
module Wrappers {

  datatype Option<T> = None | Some(value: T)

  /** The kind of exception the body model can throw. */
  datatype Error = InvalidArgument(message: string)

  datatype Result<T> = Success(value: T) | Failure(error: Error)
}
