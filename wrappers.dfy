/** Optional values and results that may carry an error, as used across the model. */
module Wrappers {

  datatype Option<T> = None | Some(value: T)
  {
    function GetOr(default: T): (r: T)
      ensures this.Some? ==> r == value
      ensures this.None? ==> r == default
    {
      match this
      case None => default
      case Some(v) => v
    }
  }

  /** Failure stands for an exception the source would throw. */
  datatype Result<T> = Success(value: T) | Failure(error: string)
}
