/** Optional values and results, for nullable columns and thrown errors. */
module Wrappers {

  datatype Option<T> = None | Some(value: T)

  /** `o ?? default` */
  function OrElse<T>(o: Option<T>, default: T): (r: T) {
    if o.Some? then o.value else default
  }

  datatype Result<T, E> = Success(value: T) | Failure(error: E)
}
