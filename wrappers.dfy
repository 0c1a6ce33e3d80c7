/** Optional values and fallible results, used for the optional context the
    rule engine is handed and for decoding persisted rules. */
module Wrappers {

  datatype Option<+T> = None | Some(value: T)

  datatype Result<+R, +E> = Success(value: R) | Failure(error: E)
}
