/** Optional values and fallible results, the shapes the Go code spells `(v, ok)` and `(v, error)`. */
module Wrappers {

  datatype Option<+T> = None | Some(value: T)

  datatype Outcome<+T, +E> = Ok(value: T) | Fail(error: E)
}
