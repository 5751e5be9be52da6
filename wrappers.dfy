/** Optional values: the model's stand-in for Go's nil / non-nil `error` results. */
module Wrappers {

  datatype Option<+T> = None | Some(value: T)
}
