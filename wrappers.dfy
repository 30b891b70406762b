/** Optional values, used for Python's `None`-or-value results (a poll, a parse). */
module Wrappers {

  datatype Option<+T> = None | Some(value: T)
}
