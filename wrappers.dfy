/** Optional values: a JSON key that is absent, or a Python function returning None. */
module Wrappers {

  datatype Option<+T> = None | Some(value: T)

}
