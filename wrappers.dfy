/** Optional values: a key missing from the store, a login that threw, a field absent from a payload. */
module Wrappers {

  datatype Option<+T> = None | Some(value: T)
}
