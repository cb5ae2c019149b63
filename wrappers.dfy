/** Optional values, for the results of the decoders and parsers below. */
module Wrappers {
  datatype Option<+T> = None | Some(value: T)
}
