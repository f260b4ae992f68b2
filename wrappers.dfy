/** Optional values: the model's counterpart of std::optional and of nullable handles. */
module Wrappers {
  datatype Option<+T> = None | Some(value: T)
}
