/** Optional values: the model's stand-in for a C# null reference. */
module Wrappers {

  /** `None` plays the part of a `null` returned by a lookup. */
  datatype Option<+T> = None | Some(value: T)
}
