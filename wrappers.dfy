/** Optional values: `None` stands where the pandas code produces NaN or leaves a field out. */
module Wrappers {

  datatype Option<+T> = None | Some(value: T)
}
