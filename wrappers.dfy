/** Optional values: `None` stands for a C null pointer wherever the source takes a pointer. */
module Wrappers {

  datatype Option<+T> = None | Some(value: T)

}
