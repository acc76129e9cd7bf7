/** Optional values: a field a stored document may lack, an argument that may not parse. */
module Wrappers {

  datatype Option<+T> = None | Some(value: T)

}
