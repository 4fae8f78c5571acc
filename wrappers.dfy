/** A value that may be absent: what AsyncStorage's getItem returns for a key. */
module Wrappers {

  datatype Option<+T> = None | Some(value: T)

}
