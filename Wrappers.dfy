/** Optional values, used where the component may have nothing (a ref that is not
    attached, a transform string that does not parse). */
module Wrappers {

  datatype Option<+T> = None | Some(value: T)

}
