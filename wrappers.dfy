/** The `T | undefined` results of the storefront, as an Option. */
module Wrappers {

  datatype Option<+T> = None | Some(value: T)
}
