/** A JavaScript value that may be `undefined`, as an option. */
module Wrappers {

  datatype Option<+T> = None | Some(value: T)

}
