/** The optional value used where the source has `undefined`, `null` or a caught exception. */
module Wrappers {

  datatype Option<+T> = None | Some(value: T)

}
