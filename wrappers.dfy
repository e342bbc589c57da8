/** An optional value: a missing dictionary key, an unset optional field. */
module Wrappers {
  datatype Option<+T> = None | Some(value: T)
}
