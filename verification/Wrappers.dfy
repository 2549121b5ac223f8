/** An optional value, for the null pointers and unset fields of the source. */
module Wrappers {
  datatype Option<+T> = None | Some(value: T)
}
