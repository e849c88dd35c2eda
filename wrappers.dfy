/** An optional value: None where the source leaves an out-parameter unwritten or a conversion fails. */
module Wrappers {
  datatype Option<+T> = None | Some(value: T)
}
