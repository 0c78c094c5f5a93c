/** The optional value used for absent records and for JavaScript's NaN. */
module Wrappers {

  datatype Option<+T> = None | Some(value: T)
}
