/** The optional value used throughout the decoder (JavaScript's `false`/`null` results). */
module Wrappers {

  datatype Option<+T> = None | Some(value: T)

}
