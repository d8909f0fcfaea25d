/** The "value or nothing" result shared by the model: `T | undefined` in the source. */
module Wrappers {

  datatype Option<+T> = None | Some(value: T)
}
