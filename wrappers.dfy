/** A value that may be missing: JavaScript's `undefined` / `null` at the places the model needs it. */
module Wrappers {
  datatype Option<+T> = None | Some(value: T)
}
