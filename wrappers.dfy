/** An optional value: JavaScript's `undefined` (or `null`) against a present value. */
module Wrappers {

  datatype Option<+T> = None | Some(value: T)
}
