/** The conventional optional value: `None` stands for JavaScript's `undefined` (or `null`). */
module Wrappers {

  datatype Option<+T> = None | Some(value: T)
}
