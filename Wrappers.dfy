/** An optional value: the model's stand-in for TypeScript's `T | null` and for optional properties. */
module Wrappers {
  datatype Option<+T> = None | Some(value: T)
}
