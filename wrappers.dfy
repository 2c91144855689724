// A value that may be absent: JavaScript's `undefined`/`null` results, and
// the fields of the game state that the source sets to `null`.
module Wrappers {
  datatype Option<T> = None | Some(value: T)
}
