/** JavaScript's `null` / `undefined` results, as an optional value. */
module Nullable {

  datatype Option<+T> = None | Some(value: T)
}
