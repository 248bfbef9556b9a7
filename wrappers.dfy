/** The nullable return of the PHP functions: `null` or a value. */
module Wrappers {
  datatype Option<+T> = None | Some(value: T)
}
