/** Option type used for JavaScript values that may be `undefined`/`null`
    and for computations that may throw. */
module Wrappers {
  datatype Option<+T> = None | Some(value: T)
}
