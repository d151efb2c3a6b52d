/** The Option datatype used for JavaScript values that may be `undefined`
    and for remote responses that may be falsy. */
module Wrappers {

  datatype Option<+T> = None | Some(value: T)
}
