/** The optional value used where the application yields `undefined`
    (no matching cart line, no redirect). */
module Wrappers {

  datatype Option<+T> = None | Some(value: T)
}
