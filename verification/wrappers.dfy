/** The optional value used for JavaScript's `undefined`/`null` and for oracle answers. */
module Wrappers {

  datatype Option<+T> = None | Some(value: T)

}
