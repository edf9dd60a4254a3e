/** The optional value used for the source's NULL / nil results. */
module Opt {
  datatype Option<T> = None | Some(value: T)
}
