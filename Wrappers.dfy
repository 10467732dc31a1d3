/** The optional value a matcher returns: a match, or none at this position. */
module Wrappers {

  datatype Option<+T> = None | Some(value: T)
}
