/** The optional value returned by one monitor update: either nothing was sent,
    or exactly one outbound request was made. */
module Wrappers {

  datatype Option<+T> = None | Some(value: T)
}
