/** The optional value used for C#'s nullable references and for lookups that may miss. */
module Wrappers {

  datatype Option<+T> = None | Some(value: T)

}
