/** The optional value used for the source's nullable `int?` indentation width. */
module Wrappers {

  datatype Option<+T> = None | Some(value: T)
}
