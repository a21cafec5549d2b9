/** The optional value used for nullable columns, absent form data and query results. */
module Wrappers {
  datatype Option<+T> = None | Some(value: T)
}
