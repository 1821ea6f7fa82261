/** Absence as a value: a query that may find no row, a normaliser that may reject its input. */
module Wrappers {

  datatype Option<+T> = None | Some(value: T)
}
