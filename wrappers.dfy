/** A value that may be absent: pandas' missing marker (NaN) in a series of
    returns, or an operation that produced nothing. */
module Wrappers {

  datatype Option<+T> = None | Some(value: T)

}
