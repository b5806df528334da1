/** An optional value; a missing (NaN) cell of the data table is None. */
module Wrappers {

  datatype Option<+T> = None | Some(value: T)
}
