/** Option and Result values for the places where the analyzer has no value
    (a baseline not yet estimated) or fails (an index error in the column
    detector's cleaning pass). */
module Wrappers {

  datatype Option<+T> = None | Some(value: T)

  datatype Result<+T, +E> = Ok(value: T) | Err(error: E)
}
