/** Option and Result values shared by the three gateway clients: a Python call
    that raises becomes an Err, one that returns becomes an Ok. */
module Wrappers {

  datatype Option<+T> = None | Some(value: T)

  datatype Result<+T, +E> = Ok(value: T) | Err(error: E)
}
