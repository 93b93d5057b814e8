/** The two failure-carrying datatypes the model uses for the program's
    nil pointers, empty rows and error returns. */
module Wrappers {

  datatype Option<+T> = None | Some(value: T)

  datatype Result<+T, +E> = Success(value: T) | Failure(error: E)
}
