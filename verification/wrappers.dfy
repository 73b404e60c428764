/** The optional value returned where the C++ code uses a boolean success flag
    together with an output parameter that is only written on success. */
module Wrappers {

  datatype Option<+T> = None | Some(value: T)
}
