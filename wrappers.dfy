/** An optional value, standing for Rust's Option and for the places where the
    program would panic instead of producing a value. */
module Wrappers {

  datatype Option<+T> = None | Some(value: T)
}
