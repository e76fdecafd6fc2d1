/** The optional value that Rust's `Result`-returning parsers are reduced to here:
    a parse either yields a value or fails, and the failure carries nothing the
    program looks at. */
module Wrappers {

  datatype Option<+T> = None | Some(value: T)

}
