// Result types shared by every component.
module Basics {

  datatype Option<+T> = None | Some(value: T)

  /** An operation that either yields a value or fails. Error texts are not modelled. */
  datatype Result<+T> = Ok(value: T) | Err

  /** The decoded content of one file on disk. Blank is a file holding only white space. */
  datatype File<+T> = Missing | Blank | Garbled | Doc(content: T) {
    predicate Exists() {
      !Missing?
    }
  }
}
