/** Small shared datatypes. */
module Common {

  /** A value that may be missing (JavaScript's null, undefined or NaN). */
  datatype Option<+T> = None | Some(value: T)
}
