/** Small shared datatypes. */
module Base {

  /** The absent-or-present value (Python's `None` or a value). */
  datatype Option<+T> = None | Some(value: T)
}
