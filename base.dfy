/** Small value wrappers shared by every module of the model. */
module Base {

  /** An optional value: Go's "zero value or nothing" made explicit. */
  datatype Option<+T> = None | Some(value: T)
}
