/** The two carrier datatypes shared by the model. */
module Options {
  datatype Option<+T> = None | Some(value: T)

  // The result of an operation the source ends by returning or by throwing.
  datatype Result<+T, +E> = Done(value: T) | Thrown(error: E)
}
