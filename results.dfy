/** The success-or-error outcome of a layer call: Keras raises an exception
    where this model returns Failure. */
module Results {
  datatype Result<+R, +E> = Success(value: R) | Failure(error: E)

  datatype Option<+T> = None | Some(value: T)
}
