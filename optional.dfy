/** Values that JavaScript may leave `undefined`, and operations that the store can reject. */
module Optional {

  datatype Option<+T> = None | Some(value: T)

  datatype Result<+T, +E> = Success(value: T) | Failure(error: E)
}
