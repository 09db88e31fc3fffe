/** Datatypes shared by every component of the model. */
module Common {

  /** A Python value that may be `None`. */
  datatype Option<+T> = None | Some(value: T)

  /** The side of an order, a signal or a fill. */
  datatype Side = Buy | Sell

  /** The outcome of a call that either returns or raises. */
  datatype Result<+T, +E> = Success(value: T) | Failure(error: E)
}
