/** Failure-carrying values shared by the whole model: the source signals
    its errors by throwing, which the model returns as a Failure value. */
module Results {

  /** A possibly-absent value; None stands for a C# null reference. */
  datatype Option<+T> = None | Some(value: T)

  /** The outcome of an operation that can throw in the source. */
  datatype Result<+T, +E> = Success(value: T) | Failure(error: E) {
    predicate IsFailure() { Failure? }
  }
}
