/** Outcome types for operations that throw in the modelled code. */
module Results {

  datatype Option<+T> = None | Some(value: T)

  /** `Failure` stands for a thrown `Error` carrying its message. */
  datatype Result<+T> = Success(value: T) | Failure(error: string)
}
