/** Error and optional results shared by the model. */
module Results {

  /** The construction-time failures the modelled constructors report. */
  datatype Error =
    | UnsupportedValueKind   // a literal that cannot be turned into a value
    | IndexOutOfRange        // a one-hot index outside 0 .. length - 1

  /** A constructor either yields a value or fails with an error (the Go code panics there). */
  datatype Result<+T> = Success(value: T) | Failure(error: Error)

  datatype Option<+T> = None | Some(value: T)
}
