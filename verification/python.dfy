/** The few notions of the Python runtime that the classifier's behaviour depends on:
    an optional value, the exceptions the pipeline raises or swallows, and the
    outcome of a call that either returns a value or raises. */
module Python {

  datatype Option<+T> = None | Some(value: T)

  /** The exceptions that matter to the model. `Failure` stands for any other
      exception an opaque collaborator (the model runtime, the HTTP client) raises. */
  datatype Exception =
    | TypeError
    | AttributeError
    | KeyError(key: string)
    | Failure(description: string)

  /** The result of evaluating a Python call: a value, or a raised exception. */
  datatype Outcome<+T> = Returned(value: T) | Raised(error: Exception)
}
