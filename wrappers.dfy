/** Optional values and results, standing in for Java's nulls and exceptions. */
module Wrappers {

  datatype Option<T> = None | Some(value: T)

  datatype Result<T, E> = Success(value: T) | Failure(error: E)
}

/** The exceptions the core raises, as values. */
module Failures {

  datatype Failure =
    | IllegalArgument(message: string)      // java.lang.IllegalArgumentException
    | IllegalState(message: string)         // java.lang.IllegalStateException
    | Parse(message: string)                // java.text.ParseException
    | NoSuchElement                         // java.util.NoSuchElementException, which carries no message
    | Runtime(message: string, cause: Failure)  // java.lang.RuntimeException wrapping its cause

  /** `getMessage()`: a NoSuchElementException has none, which string concatenation
      renders as "null". */
  function Message(f: Failure): string {
    match f
    case IllegalArgument(m) => m
    case IllegalState(m) => m
    case Parse(m) => m
    case NoSuchElement => "null"
    case Runtime(m, _) => m
  }
}
