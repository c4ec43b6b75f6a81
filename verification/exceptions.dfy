/** Failure values of groklog's core, and the wrappers its operations return.

    Every Python exception the core raises on purpose becomes an `Error`
    value; an operation that may raise returns a `Result`. */
module Exceptions {

  /** A value that may be absent: a filter with no parent, or an operation
      that raised no exception. */
  datatype Option<+T> = None | Some(value: T)

  /** The exceptions raised by the process nodes and the filter registries. */
  datatype Error =
    /** pubsus: the same (topic, subscriber) pair registered twice. */
    | DuplicateSubscriberError
    /** A filter name that is already registered. */
    | DuplicateFilterError
    /** A lookup of a filter name that is not registered. */
    | FilterNotFoundError
    /** FilterModel's RuntimeError: a parentless filter must run the shell. */
    | RootNotShellError
    /** Python's TypeError for a dataclass built without a required field. */
    | MissingFieldError
    /** Python's IndexError: the last element of an empty list. */
    | IndexError

  /** `FilterError` is the base class of the two registry exceptions. */
  predicate IsFilterError(e: Error) {
    e.DuplicateFilterError? || e.FilterNotFoundError?
  }

  /** Either the value an operation returns or the exception it raises. */
  datatype Result<+T> = Ok(value: T) | Err(error: Error)
}
