/**
 The two wrappers the model uses for Java's nulls and exceptions.

 - Option<T> stands for a Java reference that may be null (None) or a value.
 - Result<T, E> stands for a Java call that either returns a value (Success)
   or raises an exception (Failure).
 */
module Wrappers {

  datatype Option<+T> = None | Some(value: T)

  datatype Result<+T, +E> = Success(value: T) | Failure(error: E)
}
