/**
 * Results of operations that can stop on a failed assertion or a thrown
 * exception. The toolkit aborts the kernel (or throws) at that point; the
 * model returns the reason instead.
 */
module Outcomes {

  datatype Option<T> = None | Some(value: T)

  datatype Result<T, E> = Success(value: T) | Failure(error: E)
  {
    predicate IsFailure() { this.Failure? }
  }

  datatype Outcome<E> = Pass | Fail(error: E)
}
