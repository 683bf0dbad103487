/** Failure-carrying wrappers shared by the whole model. */
module Common {

  /** A reference that may be null, as returned by a lookup by key. */
  datatype Option<T> = None | Some(value: T)

  /** The value of an operation, or the exception it raises instead. */
  datatype Result<T, E> = Success(value: T) | Failure(error: E)

  /** The exceptions the data-access core lets escape to its callers. */
  datatype Error =
    | ConstraintViolation        // the store rejects a second row with an existing key
    | NullReference              // a member access on a lookup that found nothing
    | DuplicateKey(key: int)     // Dictionary.Add with a key already present

  /** No value occurs twice in `s`. */
  predicate Distinct<T(==)>(s: seq<T>) {
    forall i, j :: 0 <= i < j < |s| ==> s[i] != s[j]
  }
}
