/** Error kinds raised by the resolvers (the GraphQL error classes of
    src/utils/errors.ts) and the Option/Result wrappers the model uses in
    place of `null` and of thrown exceptions. */
module Errors {

  /** One constructor per error class; the comment gives the GraphQL code. */
  datatype ErrorKind =
    | Authentication   // UNAUTHENTICATED, 401
    | Forbidden        // FORBIDDEN, 403
    | Validation       // BAD_USER_INPUT, 400
    | NotFound         // NOT_FOUND, 404
    | Conflict         // CONFLICT, 409
    | Internal         // INTERNAL_SERVER_ERROR, 500 (also: a write the store itself refuses)

  datatype Error = Error(kind: ErrorKind, message: string)

  datatype Option<+T> = None | Some(value: T) {
    function GetOr(default: T): T {
      match this
      case Some(v) => v
      case None => default
    }
  }

  /** A resolver either returns a value or throws one error. */
  datatype Result<+T> = Ok(value: T) | Err(error: Error) {
    predicate IsFailure() { Err? }

    function PropagateFailure<U>(): Result<U>
      requires Err?
    {
      Err(error)
    }

    function Extract(): T
      requires Ok?
    {
      value
    }
  }

  /** Shorthand for a failed result. */
  function Fail<T>(kind: ErrorKind, message: string): Result<T> {
    Err(Error(kind, message))
  }

  /** True when `r` failed with an error of kind `k`. */
  predicate FailedWith<T>(r: Result<T>, k: ErrorKind) {
    r.Err? && r.error.kind == k
  }
}
