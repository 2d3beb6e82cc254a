/** Failure-carrying values shared by every component of the chat back end
    and its browser client. */
module Results {

  /** A value that may be absent: C#'s `null`, JavaScript's `undefined`. */
  datatype Option<+T> = None | Some(value: T) {

    function GetOr(default: T): T {
      match this
      case Some(v) => v
      case None => default
    }
  }

  /** The outcome of an operation that either returns normally or throws. */
  datatype Result<+T, +E> = Ok(value: T) | Err(error: E) {

    predicate IsFailure() {
      Err?
    }

    function PropagateFailure<U>(): Result<U, E>
      requires Err?
    {
      Err(error)
    }

    function Extract(): T
      requires Ok?
    {
      value
    }
  }
}

/** The exceptions the back end raises, one constructor per kind. */
module Errors {

  datatype Error =
    /** `InvalidOperationException` with its message */
    | InvalidOperation(message: string)
    /** `HttpRequestException` thrown by `EnsureSuccessStatusCode` for this status */
    | HttpStatus(status: int)
    /** the model binder refused a request body lacking these `required` members */
    | MissingRequired(members: seq<string>)
    /** model validation refused a bound request: these members hold null,
        empty or white-space-only text */
    | Invalid(paths: seq<MemberPath>)

  /** Where in a request body a validation error sits: a member of the
      body itself, or a member of one item of a collection member. */
  datatype MemberPath =
    | Member(name: string)
    | Item(collection: string, index: nat, name: string)
}

/** The process environment: variable names to their values. */
module Environments {

  type Environment = map<string, string>
}
