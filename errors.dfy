/** The client's exception hierarchy, and the runtime failures of the .NET
    casts and lookups the client performs. */
module Errors {
  import opened Nullable

  /** The `ERROR_CODE` values the typed subclasses start with. In C# they are
      public static fields that a caller could reassign; here they are taken
      to keep these initial values. */
  const USER_DISABLED_CODE: int := 704
  const UNKNOWN_USER_CODE: int := 705
  const UNKNOWN_TERMINAL_CODE: int := 706

  /** `RequestError` and its four subclasses. Every variant is a
      `RequestError`; only the base class carries a caller-chosen message. */
  datatype RequestError =
    | RequestError(message: string)
    | UserDisabledError
    | UnknownUserError
    | UnknownTerminalError
    | PairingDeactivatedError
  {
    /** The `ERROR_CODE` a subclass declares, if it declares one. */
    function Code(): (c: Option<int>)
      ensures c.Some? <==> (UserDisabledError? || UnknownUserError? || UnknownTerminalError?)
      ensures c.Some? ==> c.value in {USER_DISABLED_CODE, UNKNOWN_USER_CODE, UNKNOWN_TERMINAL_CODE}
    {
      match this
      case UserDisabledError => Some(USER_DISABLED_CODE)
      case UnknownUserError => Some(UNKNOWN_USER_CODE)
      case UnknownTerminalError => Some(UNKNOWN_TERMINAL_CODE)
      case _ => None
    }
  }

  /** Failures raised by the .NET runtime rather than by the client:
      a missing dictionary key, a failed cast or unboxing, a member access
      on `null`, and a body the JSON library cannot decode. */
  datatype Fault = KeyNotFound(key: string) | InvalidCast | NullReference | InvalidJson

  /** Anything a client call can throw. */
  datatype Exception = Request(error: RequestError) | Runtime(fault: Fault)

  /** The end of a call: it returns a value or throws. */
  datatype Outcome<+T> = Returned(value: T) | Threw(exception: Exception)
  {
    predicate IsFailure()
    {
      Threw?
    }

    function PropagateFailure<U>(): Outcome<U>
      requires Threw?
    {
      Threw(exception)
    }

    function Extract(): T
      requires Returned?
    {
      value
    }
  }

  /** `throw new RequestError(message)`. */
  function Fail<T>(message: string): Outcome<T>
  {
    Threw(Request(RequestError(message)))
  }
}
