/** Error values. `AppError` is the `*Error` type of app/errors/errors.go; the other
    variants stand for the errors the program receives from Go's standard
    library and from its collaborators. */
module Errors {
  import opened Optional

  datatype Error =
    | Plain(text: string)                                   // errors.New, fmt.Errorf without %w, library sentinels
    | Wrapped(context: string, inner: Error)                // fmt.Errorf("<context>: %w", inner)
    | WithCause(context: string, cause: Error)              // github.com/pkg/errors wrapper: has Cause()
    | AppError(msg: string, code: string, wrapped: Option<Error>) // *errors.Error of this repository

  const AppCode: string := "APP_ERROR"

  /** The sentinel errors the package declares. */
  const ErrInvalidConfig: Error := NewError("invalid configuration")
  const ErrInvalidState: Error := NewError("invalid state")
  const ErrInvalidRequest: Error := NewError("invalid request")
  const ErrStreamError: Error := NewError("stream error")
  const ErrDatabaseError: Error := NewError("database error")
  const ErrValidationError: Error := NewError("validation error")
  const ErrInitialization: Error := NewError("initialization error")

  /** An application error with the fixed code and nothing wrapped. */
  function NewError(msg: string): (e: Error)
    ensures e.AppError? && e.code == AppCode && e.wrapped.None? && e.msg == msg
  {
    AppError(msg, AppCode, None)
  }

  /** An application error with the fixed code wrapping `err`; a nil `err`
      (None) gives an application error with nothing wrapped. */
  function Wrap(err: Option<Error>, msg: string): (e: Error)
    ensures e.AppError? && e.code == AppCode && e.wrapped == err && e.msg == msg
  {
    AppError(msg, AppCode, err)
  }

  /** The text `err.Error()` returns. */
  function Message(e: Error): (t: string)
    ensures e.AppError? ==> e.code + ": " + e.msg <= t
    ensures e.AppError? ==> (|t| == |e.code| + 2 + |e.msg| <==> e.wrapped.None?)
    ensures e.AppError? && e.wrapped.Some? ==>
      var inner := Message(e.wrapped.value);
      |inner| + 2 <= |t| && t[|t| - |inner| - 2..] == ": " + inner
  {
    match e
    case Plain(t) => t
    case Wrapped(c, inner) => c + ": " + Message(inner)
    case WithCause(c, cause) => c + ": " + Message(cause)
    case AppError(msg, code, wrapped) =>
      if wrapped.Some? then code + ": " + msg + ": " + Message(wrapped.value) else code + ": " + msg
  }

  /** `(*Error).Unwrap`. */
  function Unwrap(e: Error): (r: Option<Error>)
    requires e.AppError?
    ensures r == e.wrapped
  {
    e.wrapped
  }

  /** `(*Error).Is`: the target must itself be an application error, and only
      the codes are compared. */
  function Is(e: Error, target: Error): (r: bool)
    requires e.AppError?
    ensures !target.AppError? ==> !r
    ensures target.AppError? ==> (r <==> e.code == target.code)
  {
    match target
    case AppError(_, code, _) => e.code == code
    case _ => false
  }

  /** `r` is `e` or lies further down `e`'s chain of `Cause()` links. */
  predicate OnChain(r: Error, e: Error)
    decreases e
  {
    r == e || (e.WithCause? && OnChain(r, e.cause))
  }

  /** `github.com/pkg/errors.Cause`: follows `Cause()` links to the root. */
  function Cause(e: Error): (r: Error)
    ensures !r.WithCause?
    ensures OnChain(r, e)
    ensures !e.WithCause? ==> r == e
  {
    match e
    case WithCause(_, cause) => Cause(cause)
    case _ => e
  }

  // ---- properties ----

  /** The text of an application error: the code, the message and, when one
      is wrapped, the wrapped error's text, separated by ": ". */
  lemma AppMessage(msg: string, inner: Error)
    ensures Message(NewError(msg)) == "APP_ERROR: " + msg
    ensures Message(Wrap(Some(inner), msg)) == "APP_ERROR: " + msg + ": " + Message(inner)
    ensures Message(Wrap(None, msg)) == Message(NewError(msg))
  {
  }

  /** Unwrap gives back exactly what Wrap wrapped, and nothing for NewError. */
  lemma UnwrapInvertsWrap(inner: Option<Error>, msg: string)
    ensures Unwrap(Wrap(inner, msg)) == inner
    ensures Unwrap(NewError(msg)) == None
  {
  }

  /** Only an error without a `Cause()` link is its own cause, and a cause
      found down the chain is also the cause of every error above it. */
  lemma CauseOfChain(e: Error, r: Error)
    requires OnChain(r, e)
    ensures Cause(r) == Cause(e)
    decreases e
  {
    if r != e {
      CauseOfChain(e.cause, r);
    }
  }

  /** Since every constructor uses the same code, any two application errors
      built by NewError or Wrap match each other under Is. */
  lemma IsMatchesEveryAppError(e: Error, target: Error)
    requires e.AppError? && e.code == AppCode
    requires target.AppError? && target.code == AppCode
    ensures Is(e, target)
  {
  }

  lemma DistinctSentinelsMatch()
    ensures Is(ErrInvalidConfig, ErrDatabaseError)
    ensures ErrInvalidConfig != ErrDatabaseError
  {
  }

  /** Cause is idempotent. */
  lemma CauseIdempotent(e: Error)
    ensures Cause(Cause(e)) == Cause(e)
  {
  }
}
