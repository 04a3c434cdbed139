/** The Rust-style `Ok`/`Err` outcome type of pykit and its combinators.

    Python raises exceptions where Dafny cannot; every operation that may
    raise returns an `Outcome`, whose `Raised` side carries a `Fault`. */
module Res {
  import opened Py

  /** Python's `None`-or-value, as returned by `ok()` and `err()`. */
  datatype Option<T> = None | Some(value: T) {

    /** The held value, or `default` when there is none. */
    function GetOr(default: T): (r: T)
      ensures Some? ==> r == value
      ensures None? ==> r == default
    {
      match this
      case Some(v) => v
      case None => default
    }
  }

  /** What a Python call does: returns a value or raises a fault. */
  datatype Outcome<X, F> = Returned(value: X) | Raised(fault: F)

  /** The exceptions the combinators of `Result` can raise. */
  datatype Fault<T, E> =
      /** `UnwrapErr`: an unwrap-family call on the wrong variant; it keeps the
          offending result, the message prefix, and the payload that becomes
          the exception's `__cause__` when that payload is an exception. */
    | UnwrapFailure(result: Result<T, E>, message: string, cause: Option<E>)
      /** The `Err` payload itself, raised as-is. */
    | Payload(error: E)
      /** `kind(payload)`: an exception of a caller-chosen class built from the payload. */
    | Constructed(kind: Class, arg: E)
      /** The `TypeError` of `raise kind(payload)` when `kind` is not an
          exception class, so its instance cannot be raised. */
    | NotRaisable(kind: Class)
      /** `ValErr(str(payload))` for a payload that is not an `Exception`. */
    | ValErr(text: string)

  const UnwrapOnErrMessage: string := "Called `Result.unwrap()` on an `Err` value"
  const UnwrapErrOnOkMessage: string := "Called `Result.unwrap_err()` on an `Ok` value"

  /** `raise exc from payload` is used only when the payload is an exception:
      the payload then becomes the fault's cause. */
  function CauseOf<E>(e: E, view: E -> Obj): (c: Option<E>)
    ensures c.Some? <==> IsInstance(view(e), BaseExceptionClass)
    ensures c.Some? ==> c.value == e
  {
    if IsInstance(view(e), BaseExceptionClass) then Some(e) else None
  }

  /** A success payload (`Ok`) or a failure payload (`Err`).

      Operations that classify a payload take `view`, which says how a payload
      looks to Python's `isinstance` and `str`. */
  datatype Result<T, E> = Ok(value: T) | Err(error: E) {

    predicate IsOk()
      ensures IsOk() <==> !Err?
    {
      Ok?
    }

    predicate IsErr()
      ensures IsErr() <==> !Ok?
    {
      Err?
    }

    /** `ok()`: the success payload, or `None` on `Err`. */
    function OkOption(): (r: Option<T>)
      ensures r.Some? <==> IsOk()
      ensures r.Some? ==> r.value == value
    {
      match this
      case Ok(v) => Some(v)
      case Err(_) => None
    }

    /** `err()`: the failure payload, or `None` on `Ok`. */
    function ErrOption(): (r: Option<E>)
      ensures r.Some? <==> IsErr()
      ensures r.Some? ==> r.value == error
    {
      match this
      case Ok(_) => None
      case Err(e) => Some(e)
    }

    /** `expect(message)`: the success payload, or an `UnwrapErr` carrying this
        result, the caller's message, and the payload as cause when it is an
        exception. */
    function Expect(message: string, view: E -> Obj): (r: Outcome<T, Fault<T, E>>)
      ensures r.Returned? <==> IsOk()
      ensures r.Returned? ==> r.value == value
      ensures r.Raised? ==> r.fault == UnwrapFailure(this, message, CauseOf(error, view))
    {
      match this
      case Ok(v) => Returned(v)
      case Err(e) => Raised(UnwrapFailure(this, message, CauseOf(e, view)))
    }

    /** `unwrap()`: `expect` with the library's own message. */
    function Unwrap(view: E -> Obj): (r: Outcome<T, Fault<T, E>>)
      ensures r.Returned? <==> IsOk()
      ensures r.Returned? ==> r.value == value
      ensures r.Raised? ==> r.fault.UnwrapFailure? && r.fault.result == this
      ensures r.Raised? ==> (r.fault.cause.Some? <==> IsInstance(view(error), BaseExceptionClass))
    {
      Expect(UnwrapOnErrMessage, view)
    }

    /** `expect_err(message)`: the failure payload, or an `UnwrapErr` carrying
        this result and the caller's message. */
    function ExpectErr(message: string): (r: Outcome<E, Fault<T, E>>)
      ensures r.Returned? <==> IsErr()
      ensures r.Returned? ==> r.value == error
      ensures r.Raised? ==> r.fault == UnwrapFailure(this, message, None)
    {
      match this
      case Ok(_) => Raised(UnwrapFailure(this, message, None))
      case Err(e) => Returned(e)
    }

    /** `unwrap_err()`: `expect_err` with the library's own message. */
    function UnwrapErr(): (r: Outcome<E, Fault<T, E>>)
      ensures r.Returned? <==> IsErr()
      ensures r.Returned? ==> r.value == error
      ensures r.Raised? ==> r.fault.UnwrapFailure? && r.fault.result == this && r.fault.cause.None?
    {
      ExpectErr(UnwrapErrOnOkMessage)
    }

    /** `unwrap_or(default)` */
    function UnwrapOr(default: T): (r: T)
      ensures IsOk() ==> r == value
      ensures IsErr() ==> r == default
    {
      match this
      case Ok(v) => v
      case Err(_) => default
    }

    /** `unwrap_or_else(op)`: the payload, or `op` applied to the error. */
    function UnwrapOrElse(op: E -> T): (r: T)
      ensures IsOk() ==> r == value
      ensures IsErr() ==> r == op(error)
    {
      match this
      case Ok(v) => v
      case Err(e) => op(e)
    }

    /** `unwrap_or_raise(kind)`: the payload, or an exception of class `kind`
        built from the error payload; a `kind` that is not an exception class
        makes the `raise` itself fail with `TypeError`. */
    function UnwrapOrRaise(kind: Class): (r: Outcome<T, Fault<T, E>>)
      ensures r.Returned? <==> IsOk()
      ensures r.Returned? ==> r.value == value
      ensures r.Raised? && IsExceptionClass(kind) ==> r.fault == Constructed(kind, error)
      ensures r.Raised? && !IsExceptionClass(kind) ==> r.fault == NotRaisable(kind)
    {
      match this
      case Ok(v) => Returned(v)
      case Err(e) =>
        if IsExceptionClass(kind) then Raised(Constructed(kind, e)) else Raised(NotRaisable(kind))
    }

    /** `map(op)`: rewrites only a success payload. */
    function Map<U>(op: T -> U): (r: Result<U, E>)
      ensures r.IsOk() <==> IsOk()
      ensures IsOk() ==> r.value == op(value)
      ensures IsErr() ==> r.error == error
    {
      match this
      case Ok(v) => Ok(op(v))
      case Err(e) => Err(e)
    }

    /** `map_or(default, op)`: folds to `op(payload)` or `default`. */
    function MapOr<U>(default: U, op: T -> U): (r: U)
      ensures IsOk() ==> r == op(value)
      ensures IsErr() ==> r == default
    {
      match this
      case Ok(v) => op(v)
      case Err(_) => default
    }

    /** `map_or_else(default_op, op)`: folds to `op(payload)` or `default_op()`;
        `default_op` takes no argument, the error payload is dropped. */
    function MapOrElse<U>(defaultOp: () -> U, op: T -> U): (r: U)
      ensures IsOk() ==> r == op(value)
      ensures IsErr() ==> r == defaultOp()
    {
      match this
      case Ok(v) => op(v)
      case Err(_) => defaultOp()
    }

    /** `map_err(op)`: rewrites only a failure payload. */
    function MapErr<F>(op: E -> F): (r: Result<T, F>)
      ensures r.IsOk() <==> IsOk()
      ensures IsOk() ==> r.value == value
      ensures IsErr() ==> r.error == op(error)
    {
      match this
      case Ok(v) => Ok(v)
      case Err(e) => Err(op(e))
    }

    /** `and_then(op)`: continues with `op(payload)` on success; an `Err` is
        passed through and `op` is never applied. */
    function AndThen<U>(op: T -> Result<U, E>): (r: Result<U, E>)
      ensures IsOk() ==> r == op(value)
      ensures IsErr() ==> r == Err(error)
    {
      match this
      case Ok(v) => op(v)
      case Err(e) => Err(e)
    }

    /** `or_else(op)`: the mirror of `and_then` on the failure side. */
    function OrElse<F>(op: E -> Result<T, F>): (r: Result<T, F>)
      ensures IsOk() ==> r == Ok(value)
      ensures IsErr() ==> r == op(error)
    {
      match this
      case Ok(v) => Ok(v)
      case Err(e) => op(e)
    }

    /** `inspect(op)`: returns this result unchanged, together with what the
        hook `op` was given to observe (only a success payload). */
    function Inspect<X>(op: T -> X): (r: (Result<T, E>, Option<X>))
      ensures r.0 == this
      ensures r.1.Some? <==> IsOk()
      ensures r.1.Some? ==> r.1.value == op(value)
    {
      match this
      case Ok(v) => (this, Some(op(v)))
      case Err(_) => (this, None)
    }

    /** `inspect_err(op)`: the mirror of `inspect` on the failure side. */
    function InspectErr<X>(op: E -> X): (r: (Result<T, E>, Option<X>))
      ensures r.0 == this
      ensures r.1.Some? <==> IsErr()
      ensures r.1.Some? ==> r.1.value == op(error)
    {
      match this
      case Ok(_) => (this, None)
      case Err(e) => (this, Some(op(e)))
    }

    /** `eject()`: the success payload; an error payload that is an
        `Exception` is raised as-is, any other payload is raised as
        `ValErr(str(payload))`. */
    function Eject(view: E -> Obj): (r: Outcome<T, Fault<T, E>>)
      ensures r.Returned? <==> IsOk()
      ensures r.Returned? ==> r.value == value
      ensures r.Raised? && IsInstance(view(error), ExceptionClass) ==> r.fault == Payload(error)
      ensures r.Raised? && !IsInstance(view(error), ExceptionClass) ==> r.fault == ValErr(view(error).Str())
    {
      match this
      case Ok(v) => Returned(v)
      case Err(e) =>
        if IsInstance(view(e), ExceptionClass) then Raised(Payload(e))
        else Raised(ValErr(view(e).Str()))
    }
  }

  /** `__eq__` of `Ok` and `Err`: the other object must be of the same
      variant and hold an equal payload. */
  function Eq<T(==), E(==)>(a: Result<T, E>, b: Result<T, E>): (r: bool)
    ensures r <==> a == b
  {
    match a
    case Ok(x) => b.Ok? && x == b.value
    case Err(x) => b.Err? && x == b.error
  }

  /** `__ne__`: the negation of `__eq__`, so `!=` is structural inequality. */
  function Ne<T(==), E(==)>(a: Result<T, E>, b: Result<T, E>): (r: bool)
    ensures r <==> a != b
  {
    !Eq(a, b)
  }

  /** Swaps the two sides; used to state that the failure-side combinators
      mirror the success-side ones. */
  function Flip<T, E>(r: Result<T, E>): Result<E, T> {
    match r
    case Ok(v) => Err(v)
    case Err(e) => Ok(e)
  }

  /** Every extraction from `Ok(v)` gives back `v`; `err()` is `None`, and
      the failure-side unwraps raise `UnwrapErr` carrying `Ok(v)` itself. */
  lemma OkExtraction<T, E>(r: Result<T, E>, message: string, view: E -> Obj, default: T, op: E -> T, kind: Class)
    requires r.IsOk()
    ensures r.Unwrap(view) == Returned(r.value)
    ensures r.Expect(message, view) == Returned(r.value)
    ensures r.UnwrapOr(default) == r.value
    ensures r.UnwrapOrElse(op) == r.value
    ensures r.UnwrapOrRaise(kind) == Returned(r.value)
    ensures r.Eject(view) == Returned(r.value)
    ensures r.OkOption() == Some(r.value) && r.ErrOption() == None
    ensures r.UnwrapErr() == Raised(UnwrapFailure(r, UnwrapErrOnOkMessage, None))
    ensures r.ExpectErr(message) == Raised(UnwrapFailure(r, message, None))
  {
  }

  /** `Err(e)` gives back `e` from the failure-side extractions; `unwrap`
      and `expect` raise `UnwrapErr` carrying `Err(e)` itself, chained to `e`
      exactly when `e` is an exception. */
  lemma ErrExtraction<T, E>(r: Result<T, E>, message: string, view: E -> Obj, default: T, op: E -> T, kind: Class)
    requires r.IsErr()
    ensures r.UnwrapErr() == Returned(r.error)
    ensures r.ExpectErr(message) == Returned(r.error)
    ensures r.ErrOption() == Some(r.error) && r.OkOption() == None
    ensures r.Unwrap(view) == Raised(UnwrapFailure(r, UnwrapOnErrMessage, CauseOf(r.error, view)))
    ensures r.Expect(message, view) == Raised(UnwrapFailure(r, message, CauseOf(r.error, view)))
    ensures r.UnwrapOr(default) == default
    ensures r.UnwrapOrElse(op) == op(r.error)
    ensures IsExceptionClass(kind) ==> r.UnwrapOrRaise(kind) == Raised(Constructed(kind, r.error))
    ensures !IsExceptionClass(kind) ==> r.UnwrapOrRaise(kind) == Raised(NotRaisable(kind))
  {
  }

  /** `map` is `and_then` with a step that cannot fail. */
  lemma MapIsAndThenOk<T, E, U>(r: Result<T, E>, f: T -> U)
    ensures r.Map(f) == r.AndThen(x => Ok(f(x)))
  {
  }

  /** `map` respects identity and composition. */
  lemma MapFunctorLaws<T, E, U, V>(r: Result<T, E>, f: T -> U, g: U -> V)
    ensures r.Map(x => x) == r
    ensures r.Map(f).Map(g) == r.Map(x => g(f(x)))
  {
  }

  /** `and_then` is a monadic bind with `Ok` as its unit. */
  lemma AndThenMonadLaws<T, E, U, V>(v: T, r: Result<T, E>, f: T -> Result<U, E>, g: U -> Result<V, E>)
    ensures Ok(v).AndThen(f) == f(v)
    ensures r.AndThen(x => Ok(x)) == r
    ensures r.AndThen(f).AndThen(g) == r.AndThen(x => f(x).AndThen(g))
  {
  }

  /** The failure-side combinators are the success-side ones seen through
      `Flip`. */
  lemma FailureSideMirrors<T, E, F>(r: Result<T, E>, g: E -> F, h: E -> Result<T, F>)
    ensures Flip(Flip(r)) == r
    ensures r.IsErr() <==> Flip(r).IsOk()
    ensures r.MapErr(g) == Flip(Flip(r).Map(g))
    ensures r.OrElse(h) == Flip(Flip(r).AndThen(x => Flip(h(x))))
    ensures r.ErrOption() == Flip(r).OkOption()
  {
  }

  /** Folding to a plain value is mapping, then supplying the default. */
  lemma FoldsAreMapThenDefault<T, E, U>(r: Result<T, E>, d: U, dop: () -> U, f: T -> U, dt: T)
    ensures r.MapOr(d, f) == r.Map(f).UnwrapOr(d)
    ensures r.MapOrElse(dop, f) == r.Map(f).UnwrapOrElse(_ => dop())
    ensures r.UnwrapOr(dt) == r.OkOption().GetOr(dt)
  {
  }

  /** `eject` and `unwrap` agree on success and both raise on failure; they
      differ only in what they raise. */
  lemma EjectAgreesWithUnwrap<T, E>(r: Result<T, E>, view: E -> Obj)
    ensures r.Eject(view).Returned? <==> r.Unwrap(view).Returned?
    ensures r.Eject(view).Returned? ==> r.Eject(view).value == r.Unwrap(view).value
  {
  }
}
