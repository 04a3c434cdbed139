/** The bridges between exception-raising Python code and `Result`:
    the `as_result` decorator, `resultify` and `throw_err_val`. */
module Bridge {
  import opened Py
  import opened Res

  /** What calling a Python function does: it returns a value or raises. */
  type Call<R> = Outcome<R, Obj>

  /** `inspect.isclass(a) and issubclass(a, BaseException)`, for an
      argument handed to `as_result`. */
  predicate IsExceptionKind(a: Obj) {
    a.ClassObject? && IsExceptionClass(a.of)
  }

  /** The decorator `as_result(*kinds)` returns, fixed to its declared
      exception classes. */
  datatype Decorator = Decorator(kinds: seq<Class>)

  const AsResultMessage: string := "as_result() requires one or more exception types"

  /** Every listed class is an exception class: what `except kinds` demands
      of the classes it is given. */
  predicate ExceptionClasses(kinds: seq<Class>) {
    forall i :: 0 <= i < |kinds| ==> IsExceptionClass(kinds[i])
  }

  /** The `TypeError` that an `except` clause raises, when an exception reaches
      it, if one of its classes is not an exception class. */
  const BadExceptClause: Obj := Obj(TypeErrorClass, "catching classes that do not inherit from BaseException is not allowed")

  /** `except kinds`: the handler takes an exception that is an instance of
      any of the listed classes; an empty list takes nothing. */
  predicate Catches(kinds: seq<Class>, x: Obj) {
    exists i :: 0 <= i < |kinds| && IsInstance(x, kinds[i])
  }

  /** The classes named by arguments that are all classes. */
  function ClassesOf(args: seq<Obj>): (r: seq<Class>)
    requires forall i :: 0 <= i < |args| ==> args[i].ClassObject?
    ensures |r| == |args|
    ensures forall i :: 0 <= i < |args| ==> r[i] == args[i].of
    decreases |args|
  {
    if |args| == 0 then [] else [args[0].of] + ClassesOf(args[1..])
  }

  /** `as_result(*args)`: refuses, with a `TypeError` at decoration time, an
      empty argument list or any argument that is not an exception class;
      otherwise the decorator for exactly those classes. */
  function AsResult(args: seq<Obj>): (r: Outcome<Decorator, Obj>)
    ensures r.Raised? <==> |args| == 0 || exists i :: 0 <= i < |args| && !IsExceptionKind(args[i])
    ensures r.Raised? ==> r.fault == Obj(TypeErrorClass, AsResultMessage)
    ensures r.Returned? ==> |r.value.kinds| == |args|
    ensures r.Returned? ==> forall i :: 0 <= i < |args| ==> args[i] == ClassObject(r.value.kinds[i])
    ensures r.Returned? ==> forall i :: 0 <= i < |args| ==> IsExceptionClass(r.value.kinds[i])
  {
    if |args| == 0 || exists i :: 0 <= i < |args| && !IsExceptionKind(args[i]) then
      Raised(Obj(TypeErrorClass, AsResultMessage))
    else
      Returned(Decorator(ClassesOf(args)))
  }

  /** The conversion rule shared by `as_result` and `resultify`: a normal
      return becomes `Ok`, a raise of a listed class becomes `Err` holding
      the exception, any other raise propagates untouched. The classes are
      looked at only when something is raised, and a class that is not an
      exception class then turns the raise into `BadExceptClause`. */
  function Convert<R>(kinds: seq<Class>, call: Call<R>): (r: Call<Result<R, Obj>>)
    ensures call.Returned? ==> r == Returned(Ok(call.value))
    ensures call.Raised? && !ExceptionClasses(kinds) ==> r == Raised(BadExceptClause)
    ensures call.Raised? && ExceptionClasses(kinds) ==> (r.Returned? <==> Catches(kinds, call.fault))
    ensures call.Raised? && ExceptionClasses(kinds) && r.Returned? ==> r.value == Err(call.fault)
    ensures call.Raised? && ExceptionClasses(kinds) && r.Raised? ==> r.fault == call.fault
  {
    match call
    case Returned(v) => Returned(Ok(v))
    case Raised(x) =>
      if !ExceptionClasses(kinds) then Raised(BadExceptClause)
      else if Catches(kinds, x) then Returned(Err(x))
      else Raised(x)
  }

  /** One call of the wrapper that `as_result` builds around a function. The
      decorator's classes passed `AsResult`, so they are exception classes. */
  function Wrapper<R>(d: Decorator, call: Call<R>): (r: Call<Result<R, Obj>>)
    requires ExceptionClasses(d.kinds)
    ensures call.Returned? ==> r == Returned(Ok(call.value))
    ensures call.Raised? ==> (r == Returned(Err(call.fault)) <==> Catches(d.kinds, call.fault))
    ensures call.Raised? ==> (r == Raised(call.fault) <==> !Catches(d.kinds, call.fault))
  {
    Convert(d.kinds, call)
  }

  /** Applying the decorator to `f`: a function with the same inputs whose
      every call is `f`'s call converted. */
  function Decorate<A(!new), R>(d: Decorator, f: A -> Call<R>): (w: A -> Call<Result<R, Obj>>)
    requires ExceptionClasses(d.kinds)
    ensures forall a :: f(a).Returned? ==> w(a) == Returned(Ok(f(a).value))
    ensures forall a :: f(a).Raised? ==> (w(a) == Returned(Err(f(a).fault)) <==> Catches(d.kinds, f(a).fault))
    ensures forall a :: f(a).Raised? ==> (w(a) == Raised(f(a).fault) <==> !Catches(d.kinds, f(a).fault))
  {
    a => Wrapper(d, f(a))
  }

  /** `resultify(fn, errs)`: calls `fn` now and converts by the same rule;
      `errs` defaults to `(Exception,)`. Nothing checks `errs` up front: a
      class that is not an exception class shows only when `fn` raises. */
  function Resultify<R>(call: Call<R>, errs: seq<Class> := [ExceptionClass]): (r: Call<Result<R, Obj>>)
    ensures call.Returned? ==> r == Returned(Ok(call.value))
    ensures call.Raised? && !ExceptionClasses(errs) ==> r == Raised(BadExceptClause)
    ensures call.Raised? && ExceptionClasses(errs) ==> (r == Returned(Err(call.fault)) <==> Catches(errs, call.fault))
    ensures call.Raised? && ExceptionClasses(errs) ==> (r == Raised(call.fault) <==> !Catches(errs, call.fault))
  {
    Convert(errs, call)
  }

  /** `throw_err_val(fn)`: calls `fn`; an `Err` it returns has its payload
      raised, an `Ok` is dropped and nothing is returned. */
  function ThrowErrVal<T>(call: Call<Result<T, Obj>>): (r: Call<()>)
    ensures r.Returned? <==> call.Returned? && call.value.IsOk()
    ensures call.Raised? ==> r == Raised(call.fault)
    ensures call.Returned? && call.value.IsErr() ==> r == Raised(RaiseValue(call.value.error))
  {
    match call
    case Raised(x) => Raised(x)
    case Returned(Ok(_)) => Returned(())
    case Returned(Err(x)) => Raised(RaiseValue(x))
  }

  /** The decorator and `resultify` apply one rule: wrapping with a validated
      decorator is `resultify` with the same classes. */
  lemma WrapperIsResultify<R>(args: seq<Obj>, call: Call<R>)
    requires AsResult(args).Returned?
    ensures ExceptionClasses(AsResult(args).value.kinds)
    ensures Wrapper(AsResult(args).value, call) == Resultify(call, ClassesOf(args))
  {
  }

  /** By default `resultify` turns every `Exception` into `Err`, and lets
      what is only a `BaseException` (e.g. `KeyboardInterrupt`) escape. */
  lemma ResultifyDefaultCatchesExceptions<R>(call: Call<R>)
    requires call.Raised?
    ensures Resultify(call).Returned? <==> IsInstance(call.fault, ExceptionClass)
  {
    if IsInstance(call.fault, ExceptionClass) {
      assert IsInstance(call.fault, [ExceptionClass][0]);
    }
  }

  /** `eject` undoes `as_result`: when every declared class is an
      `Exception`, the ejected result of a wrapped call returns what the
      function returned, and raises what it raised, either by propagation or
      by re-raising the caught exception. */
  lemma EjectUndoesWrapper<R>(d: Decorator, call: Call<R>)
    requires ExceptionClasses(d.kinds)
    requires forall i :: 0 <= i < |d.kinds| ==> IsSubclass(d.kinds[i], ExceptionClass)
    requires call.Raised? ==> forall i :: 0 <= i < |d.kinds| ==> AgreesWith(call.fault.Type(), d.kinds[i])
    ensures call.Returned? ==> Wrapper(d, call).Returned? && Wrapper(d, call).value.Eject(x => x) == Returned(call.value)
    ensures call.Raised? ==> || Wrapper(d, call) == Raised(call.fault)
                             || (&& Wrapper(d, call).Returned?
                                 && Wrapper(d, call).value.Eject(x => x) == Raised(Payload(call.fault)))
  {
    if call.Raised? && Catches(d.kinds, call.fault) {
      var i :| 0 <= i < |d.kinds| && IsInstance(call.fault, d.kinds[i]);
      SubclassTransitive(call.fault.Type(), d.kinds[i], ExceptionClass);
    }
  }

  /** `throw_err_val` undoes `resultify`: `throw_err_val(lambda: resultify(fn, errs))`
      returns when `fn` returns and raises exactly the exception `fn` raised,
      unless `errs` holds a class that is not an exception class. */
  lemma ThrowErrValUndoesResultify<R>(call: Call<R>, errs: seq<Class>)
    requires call.Raised? ==> IsInstance(call.fault, BaseExceptionClass)
    ensures ThrowErrVal(Resultify(call, errs)).Returned? <==> call.Returned?
    ensures call.Raised? && ExceptionClasses(errs) ==> ThrowErrVal(Resultify(call, errs)) == Raised(call.fault)
    ensures call.Raised? && !ExceptionClasses(errs) ==> ThrowErrVal(Resultify(call, errs)) == Raised(BadExceptClause)
  {
  }
}
