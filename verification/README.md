# pykit core in Dafny

A Dafny model of the core of pykit:

- `pykit/res.py`: the Rust-style `Result` type (`Ok`/`Err`) with its combinators, the
  unwrap family and its `UnwrapErr` exception, do-notation, the `as_result` decorator,
  `resultify`, `throw_err_val` and `eject`;
- `pykit/keeper.py`: `IntKeeper`, a pool of integer ids;
- `pykit/mark.py`: `MarkUtils`, operations on an object's list of string marks.

Python exceptions become values. An operation that may raise returns
`Outcome<X, F> = Returned(X) | Raised(F)`, and an operation that returns an `Err` in
Python returns a `Result` here. State is a value too: the keeper and the mark list are
passed in and the updated value is handed back.

Files and modules:

| file | module | models |
|---|---|---|
| `py.dfy` | `Py` | classes, `isinstance`, `str()` and `raise` as far as the core uses them |
| `res.dfy` | `Res` | `Ok`, `Err`, `UnwrapErr`, the combinators, `__eq__`, `eject` |
| `do_notation.dfy` | `DoNotation` | `do`: the generator's steps, bound one after another until the first `Err` |
| `bridge.dfy` | `Bridge` | `as_result`, `resultify`, `throw_err_val` |
| `keeper.dfy` | `Keeper` | `IntKeeper.__init__`, `recv`, `free` |
| `mark.dfy` | `Mark` | `MarkUtils.has`, `add`, `remove`, the two query builders, `decide` |

Modelling choices:

- A Python object is seen through `Py.Obj`. An instance is given by its class (a name
  and the names of all of its ancestors) and its `str()`. A class object, such as the
  arguments of `as_result` or an exception class held as an `Err` payload, is given by
  the class it stands for, and its own type is `type`. `isinstance` is a name test
  against the ancestors of the object's type.
- `Result<T, E>` is generic. The few operations that look at an error payload's class
  (`unwrap` and `expect` for the exception's cause, `eject`) take `view: E -> Obj`,
  which says what the payload is to `isinstance` and `str`.
- Do-notation is a list of steps. Each step computes a `Result` from the values bound
  so far. `Do` folds over the steps and stops at the first `Err`. `RunDo` is the same
  driver written as a loop.
- The free functions `is_ok(r)` and `is_err(r)` only call the members, so
  `Result.IsOk`/`Result.IsErr` stand for both.
- A wrapped Python function is described by what one call of it does:
  `Call<R> = Outcome<R, Obj>`.
- `Range(lo, hi)` is read as the half-open interval `[lo, hi)`. The `Range` class is
  not part of this model, and this reading is an assumption.
- `MarkUtils` reads the marks through `get_marks` and then appends to or removes from
  that list. The model assumes that `check.each_instance` hands back the list it was
  given, so that this is the object's own `internal_marks` list and not a copy. Then `add` and `remove` hand back the object's marks as they are afterwards.
- A `Bridge.Decorator` is only ever made by `as_result`, so `Wrapper` and `Decorate`
  take one whose classes are all exception classes.
- `decide` gets two booleans that say which callbacks were given. It returns which
  callback it awaits.

Behaviour worth noting:

- `do` returns whatever the final expression of the generator produces, which is a
  `Result`. It does not wrap that value in `Ok`.
- `throw_err_val` drops an `Ok` result and returns `None`.
- `unwrap`/`expect` attach the payload as the cause when it is a `BaseException`.
  `eject` re-raises the payload only when it is an `Exception`. A `BaseException` that
  is not an `Exception` (`KeyboardInterrupt`, say) therefore comes out of `eject` as
  `ValErr(str(payload))`.

## Model

| member | source | states |
|---|---|---|
| `Res.CauseOf` | pykit/res.py:357-363 | The error payload becomes the `UnwrapErr`'s cause exactly when it is a `BaseException`. |
| `Res.Result.IsOk` | pykit/res.py:80-84 | `is_ok` holds exactly for `Ok`. |
| `Res.Result.IsErr` | pykit/res.py:294-298 | `is_err` holds exactly for `Err`. |
| `Py.RaiseValue` | pykit/res.py:732 | What `raise x` raises: `x` itself exactly when it is an exception, a fresh instance when `x` is an exception class, and otherwise a `TypeError`. |
| `Res.Result.OkOption` | pykit/res.py:86-90 | `ok()` gives `Some(v)` exactly on `Ok(v)` and `None` on `Err`. |
| `Res.Result.ErrOption` | pykit/res.py:306-310 | `err()` gives `Some(e)` exactly on `Err(e)` and `None` on `Ok`. |
| `Res.Result.Expect` | pykit/res.py:335-345 | `expect(msg)` returns exactly on `Ok`, giving the payload. On `Err` it raises `UnwrapErr` carrying the result itself, the caller's message and the cause. |
| `Res.Result.Unwrap` | pykit/res.py:353-363 | `unwrap` returns the payload exactly on `Ok`. On `Err` it raises `UnwrapErr` carrying that `Err`, chained to the payload exactly when it is an exception. |
| `Res.Result.ExpectErr` | pykit/res.py:127-131 | `expect_err(msg)` returns the error exactly on `Err`. On `Ok` it raises `UnwrapErr(Ok(v), msg)` with no cause. |
| `Res.Result.UnwrapErr` | pykit/res.py:139-143 | `unwrap_err` returns the error exactly on `Err`. On `Ok` it raises `UnwrapErr` carrying that `Ok`. |
| `Res.Result.UnwrapOr` | pykit/res.py:371-375 | The payload on `Ok`, `default` on `Err`. |
| `Res.Result.UnwrapOrElse` | pykit/res.py:377-382 | The payload on `Ok`, `op(error)` on `Err`. |
| `Res.Result.UnwrapOrRaise` | pykit/res.py:384-388 | The payload on `Ok`, whatever the class. On `Err` it raises an exception of the given class built from the payload, or `TypeError` when the class is not an exception class. |
| `Res.Result.Map` | pykit/res.py:163-168 | Keeps the variant. It applies `op` to a success payload and leaves an error payload as it is. |
| `Res.Result.MapOr` | pykit/res.py:179-184 | `op(payload)` on `Ok`, `default` on `Err`. |
| `Res.Result.MapOrElse` | pykit/res.py:409-413 | `op(payload)` on `Ok`, `default_op()` on `Err`. |
| `Res.Result.MapErr` | pykit/res.py:415-420 | Keeps the variant. It applies `op` to an error payload and leaves a success payload as it is. |
| `Res.Result.AndThen` | pykit/res.py:199-204 | `op(payload)` on `Ok`. An `Err` passes through unchanged. |
| `Res.Result.OrElse` | pykit/res.py:434-439 | `op(error)` on `Err`. An `Ok` passes through unchanged. |
| `Res.Result.Inspect` | pykit/res.py:221-226 | Returns the original result. The hook sees the payload exactly when the result is `Ok`. |
| `Res.Result.InspectErr` | pykit/res.py:447-452 | Returns the original result. The hook sees the error exactly when the result is `Err`. |
| `Res.Result.Eject` | pykit/res.py:749-761 | Returns the payload exactly on `Ok`. An `Exception` payload is raised as-is. Any other payload is raised as `ValErr(str(payload))`. |
| `Res.Eq` | pykit/res.py:71-72 | `==` holds exactly when both results have the same variant and equal payloads. |
| `Res.Ne` | pykit/res.py:285-289 | `!=` holds exactly when the two results differ in variant or payload. |
| `Res.OkExtraction` | pykit/res.py:121-161 | `Ok(v)` gives `v` from `unwrap`, `expect`, `unwrap_or`, `unwrap_or_else`, `unwrap_or_raise`, `ok`, `eject`. `unwrap_err`/`expect_err` raise `UnwrapErr` carrying `Ok(v)`. |
| `Res.ErrExtraction` | pykit/res.py:347-388 | `Err(e)` gives `e` from `unwrap_err`, `expect_err`, `err`. `unwrap`/`expect` raise `UnwrapErr` carrying `Err(e)`. The defaulted extractions give the default, `op(e)` or the constructed exception. |
| `Res.MapIsAndThenOk` | pykit/res.py:199-204 | `map(f)` equals `and_then` with a step that always succeeds with `f(x)`. |
| `Res.MapFunctorLaws` | pykit/res.py:390-394 | Mapping the identity changes nothing, and two maps in a row equal one map of the composition. |
| `Res.AndThenMonadLaws` | pykit/res.py:422-426 | `Ok(v).and_then(f) == f(v)`, `and_then(Ok)` changes nothing, and `and_then` is associative. |
| `Res.FailureSideMirrors` | pykit/res.py:415-439 | `map_err`, `or_else` and `err` are `map`, `and_then` and `ok` with the variants swapped. |
| `Res.FoldsAreMapThenDefault` | pykit/res.py:403-413 | `map_or`/`map_or_else` equal `map` followed by `unwrap_or`/`unwrap_or_else`. `unwrap_or(d)` equals the model's `ok()` option read with `Option.GetOr(d)`. |
| `Res.EjectAgreesWithUnwrap` | pykit/res.py:234-239 | `eject` returns exactly when `unwrap` does, and with the same value. |
| `DoNotation.DoReturnsFinal` | pykit/res.py:62-63 | When every step yields `Ok`, `do` returns the final expression applied to the bound values. |
| `DoNotation.DoStopsAtFirstErr` | pykit/res.py:644-648 | The first step that yields `Err(e)` makes the whole block `Err(e)`. |
| `DoNotation.DoIgnoresLaterSteps` | pykit/res.py:250-260 | After the first `Err`, neither the later steps nor the final expression affect the result. |
| `DoNotation.DoIsAndThenChain` | pykit/res.py:616-617 | A do-block is its first step chained by `and_then` to the rest of the block. |
| `DoNotation.DoTwoLines` | pykit/res.py:620-638 | The two-line block of the documentation equals the nested `and_then` expression. |
| `DoNotation.RunDo` | pykit/res.py:644-648 | The loop driver binds a value for each successful step. It returns the final expression when all steps succeed, otherwise the first failing step's `Err`. It agrees with `Do`. |
| `Bridge.AsResult` | pykit/res.py:526-530 | `TypeError` at decoration time exactly when the list is empty or holds something that is not an exception class. Otherwise the decorator holds exactly those classes. |
| `Bridge.Convert` | pykit/res.py:538-542 | A return becomes `Ok`. A raise is `Err(exc)` exactly when a listed class catches it, and otherwise it propagates unchanged. If a listed class is not an exception class, a raise becomes the `TypeError` of the `except` clause. |
| `Bridge.Wrapper` | pykit/res.py:537-544 | One call of the wrapped function follows the conversion rule with the declared classes, which are exception classes because `as_result` accepted them. |
| `Bridge.Decorate` | pykit/res.py:532-546 | For every argument, the decorated function returns `Ok(v)` when `f` returns `v`, returns `Err(exc)` exactly when a declared class catches `f`'s exception, and otherwise lets that exception through. |
| `Bridge.Resultify` | pykit/res.py:734-747 | Same rule as the wrapper, with `errs` defaulting to `(Exception,)`. `errs` is not checked up front: when `fn` raises and `errs` holds a class that is not an exception class, the result is the `TypeError` of the `except` clause. |
| `Bridge.ThrowErrVal` | pykit/res.py:726-732 | Returns nothing exactly when `fn` returns `Ok`. An `Err` payload is raised, and an exception from `fn` propagates. |
| `Bridge.WrapperIsResultify` | pykit/res.py:741-747 | A decorator that `as_result` accepts holds only exception classes, and wrapping with it equals `resultify` with the same classes. |
| `Bridge.ResultifyDefaultCatchesExceptions` | pykit/res.py:734-736 | With the default `errs`, a raise becomes `Err` exactly when it is an `Exception`. |
| `Bridge.EjectUndoesWrapper` | pykit/res.py:749-761 | With `Exception` classes declared, ejecting a wrapped call's result returns what the function returned, and raises what it raised. |
| `Bridge.ThrowErrValUndoesResultify` | pykit/res.py:726-732 | `throw_err_val(lambda: resultify(fn, errs))` returns when `fn` returns. When `fn` raises, it raises exactly that exception, or the `except` clause's `TypeError` when `errs` holds a class that is not an exception class. |
| `Keeper.New` | pykit/keeper.py:41-44 | A new keeper has the given range (default `[0, 1000000)`) and nothing given. |
| `Keeper.FirstFree` | pykit/keeper.py:47-50 | The scan finds the smallest value of the interval that is not given, or reports that all are given. |
| `Keeper.Recv` | pykit/keeper.py:46-51 | `recv` returns the smallest range value not given and adds exactly that value to the given set. When all are given it returns `Err` and leaves the keeper unchanged. It keeps the given set inside the range. |
| `Keeper.Free` | pykit/keeper.py:53-57 | `free(v)` succeeds exactly when `v` is given and then removes exactly `v`. Otherwise it returns `NotFoundErr` and changes nothing. |
| `Keeper.RecvFreeRoundTrip` | pykit/keeper.py:46-57 | `free(x)` right after `x = recv()` restores the keeper. |
| `Keeper.RecvSeqDistinct` | pykit/keeper.py:46-50 | Successive `recv` values are pairwise distinct, new, and in range, and the given set grows by exactly them. |
| `Keeper.RecvSeqConsecutive` | pykit/keeper.py:37-50 | With a prefix of the range given, `n` requests receive the next consecutive ids, up to the end of the range. |
| `Keeper.FreshKeeperHandsOutConsecutiveIds` | pykit/keeper.py:41-50 | A fresh keeper hands out `lo, lo+1, ...` in order. |
| `Mark.Has` | pykit/mark.py:22-23 | `has` holds exactly when some position of the list holds the mark. |
| `Mark.IndexOf` | pykit/mark.py:49 | `list.remove` removes the first position that holds the mark. |
| `Mark.Add` | pykit/mark.py:26-36 | A present mark raises `MarkErr`. An absent one is appended at the end, and the earlier marks keep their order. |
| `Mark.Remove` | pykit/mark.py:39-49 | An absent mark raises `MarkErr`. A present one is deleted from one position, and the rest of the list is unchanged. |
| `Mark.AddUpdQuery` | pykit/mark.py:52-66 | Refused exactly when `add` is refused, with the same error. Otherwise it is the `$push` of the mark to `internal_marks`. |
| `Mark.RemoveUpdQuery` | pykit/mark.py:69-83 | Refused exactly when `remove` is refused, with the same error. Otherwise it is the `$pull` of the mark from `internal_marks`. |
| `Mark.Decide` | pykit/mark.py:86-107 | `InpErr` exactly when neither callback is given. `on_has` fires exactly when it is given and the mark is present. `on_missing` fires exactly when it is given and `on_has` did not fire. Otherwise nothing fires. |
| `Mark.AddRemoveKeepNoDuplicates` | pykit/mark.py:26-49 | On a list without duplicates, `add` and `remove` keep it without duplicates. The mark is present after `add` and absent after `remove`. |
| `Mark.AddRemoveRoundTrip` | pykit/mark.py:31-49 | `remove(m)` right after a successful `add(m)` restores the list. |
| `Mark.RemoveAddSameMarks` | pykit/mark.py:44-49 | After a successful `remove(m)`, `add(m)` succeeds exactly when no copy of `m` is left, which is when `m` occurred once (always so on a list without duplicates). It then gives back the original marks as a multiset. |
| `Mark.QueriesAgreeWithInMemory` | pykit/mark.py:52-83 | On a list without duplicates, applying the `$push`/`$pull` query gives the list that `add`/`remove` produce. |

## Left out

- Async variants (`map_async`, `and_then_async`, `do_async`, `as_async_result`): each has the semantics of its sync counterpart once its `await` resolves, so they are not modelled separately.
- The deprecated `.value` property and its `DeprecationWarning`: deprecated, and it returns the same payload as `ok_value`/`err_value`.
- `ok_value`/`err_value`: these are the datatype fields `value`/`error`. Dafny refuses them on the wrong variant, where Python raises `AttributeError`.
- `__repr__` and the `repr(payload)` suffix of `UnwrapErr` messages: `UnwrapFailure` keeps only the message prefix. Text formatting is not modelled.
- `Res.Result.OkOption`: the `Option` result is finer than Python's `None`-or-value. Python's `Ok(None).ok()` and `Err(e).ok()` are both `None`, while the model gives `Some(None)` and `None`.
- `Res.Result.ErrOption`: the same holds for `err()`. Python's `Err(None).err()` and `Ok(v).err()` are both `None`.
- Callbacks are assumed to return. This covers `op`/`default_op` of `unwrap_or_else`, `map`, `map_or`, `map_or_else`, `map_err`, `and_then`, `or_else`, `inspect`, `inspect_err`, and the lines and final expression of a `do` block. In Python an exception raised by any of them propagates out of the call unchanged. So `Ok(1).inspect(lambda x: 1/0)` raises, for instance, where `Res.Result.Inspect` returns the original result.
- `Res.Eq`: assumes that a payload's `__eq__` is a lawful equality, namely Dafny's `==`. Python's `==` need not be reflexive: `Ok(float('nan')) != Ok(float('nan'))`.
- `__hash__`: Python's hash integers are not modelled. `Eq` is the structural equality that hashing must agree with.
- `_ignore` and `Ok._ignore`/`Err._ignore`: no-ops that return nothing, so there is nothing to state.
- `UnwrapErr.code()`: a constant string used for error codes.
- `do`'s rewriting of the async-generator `TypeError` message: it only changes a message text.
- `DoException` and `__iter__` as such: their effect is the short-circuit stated on `Do`.
- `functools.wraps` metadata: it has no behaviour.
- `DoNotation.Do`: every step of one block produces the same value type `T`. Python steps may bind values of different types.
- `Py.RaiseValue`: assumes that an exception class given to `raise` can be built without arguments. Otherwise Python raises the error of that call instead.
- `Bridge.ThrowErrVal`: models only functions that return a `Result`. For any other return value Python also returns `None`.
- `Res.Result.UnwrapOrRaise`: assumes that building `kind(payload)` succeeds. For a class that is not an exception class, Python may fail while building the object and raise that error instead of the `TypeError`.
- `Bridge.EjectUndoesWrapper`: requires the raised exception's class to list the declared class's ancestors (`Py.AgreesWith`), because class names alone do not make `issubclass` transitive.
- `Mark.QueriesAgreeWithInMemory`: the meaning of `$push`/`$pull` (append / remove every equal element) is the database's, which is not part of this model. `Mark.Apply` states it.
- `MarkUtils.get_marks`: attribute probing and its `MarkErr` are not modelled. The marks are given as a `seq<string>`.
- `decide`: only whether a callback was given is modelled, not the truthiness of arbitrary objects. The awaited callback is reported, not run.
- `Keeper` base class: abstract, raising `NotImplementedError`.
- `Range`, `ValErr`, `NotFoundErr`, `InpErr`, the `check` module and `fcode.code` are not part of this model. Their effects appear as the plain datatypes `Keeper.KeeperErr`, `Res.Fault.ValErr` and `Mark.InpErr`.
- `pykit/log.py`, `pykit/lock.py`, `sbpykit/dt.py`: logging I/O, an asyncio lock, and wall-clock time.
