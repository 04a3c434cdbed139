/** The small slice of Python's object model that the core inspects:
    `isinstance` against exception classes, `str()` of a payload, and what
    `raise x` does with an object that is not an exception. */
module Py {

  /** A Python class as `isinstance` sees it: its name and the names of all
      of its proper ancestors (its MRO without itself). */
  datatype Class = Class(name: string, ancestors: set<string>)

  /** A Python object as the core looks at it: an instance, seen through its
      class and its `str()`, or a class object, which `raise` and `as_result`
      treat specially. */
  datatype Obj = Obj(cls: Class, text: string) | ClassObject(of: Class) {

    /** `type(x)` */
    function Type(): (c: Class)
      ensures Obj? ==> c == cls
      ensures ClassObject? ==> c == TypeClass
    {
      match this
      case Obj(c, _) => c
      case ClassObject(_) => TypeClass
    }

    /** `str(x)` */
    function Str(): (s: string)
      ensures Obj? ==> s == text
      ensures ClassObject? ==> s == "<class '" + of.name + "'>"
    {
      match this
      case Obj(_, t) => t
      case ClassObject(c) => "<class '" + c.name + "'>"
    }
  }

  const TypeClass: Class := Class("type", {"object"})

  const BaseExceptionClass: Class := Class("BaseException", {"object"})
  const ExceptionClass: Class := Class("Exception", {"BaseException", "object"})
  const TypeErrorClass: Class := Class("TypeError", {"Exception", "BaseException", "object"})

  /** `issubclass(c, base)` */
  predicate IsSubclass(c: Class, base: Class) {
    c.name == base.name || base.name in c.ancestors
  }

  /** `isinstance(x, c)` */
  predicate IsInstance(x: Obj, c: Class) {
    IsSubclass(x.Type(), c)
  }

  /** `inspect.isclass(c) and issubclass(c, BaseException)` for a class `c`. */
  predicate IsExceptionClass(c: Class) {
    IsSubclass(c, BaseExceptionClass)
  }

  /** The class `c` lists every ancestor of `k` that it inherits through
      `k`: the two classes belong to one consistent hierarchy. */
  predicate AgreesWith(c: Class, k: Class) {
    IsSubclass(c, k) ==> k.ancestors <= c.ancestors
  }

  /** `issubclass` is transitive within a consistent hierarchy. */
  lemma SubclassTransitive(a: Class, b: Class, c: Class)
    requires IsSubclass(a, b) && IsSubclass(b, c) && AgreesWith(a, b)
    ensures IsSubclass(a, c)
  {
  }

  /** What `raise x` actually raises: `x` itself when it is an exception; a
      fresh instance `x()` when `x` is an exception class (built without
      arguments, so its `str()` is empty); otherwise a `TypeError` complaining
      that `x` is not an exception. */
  function RaiseValue(x: Obj): (r: Obj)
    ensures IsInstance(r, BaseExceptionClass)
    ensures IsInstance(x, BaseExceptionClass) <==> r == x
    ensures x.ClassObject? && IsExceptionClass(x.of) ==> r == Obj(x.of, "")
    ensures !IsInstance(x, BaseExceptionClass) && !(x.ClassObject? && IsExceptionClass(x.of)) ==>
              r.Type() == TypeErrorClass
  {
    if IsInstance(x, BaseExceptionClass) then x
    else if x.ClassObject? && IsExceptionClass(x.of) then Obj(x.of, "")
    else Obj(TypeErrorClass, "exceptions must derive from BaseException")
  }
}
