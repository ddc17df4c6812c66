/** The exception taxonomy of cor/adt/error.py and the two guard functions
    defined there, plus the `Result` type through which the model returns a
    value or raises. */
module Errors {
  import opened Values

  /** Exception classes: the framework's `Error` and its subclasses
      (cor/adt/error.py:23-49), `AccessError` (cor/adt/error.py:52-53), and
      the built-in classes the framework raises or lets through. */
  datatype ExcClass =
    | Error
    | RecordError
    | FieldError
    | MissingFieldError
    | InvalidFieldError
    | AccessError
    | ValueError
    | TypeError
    | KeyError
    | AttributeError
    | OtherException(name: string)

  /** Whether the class is `Error` or one of its subclasses; `AccessError`
      derives from `Exception` directly and is not one. */
  predicate IsError(c: ExcClass) {
    c.Error? || c.RecordError? || c.FieldError? || c.MissingFieldError? || c.InvalidFieldError?
  }

  /** An element of an exception's `args`, or an entry of its dict payload.
      `AObject` stands for an object that is not a `Value` (an `Operation`, a
      `HooksFactory`); `ADescription(e)` for the text `_obj_info` derives from
      an exception (its class docstring or its repr); `AFormat(t, v)` for
      `t.format(v)`. */
  datatype Arg =
    | AText(text: string)
    | AValue(v: Value)
    | AType(t: PyType)
    | ATypes(ts: seq<PyType>)
    | AExc(e: Exc)
    | ADict(entries: map<string, Arg>)
    | AObject(typeName: string)
    | ADescription(of: Exc)
    | AFormat(template: string, v: Value)

  /** A raised exception: its class, its `args`, and its `__cause__` (set by
      `raise ... from ...`). */
  datatype Exc = Exc(cls: ExcClass, args: seq<Arg>, cause: Option<Exc>)

  /** Either the value a Python call returns or the exception it raises. */
  datatype Result<+T> = Success(value: T) | Failure(error: Exc) {
    predicate IsFailure() {
      Failure?
    }

    function PropagateFailure<U>(): Result<U>
      requires Failure?
    {
      Failure(error)
    }

    function Extract(): T
      requires Success?
    {
      value
    }
  }

  /** The dict an `Error` carries as its one argument, if it has that shape. */
  function Payload(e: Exc): Option<map<string, Arg>> {
    if |e.args| == 1 && e.args[0].ADict? then Some(e.args[0].entries) else None
  }

  /** The `name` entry of an error's payload. */
  function ErrorName(e: Exc): Option<Arg> {
    match Payload(e)
    case Some(p) => if "name" in p then Some(p["name"]) else None
    case None => None
  }

  /** The `info` entry of an error's payload. */
  function ErrorInfo(e: Exc): Option<Arg> {
    match Payload(e)
    case Some(p) => if "info" in p then Some(p["info"]) else None
    case None => None
  }

  /** `cls(name, info, **kwargs)` for an `Error` class: the exception's one
      argument is a dict holding `name`, `info` and every keyword argument
      (cor/adt/error.py:23-25). A keyword argument spelled `name` or `info`
      collides with the positional one, which Python rejects with
      `TypeError`. */
  function NewError(cls: ExcClass, name: Arg, info: Arg, kwargs: map<string, Arg>): (r: Result<Exc>)
    requires IsError(cls)
    ensures r.Success? <==> "name" !in kwargs && "info" !in kwargs
    ensures r.Failure? ==> r.error.cls == TypeError
    ensures r.Success? ==>
      && r.value.cls == cls
      && r.value.cause == None
      && Payload(r.value).Some?
      && Payload(r.value).value.Keys == kwargs.Keys + {"name", "info"}
      && ErrorName(r.value) == Some(name)
      && ErrorInfo(r.value) == Some(info)
      && (forall k :: k in kwargs ==> Payload(r.value).value[k] == kwargs[k])
  {
    if "name" in kwargs || "info" in kwargs then
      Failure(Exc(TypeError, [AText("__init__() got multiple values for argument")], None))
    else
      Success(Exc(cls, [ADict(kwargs["name" := name]["info" := info])], None))
  }

  /** `cls(name, info)` without keyword arguments, which cannot collide. */
  function MakeError(cls: ExcClass, name: Arg, info: Arg): (e: Exc)
    requires IsError(cls)
    ensures e.cls == cls && e.cause == None
    ensures ErrorName(e) == Some(name) && ErrorInfo(e) == Some(info)
    ensures Payload(e) == Some(map["name" := name, "info" := info])
  {
    NewError(cls, name, info, map[]).value
  }

  /** `MissingFieldError(name)`: `info` defaults to `'missing'`
      (cor/adt/error.py:43-45). */
  function MissingField(name: string): (e: Exc)
    ensures e.cls == MissingFieldError && IsError(e.cls)
    ensures ErrorName(e) == Some(AText(name)) && ErrorInfo(e) == Some(AText("missing"))
  {
    MakeError(MissingFieldError, AText(name), AText("missing"))
  }

  /** `InvalidFieldError(name, info)`. */
  function InvalidField(name: string, info: Arg): (e: Exc)
    ensures e.cls == InvalidFieldError && IsError(e.cls)
    ensures ErrorName(e) == Some(AText(name)) && ErrorInfo(e) == Some(info)
  {
    MakeError(InvalidFieldError, AText(name), info)
  }

  /** `err.wrap(name)`: an error of the same class whose `name` is the given
      one and whose `info` is the original error (cor/adt/error.py:27-32). */
  function Wrap(err: Exc, name: Arg): (w: Exc)
    requires IsError(err.cls)
    ensures w.cls == err.cls
    ensures ErrorName(w) == Some(name) && ErrorInfo(w) == Some(AExc(err))
  {
    MakeError(err.cls, name, AExc(err))
  }

  /** A Python object offered where a callable is expected. */
  datatype Callee<F> = Callable(fn: F, repr: string) | NotCallable(obj: Value)

  /** `ensure_callable(fn)` (cor/adt/error.py:2-9): the argument itself when
      it is callable, otherwise a `TypeError` whose payload carries the
      offending object and its type. */
  function EnsureCallable<F>(c: Callee<F>): (r: Result<Callee<F>>)
    ensures r.Success? <==> c.Callable?
    ensures r.Success? ==> r.value == c
    ensures r.Failure? ==>
      && r.error.cls == TypeError
      && Payload(r.error) == Some(map[
           "info" := AText("Contract should be callable"),
           "value" := AValue(c.obj),
           "type" := AType(TypeOf(c.obj))])
  {
    match c
    case Callable(_, _) => Success(c)
    case NotCallable(obj) =>
      Failure(Exc(TypeError, [ADict(map[
        "info" := AText("Contract should be callable"),
        "value" := AValue(obj),
        "type" := AType(TypeOf(obj))])], None))
  }

  /** The `TypeError` of `ensure_has_type`, for any offending object. */
  function UnexpectedType(value: Arg, actual: PyType, expected: seq<PyType>): (e: Exc)
    ensures e.cls == TypeError && !IsError(e.cls)
  {
    Exc(TypeError, [ADict(map[
      "info" := AText("Value has unexpected type"),
      "value" := value,
      "actual" := AType(actual),
      "expected" := ATypes(expected)])], None)
  }

  /** `ensure_has_type(expected_types, v)` (cor/adt/error.py:12-20): `v`
      unchanged exactly when it is an instance of one of the expected types,
      otherwise a `TypeError` naming the value, its type and the expectation.
      ExpectTypesField states what it does to a field. */
  function EnsureHasType(expected: seq<PyType>, v: Value): (r: Result<Value>)
    ensures r.Success? <==> IsInstanceOfAny(v, expected)
    ensures r.Success? ==> r.value == v
    ensures r.Failure? ==>
      && r.error.cls == TypeError
      && Payload(r.error) == Some(map[
           "info" := AText("Value has unexpected type"),
           "value" := AValue(v),
           "actual" := AType(TypeOf(v)),
           "expected" := ATypes(expected)])
  {
    if IsInstanceOfAny(v, expected) then Success(v)
    else Failure(UnexpectedType(AValue(v), TypeOf(v), expected))
  }
}
