/** The field-conversion algebra of cor/adt/operation.py: an `Operation`
    extracts one field from an input mapping and converts or validates it;
    `prepare_field` returns the field's value, returns `None` to leave the
    field unset, or raises. */
module Operations {
  import opened Values
  import opened Errors

  /** A user callable applied to one value: it returns a value or raises. */
  type Conversion = Value -> Result<Value>

  /** An operation. `Simple` is `SimpleConversion`, and also what `only_if`,
      `expect_types`, `should_be` and `not_empty` build; `NoPrepareField(t)`
      is an object of class `t` that is not an operation, which can end up as
      the right operand of `skip_missing & x` (cor/adt/operation.py:228-229). */
  datatype Operation =
    | Simple(convert: Conversion)
    | And(left: Operation, right: Operation)
    | Or(left: Operation, right: Operation)
    | SkipMissing
    | ProvideMissing(default: Value)
    | NoPrepareField(typeName: string)

  /** An operation tree all of whose operands are operations. */
  predicate Genuine(op: Operation) {
    match op
    case And(l, r) => Genuine(l) && Genuine(r)
    case Or(l, r) => Genuine(l) && Genuine(r)
    case NoPrepareField(_) => false
    case _ => true
  }

  /** `UnaryOperation._convert_field` (cor/adt/operation.py:112-118): the
      conversion's own result, or, when it raises, the same exception if it is
      a framework `Error` and otherwise an `InvalidFieldError` for the field
      whose cause is the original exception. It only ever raises `Error`s. */
  function ConvertField(name: string, f: Conversion, v: Value): (r: Result<Value>)
    ensures r.Success? <==> f(v).Success?
    ensures r.Success? ==> r.value == f(v).value
    ensures r.Failure? ==> IsError(r.error.cls)
    ensures r.Failure? && IsError(f(v).error.cls) ==> r.error == f(v).error
    ensures r.Failure? && !IsError(f(v).error.cls) ==>
      && r.error.cls == InvalidFieldError
      && ErrorName(r.error) == Some(AText(name))
      && r.error.cause == Some(f(v).error)
  {
    match f(v)
    case Success(x) => Success(x)
    case Failure(e) =>
      if IsError(e.cls) then Failure(e)
      else Failure(InvalidField(name, ADescription(e)).(cause := Some(e)))
  }

  /** The `KeyError` a lookup of an absent key raises. */
  function KeyErrorFor(name: string): Exc {
    Exc(KeyError, [AText(name)], None)
  }

  /** `SimpleConversion.prepare_field` (cor/adt/operation.py:131-139): an
      absent key is a `MissingFieldError` caused by the `KeyError`; a present
      value goes through the conversion. */
  function PrepareSimple(f: Conversion, name: string, input: map<string, Value>): (r: Result<Value>)
    ensures name !in input ==>
      && r.Failure?
      && r.error.cls == MissingFieldError
      && ErrorName(r.error) == Some(AText(name))
      && ErrorInfo(r.error) == Some(AText("missing"))
    ensures name in input ==> (r.Success? <==> f(input[name]).Success?)
    ensures name in input && r.Success? ==> r.value == f(input[name]).value
    ensures r.Failure? ==> IsError(r.error.cls)
  {
    if name in input then ConvertField(name, f, input[name])
    else Failure(MissingField(name).(cause := Some(KeyErrorFor(name))))
  }

  /** The identity conversion `skip_missing` is built on. */
  function Identity(v: Value): Result<Value> {
    Success(v)
  }

  /** `_SkipMissing.prepare_field` (cor/adt/operation.py:224-226): the value
      itself when it is truthy, otherwise the identity conversion of it. Either
      way the result is exactly `values.get(name)`: unset when the key is
      absent, any present value unchanged, and never an error. */
  function PrepareSkipMissing(name: string, input: map<string, Value>): (r: Result<Value>)
    ensures r == Success(if name in input then input[name] else VNone)
  {
    var x := Get(input, name);
    if Truthy(x) then Success(x) else ConvertField(name, Identity, x)
  }

  /** The conversion `provide_missing(d)` is built on
      (cor/adt/operation.py:236-239). */
  function ReplaceOptional(d: Value): Conversion {
    v => Success(if v == VNone then d else v)
  }

  /** `_ProvideMissing.prepare_field` (cor/adt/operation.py:243-244): the
      default when the key is absent or maps to `None`, any other value
      (however falsy) unchanged; never an error. */
  function PrepareProvideMissing(d: Value, name: string, input: map<string, Value>): (r: Result<Value>)
    ensures r.Success?
    ensures name !in input || input[name] == VNone ==> r.value == d
    ensures name in input && input[name] != VNone ==> r.value == input[name]
  {
    ConvertField(name, ReplaceOptional(d), Get(input, name))
  }

  /** `prepare_field` of every operation (cor/adt/operation.py:131-187,
      224-244). `And` runs its right operand on the input with the field
      rebound to the left result, unless that result is `None`; `Or` returns a
      left result that is not `None` and otherwise runs its right operand on
      the original input, chaining the left error as the cause of the right
      one when both raise. An operation tree made only of operations raises
      nothing but framework `Error`s. */
  function PrepareField(op: Operation, name: string, input: map<string, Value>): (r: Result<Value>)
    ensures Genuine(op) && r.Failure? ==> IsError(r.error.cls)
    decreases op
  {
    match op
    case Simple(f) => PrepareSimple(f, name, input)
    case And(l, rt) =>
      (match PrepareField(l, name, input)
       case Failure(e) => Failure(e)
       case Success(v) => if v == VNone then Success(VNone) else PrepareField(rt, name, input[name := v]))
    case Or(l, rt) =>
      (match PrepareField(l, name, input)
       case Failure(el) =>
         (match PrepareField(rt, name, input)
          case Success(v) => Success(v)
          case Failure(er) => Failure(er.(cause := Some(el))))
       case Success(v) => if v == VNone then PrepareField(rt, name, input) else Success(v))
    case SkipMissing => PrepareSkipMissing(name, input)
    case ProvideMissing(d) => PrepareProvideMissing(d, name, input)
    case NoPrepareField(t) =>
      Failure(Exc(AttributeError, [AText("'" + t + "' object has no attribute 'prepare_field'")], None))
  }

  /** `err_cls(payload)` as `only_if` raises it. An `Error` class needs an
      `info` argument as well, so calling it with the payload alone is a
      `TypeError`, except for `MissingFieldError`, whose `info` has a default. */
  function Raised(errCls: ExcClass, payload: Arg): Exc {
    if errCls.MissingFieldError? then MakeError(MissingFieldError, payload, AText("missing"))
    else if IsError(errCls) then
      Exc(TypeError, [AText("__init__() missing 1 required positional argument: 'info'")], None)
    else Exc(errCls, [payload], None)
  }

  /** The payload of the error a failed `only_if` condition raises. */
  function ConditionPayload(condition: Arg, v: Value): Arg {
    ADict(map[
      "info" := AText("Value doesn't match condition"),
      "condition" := condition,
      "value" := AValue(v)])
  }

  /** `convert_only_if(v)` (cor/adt/operation.py:254-261): `v` unchanged when
      the condition holds of it, an `err_cls` error carrying the value and the
      condition when it does not, and whatever the condition raises.
      GuardedField states the same for a whole field. */
  function Guard(cond: Conversion, condition: Arg, errCls: ExcClass, v: Value): (r: Result<Value>)
    ensures r.Success? <==> cond(v).Success? && Truthy(cond(v).value)
    ensures r.Success? ==> r.value == v
    ensures cond(v).Failure? ==> r == cond(v)
    ensures cond(v).Success? && !Truthy(cond(v).value) ==>
      r == Failure(Raised(errCls, ConditionPayload(condition, v)))
  {
    match cond(v)
    case Failure(e) => Failure(e)
    case Success(c) => if Truthy(c) then Success(v) else Failure(Raised(errCls, ConditionPayload(condition, v)))
  }

  /** The operation `only_if` returns once its condition is known to be
      callable. */
  function OnlyIfOp(cond: Conversion, condition: Arg, errCls: ExcClass): Operation {
    Simple(v => Guard(cond, condition, errCls, v))
  }

  /** `only_if(fn, info, err_cls)` (cor/adt/operation.py:250-263): a
      `TypeError` when `fn` is not callable, otherwise a `SimpleConversion`
      guarding with `fn`, whose error names `info`, or `repr(fn)` when `info`
      is empty. */
  function OnlyIf(fn: Callee<Conversion>, info: string, errCls: ExcClass): (r: Result<Operation>)
    ensures r.Success? <==> fn.Callable?
    ensures r.Failure? ==> r.error.cls == TypeError
    ensures r.Success? ==> r.value == OnlyIfOp(fn.fn, AText(if info != "" then info else fn.repr), errCls)
  {
    var c :- EnsureCallable(fn);
    Success(OnlyIfOp(c.fn, AText(if info != "" then info else c.repr), errCls))
  }

  /** `repr` of a list of strings, as in `['int', 'str']`. */
  function QuotedList(names: seq<string>): string {
    if names == [] then ""
    else "'" + names[0] + "'" + (if |names| == 1 then "" else ", " + QuotedList(names[1..]))
  }

  function TypeNames(types: seq<PyType>): (names: seq<string>)
    ensures |names| == |types|
  {
    if types == [] then [] else [TypeName(types[0])] + TypeNames(types[1..])
  }

  /** The condition text of `expect_types` (cor/adt/operation.py:273-276). */
  function ExpectInfo(types: seq<PyType>): string
    requires |types| > 0
  {
    if |types| == 1 then "has type " + TypeName(types[0])
    else "has one of [" + QuotedList(TypeNames(types)) + "] types"
  }

  /** `has_expected_types`: `isinstance(v, expected_types)`. */
  function HasTypes(types: seq<PyType>): Conversion {
    v => Success(VBool(IsInstanceOfAny(v, types)))
  }

  /** `expect_types(*types)` (cor/adt/operation.py:266-277); the source
      asserts that at least one type is given. */
  function ExpectTypes(types: seq<PyType>): Operation
    requires |types| > 0
  {
    OnlyIfOp(HasTypes(types), AText(ExpectInfo(types)), TypeError)
  }

  /** `expect_type(t)` (cor/adt/operation.py:280-281). */
  function ExpectType(t: PyType): Operation {
    ExpectTypes([t])
  }

  /** `is_value`: `v is expected`. Immutable values are identified by their
      contents; a dict also by its identity. */
  function IsValue(expected: Value): Conversion {
    v => Success(VBool(v == expected))
  }

  /** `should_be(expected)` (cor/adt/operation.py:284-288). */
  function ShouldBe(expected: Value): Operation {
    OnlyIfOp(IsValue(expected), AFormat("value is {} constant", expected), ValueError)
  }

  /** `bool` used as a condition. */
  function IsTruthy(v: Value): Result<Value> {
    Success(VBool(Truthy(v)))
  }

  /** `not_empty` (cor/adt/operation.py:291). */
  function NotEmpty(): Operation {
    OnlyIfOp(IsTruthy, AText("not empty"), ValueError)
  }

  /** What can be handed to `convert`, `default_conversion`, `&` and `|`: an
      operation, a class (with what calling it does), another callable, or a
      non-callable object such as a `Tag` member or a constant. */
  datatype Convertible =
    | FromOperation(op: Operation)
    | FromType(t: PyType, call: Conversion)
    | FromFunction(f: Conversion)
    | FromValue(obj: Value)

  /** Calling an object that is not callable. */
  function NotCallable(obj: Value): Conversion {
    v => Failure(Exc(TypeError, [AText("'" + TypeName(TypeOf(obj)) + "' object is not callable")], None))
  }

  /** `convert(fn)` (cor/adt/operation.py:197-198): an operation unchanged,
      anything else called as the conversion of a `SimpleConversion`.
      ConvertedMissing states what such a conversion does to a field. */
  function Convert(c: Convertible): (op: Operation)
    ensures c.FromOperation? ==> op == c.op
    ensures !c.FromOperation? ==> op.Simple?
    ensures c.FromType? ==> op == Simple(c.call)
    ensures c.FromFunction? ==> op == Simple(c.f)
  {
    match c
    case FromOperation(op) => op
    case FromType(_, call) => Simple(call)
    case FromFunction(f) => Simple(f)
    case FromValue(obj) => Simple(NotCallable(obj))
  }

  /** `default_conversion(obj)` (cor/adt/operation.py:76-88, 206-208): an
      operation unchanged, a class becomes `expect_type`, a `Tag` member
      becomes `should_be`, anything else a `SimpleConversion` calling it.
      DefaultConversionOfType and ShouldBeField state the field-level
      behaviour of the first two. */
  function DefaultConversion(c: Convertible): (op: Operation)
    ensures c.FromOperation? ==> op == c.op
    ensures c.FromType? ==> op == ExpectType(c.t)
    ensures c.FromValue? && c.obj.VTag? ==> op == ShouldBe(c.obj)
    ensures c.FromFunction? ==> op == Simple(c.f)
    ensures c.FromValue? && !c.obj.VTag? ==> op == Simple(NotCallable(c.obj))
  {
    match c
    case FromOperation(op) => op
    case FromType(t, _) => ExpectType(t)
    case FromFunction(f) => Simple(f)
    case FromValue(obj) => if obj.VTag? then ShouldBe(obj) else Simple(NotCallable(obj))
  }

  /** `op & x` (cor/adt/operation.py:64-65); `skip_missing & x` takes `x`
      as it is, without `default_conversion` (cor/adt/operation.py:228-229).
      AndChoice and SkipMissingThen state how the result prepares a field. */
  function AndWith(op: Operation, x: Convertible): (r: Operation)
    requires !op.NoPrepareField?
    ensures r.And? && r.left == op
    ensures !op.SkipMissing? ==> r.right == DefaultConversion(x)
    ensures op.SkipMissing? && x.FromOperation? ==> r.right == x.op
  {
    if op.SkipMissing? then
      And(op, if x.FromOperation? then x.op else NoPrepareField(TypeName(ConvertibleType(x))))
    else And(op, DefaultConversion(x))
  }

  /** The class of a non-operation convertible, for the error it causes. */
  function ConvertibleType(x: Convertible): PyType {
    match x
    case FromOperation(_) => TClass("Operation")
    case FromType(_, _) => TClass("type")
    case FromFunction(_) => TClass("function")
    case FromValue(obj) => TypeOf(obj)
  }

  /** `op | x` (cor/adt/operation.py:67-68). OrChoice states how the result
      prepares a field. */
  function OrWith(op: Operation, x: Convertible): (r: Operation)
    requires !op.NoPrepareField?
    ensures r.Or? && r.left == op && r.right == DefaultConversion(x)
  {
    Or(op, DefaultConversion(x))
  }

  // ---------------------------------------------------------------------
  // Laws of the algebra

  /** `&` is associative: the middle result rebinds the field, and a second
      rebinding overwrites the first. */
  lemma {:induction false} AndAssociative(a: Operation, b: Operation, c: Operation, name: string, input: map<string, Value>)
    ensures PrepareField(And(And(a, b), c), name, input) == PrepareField(And(a, And(b, c)), name, input)
  {
    var ab, bc := And(a, b), And(b, c);
    match PrepareField(a, name, input)
    case Failure(e) =>
      assert PrepareField(ab, name, input) == Failure(e);
    case Success(v1) =>
      if v1 == VNone {
        assert PrepareField(ab, name, input) == Success(VNone);
      } else {
        var in1 := input[name := v1];
        assert PrepareField(ab, name, input) == PrepareField(b, name, in1);
        assert PrepareField(And(a, bc), name, input) == PrepareField(bc, name, in1);
        match PrepareField(b, name, in1)
        case Failure(e) =>
          assert PrepareField(bc, name, in1) == Failure(e);
        case Success(v2) =>
          if v2 == VNone {
            assert PrepareField(bc, name, in1) == Success(VNone);
          } else {
            assert in1[name := v2] == input[name := v2];
            assert PrepareField(bc, name, in1) == PrepareField(c, name, input[name := v2]);
          }
      }
  }

  /** Results agree: both succeed with the same value, or both raise the same
      exception apart from its `__cause__` chain. */
  predicate SameOutcome(r1: Result<Value>, r2: Result<Value>) {
    match r1
    case Success(v) => r2 == Success(v)
    case Failure(e) => r2.Failure? && r2.error.(cause := None) == e.(cause := None)
  }

  /** `|` is associative up to the cause chain of the final error: the first
      operand returning something other than `None` wins, in order. */
  lemma {:induction false} OrAssociative(a: Operation, b: Operation, c: Operation, name: string, input: map<string, Value>)
    ensures SameOutcome(PrepareField(Or(Or(a, b), c), name, input), PrepareField(Or(a, Or(b, c)), name, input))
  {
    OrChoice(a, b, name, input);
    OrChoice(b, c, name, input);
    OrChoice(Or(a, b), c, name, input);
    OrChoice(a, Or(b, c), name, input);
  }

  /** Which operand of an `Or` decides: a left result other than `None` is
      returned and the right operand is never consulted; otherwise the result
      is the right operand's on the original input, except that when the left
      operand raised, a right error gets the left error as its cause. */
  lemma OrChoice(l: Operation, r: Operation, name: string, input: map<string, Value>)
    ensures PrepareField(l, name, input).Success? && PrepareField(l, name, input).value != VNone ==>
      PrepareField(Or(l, r), name, input) == PrepareField(l, name, input)
    ensures PrepareField(l, name, input) == Success(VNone) ==>
      PrepareField(Or(l, r), name, input) == PrepareField(r, name, input)
    ensures PrepareField(l, name, input).Failure? ==>
      SameOutcome(PrepareField(r, name, input), PrepareField(Or(l, r), name, input))
    ensures PrepareField(l, name, input).Failure? && PrepareField(r, name, input).Failure? ==>
      PrepareField(Or(l, r), name, input).error.cause == Some(PrepareField(l, name, input).error)
  {
  }

  /** `l & r` (cor/adt/operation.py:162-168): a failing left operand fails
      the whole; a left result of `None` leaves the field unset whatever the
      right operand is, so the right operand never runs; any other left
      result is what the right operand sees, in an input where only the
      field's own entry is rebound. */
  lemma AndChoice(l: Operation, r: Operation, r2: Operation, name: string, input: map<string, Value>)
    ensures PrepareField(l, name, input).Failure? ==>
      PrepareField(And(l, r), name, input) == PrepareField(l, name, input)
    ensures PrepareField(l, name, input) == Success(VNone) ==>
      PrepareField(And(l, r), name, input) == Success(VNone) &&
      PrepareField(And(l, r), name, input) == PrepareField(And(l, r2), name, input)
    ensures PrepareField(l, name, input).Success? && PrepareField(l, name, input).value != VNone ==>
      var v := PrepareField(l, name, input).value;
      PrepareField(And(l, r), name, input) == PrepareField(r, name, input[name := v])
  {
  }

  /** `skip_missing & op`: an absent or `None` field stays unset without
      running `op`; a present value goes to `op` on the unchanged input. */
  lemma SkipMissingThen(op: Operation, name: string, input: map<string, Value>)
    ensures name !in input || input[name] == VNone ==>
      PrepareField(And(SkipMissing, op), name, input) == Success(VNone)
    ensures name in input && input[name] != VNone ==>
      PrepareField(And(SkipMissing, op), name, input) == PrepareField(op, name, input)
  {
    if name in input && input[name] != VNone {
      assert input[name := input[name]] == input;
    }
  }

  /** `op | provide_missing(d)` never raises, and with a default other than
      `None` it always sets the field. */
  lemma OrProvideMissingTotal(op: Operation, d: Value, name: string, input: map<string, Value>)
    ensures PrepareField(Or(op, ProvideMissing(d)), name, input).Success?
    ensures d != VNone ==> PrepareField(Or(op, ProvideMissing(d)), name, input).value != VNone
  {
  }

  /** An operation made with `convert` from anything but an operation, and so
      every guard, reports an absent field as a `MissingFieldError` for it. */
  lemma ConvertedMissing(c: Convertible, name: string, input: map<string, Value>)
    requires !c.FromOperation?
    requires name !in input
    ensures PrepareField(Convert(c), name, input).Failure?
    ensures PrepareField(Convert(c), name, input).error.cls == MissingFieldError
    ensures ErrorName(PrepareField(Convert(c), name, input).error) == Some(AText(name))
  {
  }

  /** A guard at field level: the present value passes through unchanged when
      the condition holds; when it does not, a non-framework `err_cls` surfaces
      as an `InvalidFieldError` for the field caused by the `err_cls` error
      that carries the value. */
  lemma GuardedField(cond: Conversion, condition: Arg, errCls: ExcClass, name: string, input: map<string, Value>)
    requires name in input
    requires cond(input[name]).Success?
    ensures var r := PrepareField(OnlyIfOp(cond, condition, errCls), name, input);
      && (r.Success? <==> Truthy(cond(input[name]).value))
      && (r.Success? ==> r.value == input[name])
      && (r.Failure? && !IsError(errCls) ==>
            && r.error.cls == InvalidFieldError
            && ErrorName(r.error) == Some(AText(name))
            && r.error.cause == Some(Exc(errCls, [ConditionPayload(condition, input[name])], None)))
  {
  }

  /** `expect_types(*ts)` accepts exactly the instances of one of `ts` and
      rejects anything else with an `InvalidFieldError` caused by a
      `TypeError`. */
  lemma ExpectTypesField(types: seq<PyType>, name: string, input: map<string, Value>)
    requires |types| > 0
    requires name in input
    ensures var r := PrepareField(ExpectTypes(types), name, input);
      && (r.Success? <==> IsInstanceOfAny(input[name], types))
      && (r.Success? ==> r.value == input[name])
      && (r.Failure? ==> r.error.cls == InvalidFieldError && r.error.cause.Some? && r.error.cause.value.cls == TypeError)
  {
    GuardedField(HasTypes(types), AText(ExpectInfo(types)), TypeError, name, input);
  }

  /** `default_conversion` of a class checks the type: it accepts exactly that
      class's instances, without calling the class. */
  lemma DefaultConversionOfType(t: PyType, call: Conversion, name: string, input: map<string, Value>)
    requires name in input
    ensures var r := PrepareField(DefaultConversion(FromType(t, call)), name, input);
      (r.Success? <==> IsInstance(input[name], t)) && (r.Success? ==> r.value == input[name])
  {
    ExpectTypesField([t], name, input);
    if IsInstance(input[name], t) {
      assert IsInstanceOfAny(input[name], [t]) by { assert IsInstance(input[name], [t][0]); }
    }
  }

  /** `not_empty` accepts exactly the truthy values, rejecting the rest with
      an `InvalidFieldError` caused by a `ValueError`. */
  lemma NotEmptyField(name: string, input: map<string, Value>)
    requires name in input
    ensures var r := PrepareField(NotEmpty(), name, input);
      && (r.Success? <==> Truthy(input[name]))
      && (r.Failure? ==> r.error.cls == InvalidFieldError && r.error.cause.Some? && r.error.cause.value.cls == ValueError)
  {
    GuardedField(IsTruthy, AText("not empty"), ValueError, name, input);
  }

  /** `should_be(x)` keeps a present value exactly when it is `x` itself,
      and rejects any other value with an `InvalidFieldError` caused by a
      `ValueError`. */
  lemma ShouldBeField(x: Value, name: string, input: map<string, Value>)
    requires name in input
    ensures var r := PrepareField(ShouldBe(x), name, input);
      && (r.Success? <==> input[name] == x)
      && (r.Success? ==> r.value == x)
      && (r.Failure? ==> r.error.cls == InvalidFieldError && r.error.cause.Some? && r.error.cause.value.cls == ValueError)
  {
    GuardedField(IsValue(x), AFormat("value is {} constant", x), ValueError, name, input);
  }

  /** `should_be` tests identity: an equal `Tag` member passes, but a dict
      with the same entries as the expected one and a different identity is
      rejected. */
  lemma ShouldBeIsIdentity(name: string)
    ensures PrepareField(ShouldBe(VTag("Kind", "A", VStr("a"))), name, map[name := VTag("Kind", "A", VStr("a"))])
      == Success(VTag("Kind", "A", VStr("a")))
    ensures PrepareField(ShouldBe(VDict(1, map[])), name, map[name := VDict(2, map[])]).Failure?
    ensures Eq(VDict(1, map[]), VDict(2, map[]))
  {
  }

  /** Every operation built from operations, however combined, raises only
      framework errors. */
  lemma {:induction false} CombinedGenuine(op: Operation, x: Convertible)
    requires Genuine(op)
    requires x.FromOperation? ==> Genuine(x.op)
    requires !op.SkipMissing? || x.FromOperation?
    ensures Genuine(AndWith(op, x)) && Genuine(OrWith(op, x))
  {
  }

  /** `expect_type(int) | expect_type(str)` accepts exactly the ints
      (`bool` included) and the strings, unchanged. */
  lemma IntOrStr(name: string, input: map<string, Value>)
    requires name in input
    ensures var r := PrepareField(Or(ExpectType(TInt), ExpectType(TStr)), name, input);
      && (r.Success? <==> IsInstance(input[name], TInt) || IsInstance(input[name], TStr))
      && (r.Success? ==> r.value == input[name])
  {
    var v := input[name];
    ExpectTypesField([TInt], name, input);
    ExpectTypesField([TStr], name, input);
    if IsInstance(v, TInt) { assert IsInstance(v, [TInt][0]); }
    if IsInstance(v, TStr) { assert IsInstance(v, [TStr][0]); }
    OrChoice(ExpectType(TInt), ExpectType(TStr), name, input);
  }
}
