/** Hook factories of cor/adt/hook.py: an optional operation paired with a
    list of functions making a hook for a field name, composed with `<<`, and
    the `field_invariant` hook. Records of this version do not run hooks. */
module Hooks {
  import opened Values
  import opened Errors
  import opened Operations

  /** `Target` (cor/adt/hook.py:44-45): when a hook runs. */
  datatype Target = PostInit

  /** A hook: a function of the record instance marked with its target. */
  datatype Hook = Hook(target: Target, run: Instance -> Result<Value>)

  /** `HooksFactory(operation, *factories)` (cor/adt/hook.py:14-17). */
  datatype HooksFactory = HooksFactory(operation: Option<Operation>, factories: seq<string -> Hook>)

  /** An operand of `<<`. */
  datatype Operand =
    | OperationOperand(op: Operation)
    | HooksOperand(hf: HooksFactory)
    | OtherOperand(v: Value)

  function OperandType(x: Operand): PyType {
    match x
    case OperationOperand(_) => TClass("Operation")
    case HooksOperand(_) => TClass("HooksFactory")
    case OtherOperand(v) => TypeOf(v)
  }

  function OperandArg(x: Operand): Arg {
    match x
    case OperationOperand(_) => AObject("Operation")
    case HooksOperand(_) => AObject("HooksFactory")
    case OtherOperand(v) => AValue(v)
  }

  /** `gen_hooks(name)` (cor/adt/hook.py:23-25). */
  function GenHooks(hf: HooksFactory, name: string): seq<Hook> {
    seq(|hf.factories|, i requires 0 <= i < |hf.factories| => hf.factories[i](name))
  }

  /** `hf.extended(operation, factories)` (cor/adt/hook.py:27-28): the given
      factories come first. ShiftAssociative and ChainKeepsLeftmostOperation
      state what chains of `<<` built on it give. */
  function Extended(hf: HooksFactory, operation: Option<Operation>, factories: seq<string -> Hook>): (r: HooksFactory)
    ensures r.operation == operation
    ensures |r.factories| == |factories| + |hf.factories|
    ensures r.factories[..|factories|] == factories && r.factories[|factories|..] == hf.factories
  {
    HooksFactory(operation, factories + hf.factories)
  }

  /** `hf << x` (cor/adt/hook.py:30-32): with another `HooksFactory`, the left
      operation and the left factories followed by the right ones; with
      anything else, a `TypeError`. */
  function LShift(hf: HooksFactory, x: Operand): (r: Result<HooksFactory>)
    ensures r.Success? <==> x.HooksOperand?
    ensures r.Success? ==> r.value.operation == hf.operation
    ensures r.Success? ==> r.value.factories == hf.factories + x.hf.factories
    ensures r.Failure? ==> r.error == UnexpectedType(OperandArg(x), OperandType(x), [TClass("HooksFactory")])
  {
    match x
    case HooksOperand(other) => Success(Extended(other, hf.operation, hf.factories))
    case _ => Failure(UnexpectedType(OperandArg(x), OperandType(x), [TClass("HooksFactory")]))
  }

  /** `x << hf` when `x` is not a `HooksFactory` (cor/adt/hook.py:34-36): an
      operation gets `hf`'s factories; anything else is a `TypeError`. */
  function RLShift(hf: HooksFactory, x: Operand): (r: Result<HooksFactory>)
    requires !x.HooksOperand?
    ensures r.Success? <==> x.OperationOperand?
    ensures r.Success? ==> r.value == HooksFactory(Some(x.op), hf.factories)
    ensures r.Failure? ==> r.error.cls == TypeError
  {
    match x
    case OperationOperand(op) => Success(HooksFactory(Some(op), hf.factories))
    case _ => Failure(UnexpectedType(OperandArg(x), OperandType(x), [TClass("Operation")]))
  }

  /** Python's dispatch of `left << right` when one side is a
      `HooksFactory`: the left operand's `__lshift__` if it is one, otherwise
      the right operand's `__rlshift__`. */
  function Shift(left: Operand, right: Operand): (r: Result<HooksFactory>)
    requires left.HooksOperand? || right.HooksOperand?
  {
    if left.HooksOperand? then LShift(left.hf, right) else RLShift(right.hf, left)
  }

  /** `op << f1 << f2` keeps the leftmost operation and the factories in
      order. */
  lemma ChainKeepsLeftmostOperation(op: Operation, f1: HooksFactory, f2: HooksFactory)
    ensures Shift(OperationOperand(op), HooksOperand(f1)).Success?
    ensures var h := Shift(OperationOperand(op), HooksOperand(f1)).value;
      Shift(HooksOperand(h), HooksOperand(f2)) == Success(HooksFactory(Some(op), f1.factories + f2.factories))
  {
  }

  /** `<<` on hook factories is associative, and the hooks it generates are
      the left operand's followed by the right operand's. */
  lemma ShiftAssociative(a: HooksFactory, b: HooksFactory, c: HooksFactory, name: string)
    ensures var ab := LShift(a, HooksOperand(b)).value;
      var bc := LShift(b, HooksOperand(c)).value;
      LShift(ab, HooksOperand(c)) == LShift(a, HooksOperand(bc))
    ensures GenHooks(LShift(a, HooksOperand(b)).value, name) == GenHooks(a, name) + GenHooks(b, name)
  {
    var ab := LShift(a, HooksOperand(b)).value;
    assert ab.factories == a.factories + b.factories;
    assert (a.factories + b.factories) + c.factories == a.factories + (b.factories + c.factories);
  }

  /** `getattr(obj, name, None)` of a record. */
  function FieldOrNone(obj: Instance, name: string): Value {
    match Lookup(obj, name)
    case Some(v) => v
    case None => VNone
  }

  /** What the hook of `field_invariant(fn)` for `name` does when it runs
      (cor/adt/hook.py:67-71). */
  function RunInvariant(fn: (Instance, string, Value) -> Result<Value>, name: string, obj: Instance): Result<Value> {
    match fn(obj, name, FieldOrNone(obj, name))
    case Success(v) => Success(v)
    case Failure(e) => Failure(InvalidField(name, AText("Failed invariant check")).(cause := Some(e)))
  }

  /** `field_invariant(fn)` (cor/adt/hook.py:55-75): no operation, and one
      factory making a post-init hook for the field. */
  function FieldInvariant(fn: (Instance, string, Value) -> Result<Value>): HooksFactory {
    HooksFactory(None, [(name: string) => Hook(PostInit, (obj: Instance) => RunInvariant(fn, name, obj))])
  }

  /** The one hook of `field_invariant(fn)` runs after init, calls `fn` with
      the instance, the field name and the field's value (`None` when unset),
      returns what `fn` returns, and turns any exception of `fn`, framework
      or not, into an `InvalidFieldError` for the field caused by it. */
  lemma FieldInvariantHook(fn: (Instance, string, Value) -> Result<Value>, name: string, obj: Instance)
    ensures |GenHooks(FieldInvariant(fn), name)| == 1
    ensures var h := GenHooks(FieldInvariant(fn), name)[0];
      var res := fn(obj, name, if Lookup(obj, name).Some? then Lookup(obj, name).value else VNone);
      && h.target == PostInit
      && (res.Success? ==> h.run(obj) == res)
      && (res.Failure? ==>
            && h.run(obj).Failure?
            && h.run(obj).error.cls == InvalidFieldError
            && ErrorName(h.run(obj).error) == Some(AText(name))
            && ErrorInfo(h.run(obj).error) == Some(AText("Failed invariant check"))
            && h.run(obj).error.cause == Some(res.error))
  {
  }

  /** What `default_conversion`, and so `op & x` and `op | x`, can be given
      once hook factories exist. */
  datatype Conversand = Convertible(c: Convertible) | HooksConversand(hf: HooksFactory)

  /** `default_conversion(x)` including its rejection of a `HooksFactory`
      with `ValueError` (cor/adt/hook.py:39-41). */
  function DefaultConversionOf(x: Conversand): (r: Result<Operation>)
    ensures x.HooksConversand? ==> r.Failure? && r.error.cls == ValueError
    ensures x.Convertible? ==> r == Success(DefaultConversion(x.c))
  {
    match x
    case HooksConversand(_) => Failure(Exc(ValueError, [AObject("HooksFactory")], None))
    case Convertible(c) => Success(DefaultConversion(c))
  }

  /** `op & x` once hook factories exist: a `HooksFactory` is rejected with
      `ValueError` by `default_conversion` (cor/adt/operation.py:64-65),
      except after `skip_missing`, which takes it unconverted
      (cor/adt/operation.py:228-229). The result leaves an absent or `None`
      field unset, and fails with `AttributeError` when a present value
      other than `None` is prepared, since the factory has no
      `prepare_field` (cor/adt/operation.py:165-167). */
  function AndOf(op: Operation, x: Conversand): (r: Result<Operation>)
    requires !op.NoPrepareField?
    ensures r.Failure? <==> x.HooksConversand? && !op.SkipMissing?
    ensures r.Failure? ==> r.error.cls == ValueError
    ensures x.Convertible? ==> r == Success(AndWith(op, x.c))
    ensures x.HooksConversand? && op.SkipMissing? ==>
      r.Success? && r.value.And? && !Genuine(r.value.right)
    ensures x.HooksConversand? && op.SkipMissing? ==> forall name: string, input: map<string, Value> ::
      (name !in input || input[name] == VNone) ==> PrepareField(r.value, name, input) == Success(VNone)
    ensures x.HooksConversand? && op.SkipMissing? ==> forall name: string, input: map<string, Value> ::
      name in input && input[name] != VNone ==>
        PrepareField(r.value, name, input).Failure? && PrepareField(r.value, name, input).error.cls == AttributeError
  {
    match x
    case Convertible(c) => Success(AndWith(op, c))
    case HooksConversand(_) =>
      if op.SkipMissing? then Success(And(op, NoPrepareField("HooksFactory")))
      else Failure(Exc(ValueError, [AObject("HooksFactory")], None))
  }

  /** `op | x` once hook factories exist (cor/adt/operation.py:67-68). */
  function OrOf(op: Operation, x: Conversand): (r: Result<Operation>)
    requires !op.NoPrepareField?
    ensures r.Failure? <==> x.HooksConversand?
    ensures r.Failure? ==> r.error.cls == ValueError
    ensures x.Convertible? ==> r == Success(OrWith(op, x.c))
  {
    var right :- DefaultConversionOf(x);
    Success(Or(op, right))
  }
}
