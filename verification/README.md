# pycor records and field operations, in Dafny

A Dafny model of the core of pycor (`cor`), a Python library for declaring
record types by contract:

- A record class lists its fields. Each field is bound to an *operation*
  that extracts the field from an input mapping and converts or validates it.
- Operations combine with `&`, which chains them, and `|`, which falls back to
  the right operand.
- Construction prepares every field from the input and seals the instance.
  A closed `Record` then refuses every write to its fields. An
  `ExtensibleRecord` also stores the remaining input keys, and refuses every
  write at all.

The model covers:

| module | file | models |
|---|---|---|
| `Values` | `values.dfy` | Python values, record instances, `bool()`, `isinstance`, `type()`, `==` with the records' `__eq__`, `gen_record_names`, `gen_names`, `gen_fields`, `len()` |
| `Errors` | `errors.dfy` | the exception hierarchy of `cor/adt/error.py`, `ensure_callable`, `ensure_has_type`, `Error.wrap`, and `Result` for "returns or raises" |
| `Operations` | `operations.dfy` | `SimpleConversion`, `And`, `Or`, `skip_missing`, `provide_missing`, `only_if`, `expect_types`, `should_be`, `not_empty`, `convert`, `default_conversion`, and the laws of `&` and `\|` |
| `Contracts` | `contract.dfy` | how a new record class merges the fields of its bases with those of its own body |
| `Record` | `record.dfy` | `_get_input_mapping`, `gen_fields_from_input`, construction of both record kinds, `__setattr__`, `as_basic_type` |
| `Hooks` | `hooks.dfy` | `HooksFactory` and its `<<`, `field_invariant`, and `default_conversion` rejecting hook factories |
| `Util` | `util.dfy` | `is_sparse`, `compose`, `Attrs`, `split_args` |

Modelling choices:

- A Python call that returns or raises is a `Result`. `Success(v)` is the
  returned value and `Failure(e)` the raised exception. The exception
  carries its class, its `args` and its `__cause__`.
- `prepare_field` returning `None` means "leave the field unset", as in the
  source.
- User callables (conversions, conditions, hook functions) are Dafny
  function values. Their behaviour is a parameter of the model.
- Integers are unbounded, as Python's are.
- Dict identity matters for `should_be` (`is`). A dict value therefore
  carries an identity number.
- A record is an `Instance`. It holds:
  - its class name and its record base classes;
  - its declared slot names;
  - the slots that are set;
  - the `__dict__` of an extensible record, with its insertion order;
  - the `_initialized` flag.
- `ExtensibleRecord.__init__` passes through the input keys that are not
  fields in set-iteration order. That order is not determined, so
  `Record.New` is a method that chooses the order arbitrarily and proves its
  contract for every order.

Field preparation is modelled twice. `gen_fields_from_input` yields the bare
prepared value, while both `__init__` methods unpack each yielded item as a
`(name, value)` pair (see "## Findings"). The members whose names end in
`AsWritten` model the code as written. `Record.New` and the members it rests
on model the evidently intended `(name, value)` yield.

Elsewhere, where the code and its documentation differ, the model follows the
code:

- `gen_record_names` stops at the first slot name starting with `_`, not only
  at the service slot. A field whose name starts with `_` therefore hides
  itself and every later field from `gen_names`, iteration, `==` and
  `as_basic_type`.
- `AccessError` is not a subclass of `Error`.
- A passed-through input key `_initialized` with a truthy value seals an
  extensible record during construction. Any key passed through after it
  then fails with `AccessError`.
- `==` between two records lets the right operand's `__eq__` decide when its
  class derives strictly from the left operand's class, as Python's
  reflected-operand rule does. When the other operand is a record, its `keys()`
  view is compared through that record's `len()` and the names it iterates
  over, not through its set fields.
- Records of this version never run hooks. `HooksFactory` and
  `field_invariant` are modelled on their own.

## Model

| member | source | states |
|---|---|---|
| Values.PairsToMapSpec | cor/util.py:43 | storing `(name, value)` pairs in order binds exactly the pairs' names, each to the value of its last pair |
| Values.SingleType | cor/adt/error.py:13 | `isinstance(v, (t,))` holds exactly when `isinstance(v, t)` does |
| Values.TypeOf | cor/adt/error.py:17 | `type(v)` is a concrete class of which `v` is an instance |
| Values.Lookup | cor/adt/record.py:147-151 | a record attribute exists exactly for a set slot or, on an extensible record, a `__dict__` key, and reads that slot or entry |
| Values.RecordNames | cor/adt/record.py:120-125 | the names are the longest prefix of the slots with no name starting with `_`; the next slot, if any, starts with `_` |
| Values.PresentFields | cor/adt/record.py:114-118 | `gen_fields` yields only names of `gen_names` with their current values, and every set name among them; with distinct names, in `gen_names` order and each once |
| Values.Eq | cor/adt/record.py:127-142 | every value equals itself, and a record equals no value that is not a mapping, whichever side it is on |
| Values.Cmp | cor/adt/record.py:127-142 | the same two facts for every orientation of a comparison nested inside a record's `__eq__` |
| Values.RecordEq | cor/adt/record.py:127-142 | `__eq__` returns true only against a mapping, and a record's `__eq__` accepts the record itself |
| Values.MappingGet | cor/adt/record.py:147-151 | `mapping.get(k)` on a dict reads its entry, and on a record reads a set field only |
| Errors.NewError | cor/adt/error.py:23-25 | an `Error` carries one dict holding `name`, `info` and the keyword arguments; a keyword `name` or `info` is a `TypeError` |
| Errors.MakeError | cor/adt/error.py:23-25 | without keyword arguments the payload is exactly `{name, info}` and there is no cause |
| Errors.MissingField | cor/adt/error.py:43-45 | `MissingFieldError(name)` is an `Error` whose `info` defaults to `'missing'` |
| Errors.InvalidField | cor/adt/error.py:48-49 | `InvalidFieldError(name, info)` is an `Error` with that name and info |
| Errors.Wrap | cor/adt/error.py:27-32 | `err.wrap(name)` keeps the class, takes the new name, and has the original error as `info` |
| Errors.EnsureCallable | cor/adt/error.py:2-9 | a callable is returned as it is; anything else is a `TypeError` naming the value and its type |
| Errors.UnexpectedType | cor/adt/error.py:14-19 | the unexpected-type error is a `TypeError`, which is not a framework `Error` |
| Errors.EnsureHasType | cor/adt/error.py:12-20 | the value is returned unchanged exactly when it is an instance of an expected type; otherwise a `TypeError` naming the value, its type and the expectation |
| Operations.ConvertField | cor/adt/operation.py:112-118 | succeeds exactly when the conversion does, with its value; an `Error` passes unchanged; any other exception becomes an `InvalidFieldError` for the field caused by it |
| Operations.PrepareSimple | cor/adt/operation.py:131-139 | an absent field is a `MissingFieldError` for it; a present one is converted; only `Error`s escape |
| Operations.PrepareSkipMissing | cor/adt/operation.py:224-226 | `skip_missing` yields `values.get(name)`: the value, or `None` when absent |
| Operations.PrepareProvideMissing | cor/adt/operation.py:243-244 | `provide_missing(d)` never raises; it yields `d` for an absent or `None` field and the value otherwise |
| Operations.PrepareField | cor/adt/operation.py:159-187 | an operation tree built only of operations raises nothing but framework `Error`s |
| Operations.Guard | cor/adt/operation.py:254-261 | the value passes unchanged exactly when the condition returns something truthy; a raising condition propagates; a falsy one raises `err_cls` with the value and the condition |
| Operations.OnlyIf | cor/adt/operation.py:250-263 | a non-callable condition is a `TypeError`; otherwise the guard, described by `info`, or by `repr(fn)` when `info` is empty |
| Operations.Convert | cor/adt/operation.py:197-198 | an operation is kept; anything else becomes a `SimpleConversion` calling it |
| Operations.DefaultConversion | cor/adt/operation.py:76-88 | an operation is kept; a class becomes `expect_type`; a `Tag` member becomes `should_be`; anything else a `SimpleConversion` |
| Operations.AndWith | cor/adt/operation.py:64-65 | `op & x` chains `op` with `default_conversion(x)`, except after `skip_missing`, which takes `x` unconverted |
| Operations.OrWith | cor/adt/operation.py:67-68 | `op \| x` falls back from `op` to `default_conversion(x)` |
| Operations.AndAssociative | cor/adt/operation.py:162-168 | `(a & b) & c` and `a & (b & c)` prepare every field identically |
| Operations.OrAssociative | cor/adt/operation.py:174-187 | `(a \| b) \| c` and `a \| (b \| c)` agree on the value, and on the error up to its cause chain |
| Operations.AndChoice | cor/adt/operation.py:162-168 | a failing left operand fails the whole; a `None` left result leaves the field unset whatever the right operand is; any other left result is passed to the right operand in the input with only the field rebound |
| Operations.OrChoice | cor/adt/operation.py:174-187 | a left result other than `None` wins; otherwise the right operand decides on the original input; two errors chain, the left being the cause |
| Operations.SkipMissingThen | cor/adt/operation.py:224-229 | `skip_missing & op` leaves an absent or `None` field unset, and otherwise is `op` |
| Operations.OrProvideMissingTotal | cor/adt/operation.py:243-244 | `op \| provide_missing(d)` never raises, and sets the field when `d` is not `None` |
| Operations.ConvertedMissing | cor/adt/operation.py:131-135 | every converted callable, so every guard, reports an absent field as a `MissingFieldError` naming it |
| Operations.GuardedField | cor/adt/operation.py:254-261 | at field level a guard keeps exactly the values its condition accepts; a non-framework `err_cls` surfaces as an `InvalidFieldError` caused by it |
| Operations.ExpectTypesField | cor/adt/operation.py:266-277 | `expect_types(*ts)` accepts exactly the instances of one of `ts`, unchanged, and rejects others with an `InvalidFieldError` caused by a `TypeError` |
| Operations.DefaultConversionOfType | cor/adt/operation.py:81-83 | a class used as a conversion checks the type and never calls the class |
| Operations.NotEmptyField | cor/adt/operation.py:291 | `not_empty` accepts exactly the truthy values, rejecting the others with an `InvalidFieldError` caused by a `ValueError` |
| Operations.ShouldBeField | cor/adt/operation.py:284-288 | `should_be(x)` keeps a present value exactly when it is `x` itself, unchanged, and rejects any other with an `InvalidFieldError` caused by a `ValueError` |
| Operations.ShouldBeIsIdentity | cor/adt/operation.py:284-288 | an example of identity over equality: a dict equal to the expected one but with another identity is rejected |
| Operations.CombinedGenuine | cor/adt/operation.py:63-68 | combining operations with operations yields operation trees only |
| Operations.IntOrStr | cor/adt/operation.py:280-281 | `expect_type(int) \| expect_type(str)` accepts exactly ints, bools included, and strings, unchanged |
| Contracts.FromItemsSpec | cor/adt/record.py:51 | the dict comprehension keeps each name once, at its first position, bound to its last operation |
| Contracts.OwnFieldsNames | cor/adt/record.py:42-48 | the class body's fields are exactly the names it binds to operations |
| Contracts.MergeContractSpec | cor/adt/record.py:42-51 | the merged contract lists inherited names first, then new names, with no duplicates; an own declaration overrides an inherited one |
| Contracts.PlainAttributeNotField | cor/adt/record.py:44-48 | a name the body binds only to non-operations, and no base has, is not a field |
| Contracts.RedeclaredKeepsPosition | cor/adt/record.py:50-51 | a redeclared inherited field keeps its inherited position and takes the new operation |
| Record.UnpackRecord | cor/adt/record.py:147-151 | `{**record}` gives every `gen_names` name with its value, or the `KeyError` of the first unset name, caused by its `AttributeError` |
| Record.GetInputMapping | cor/adt/record.py:18-23 | falsy values give the overrides; a non-mapping is a `TypeError`; a mapping is merged with the overrides winning |
| Record.RecordFailure | cor/adt/record.py:93-96 | a field's `Error` becomes a `RecordError` of the class with that error as info; any other exception is first wrapped in an `InvalidFieldError` for the field |
| Record.PrepareFields | cor/adt/record.py:85-96 | with the corrected `(name, value)` yield: succeeds exactly when every field prepares; yields exactly the fields prepared to something other than `None`, with their values; otherwise the `RecordError` of a failing field with every earlier field prepared |
| Record.PairsArePreparedSlots | cor/adt/record.py:185-186 | with the corrected yield: assigning the prepared pairs in order sets exactly the prepared slots |
| Record.PreparedSlotsSpec | cor/adt/record.py:88-92 | with the corrected yield and distinct names, a slot is set exactly when its field prepared to something other than `None`, and holds that value |
| Record.New | cor/adt/record.py:181-218 | with the corrected yield: construction fails exactly as the input mapping or a field does, or on an early seal; on success the instance is sealed, well formed, holds the prepared fields, and an extensible one holds every other input key verbatim |
| Record.PassThrough | cor/adt/record.py:214-216 | every input key that is not a field lands in `__dict__` unchanged and once, unless a truthy `_initialized` seals the record first |
| Record.AssignExtra | cor/adt/record.py:214-216 | whatever the iteration order, the keys other than `_initialized` are stored verbatim, each once, in the order of assignment |
| Record.SetAttr | cor/adt/record.py:189-223 | writes succeed exactly for `_initialized` or on an unsealed record with room for the name; `AccessError(name)` or `AccessError()` once sealed; a write changes only its own name and never loses a name |
| Record.ConstructedIsSealed | cor/adt/record.py:184-192 | a constructed record refuses every write to its fields, and an extensible one every write, with `AccessError` |
| Record.ResetUnseals | cor/adt/record.py:189-192 | writing a falsy `_initialized` makes the fields writable again |
| Record.AsBasicType | cor/adt/record.py:236-238 | a `Tag` member becomes its value; a record becomes a dict with exactly its set `gen_names`; anything else is kept |
| Record.AsBasicTypeOfRecord | cor/adt/record.py:236-238 | each entry of a record's basic form is the basic form of its field's value |
| Record.RecordEqualsBasicForm | cor/adt/record.py:132-140 | a fully set record of plain values equals its basic form, from either side |
| Record.CmpOrientation | cor/adt/record.py:127-142 | which side of an outer comparison an operand came from does not change the answer Python gives |
| Record.SameClassEq | cor/adt/record.py:128-130 | two records of one class are equal exactly when their set fields agree pairwise, names and values, as far as the shorter list goes |
| Record.TrailingUnsetEqual | cor/adt/record.py:128-130 | a record of the same class whose set fields are a prefix of another's equals it, from either side |
| Record.LeadingNamesDiffer | cor/adt/record.py:128-130 | when the first set fields of two records of one class have different names, the records differ from either side |
| Record.RecordAgainstDict | cor/adt/record.py:132-140 | a record and a dict are equal, from either side, exactly when the dict's keys are the record's `gen_names` and each set field has an equal value in the dict |
| Record.SubclassDecides | cor/adt/record.py:127-142 | against a record of a strictly derived class, the derived record's `__eq__` decides from either side: the base record's `len()` and names must match the derived record's names, and each set field must have an equal value |
| Record.SubclassWithOtherNames | cor/adt/record.py:132-134 | a derived-class record whose number of names differs from a base-class record's `len()` equals it from neither side |
| Record.UnpackPair | cor/adt/record.py:185 | `name, value = v` raises `TypeError` for a scalar; a list, string or record unpacks exactly when it has two elements (names, for a record), into those two; any other length, or a dict, is a `ValueError` |
| Record.InitFieldsAsWritten | cor/adt/record.py:88-96 | as written, the field loop gets through only when every field prepares, and keeps the instance well formed |
| Record.ScalarFirstRejected | cor/adt/record.py:88-92 | as written, the field loop raises `TypeError` whenever the first field that prepares to something other than `None` prepares to a number, a boolean or a `Tag` member |
| Record.InitAsWritten | cor/adt/record.py:181-218 | as written, input-mapping errors propagate; a first set field that is a number, bool or `Tag` is a `TypeError`; success means every field prepared, the instance is sealed and well formed, and an extensible one holds each passed-through key verbatim |
| Record.PassThroughAsWritten | cor/adt/record.py:214-216 | as written, each key is stored with `setattr`; the only failure is `AccessError()`, which cannot happen before a truthy `_initialized`; every stored key holds its input value |
| Record.AsWrittenRejectsScalarField | cor/adt/record.py:91-92 | as written, a field prepared to a number, a bool or a `Tag` makes construction fail with `TypeError` |
| Record.PointFromIntAsWritten | cor/adt/record.py:185-186 | as written, `Point(x=expect_type(int))` built from `{'x': 1}` gets the input `{'x': 1}` and its field loop raises `TypeError` |
| Record.PointFromIntCorrected | cor/adt/record.py:88-92 | yielding `(name, value)` pairs, the same construction sets `x` to 1 |
| Hooks.Extended | cor/adt/hook.py:27-28 | the given factories come before the factory's own, with the given operation |
| Hooks.LShift | cor/adt/hook.py:30-32 | `hf << other` keeps the left operation and concatenates the factories left first; a non-factory is a `TypeError` |
| Hooks.RLShift | cor/adt/hook.py:34-36 | `op << hf` gives `op` the factories; a non-operation is a `TypeError` |
| Hooks.ChainKeepsLeftmostOperation | cor/adt/hook.py:30-36 | `op << f1 << f2` has `op` as its operation and the factories of `f1` then `f2` |
| Hooks.ShiftAssociative | cor/adt/hook.py:23-32 | `<<` on factories is associative, and the generated hooks are the left ones then the right ones |
| Hooks.FieldInvariantHook | cor/adt/hook.py:55-75 | the one hook runs post-init with the field's value, or `None`, returns what the check returns, and turns any exception into an `InvalidFieldError` for the field caused by it |
| Hooks.DefaultConversionOf | cor/adt/hook.py:39-41 | a hook factory as a conversion is a `ValueError`; anything else converts as before |
| Hooks.AndOf | cor/adt/operation.py:63-65 | `op & hf` is a `ValueError`, except after `skip_missing`, which takes `hf` unconverted (operation.py:228-229); through operation.py:165-167, the result leaves an absent or `None` field unset, and fails with `AttributeError` when a present value other than `None` is prepared |
| Hooks.OrOf | cor/adt/operation.py:67-68 | `op \| hf` is a `ValueError`; otherwise as before |
| Util.IsSparse | cor/util.py:7-16 | true exactly when some value failing the predicate is followed by one satisfying it |
| Util.NotSparseIsTwoRuns | cor/util.py:7-16 | not sparse exactly when the values split into a satisfying run followed by a failing run |
| Util.NoArgsNone | cor/util.py:20-21 | `compose()` returns `None` when called with no argument, and raises `TypeError` otherwise |
| Util.ComposeIsNested | cor/util.py:18-33 | `compose(f1, ..., fn)(args)` is `f1(f2(...fn(args)))`, exceptions propagating |
| Util.ComposeConcat | cor/util.py:25-31 | composing a concatenation is composing the two compositions |
| Util.NewAttrs | cor/util.py:41-44 | the attributes are the pairs' names and the keyword names; keywords win, and otherwise a name's last pair wins |
| Util.GetAttr | cor/util.py:46-53 | instance and class members come first; a dunder fails with `AttributeError`; another name reads `_attrs`, failing with an `AttributeError` caused by a `KeyError` |
| Util.SetAttr | cor/util.py:55-59 | `_attrs` replaces the dict; a dunder goes to the instance; any other name into `_attrs` |
| Util.SetThenGet | cor/util.py:46-59 | reading back a stored name gives the stored value, unless a class member of that name shadows it |
| Util.AsArgs | cor/util.py:67-68 | succeeds exactly when every name is present, giving the values in order; otherwise the `KeyError` of the first missing name |
| Util.FromMap | cor/util.py:70-72 | the attributes are exactly the names, each bound to `src.get(name)` |
| Util.FromMapAsArgs | cor/util.py:67-72 | `as_args(names)` of `from_map(names, src)` gives `src.get` of each name |
| Util.SplitArgs | cor/util.py:75-92 | the positional values are those before the first marker; each marker key collects, in order, the values whose nearest preceding marker has that key |
| Util.SplitKeepsEveryItem | cor/util.py:84-90 | the positional list and the keyed lists together are a permutation of the non-marker arguments |

## Left out

- Contract descriptions are not modelled: `info`, `ContractInfo`, `describe_contract`, `_obj_info`, `get_contract_info` and the text of `expect_types`' list of type names. They only produce documentation strings.
- `cor/adt/hook.py` imports `get_contract_info` from `cor/adt/operation.py`, which does not define it. The model treats the import as resolved.
- `choose_by_field` is not modelled. It needs record factories as operations, and those are not modelled either.
- `FieldInvariant` in `cor/adt/operation.py` is not modelled. It refers to `FieldError` and `InvalidFieldError` without the `error.` prefix, and nothing uses it.
- `is_around` is not modelled. It is floating point, and `cor/util.py` does not import `math`.
- Class creation by `RecordMeta` is not modelled: `__slots__`, `bases[0]`, the `Factory` of a class, mixins, and `get_contract`. Only the field merge is modelled. A class is a `RecordClass` value with distinct field names.
- Values are not modelled as complete Python objects:
  - there are no floats, bytes, tuples or sets;
  - only dicts have identity;
  - tuples in error payloads are written as lists;
  - the dict made by `as_basic_type` has the fixed identity 0.
- `_get_input_mapping` assumes a Python version in which `collections.Mapping` exists.
- Record.New: a passed-through key naming a class attribute other than `_initialized` (a method, `_fields`) is stored like any other key. In Python, writing it could shadow the class attribute or fail.
- Record.ValidClass excludes a field named `_initialized`.
- Operations.ExpectTypes requires at least one type. The source asserts this.
- Operations.Raised: `err_cls` is one of the modelled exception classes, not an arbitrary callable.
- Record.InitAsWritten, Record.InitFieldsAsWritten and Record.UnpackPair exclude fields that prepare to a two-entry dict. Unpacking such a dict yields its keys in an order the model does not fix.
- Record.New, Record.PrepareFields, Record.PairsArePreparedSlots and Record.PreparedSlotsSpec model the corrected `(name, value)` yield, not the code as written. As written, construction fails with a `TypeError` for any field that prepares to a scalar (see "## Findings" and Record.InitAsWritten).
- Contracts.OwnFields: the class body is given with each name once, as its namespace dict holds it. The model does not require distinct names; a namespace that repeated one would keep both entries, which a dict cannot hold.
- `SimpleConversion(op)` taking the conversion out of another unary operation is not modelled. The source only does this for `UnaryOperation`s, which `convert` never wraps.
- Util.SetAttr requires a dict when `_attrs` is assigned. Assigning anything else leaves an object whose later reads fail in ways that depend on the value.
- Util.GetAttr: dunder attributes that Python defines on every object, such as `__class__`, are not modelled as found.
- `Attrs.get_names` and `as_dict` return the `_attrs` dict and its keys. The model has the map, but not the insertion order of its keys.
- Util.IsSparse: the predicate returns a bool. A predicate returning `1` or `0` compares equal to `True` or `False` in Python, and so behaves the same.
- Util.Compose passes positional arguments only. Keyword arguments go to the last function in the same way.
- Util.SplitArgs: a marker is identified by its string key. The `assert` of `split_args` that the enum's values are strings, and markers from other enums with non-string values, are not modelled.
- Record.PrepareFields states which pairs it yields, but not their order. The order does not affect the slots they set.
- Hooks are never run by records in this version. `gen_hooks` and the hook targets are modelled, but nothing calls them during construction.
- Identity of records and scalars (`is`) is modelled through value equality. Only dicts carry an identity.
- Values.InstanceOf, Values.RightFirst and Values.RecordEq identify a record class by its name. Two distinct classes with the same name, such as two `subrecord('P', ...)` calls make, are one class to `isinstance` and `==` in the model. In Python they are unrelated, so their records compare through the mapping branch of `__eq__`.

## Findings

| source | as written | input that shows it | evidently intended | confidence | as-written member | corrected member |
|---|---|---|---|---|---|---|
| cor/adt/record.py:91-92 | `gen_fields_from_input` yields the bare prepared value, while both `__init__` loops (`record.py:185`, `record.py:211`) unpack each yielded item as `name, value` | `class Point(Record): x = expect_type(int)` then `Point({'x': 1})`: unpacking `1` raises `TypeError` | yield `(name, value)` so that each prepared field is assigned to its slot | not executed | Record.PointFromIntAsWritten | Record.PointFromIntCorrected |
