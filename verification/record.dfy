/** Record construction and the record instance protocol of
    cor/adt/record.py: the input mapping, field preparation in contract
    order, the closed and extensible initialisation paths, the sealed flag
    that forbids writes, and `as_basic_type`. */
module Record {
  import opened Values
  import opened Errors
  import opened Operations
  import opened Contracts

  /** A record class: its name, the names of the record classes it derives
      from, whether it derives from `ExtensibleRecord`, and its contract. */
  datatype RecordClass = RecordClass(name: string, ancestors: seq<string>, extensible: bool, contract: Contract)

  /** A class the metaclass can build: distinct field names (the keys of a
      dict), none of them the service slot `_initialized`. */
  predicate ValidClass(cls: RecordClass) {
    NoDuplicates(Names(cls.contract)) && "_initialized" !in Names(cls.contract)
  }

  /** `{**record}`: the record's `gen_names` with their values, or the
      `KeyError` (caused by the `AttributeError` of reading an unset slot) for
      the first name that is not set. */
  function UnpackRecord(r: Instance, names: seq<string>): (m: Result<map<string, Value>>)
    ensures m.Success? <==> forall i :: 0 <= i < |names| ==> Lookup(r, names[i]).Some?
    ensures m.Success? ==> m.value.Keys == ToSet(names)
    ensures m.Success? ==> forall k :: k in m.value ==> Lookup(r, k) == Some(m.value[k])
    ensures m.Failure? ==> exists i :: (0 <= i < |names| && Lookup(r, names[i]).None? &&
      (forall j :: 0 <= j < i ==> Lookup(r, names[j]).Some?) &&
      m.error == Exc(KeyError, [AText(names[i])], Some(Exc(AttributeError, [AText(names[i])], None))))
  {
    if names == [] then Success(map[])
    else
      match Lookup(r, names[0])
      case None => Failure(Exc(KeyError, [AText(names[0])], Some(Exc(AttributeError, [AText(names[0])], None))))
      case Some(v) =>
        var rest := UnpackRecord(r, names[1..]);
        if rest.Failure? then
          var i :| 0 <= i < |names[1..]| && Lookup(r, names[1..][i]).None? &&
            (forall j :: 0 <= j < i ==> Lookup(r, names[1..][j]).Some?) &&
            rest.error == Exc(KeyError, [AText(names[1..][i])], Some(Exc(AttributeError, [AText(names[1..][i])], None)));
          assert forall j :: 0 < j <= i ==> names[j] == names[1..][j - 1];
          Failure(rest.error)
        else
          Success(rest.value[names[0] := v])
  }

  /** `_get_input_mapping(values, overrides)` (cor/adt/record.py:18-23): a
      falsy `values` (`None`, an empty mapping, `0`, ...) gives the overrides
      alone; a truthy non-mapping is a `TypeError`; a mapping is merged with
      the overrides, which win on a shared key. */
  function GetInputMapping(values: Value, overrides: map<string, Value>): (r: Result<map<string, Value>>)
    ensures !Truthy(values) ==> r == Success(overrides)
    ensures Truthy(values) && !IsInstance(values, TMapping) ==> r.Failure? && r.error.cls == TypeError
    ensures Truthy(values) && values.VDict? ==>
      && r.Success?
      && r.value.Keys == values.entries.Keys + overrides.Keys
      && (forall k :: k in overrides ==> r.value[k] == overrides[k])
      && (forall k :: k in values.entries && k !in overrides ==> r.value[k] == values.entries[k])
    ensures Truthy(values) && values.VRecord? ==>
      && (r.Success? <==> forall i :: 0 <= i < |GenNames(values.rec)| ==> Lookup(values.rec, GenNames(values.rec)[i]).Some?)
      && (r.Failure? ==> r.error.cls == KeyError)
      && (r.Success? ==> r.value.Keys == ToSet(GenNames(values.rec)) + overrides.Keys)
      && (r.Success? ==> forall k :: k in overrides ==> r.value[k] == overrides[k])
      && (r.Success? ==> forall k :: k in r.value && k !in overrides ==> Lookup(values.rec, k) == Some(r.value[k]))
  {
    if !Truthy(values) then Success(overrides)
    else
      SingleType(values, TMapping);
      var m :- EnsureHasType([TMapping], values);
      if m.VDict? then Success(m.entries + overrides)
      else if m.VRecord? then
        var fields :- UnpackRecord(m.rec, GenNames(m.rec));
        Success(fields + overrides)
      else
        assert false; Success(overrides)
  }

  /** The `RecordError` a failing field aborts construction with
      (cor/adt/record.py:93-96): its `info` is the field's error when that is
      an `Error`, and otherwise an `InvalidFieldError` for the field whose
      `info` is the exception; the field's exception is the cause. */
  function RecordFailure(clsName: string, name: string, e: Exc): (w: Exc)
    ensures w.cls == RecordError && ErrorName(w) == Some(AText(clsName)) && w.cause == Some(e)
    ensures IsError(e.cls) ==> ErrorInfo(w) == Some(AExc(e))
    ensures !IsError(e.cls) ==> ErrorInfo(w) == Some(AExc(InvalidField(name, AExc(e))))
  {
    var info := if IsError(e.cls) then AExc(e) else AExc(InvalidField(name, AExc(e)));
    MakeError(RecordError, AText(clsName), info).(cause := Some(e))
  }

  /** The result of preparing contract entry `f` from the input. */
  function Prepared(f: (string, Operation), input: map<string, Value>): Result<Value> {
    PrepareField(f.1, f.0, input)
  }

  /** Every field of the contract prepares without raising. */
  predicate AllPrepared(c: Contract, input: map<string, Value>) {
    forall i :: 0 <= i < |c| ==> Prepared(c[i], input).Success?
  }

  /** `p` is a field of the contract with the value it prepared to, which is
      not `None`. */
  predicate PreparedPair(c: Contract, input: map<string, Value>, p: (string, Value)) {
    exists i :: 0 <= i < |c| && p.0 == c[i].0 && Prepared(c[i], input) == Success(p.1) && p.1 != VNone
  }

  /** Field `k` is the first one of the contract that raises, and `err` is
      the `RecordError` its exception becomes. */
  predicate FirstFailure(clsName: string, c: Contract, input: map<string, Value>, k: int, err: Exc) {
    && 0 <= k < |c|
    && (forall i :: 0 <= i < k ==> Prepared(c[i], input).Success?)
    && Prepared(c[k], input).Failure?
    && err == RecordFailure(clsName, c[k].0, Prepared(c[k], input).error)
  }

  /** `gen_fields_from_input` (cor/adt/record.py:85-96), yielding
      `(name, value)` pairs: the fields are prepared in contract order, an
      unset (`None`) result is skipped, and the first failing field aborts
      with a `RecordError`. */
  function PrepareFields(clsName: string, c: Contract, input: map<string, Value>): (r: Result<seq<(string, Value)>>)
    ensures r.Success? <==> AllPrepared(c, input)
    ensures r.Success? ==> forall p :: p in r.value <==> PreparedPair(c, input, p)
    ensures r.Failure? ==> exists k :: FirstFailure(clsName, c, input, k, r.error)
  {
    if c == [] then Success([])
    else
      var rest := PrepareFields(clsName, c[1..], input);
      AllPreparedCons(c, input);
      match Prepared(c[0], input)
      case Failure(e) =>
        assert FirstFailure(clsName, c, input, 0, RecordFailure(clsName, c[0].0, e));
        Failure(RecordFailure(clsName, c[0].0, e))
      case Success(v) =>
        if rest.Failure? then
          FailingFieldCons(clsName, c, input, rest.error);
          Failure(rest.error)
        else
          PreparedPairsCons(c, input, v, rest.value);
          Success(if v == VNone then rest.value else [(c[0].0, v)] + rest.value)
  }

  /** Every field of a contract prepares exactly when the first one and every
      field of the tail do. */
  lemma AllPreparedCons(c: Contract, input: map<string, Value>)
    requires c != []
    ensures AllPrepared(c, input) <==> Prepared(c[0], input).Success? && AllPrepared(c[1..], input)
  {
    assert forall i :: 0 < i < |c| ==> c[i] == c[1..][i - 1];
  }

  /** The first failing field of the tail is, behind a first field that
      prepares, the first failing field of the contract. */
  lemma FailingFieldCons(clsName: string, c: Contract, input: map<string, Value>, err: Exc)
    requires c != [] && Prepared(c[0], input).Success?
    requires exists k :: FirstFailure(clsName, c[1..], input, k, err)
    ensures exists k :: FirstFailure(clsName, c, input, k, err)
  {
    var k :| FirstFailure(clsName, c[1..], input, k, err);
    assert forall i :: 0 < i < |c| ==> c[i] == c[1..][i - 1];
    assert FirstFailure(clsName, c, input, k + 1, err);
  }

  /** The pairs prepared from a contract are those of its tail, preceded by
      its first field unless that prepared to `None`. */
  lemma PreparedPairsCons(c: Contract, input: map<string, Value>, v: Value, rest: seq<(string, Value)>)
    requires c != [] && Prepared(c[0], input) == Success(v)
    requires forall p :: p in rest <==> PreparedPair(c[1..], input, p)
    ensures forall p :: p in (if v == VNone then rest else [(c[0].0, v)] + rest) <==> PreparedPair(c, input, p)
  {
    assert forall i :: 0 < i < |c| ==> c[i] == c[1..][i - 1];
    forall p ensures PreparedPair(c[1..], input, p) ==> PreparedPair(c, input, p) {
      if PreparedPair(c[1..], input, p) {
        var i :| 0 <= i < |c[1..]| && p.0 == c[1..][i].0 && Prepared(c[1..][i], input) == Success(p.1) && p.1 != VNone;
        assert c[i + 1] == c[1..][i];
      }
    }
  }

  /** The slots the contract's prepared fields set, field by field. */
  function PreparedSlots(c: Contract, input: map<string, Value>): map<string, Value>
    requires AllPrepared(c, input)
  {
    if c == [] then map[]
    else
      var m := PreparedSlots(c[1..], input);
      var v := Prepared(c[0], input).value;
      if v == VNone || c[0].0 in m then m else m[c[0].0 := v]
  }

  /** Assigning the prepared pairs sets exactly the prepared slots. */
  lemma {:induction false} PairsArePreparedSlots(clsName: string, c: Contract, input: map<string, Value>)
    requires PrepareFields(clsName, c, input).Success?
    ensures PairsToMap(PrepareFields(clsName, c, input).value) == PreparedSlots(c, input)
  {
    if c != [] {
      assert forall i :: 0 < i < |c| ==> c[i] == c[1..][i - 1];
      PairsArePreparedSlots(clsName, c[1..], input);
      var fs := PrepareFields(clsName, c, input).value;
      if Prepared(c[0], input).value != VNone {
        assert fs[1..] == PrepareFields(clsName, c[1..], input).value;
      }
    }
  }

  /** With distinct field names, a slot is set exactly for each field whose
      prepared value is not `None`, and holds that value. */
  lemma {:induction false} PreparedSlotsSpec(c: Contract, input: map<string, Value>)
    requires NoDuplicates(Names(c))
    requires AllPrepared(c, input)
    ensures forall n :: n in PreparedSlots(c, input) ==> n in Names(c)
    ensures forall i :: 0 <= i < |c| ==>
      var v := Prepared(c[i], input).value;
      (c[i].0 in PreparedSlots(c, input) <==> v != VNone) &&
      (c[i].0 in PreparedSlots(c, input) ==> PreparedSlots(c, input)[c[i].0] == v)
  {
    if c != [] {
      assert forall i :: 0 < i < |c| ==> c[i] == c[1..][i - 1];
      DistinctNamesTail(c);
      AllPreparedCons(c, input);
      PreparedSlotsSpec(c[1..], input);
      NamesCons(c);
      var m, v0 := PreparedSlots(c[1..], input), Prepared(c[0], input).value;
      assert c[0].0 !in m;
      assert PreparedSlots(c, input) == if v0 == VNone then m else m[c[0].0 := v0];
      forall i | 0 < i < |c|
        ensures c[i].0 in PreparedSlots(c, input) <==> c[i].0 in m
        ensures c[i].0 in m ==> PreparedSlots(c, input)[c[i].0] == m[c[i].0]
      {
      }
    }
  }

  /** The tail of a contract with distinct names has distinct names, none of
      them the first one. */
  lemma DistinctNamesTail(c: Contract)
    requires c != [] && NoDuplicates(Names(c))
    ensures NoDuplicates(Names(c[1..]))
    ensures c[0].0 !in Names(c[1..])
    ensures forall i :: 0 < i < |c| ==> c[i].0 != c[0].0
  {
    NamesCons(c);
    assert forall k :: 0 <= k < |c| - 1 ==> Names(c[1..])[k] == Names(c)[k + 1];
    forall i | 0 < i < |c| ensures c[i].0 != c[0].0 {
      assert Names(c)[0] != Names(c)[i];
    }
  }

  /** The names of the contract entries no other input key is passed through
      beside. */
  function Passthrough(cls: RecordClass, input: map<string, Value>): set<string> {
    input.Keys - ToSet(Names(cls.contract))
  }

  /** Whether passing the input keys through can hit the `AccessError` of a
      sealed instance: the input sets `_initialized` to something truthy and
      has another key to pass through, which may come after it. */
  predicate MaySealEarly(cls: RecordClass, input: map<string, Value>) {
    && cls.extensible
    && "_initialized" in Passthrough(cls, input)
    && Truthy(input["_initialized"])
    && Passthrough(cls, input) != {"_initialized"}
  }

  /** What a successful construction of `cls` from `input` leaves: an
      instance of the class, sealed, whose slots hold exactly the prepared
      fields that are not `None`, and, for an extensible class, whose
      `__dict__` holds every other input key verbatim. */
  ghost predicate Constructed(cls: RecordClass, input: map<string, Value>, r: Instance) {
    && r.cls == cls.name && r.bases == cls.ancestors && r.extensible == cls.extensible
    && r.declared == Names(cls.contract)
    && r.sealed
    && (forall i :: 0 <= i < |cls.contract| ==>
          var res := Prepared(cls.contract[i], input);
          res.Success? && (cls.contract[i].0 in r.slots <==> res.value != VNone) &&
          (cls.contract[i].0 in r.slots ==> r.slots[cls.contract[i].0] == res.value))
    && (r.extra.Keys == if cls.extensible then Passthrough(cls, input) - {"_initialized"} else {})
    && (forall k :: k in r.extra ==> r.extra[k] == input[k])
  }

  /** `Record.__init__` and `ExtensibleRecord.__init__`
      (cor/adt/record.py:181-187, 207-218). The order in which the extra keys
      of an extensible record are passed through is the iteration order of a
      set, which the model leaves open. */
  method New(cls: RecordClass, values: Value, overrides: map<string, Value>) returns (r: Result<Instance>)
    requires ValidClass(cls)
    ensures GetInputMapping(values, overrides).Failure? ==> r == Failure(GetInputMapping(values, overrides).error)
    ensures GetInputMapping(values, overrides).Success? ==>
      var input := GetInputMapping(values, overrides).value;
      var fields := PrepareFields(cls.name, cls.contract, input);
      && (fields.Failure? ==> r == Failure(fields.error))
      && (fields.Success? && !MaySealEarly(cls, input) ==> r.Success?)
      && (fields.Success? && r.Failure? ==> r.error == Exc(AccessError, [], None))
      && (r.Success? ==> WellFormed(r.value) && Constructed(cls, input, r.value))
  {
    var input :- GetInputMapping(values, overrides);
    var fields :- PrepareFields(cls.name, cls.contract, input);
    PairsArePreparedSlots(cls.name, cls.contract, input);
    PreparedSlotsSpec(cls.contract, input);
    var inst := Instance(cls.name, cls.ancestors, cls.extensible, Names(cls.contract), PairsToMap(fields), map[], [], false);
    var extra, order := map[], [];
    if cls.extensible {
      var sealedEarly;
      extra, order, sealedEarly := PassThrough(cls, input);
      if sealedEarly {
        return Failure(Exc(AccessError, [], None));
      }
    }
    inst := inst.(extra := extra, extraOrder := order, sealed := true);
    return Success(inst);
  }

  /** The loop over the extra input keys of an extensible record
      (cor/adt/record.py:214-216): each is assigned verbatim to the
      `__dict__`, except that `_initialized` is the sealing slot, and once it
      is truthy every later assignment raises `AccessError`, reported here as
      `sealedEarly`. */
  method PassThrough(cls: RecordClass, input: map<string, Value>)
    returns (extra: map<string, Value>, order: seq<string>, sealedEarly: bool)
    requires ValidClass(cls) && cls.extensible
    ensures sealedEarly ==> MaySealEarly(cls, input)
    ensures !sealedEarly ==>
      && extra.Keys == Passthrough(cls, input) - {"_initialized"}
      && ToSet(order) == extra.Keys && NoDuplicates(order)
      && (forall k :: k in extra ==> extra[k] == input[k])
  {
    var keys := Passthrough(cls, input);
    extra, order, sealedEarly := AssignExtra(keys, input);
  }

  method AssignExtra(keys: set<string>, input: map<string, Value>)
    returns (extra: map<string, Value>, order: seq<string>, sealedEarly: bool)
    requires keys <= input.Keys
    ensures sealedEarly ==> "_initialized" in keys && Truthy(input["_initialized"]) && keys != {"_initialized"}
    ensures !sealedEarly ==>
      && extra.Keys == keys - {"_initialized"}
      && ToSet(order) == extra.Keys && NoDuplicates(order)
      && (forall k :: k in extra ==> extra[k] == input[k])
  {
    var remaining := keys;
    var sealed := false;
    extra, order, sealedEarly := map[], [], false;
    while remaining != {}
      decreases |remaining|
      invariant remaining <= keys
      invariant extra.Keys == (keys - remaining) - {"_initialized"}
      invariant ToSet(order) == extra.Keys && NoDuplicates(order)
      invariant forall k :: k in extra ==> extra[k] == input[k]
      invariant sealed ==> "_initialized" in keys && Truthy(input["_initialized"])
    {
      var k :| k in remaining;
      remaining := remaining - {k};
      if k == "_initialized" {
        sealed := Truthy(input[k]);
      } else if sealed {
        assert k in keys;
        sealedEarly := true;
        return;
      } else {
        ExtraStep(extra, order, keys - (remaining + {k}), k, input[k]);
        extra, order := extra[k := input[k]], order + [k];
      }
    }
  }

  /** Passing one more key through keeps the `__dict__` and its order in
      step. */
  lemma ExtraStep(extra: map<string, Value>, order: seq<string>, done: set<string>, k: string, v: Value)
    requires extra.Keys == done - {"_initialized"}
    requires ToSet(order) == extra.Keys && NoDuplicates(order)
    requires k !in done && k != "_initialized"
    ensures extra[k := v].Keys == (done + {k}) - {"_initialized"}
    ensures ToSet(order + [k]) == extra[k := v].Keys && NoDuplicates(order + [k])
  {
    ToSetSnoc(order, k);
    assert k !in order by {
      assert k !in ToSet(order);
    }
  }

  // ---------------------------------------------------------------------
  // Writes after construction

  /** `setattr(record, name, v)` (cor/adt/record.py:189-192, 220-223). A
      closed record refuses, with `AccessError(name)`, writes to its fields
      once sealed, and has nowhere to store any other name; an extensible
      record refuses, with `AccessError()`, every write once sealed, and
      stores other names in its `__dict__`. The flag `_initialized` can
      always be written, and seals the record when set to a truthy value. */
  function SetAttr(r: Instance, name: string, v: Value): (res: Result<Instance>)
    ensures res.Success? <==> name == "_initialized" || (!r.sealed && (r.extensible || name in r.declared))
    ensures r.sealed && name != "_initialized" && !r.extensible && name in r.declared ==>
      res == Failure(Exc(AccessError, [AText(name)], None))
    ensures r.sealed && name != "_initialized" && r.extensible ==> res == Failure(Exc(AccessError, [], None))
    ensures !r.extensible && name !in r.declared && name != "_initialized" ==>
      res.Failure? && res.error.cls == AttributeError
    ensures WellFormed(r) && res.Success? && name != "_initialized" ==> Lookup(res.value, name) == Some(v)
    ensures res.Success? ==> forall n :: n != name ==> Lookup(res.value, n) == Lookup(r, n)
    ensures res.Success? ==> res.value.sealed == (if name == "_initialized" then Truthy(v) else r.sealed)
    ensures res.Success? ==> GenNames(r) <= GenNames(res.value)
    ensures WellFormed(r) && res.Success? ==> WellFormed(res.value)
  {
    if name != "_initialized" && r.sealed && (r.extensible || name in r.declared) then
      Failure(Exc(AccessError, if r.extensible then [] else [AText(name)], None))
    else if name == "_initialized" then Success(r.(sealed := Truthy(v)))
    else if name in r.declared then Success(r.(slots := r.slots[name := v]))
    else if r.extensible then
      Success(r.(extra := r.extra[name := v], extraOrder := if name in r.extra then r.extraOrder else r.extraOrder + [name]))
    else Failure(Exc(AttributeError, [AText("'" + r.cls + "' object has no attribute '" + name + "'")], None))
  }

  /** A constructed record refuses every write to a field, and an extensible
      one every write at all, except to `_initialized`. */
  lemma ConstructedIsSealed(cls: RecordClass, input: map<string, Value>, r: Instance, name: string, v: Value)
    requires Constructed(cls, input, r)
    requires name != "_initialized"
    requires name in Names(cls.contract) || cls.extensible
    ensures SetAttr(r, name, v).Failure? && SetAttr(r, name, v).error.cls == AccessError
  {
  }

  /** Writing a falsy `_initialized` unseals a record, after which its fields
      can be written again. */
  lemma ResetUnseals(r: Instance, name: string, v: Value)
    requires name in r.declared && name != "_initialized"
    ensures SetAttr(r, "_initialized", VBool(false)).Success?
    ensures var r' := SetAttr(r, "_initialized", VBool(false)).value;
      SetAttr(r', name, v).Success? && Lookup(SetAttr(r', name, v).value, name) == Some(v)
  {
  }

  // ---------------------------------------------------------------------
  // as_basic_type

  /** `as_basic_type(v)` (cor/adt/operation.py:10-12, 211-213,
      cor/adt/record.py:236-238): a `Tag` member becomes its `.value`, a
      record the dict of its set fields with each value converted in turn,
      and anything else is returned as it is. The new dict's identity is not
      modelled. */
  function AsBasicType(v: Value): (b: Value)
    ensures v.VTag? ==> b == v.tagValue
    ensures !v.VTag? && !v.VRecord? ==> b == v
    ensures v.VRecord? ==> b.VDict?
    ensures v.VRecord? ==> forall n :: n in b.entries <==> n in GenNames(v.rec) && Lookup(v.rec, n).Some?
    decreases v
  {
    match v
    case VTag(_, _, tv) => tv
    case VRecord(r) =>
      VDict(0, map n | n in ToSet(GenNames(r)) && Lookup(r, n).Some? :: AsBasicType(Lookup(r, n).value))
    case _ => v
  }

  /** A value that holds no `Tag` member and no record at any depth. */
  predicate Plain(v: Value) {
    match v
    case VList(xs) => forall i :: 0 <= i < |xs| ==> Plain(xs[i])
    case VDict(_, m) => forall k :: k in m ==> Plain(m[k])
    case VTag(_, _, _) => false
    case VRecord(_) => false
    case _ => true
  }

  /** `as_basic_type` of a record: each set field's value converted. */
  lemma AsBasicTypeOfRecord(r: Instance, n: string)
    requires n in GenNames(r) && Lookup(r, n).Some?
    ensures AsBasicType(VRecord(r)).entries[n] == AsBasicType(Lookup(r, n).value)
  {
  }

  /** A record all of whose names are set and whose values are plain equals
      its basic form, compared from either side. */
  lemma RecordEqualsBasicForm(r: Instance)
    requires forall i :: 0 <= i < |GenNames(r)| ==> Lookup(r, GenNames(r)[i]).Some?
    requires forall n :: n in GenNames(r) ==> Plain(Lookup(r, n).value)
    ensures Eq(VRecord(r), AsBasicType(VRecord(r)))
    ensures Eq(AsBasicType(VRecord(r)), VRecord(r))
  {
    BasicFormFields(r);
    var b := AsBasicType(VRecord(r));
    var fs := GenFields(r);
    forall i | 0 <= i < |fs| ensures Cmp(fs[i].1, fs[i].1, true) && Cmp(fs[i].1, fs[i].1, false) {
    }
    assert RecordEq(VRecord(r), b, true);
    assert RecordEq(b, VRecord(r), false);
  }

  /** The basic form of a fully set plain record has the record's names as
      keys and its fields' values as values. */
  lemma BasicFormFields(r: Instance)
    requires forall i :: 0 <= i < |GenNames(r)| ==> Lookup(r, GenNames(r)[i]).Some?
    requires forall n :: n in GenNames(r) ==> Plain(Lookup(r, n).value)
    ensures AsBasicType(VRecord(r)).VDict?
    ensures KeysMatch(r, AsBasicType(VRecord(r)))
    ensures forall i :: 0 <= i < |GenFields(r)| ==> MappingGet(AsBasicType(VRecord(r)), GenFields(r)[i].0) == Some(GenFields(r)[i].1)
  {
    var b := AsBasicType(VRecord(r));
    forall n | n in GenNames(r) ensures n in b.entries && b.entries[n] == Lookup(r, n).value {
      var i :| 0 <= i < |GenNames(r)| && GenNames(r)[i] == n;
      PlainIsBasic(Lookup(r, n).value);
    }
  }

  lemma PlainIsBasic(v: Value)
    requires Plain(v)
    ensures AsBasicType(v) == v
  {
  }

  /** The orientation flag only records which side Python's left operand
      comes from: comparing `b` with `a` under the other flag asks Python
      the same question. */
  lemma {:induction false} CmpOrientation(a: Value, b: Value, swap: bool)
    ensures Cmp(a, b, swap) == Cmp(b, a, !swap)
    decreases a, 3
  {
    var l := if swap then b else a;
    var r := if swap then a else b;
    if l.VRecord? && !(r.VRecord? && RightFirst(l.rec, r.rec)) {
      RecordEqOrientation(a, b, !swap);
    } else if r.VRecord? {
      RecordEqOrientation(a, b, swap);
    } else {
      match (a, b)
      case (VList(xs), VList(ys)) =>
        forall i | 0 <= i < |xs| && i < |ys| ensures Cmp(xs[i], ys[i], swap) == Cmp(ys[i], xs[i], !swap) {
          CmpOrientation(xs[i], ys[i], swap);
        }
      case (VDict(_, m), VDict(_, n)) =>
        forall k | k in m && k in n ensures Cmp(m[k], n[k], swap) == Cmp(n[k], m[k], !swap) {
          CmpOrientation(m[k], n[k], swap);
        }
      case _ =>
    }
  }

  lemma {:induction false} RecordEqOrientation(a: Value, b: Value, selfIsA: bool)
    requires if selfIsA then a.VRecord? else b.VRecord?
    ensures RecordEq(a, b, selfIsA) == RecordEq(b, a, !selfIsA)
    decreases a, 2
  {
    var self := if selfIsA then a.rec else b.rec;
    var other := if selfIsA then b else a;
    if other.VRecord? && InstanceOf(other.rec, self.cls) {
      if selfIsA {
        ZipOrientation(a, b, false);
      } else {
        ZipOrientation(a, b, true);
      }
    } else if other.VDict? || other.VRecord? {
      if selfIsA {
        SelfFirstOrientation(a, b);
      } else {
        SelfSecondOrientation(a, b);
      }
    }
  }

  /** Both records on the `zip` path: the pairwise comparisons turn round.
      `swap` is the orientation of the inner comparisons of
      `RecordEq(a, b, !swap)`. */
  lemma ZipOrientation(a: Value, b: Value, swap: bool)
    requires a.VRecord? && b.VRecord?
    requires if swap then InstanceOf(a.rec, b.rec.cls) else InstanceOf(b.rec, a.rec.cls)
    ensures RecordEq(a, b, !swap) == RecordEq(b, a, swap)
    decreases a, 1
  {
    ZipPairsOrientation(a, b, swap);
  }

  lemma {:induction false} ZipPairsOrientation(a: Value, b: Value, swap: bool)
    requires a.VRecord? && b.VRecord?
    ensures var fa, fb := GenFields(a.rec), GenFields(b.rec);
      forall i :: 0 <= i < |fa| && i < |fb| ==> Cmp(fa[i].1, fb[i].1, swap) == Cmp(fb[i].1, fa[i].1, !swap)
    decreases a, 0
  {
    var fa, fb := GenFields(a.rec), GenFields(b.rec);
    forall i | 0 <= i < |fa| && i < |fb|
      ensures Cmp(fa[i].1, fb[i].1, swap) == Cmp(fb[i].1, fa[i].1, !swap)
    {
      assert Lookup(a.rec, fa[i].0) == Some(fa[i].1);
      CmpOrientation(fa[i].1, fb[i].1, swap);
    }
  }

  /** The record on side `a` against a mapping: each field's comparison with
      the mapping's value turns round. */
  lemma SelfFirstOrientation(a: Value, b: Value)
    requires a.VRecord? && (b.VDict? || b.VRecord?)
    requires !(b.VRecord? && InstanceOf(b.rec, a.rec.cls))
    ensures RecordEq(a, b, true) == RecordEq(b, a, false)
    decreases a, 1
  {
    SelfFirstPairs(a, b);
  }

  lemma {:induction false} SelfFirstPairs(a: Value, b: Value)
    requires a.VRecord?
    ensures var fs := GenFields(a.rec);
      forall i :: 0 <= i < |fs| && MappingGet(b, fs[i].0).Some? ==>
        Cmp(fs[i].1, MappingGet(b, fs[i].0).value, true) == Cmp(MappingGet(b, fs[i].0).value, fs[i].1, false)
    decreases a, 0
  {
    var fs := GenFields(a.rec);
    forall i | 0 <= i < |fs| && MappingGet(b, fs[i].0).Some?
      ensures Cmp(fs[i].1, MappingGet(b, fs[i].0).value, true) == Cmp(MappingGet(b, fs[i].0).value, fs[i].1, false)
    {
      assert Lookup(a.rec, fs[i].0) == Some(fs[i].1);
      CmpOrientation(fs[i].1, MappingGet(b, fs[i].0).value, true);
    }
  }

  /** The record on side `b` against a mapping on side `a`. */
  lemma SelfSecondOrientation(a: Value, b: Value)
    requires b.VRecord? && (a.VDict? || a.VRecord?)
    requires !(a.VRecord? && InstanceOf(a.rec, b.rec.cls))
    ensures RecordEq(a, b, false) == RecordEq(b, a, true)
    decreases a, 1
  {
    SelfSecondPairs(a, b);
  }

  lemma {:induction false} SelfSecondPairs(a: Value, b: Value)
    requires b.VRecord? && (a.VDict? || a.VRecord?)
    ensures var fs := GenFields(b.rec);
      forall i :: 0 <= i < |fs| && MappingGet(a, fs[i].0).Some? ==>
        Cmp(MappingGet(a, fs[i].0).value, fs[i].1, false) == Cmp(fs[i].1, MappingGet(a, fs[i].0).value, true)
    decreases a, 0
  {
    var fs := GenFields(b.rec);
    forall i | 0 <= i < |fs| && MappingGet(a, fs[i].0).Some?
      ensures Cmp(MappingGet(a, fs[i].0).value, fs[i].1, false) == Cmp(fs[i].1, MappingGet(a, fs[i].0).value, true)
    {
      CmpOrientation(MappingGet(a, fs[i].0).value, fs[i].1, false);
    }
  }

  /** Pairwise equality of two `gen_fields` lists as far as the shorter one
      goes, as `zip` compares them. */
  predicate ZipEq(fa: seq<(string, Value)>, fb: seq<(string, Value)>) {
    forall i :: 0 <= i < |fa| && i < |fb| ==> fa[i].0 == fb[i].0 && Eq(fa[i].1, fb[i].1)
  }

  /** Two records of one class are equal exactly when their set fields agree
      pairwise, names and values, as far as the shorter list goes. */
  lemma SameClassEq(a: Instance, b: Instance)
    requires a.cls == b.cls
    ensures Eq(VRecord(a), VRecord(b)) <==> ZipEq(GenFields(a), GenFields(b))
  {
    assert Eq(VRecord(a), VRecord(b)) == RecordEq(VRecord(a), VRecord(b), true);
  }

  /** Fields left unset at the end do not count: a record of the same class
      whose set fields are a prefix of another's equals it, from either side. */
  lemma TrailingUnsetEqual(a: Instance, b: Instance)
    requires a.cls == b.cls
    requires |GenFields(b)| <= |GenFields(a)| && GenFields(b) == GenFields(a)[..|GenFields(b)|]
    ensures Eq(VRecord(a), VRecord(b)) && Eq(VRecord(b), VRecord(a))
  {
    var fa, fb := GenFields(a), GenFields(b);
    forall i | 0 <= i < |fb| ensures Eq(fa[i].1, fb[i].1) && Eq(fb[i].1, fa[i].1) {
      assert fa[i] == fb[i];
    }
    SameClassEq(a, b);
    SameClassEq(b, a);
  }

  /** An unset field before a set one does count: when the first set fields
      of two records of one class have different names, the records differ,
      from either side, whatever the later fields hold. */
  lemma LeadingNamesDiffer(a: Instance, b: Instance)
    requires a.cls == b.cls
    requires |GenFields(a)| > 0 && |GenFields(b)| > 0 && GenFields(a)[0].0 != GenFields(b)[0].0
    ensures !Eq(VRecord(a), VRecord(b)) && !Eq(VRecord(b), VRecord(a))
  {
    SameClassEq(a, b);
    SameClassEq(b, a);
  }

  /** A record and a dict are equal, from either side, exactly when the
      dict's keys are the record's `gen_names` and each set field is in the
      dict with a value equal to it. */
  lemma RecordAgainstDict(r: Instance, id: nat, m: map<string, Value>)
    ensures Eq(VRecord(r), VDict(id, m)) == Eq(VDict(id, m), VRecord(r))
    ensures Eq(VDict(id, m), VRecord(r)) <==> DictMatches(r, m)
  {
    CmpOrientation(VRecord(r), VDict(id, m), false);
    DictAgainstRecord(r, id, m);
  }

  /** The dict `m` has exactly the record's names as keys, and an equal
      value, with the dict's value on the left, for each set field. */
  predicate DictMatches(r: Instance, m: map<string, Value>) {
    && ToSet(GenNames(r)) == m.Keys
    && forall i :: 0 <= i < |GenFields(r)| ==> GenFields(r)[i].0 in m && Eq(m[GenFields(r)[i].0], GenFields(r)[i].1)
  }

  lemma DictAgainstRecord(r: Instance, id: nat, m: map<string, Value>)
    ensures Eq(VDict(id, m), VRecord(r)) <==> DictMatches(r, m)
  {
    var d := VDict(id, m);
    var fs := GenFields(r);
    var viaGet := forall i :: 0 <= i < |fs| ==> MappingGet(d, fs[i].0).Some? && Cmp(MappingGet(d, fs[i].0).value, fs[i].1, false);
    var viaMap := forall i :: 0 <= i < |fs| ==> fs[i].0 in m && Eq(m[fs[i].0], fs[i].1);
    assert Eq(d, VRecord(r)) == RecordEq(d, VRecord(r), false);
    assert RecordEq(d, VRecord(r), false) <==> KeysMatch(r, d) && viaGet;
    assert KeysMatch(r, d) <==> ToSet(GenNames(r)) == m.Keys;
    forall i | 0 <= i < |fs|
      ensures MappingGet(d, fs[i].0) == if fs[i].0 in m then Some(m[fs[i].0]) else None
      ensures fs[i].0 in m ==> Eq(m[fs[i].0], fs[i].1) == Cmp(m[fs[i].0], fs[i].1, false)
    {
    }
    assert viaGet <==> viaMap;
  }

  /** When the class of `q` derives strictly from that of `p`, Python asks
      `q` first whichever side it is on: `p == q` and `q == p` agree, and
      hold exactly when the keys of `p` match `q`'s names and each set field
      of `q` is a field of `p` with an equal value. */
  lemma SubclassDecides(p: Instance, q: Instance)
    requires RightFirst(p, q) && !InstanceOf(p, q.cls)
    ensures Eq(VRecord(p), VRecord(q)) == Eq(VRecord(q), VRecord(p))
    ensures Eq(VRecord(p), VRecord(q)) <==>
      && KeysMatch(q, VRecord(p))
      && forall i :: 0 <= i < |GenFields(q)| ==>
           Lookup(p, GenFields(q)[i].0).Some? && Eq(Lookup(p, GenFields(q)[i].0).value, GenFields(q)[i].1)
  {
    assert Eq(VRecord(p), VRecord(q)) == RecordEq(VRecord(p), VRecord(q), false);
    assert Eq(VRecord(q), VRecord(p)) == RecordEq(VRecord(q), VRecord(p), true);
    RecordEqOrientation(VRecord(q), VRecord(p), true);
    var fs := GenFields(q);
    forall i | 0 <= i < |fs| && Lookup(p, fs[i].0).Some?
      ensures Eq(Lookup(p, fs[i].0).value, fs[i].1) == Cmp(Lookup(p, fs[i].0).value, fs[i].1, false)
      ensures MappingGet(VRecord(p), fs[i].0) == Lookup(p, fs[i].0)
    {
    }
  }

  /** A record of a derived class whose number of names differs from the
      `len()` of a base-class record never equals it, from either side: for
      `P(x=1)` and `Q(x=1, y=2)` with `Q` derived from `P`, both `==` are
      false. */
  lemma SubclassWithOtherNames(p: Instance, q: Instance)
    requires RightFirst(p, q) && !InstanceOf(p, q.cls)
    requires RecordLen(p) != |ToSet(GenNames(q))|
    ensures !Eq(VRecord(p), VRecord(q)) && !Eq(VRecord(q), VRecord(p))
  {
    SubclassDecides(p, q);
  }

  // ---------------------------------------------------------------------
  // Construction as written

  /** Python's `name, value = v` on a yielded value: a two-element list, a
      two-character string or a record with two names unpacks; any other
      length is a `ValueError`; a non-iterable is a `TypeError`. */
  function UnpackPair(v: Value): (r: Result<(Value, Value)>)
    requires !(v.VDict? && |v.entries| == 2)
    ensures (v.VNone? || v.VBool? || v.VInt? || v.VTag?) ==> r.Failure? && r.error.cls == TypeError
    ensures v.VList? ==> (r.Success? <==> |v.items| == 2) && (r.Success? ==> r.value == (v.items[0], v.items[1]))
    ensures v.VStr? ==> (r.Success? <==> |v.s| == 2) && (r.Success? ==> r.value == (VStr([v.s[0]]), VStr([v.s[1]])))
    ensures v.VRecord? ==> (r.Success? <==> |GenNames(v.rec)| == 2)
    ensures v.VRecord? && r.Success? ==> r.value == (VStr(GenNames(v.rec)[0]), VStr(GenNames(v.rec)[1]))
    ensures v.VDict? ==> r.Failure?
    ensures r.Failure? && !(v.VNone? || v.VBool? || v.VInt? || v.VTag?) ==> r.error.cls == ValueError
  {
    match v
    case VList(xs) => if |xs| == 2 then Success((xs[0], xs[1])) else Failure(UnpackCount(|xs|))
    case VStr(s) => if |s| == 2 then Success((VStr([s[0]]), VStr([s[1]]))) else Failure(UnpackCount(|s|))
    case VDict(_, m) => Failure(UnpackCount(|m|))
    case VRecord(rec) =>
      var ns := GenNames(rec);
      if |ns| == 2 then Success((VStr(ns[0]), VStr(ns[1]))) else Failure(UnpackCount(|ns|))
    case _ => Failure(Exc(TypeError, [AText("cannot unpack non-iterable " + TypeName(TypeOf(v)) + " object")], None))
  }

  function UnpackCount(n: nat): Exc {
    Exc(ValueError, [AText(if n < 2 then "not enough values to unpack" else "too many values to unpack")], None)
  }

  /** Whether `v` is a dict of two entries, whose unpacking order the model
      does not fix. */
  predicate TwoEntryDict(v: Value) {
    v.VDict? && |v.entries| == 2
  }

  /** No field of the contract prepares to a dict of two entries. */
  predicate NoTwoEntryDicts(c: Contract, input: map<string, Value>) {
    forall i :: 0 <= i < |c| && Prepared(c[i], input).Success? ==> !TwoEntryDict(Prepared(c[i], input).value)
  }

  /** The field loop of both `__init__` methods as written
      (cor/adt/record.py:88-96 with 185-186 and 211-212): the generator
      yields each prepared value bare, and the loop unpacks it as a
      `(name, value)` pair and assigns it before the next field is prepared.
      Whatever the yielded values, the loop gets through only when every
      field prepares, and keeps the instance well formed. */
  function InitFieldsAsWritten(clsName: string, c: Contract, input: map<string, Value>, inst: Instance): (r: Result<Instance>)
    requires NoTwoEntryDicts(c, input)
    ensures r.Success? ==> AllPrepared(c, input)
    ensures r.Success? ==> r.value.cls == inst.cls && r.value.extensible == inst.extensible
    ensures r.Success? && WellFormed(inst) ==> WellFormed(r.value)
  {
    if c == [] then Success(inst)
    else
      match Prepared(c[0], input)
      case Failure(e) => Failure(RecordFailure(clsName, c[0].0, e))
      case Success(v) =>
        assert forall i :: 0 <= i < |c| - 1 ==> c[1..][i] == c[i + 1];
        AllPreparedCons(c, input);
        if v == VNone then InitFieldsAsWritten(clsName, c[1..], input, inst)
        else
          assert !TwoEntryDict(Prepared(c[0], input).value);
          var pair :- UnpackPair(v);
          var next :- if pair.0.VStr? then SetAttr(inst, pair.0.s, pair.1)
                      else Failure(Exc(TypeError, [AText("attribute name must be string")], None));
          InitFieldsAsWritten(clsName, c[1..], input, next)
  }

  /** The first field that prepares to something other than `None` prepares
      to a number, a boolean or a `Tag` member. */
  predicate ScalarFirst(c: Contract, input: map<string, Value>) {
    exists k :: 0 <= k < |c| && (forall i :: 0 <= i < k ==> Prepared(c[i], input) == Success(VNone)) &&
      Prepared(c[k], input).Success? &&
      (Prepared(c[k], input).value.VBool? || Prepared(c[k], input).value.VInt? || Prepared(c[k], input).value.VTag?)
  }

  /** `Record.__init__` and `ExtensibleRecord.__init__` as written
      (cor/adt/record.py:181-187, 207-218). The field loop unpacks each bare
      yielded value; an extensible record then passes every other input key
      through with `setattr`, in an order the model leaves open; last,
      `_initialized` is set. */
  method InitAsWritten(cls: RecordClass, values: Value, overrides: map<string, Value>) returns (r: Result<Instance>)
    requires ValidClass(cls)
    requires GetInputMapping(values, overrides).Success? ==> NoTwoEntryDicts(cls.contract, GetInputMapping(values, overrides).value)
    ensures GetInputMapping(values, overrides).Failure? ==> r == Failure(GetInputMapping(values, overrides).error)
    ensures GetInputMapping(values, overrides).Success? ==>
      var input := GetInputMapping(values, overrides).value;
      && (ScalarFirst(cls.contract, input) ==> r.Failure? && r.error.cls == TypeError)
      && (r.Success? ==> AllPrepared(cls.contract, input))
      && (r.Success? && cls.extensible ==>
            forall k :: k in Passthrough(cls, input) && k != "_initialized" ==> Lookup(r.value, k) == Some(input[k]))
    ensures r.Success? ==> r.value.sealed && r.value.cls == cls.name && r.value.extensible == cls.extensible && WellFormed(r.value)
  {
    var input :- GetInputMapping(values, overrides);
    var inst := Instance(cls.name, cls.ancestors, cls.extensible, Names(cls.contract), map[], map[], [], false);
    if ScalarFirst(cls.contract, input) {
      ScalarFirstRejected(cls.name, cls.contract, input, inst);
    }
    var done :- InitFieldsAsWritten(cls.name, cls.contract, input, inst);
    if cls.extensible {
      done :- PassThroughAsWritten(done, Passthrough(cls, input), input);
    }
    r := SetAttr(done, "_initialized", VBool(true));
  }

  /** The pass-through loop of `ExtensibleRecord.__init__` as written
      (cor/adt/record.py:214-216): `setattr` of each key in turn, so the
      first write after a truthy `_initialized` raises `AccessError`. Every
      key stored is stored verbatim. */
  method PassThroughAsWritten(inst: Instance, keys: set<string>, input: map<string, Value>) returns (r: Result<Instance>)
    requires keys <= input.Keys
    requires WellFormed(inst) && inst.extensible
    ensures r.Failure? ==> r.error == Exc(AccessError, [], None)
    ensures !inst.sealed && "_initialized" !in keys ==> r.Success?
    ensures r.Success? ==> WellFormed(r.value) && r.value.cls == inst.cls && r.value.extensible
    ensures r.Success? ==> forall k :: k in keys && k != "_initialized" ==> Lookup(r.value, k) == Some(input[k])
  {
    var cur := inst;
    var remaining := keys;
    while remaining != {}
      decreases |remaining|
      invariant remaining <= keys
      invariant WellFormed(cur) && cur.cls == inst.cls && cur.extensible
      invariant !inst.sealed && "_initialized" !in keys ==> !cur.sealed
      invariant forall k :: k in keys - remaining && k != "_initialized" ==> Lookup(cur, k) == Some(input[k])
    {
      var k :| k in remaining;
      remaining := remaining - {k};
      var next := SetAttr(cur, k, input[k]);
      if next.Failure? {
        return Failure(next.error);
      }
      cur := next.value;
    }
    r := Success(cur);
  }

  /** As written, the first field that prepares to a number, a boolean or a
      `Tag` member makes construction fail with the `TypeError` of unpacking
      it, although its value passed the field's own checks. */
  lemma {:induction false} AsWrittenRejectsScalarField(clsName: string, c: Contract, input: map<string, Value>, inst: Instance, k: nat)
    requires k < |c|
    requires NoTwoEntryDicts(c, input)
    requires forall i :: 0 <= i < k ==> Prepared(c[i], input) == Success(VNone)
    requires Prepared(c[k], input).Success?
    requires var v := Prepared(c[k], input).value; v.VBool? || v.VInt? || v.VTag?
    ensures InitFieldsAsWritten(clsName, c, input, inst).Failure?
    ensures InitFieldsAsWritten(clsName, c, input, inst).error.cls == TypeError
  {
    if k > 0 {
      assert Prepared(c[0], input) == Success(VNone);
      assert InitFieldsAsWritten(clsName, c, input, inst) == InitFieldsAsWritten(clsName, c[1..], input, inst);
      assert forall i :: 0 <= i < |c| - 1 ==> c[1..][i] == c[i + 1];
      AsWrittenRejectsScalarField(clsName, c[1..], input, inst, k - 1);
    } else {
      assert UnpackPair(Prepared(c[0], input).value).Failure?;
    }
  }

  /** As written, the field loop fails with a `TypeError` whenever the first
      field that prepares to something other than `None` is a scalar. */
  lemma ScalarFirstRejected(clsName: string, c: Contract, input: map<string, Value>, inst: Instance)
    requires NoTwoEntryDicts(c, input)
    requires ScalarFirst(c, input)
    ensures InitFieldsAsWritten(clsName, c, input, inst).Failure?
    ensures InitFieldsAsWritten(clsName, c, input, inst).error.cls == TypeError
  {
    var k :| 0 <= k < |c| && (forall i :: 0 <= i < k ==> Prepared(c[i], input) == Success(VNone)) &&
      Prepared(c[k], input).Success? &&
      (Prepared(c[k], input).value.VBool? || Prepared(c[k], input).value.VInt? || Prepared(c[k], input).value.VTag?);
    AsWrittenRejectsScalarField(clsName, c, input, inst, k);
  }

  /** The record `Point(x=expect_type(int))` built from `{'x': 1}`: as
      written the input mapping is `{'x': 1}` and the field loop fails with
      `TypeError`. */
  lemma PointFromIntAsWritten()
    ensures GetInputMapping(VDict(1, map["x" := VInt(1)]), map[]) == Success(map["x" := VInt(1)])
    ensures var inst := Instance("Point", [], false, ["x"], map[], map[], [], false);
      && InitFieldsAsWritten("Point", [("x", ExpectType(TInt))], map["x" := VInt(1)], inst).Failure?
      && InitFieldsAsWritten("Point", [("x", ExpectType(TInt))], map["x" := VInt(1)], inst).error.cls == TypeError
  {
    var c := [("x", ExpectType(TInt))];
    var input := map["x" := VInt(1)];
    assert input + map[] == input;
    SingleType(VDict(1, input), TMapping);
    IntFieldPrepared(input);
    AsWrittenRejectsScalarField("Point", c, input, Instance("Point", [], false, ["x"], map[], map[], [], false), 0);
  }

  /** Preparing the fields of the same record as `(name, value)` pairs sets
      `x` to 1. */
  lemma PointFromIntCorrected()
    ensures PrepareFields("Point", [("x", ExpectType(TInt))], map["x" := VInt(1)]) == Success([("x", VInt(1))])
  {
    var c := [("x", ExpectType(TInt))];
    IntFieldPrepared(map["x" := VInt(1)]);
    assert c[1..] == [];
    assert PrepareFields("Point", c[1..], map["x" := VInt(1)]) == Success([]);
    assert [(c[0].0, VInt(1))] + [] == [("x", VInt(1))];
    assert PrepareFields("Point", c, map["x" := VInt(1)]) == Success([(c[0].0, VInt(1))] + []);
  }

  lemma IntFieldPrepared(input: map<string, Value>)
    requires input == map["x" := VInt(1)]
    ensures Prepared(("x", ExpectType(TInt)), input) == Success(VInt(1))
  {
    ExpectTypesField([TInt], "x", input);
    SingleType(VInt(1), TInt);
  }
}
