/** The Python objects the record framework inspects: scalars, lists, dicts,
    members of `Tag` enums and record instances, together with Python's
    truthiness, `isinstance`, the mapping view of a record and `==`.

    Record instances live here rather than in module Record because a field
    value may itself be a record, and `==` on values recurses into records
    (cor/adt/record.py:127-142). */
module Values {

  datatype Option<+T> = None | Some(value: T)

  /** A Python value. A dict carries an identity `id` so that two equal but
      distinct dicts can be told apart by `is`; a `Tag` member is identified
      by its enum and member names and carries its `.value`. */
  datatype Value =
    | VNone
    | VBool(b: bool)
    | VInt(i: int)
    | VStr(s: string)
    | VList(items: seq<Value>)
    | VDict(id: nat, entries: map<string, Value>)
    | VTag(enumName: string, member: string, tagValue: Value)
    | VRecord(rec: Instance)

  /** A record instance: the class it belongs to, identified by its name and
      the names of its bases, the contract field names
      (its slots, in contract order), the slots that are set, the `__dict__`
      of an extensible record with its insertion order, and the
      `_initialized` flag that seals it. */
  datatype Instance = Instance(
    cls: string,
    bases: seq<string>,
    extensible: bool,
    declared: seq<string>,
    slots: map<string, Value>,
    extra: map<string, Value>,
    extraOrder: seq<string>,
    sealed: bool)

  /** The classes `isinstance` is asked about. `TMapping` is
      `collections.Mapping`; `TTag` is the `Tag` base enum; `TEnum(n)` a `Tag`
      subclass; `TRecord(n)` a record class; `TClass(n)` a class none of whose
      instances is a `Value` (`Operation`, `HooksFactory`). */
  datatype PyType =
    | TObject
    | TNoneType
    | TBool
    | TInt
    | TStr
    | TList
    | TDict
    | TMapping
    | TTag
    | TEnum(enumName: string)
    | TRecord(className: string)
    | TClass(name: string)

  predicate NoDuplicates<T(==)>(s: seq<T>) {
    forall i, j :: 0 <= i < j < |s| ==> s[i] != s[j]
  }

  function ToSet(s: seq<string>): set<string> {
    set x | x in s
  }

  /** `mapping.get(name)`: the value, or `None` when the key is absent. */
  function Get(m: map<string, Value>, name: string): Value {
    if name in m then m[name] else VNone
  }

  /** The map left by storing the pairs in order, as `setattr` one by one or
      a dict display does: a later pair for a name overrides an earlier one. */
  function PairsToMap(fs: seq<(string, Value)>): map<string, Value> {
    if fs == [] then map[]
    else
      var m := PairsToMap(fs[1..]);
      if fs[0].0 in m then m else m[fs[0].0 := fs[0].1]
  }

  /** The names of `PairsToMap(fs)` are those of the pairs, and each is bound
      to the value of its last pair. */
  lemma {:induction false} PairsToMapSpec(fs: seq<(string, Value)>)
    ensures forall k :: k in PairsToMap(fs) <==> exists i :: 0 <= i < |fs| && fs[i].0 == k
    ensures forall i :: 0 <= i < |fs| && (forall j :: i < j < |fs| ==> fs[j].0 != fs[i].0) ==>
      fs[i].0 in PairsToMap(fs) && PairsToMap(fs)[fs[i].0] == fs[i].1
  {
    if fs != [] {
      PairsToMapSpec(fs[1..]);
      var m := PairsToMap(fs[1..]);
      forall k ensures k in PairsToMap(fs) <==> exists i :: 0 <= i < |fs| && fs[i].0 == k {
        if k in m {
          var i :| 0 <= i < |fs[1..]| && fs[1..][i].0 == k;
          assert fs[i + 1].0 == k;
        }
      }
      forall i | 0 <= i < |fs| && (forall j :: i < j < |fs| ==> fs[j].0 != fs[i].0)
        ensures fs[i].0 in PairsToMap(fs) && PairsToMap(fs)[fs[i].0] == fs[i].1
      {
        if i > 0 {
          assert fs[1..][i - 1] == fs[i];
          assert forall j :: i - 1 < j < |fs[1..]| ==> fs[1..][j] == fs[j + 1];
        }
      }
    }
  }

  /** An instance as record construction leaves it: distinct slot names, only
      declared slots set, a `__dict__` only on extensible records, its order
      listing each of its keys once and none of them a slot name. */
  ghost predicate WellFormed(r: Instance) {
    && NoDuplicates(r.declared)
    && (forall n :: n in r.slots ==> n in r.declared)
    && NoDuplicates(r.extraOrder)
    && (forall n :: n in r.extra <==> n in r.extraOrder)
    && (forall n :: n in r.extra ==> n !in r.declared && n != "_initialized")
    && (!r.extensible ==> r.extra == map[] && r.extraOrder == [])
  }

  /** `len()` of a record: the contract size, plus the `__dict__` size for an
      extensible record (cor/adt/record.py:197-198, 225-226). */
  function RecordLen(r: Instance): nat {
    |r.declared| + (if r.extensible then |r.extra| else 0)
  }

  /** Python's `bool(v)`. Enum members are always true; a record is a
      `collections.Mapping`, so it is true when its `len()` is not zero. */
  predicate Truthy(v: Value) {
    match v
    case VNone => false
    case VBool(b) => b
    case VInt(i) => i != 0
    case VStr(s) => |s| > 0
    case VList(xs) => |xs| > 0
    case VDict(_, m) => |m| > 0
    case VTag(_, _, _) => true
    case VRecord(r) => RecordLen(r) > 0
  }

  /** Python's `isinstance(v, t)`; `bool` is a subclass of `int`, and a record
      is an instance of its own class, of every record class it derives from,
      and of `collections.Mapping`. */
  predicate IsInstance(v: Value, t: PyType) {
    match t
    case TObject => true
    case TNoneType => v.VNone?
    case TBool => v.VBool?
    case TInt => v.VInt? || v.VBool?
    case TStr => v.VStr?
    case TList => v.VList?
    case TDict => v.VDict?
    case TMapping => v.VDict? || v.VRecord?
    case TTag => v.VTag?
    case TEnum(n) => v.VTag? && v.enumName == n
    case TRecord(n) => v.VRecord? && InstanceOf(v.rec, n)
    case TClass(_) => false
  }

  /** `isinstance(v, types)` for a tuple of types: an instance of any of them. */
  predicate IsInstanceOfAny(v: Value, types: seq<PyType>) {
    exists i :: 0 <= i < |types| && IsInstance(v, types[i])
  }

  /** `isinstance(v, (t,))` is `isinstance(v, t)`. */
  lemma SingleType(v: Value, t: PyType)
    ensures IsInstanceOfAny(v, [t]) <==> IsInstance(v, t)
  {
    if IsInstance(v, t) {
      assert IsInstance(v, [t][0]);
    }
  }

  /** Whether a record instance belongs to the record class named `n`.
      Classes are told apart by name only, so two distinct classes sharing a
      name count as one. */
  predicate InstanceOf(r: Instance, n: string) {
    r.cls == n || n in r.bases
  }

  /** Python's `type(v)`: the most specific class of the value, of which the
      value is an instance. */
  function TypeOf(v: Value): (t: PyType)
    ensures IsInstance(v, t)
    ensures t != TObject && t != TMapping && t != TTag
  {
    match v
    case VNone => TNoneType
    case VBool(_) => TBool
    case VInt(_) => TInt
    case VStr(_) => TStr
    case VList(_) => TList
    case VDict(_, _) => TDict
    case VTag(e, _, _) => TEnum(e)
    case VRecord(r) => TRecord(r.cls)
  }

  /** A class's `__name__`. */
  function TypeName(t: PyType): string {
    match t
    case TObject => "object"
    case TNoneType => "NoneType"
    case TBool => "bool"
    case TInt => "int"
    case TStr => "str"
    case TList => "list"
    case TDict => "dict"
    case TMapping => "Mapping"
    case TTag => "Tag"
    case TEnum(n) => n
    case TRecord(n) => n
    case TClass(n) => n
  }

  /** `getattr(record, name)` for a field: a set slot, or an entry of the
      `__dict__` of an extensible record. */
  function Lookup(r: Instance, name: string): (o: Option<Value>)
    ensures o.Some? <==> name in r.slots || (r.extensible && name in r.extra)
    ensures o.Some? ==>
      (name in r.slots && o.value == r.slots[name]) ||
      (name !in r.slots && name in r.extra && o.value == r.extra[name])
  {
    if name in r.slots then Some(r.slots[name])
    else if r.extensible && name in r.extra then Some(r.extra[name])
    else None
  }

  /** A slot name starting with `_`, such as the service slot
      `_initialized` that follows the contract's names in `__slots__`. */
  predicate IsServiceName(n: string) {
    |n| > 0 && n[0] == '_'
  }

  /** `gen_record_names`: the slot names up to, not including, the first one
      starting with `_` (cor/adt/record.py:120-125). A field whose name starts
      with `_` hides itself and every later field. */
  function RecordNames(slots: seq<string>): (names: seq<string>)
    ensures |names| <= |slots| && names == slots[..|names|]
    ensures forall i :: 0 <= i < |names| ==> !IsServiceName(names[i])
    ensures |names| < |slots| ==> IsServiceName(slots[|names|])
  {
    if slots == [] || IsServiceName(slots[0]) then [] else [slots[0]] + RecordNames(slots[1..])
  }

  /** `gen_names`: the record names of the slots, then for an extensible
      record the `__dict__` keys in insertion order (cor/adt/record.py:194-195,
      228-233). */
  function GenNames(r: Instance): seq<string> {
    RecordNames(r.declared) + (if r.extensible then r.extraOrder else [])
  }

  /** The position of the first occurrence of `x` in `s`. */
  function IndexOf(s: seq<string>, x: string): (i: nat)
    requires x in s
    ensures i < |s| && s[i] == x
    ensures forall k :: 0 <= k < i ==> s[k] != x
  {
    if s[0] == x then 0 else 1 + IndexOf(s[1..], x)
  }

  /** The `(name, value)` pairs of those `names` that are set, in the order
      of `names`; with distinct `names`, each name at most once. */
  function PresentFields(r: Instance, names: seq<string>): (fs: seq<(string, Value)>)
    ensures |fs| <= |names|
    ensures forall i :: 0 <= i < |fs| ==> fs[i].0 in names && Lookup(r, fs[i].0) == Some(fs[i].1)
    ensures forall n :: n in names && Lookup(r, n).Some? ==> (n, Lookup(r, n).value) in fs
    ensures NoDuplicates(names) ==>
      forall i, j :: 0 <= i < j < |fs| ==> IndexOf(names, fs[i].0) < IndexOf(names, fs[j].0)
  {
    if names == [] then []
    else
      var rest := PresentFields(r, names[1..]);
      PresentFieldsShift(names, rest);
      match Lookup(r, names[0])
      case Some(v) => [(names[0], v)] + rest
      case None => rest
  }

  /** Behind the first name, the positions of the tail's pairs move up by
      one and keep their order. */
  lemma PresentFieldsShift(names: seq<string>, rest: seq<(string, Value)>)
    requires names != []
    requires forall i :: 0 <= i < |rest| ==> rest[i].0 in names[1..]
    requires NoDuplicates(names[1..]) ==>
      forall i, j :: 0 <= i < j < |rest| ==> IndexOf(names[1..], rest[i].0) < IndexOf(names[1..], rest[j].0)
    ensures NoDuplicates(names) ==> NoDuplicates(names[1..])
    ensures NoDuplicates(names) ==> forall i :: 0 <= i < |rest| ==>
      rest[i].0 != names[0] && IndexOf(names, rest[i].0) == 1 + IndexOf(names[1..], rest[i].0)
  {
    if NoDuplicates(names) {
      assert forall i :: 0 <= i < |names| - 1 ==> names[1..][i] == names[i + 1];
      forall i | 0 <= i < |rest|
        ensures rest[i].0 != names[0]
      {
        var k := IndexOf(names[1..], rest[i].0);
        assert names[k + 1] == rest[i].0;
      }
    }
  }

  /** `gen_fields`: the set fields in `gen_names` order; an unset slot is
      skipped (cor/adt/record.py:114-118). */
  function GenFields(r: Instance): seq<(string, Value)> {
    PresentFields(r, GenNames(r))
  }

  /** `set(self.gen_names()) == other.keys()` for a mapping `other`. A
      dict's key view equals the set when both hold the same names. A
      record's `keys()` is a `KeysView`, which equals the set when the
      record's `len()` is the size of the set and every name the record
      iterates over is in the set (cor/adt/record.py:133, 144-145, 197-198,
      225-226). */
  predicate KeysMatch(self: Instance, other: Value)
    requires other.VDict? || other.VRecord?
  {
    var names := ToSet(GenNames(self));
    if other.VDict? then names == other.entries.Keys
    else RecordLen(other.rec) == |names| && ToSet(GenNames(other.rec)) <= names
  }

  /** `other.get(k)` of a mapping. Reading an unset slot of a record raises
      `AttributeError`, which `__getitem__` turns into `KeyError`, so `get`
      sees no value (cor/adt/record.py:147-151). */
  function MappingGet(v: Value, k: string): (o: Option<Value>)
    ensures o.Some? ==>
      (v.VDict? && k in v.entries && o.value == v.entries[k]) ||
      (v.VRecord? && Lookup(v.rec, k) == o)
  {
    match v
    case VDict(_, m) => if k in m then Some(m[k]) else None
    case VRecord(r) => Lookup(r, k)
    case _ => None
  }

  /** Python's `l == r`: every value equals itself, and a record equals
      no value that is not a mapping, whichever side it is on. */
  function Eq(l: Value, r: Value): (res: bool)
    ensures l == r ==> res
    ensures (l.VRecord? && !IsInstance(r, TMapping)) || (r.VRecord? && !IsInstance(l, TMapping)) ==> !res
  {
    Cmp(l, r, false)
  }

  /** Whether Python asks the right operand of `l == r` first: the class of
      the right record derives strictly from the class of the left one. */
  predicate RightFirst(l: Instance, r: Instance) {
    r.cls != l.cls && InstanceOf(r, l.cls)
  }

  /** `==` on two operands drawn in step from the two sides of an outer
      comparison: `a` always comes from the outer left side and `b` from the
      outer right side, and `swap` says that Python's left operand is `b`
      (as in the `b != a` test of a record against a mapping). The left
      record's `__eq__` decides, unless the right operand is a record of a
      class derived from the left one's, or only the right operand is a
      record: then the right record's `__eq__` decides. Enum members compare
      by identity. Whatever the orientation, a value equals itself and a
      record equals no non-mapping. */
  function Cmp(a: Value, b: Value, swap: bool): (res: bool)
    ensures a == b ==> res
    ensures (a.VRecord? && !IsInstance(b, TMapping)) || (b.VRecord? && !IsInstance(a, TMapping)) ==> !res
    decreases a, 1
  {
    var l := if swap then b else a;
    var r := if swap then a else b;
    if l.VRecord? && !(r.VRecord? && RightFirst(l.rec, r.rec)) then RecordEq(a, b, !swap)
    else if r.VRecord? then RecordEq(a, b, swap)
    else match (a, b)
      case (VNone, VNone) => true
      case (VBool(x), VBool(y)) => x == y
      case (VBool(x), VInt(y)) => (if x then 1 else 0) == y
      case (VInt(x), VBool(y)) => x == (if y then 1 else 0)
      case (VInt(x), VInt(y)) => x == y
      case (VStr(x), VStr(y)) => x == y
      case (VList(xs), VList(ys)) =>
        |xs| == |ys| && forall i :: 0 <= i < |xs| ==> Cmp(xs[i], ys[i], swap)
      case (VDict(_, m), VDict(_, n)) =>
        m.Keys == n.Keys && forall k :: k in m ==> Cmp(m[k], n[k], swap)
      case (VTag(e1, m1, _), VTag(e2, m2, _)) => e1 == e2 && m1 == m2
      case _ => false
  }

  /** `RecordBase.__eq__(self, other)` (cor/adt/record.py:127-142), where
      `self` is the record on side `a` when `selfIsA` and on side `b`
      otherwise:
      - against an instance of `self`'s class, the `gen_fields` lists are
        compared pairwise, as far as the shorter one goes (`zip`);
      - against any other mapping, its keys must match `gen_names` and
        every set field must be present in it with a value `==` to it;
      - against anything else the answer is false.
      So a record equals only mappings, and equals itself. */
  function RecordEq(a: Value, b: Value, selfIsA: bool): (res: bool)
    requires if selfIsA then a.VRecord? else b.VRecord?
    ensures res ==> (if selfIsA then b else a).VDict? || (if selfIsA then b else a).VRecord?
    ensures a == b ==> res
    decreases a, 0
  {
    var sameClass :=
      if selfIsA then b.VRecord? && InstanceOf(b.rec, a.rec.cls)
      else a.VRecord? && InstanceOf(a.rec, b.rec.cls);
    if sameClass then
      var fa := GenFields(a.rec);
      var fb := GenFields(b.rec);
      forall i :: 0 <= i < |fa| && i < |fb| ==>
        fa[i].0 == fb[i].0 && Cmp(fa[i].1, fb[i].1, !selfIsA)
    else if selfIsA then
      var fs := GenFields(a.rec);
      && (b.VDict? || b.VRecord?)
      && KeysMatch(a.rec, b)
      && forall i :: 0 <= i < |fs| ==>
           MappingGet(b, fs[i].0).Some? && Cmp(fs[i].1, MappingGet(b, fs[i].0).value, true)
    else
      var fs := GenFields(b.rec);
      && (a.VDict? || a.VRecord?)
      && KeysMatch(b.rec, a)
      && forall i :: 0 <= i < |fs| ==>
           MappingGet(a, fs[i].0).Some? && Cmp(MappingGet(a, fs[i].0).value, fs[i].1, false)
  }
}
