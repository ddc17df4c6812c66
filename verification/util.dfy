/** The helpers of cor/util.py: `is_sparse`, `compose`, the `Attrs` bag of
    attributes and `split_args`. */
module Util {
  import opened Values
  import opened Errors

  // ---------------------------------------------------------------------
  // is_sparse

  /** `is_sparse(values, pred)` (cor/util.py:7-16): whether the predicate,
      scanned left to right, goes from true to false and back to true, i.e.
      some value failing it is followed by one satisfying it. */
  method IsSparse<T>(xs: seq<T>, p: T -> bool) returns (r: bool)
    ensures r <==> exists i, j :: 0 <= i < j < |xs| && !p(xs[i]) && p(xs[j])
  {
    var wanted := true;
    var flips := 0;
    var k := 0;
    while k < |xs|
      invariant 0 <= k <= |xs|
      invariant flips == 0 || flips == 1
      invariant wanted == (flips == 0)
      invariant flips == 0 <==> forall i :: 0 <= i < k ==> p(xs[i])
      invariant !exists i, j :: 0 <= i < j < k && !p(xs[i]) && p(xs[j])
    {
      if p(xs[k]) != wanted {
        flips := flips + 1;
        if flips > 1 {
          return true;
        }
        wanted := !wanted;
      }
      k := k + 1;
    }
    return false;
  }

  /** The index of the first value failing the predicate, or the length. */
  function FirstFailing<T>(xs: seq<T>, p: T -> bool): (k: nat)
    ensures k <= |xs|
    ensures forall i :: 0 <= i < k ==> p(xs[i])
    ensures k < |xs| ==> !p(xs[k])
  {
    if xs == [] || !p(xs[0]) then 0 else 1 + FirstFailing(xs[1..], p)
  }

  /** The values before `k` satisfy the predicate and those from `k` on fail
      it. */
  predicate TwoRunsAt<T>(xs: seq<T>, p: T -> bool, k: int) {
    0 <= k <= |xs| && (forall i :: 0 <= i < k ==> p(xs[i])) && (forall i :: k <= i < |xs| ==> !p(xs[i]))
  }

  /** A sequence is not sparse exactly when its values split into a run
      satisfying the predicate followed by a run failing it. */
  lemma NotSparseIsTwoRuns<T>(xs: seq<T>, p: T -> bool)
    ensures (!exists i, j :: 0 <= i < j < |xs| && !p(xs[i]) && p(xs[j])) <==> exists k :: TwoRunsAt(xs, p, k)
  {
    if !exists i, j :: 0 <= i < j < |xs| && !p(xs[i]) && p(xs[j]) {
      var k := FirstFailing(xs, p);
      forall i | k <= i < |xs| ensures !p(xs[i]) {
        if i > k {
          assert !p(xs[k]);
        }
      }
      assert TwoRunsAt(xs, p, k);
    } else {
      var i, j :| 0 <= i < j < |xs| && !p(xs[i]) && p(xs[j]);
      assert forall k :: !TwoRunsAt(xs, p, k);
    }
  }

  // ---------------------------------------------------------------------
  // compose

  /** A Python callable on positional arguments. */
  type Fn = seq<Value> -> Result<Value>

  /** The function `compose()` returns: `lambda: None`, which accepts no
      argument. ComposeIsNested states what `compose` returns in general. */
  function NoArgsNone(args: seq<Value>): (r: Result<Value>)
    ensures r.Success? <==> args == []
    ensures r.Success? ==> r.value == VNone
    ensures r.Failure? ==> r.error.cls == TypeError
  {
    if args == [] then Success(VNone)
    else Failure(Exc(TypeError, [AText("<lambda>() takes 0 positional arguments")], None))
  }

  /** Passing a result on to a one-argument function, exceptions propagating. */
  function Then(r: Result<Value>, g: Fn): Result<Value> {
    match r
    case Failure(e) => Failure(e)
    case Success(v) => g([v])
  }

  /** The loop of the composed function (cor/util.py:29-30): the remaining
      functions, last first, each applied to the previous result. */
  function ApplyBackwards(fns: seq<Fn>, res: Value): Result<Value>
    decreases |fns|
  {
    if fns == [] then Success(res)
    else
      match fns[|fns| - 1]([res])
      case Failure(e) => Failure(e)
      case Success(v) => ApplyBackwards(fns[..|fns| - 1], v)
  }

  /** The composed function of two or more functions (cor/util.py:25-31):
      the last one gets the arguments, the others follow in reverse. */
  function Chain(fns: seq<Fn>, args: seq<Value>): Result<Value>
    requires |fns| >= 1
  {
    match fns[|fns| - 1](args)
    case Failure(e) => Failure(e)
    case Success(v) => ApplyBackwards(fns[..|fns| - 1], v)
  }

  /** `compose(*fns)` (cor/util.py:18-33). */
  function Compose(fns: seq<Fn>): Fn {
    if |fns| == 0 then NoArgsNone
    else if |fns| == 1 then fns[0]
    else args => Chain(fns, args)
  }

  /** The mathematical composition `f1(f2(...fn(args)))`, as a reference. */
  function Nested(fns: seq<Fn>, args: seq<Value>): Result<Value>
    requires |fns| >= 1
    decreases |fns|
  {
    if |fns| == 1 then fns[0](args) else Then(Nested(fns[1..], args), fns[0])
  }

  /** Running the backward loop peels off its first function last. */
  lemma {:induction false} ApplyBackwardsFront(fns: seq<Fn>, res: Value)
    requires |fns| >= 1
    ensures ApplyBackwards(fns, res) == Then(ApplyBackwards(fns[1..], res), fns[0])
    decreases |fns|
  {
    if |fns| > 1 {
      var last := fns[|fns| - 1];
      var init := fns[..|fns| - 1];
      assert fns[1..][..|fns[1..]| - 1] == init[1..];
      assert fns[1..][|fns[1..]| - 1] == last;
      match last([res])
      case Failure(e) =>
      case Success(v) =>
        ApplyBackwardsFront(init, v);
    }
  }

  /** `compose(f1, ..., fn)` is the composition `f1(f2(...fn(args)))`. */
  lemma {:induction false} ComposeIsNested(fns: seq<Fn>, args: seq<Value>)
    requires |fns| >= 1
    ensures Compose(fns)(args) == Nested(fns, args)
    decreases |fns|
  {
    if |fns| > 1 {
      var rest := fns[1..];
      ComposeIsNested(rest, args);
      var last := fns[|fns| - 1];
      assert rest[|rest| - 1] == last;
      match last(args)
      case Failure(e) =>
        if |rest| > 1 {
          assert Nested(rest, args) == Chain(rest, args);
        }
      case Success(v) =>
        ApplyBackwardsFront(fns[..|fns| - 1], v);
        assert fns[..|fns| - 1][1..] == rest[..|rest| - 1];
        if |rest| > 1 {
          assert Nested(rest, args) == Chain(rest, args);
        }
    }
  }

  /** Composing a concatenation is composing the compositions: `compose` is
      associative. */
  lemma {:induction false} ComposeConcat(fs: seq<Fn>, gs: seq<Fn>, args: seq<Value>)
    requires |fs| >= 1 && |gs| >= 1
    ensures Compose(fs + gs)(args) == Then(Compose(gs)(args), Compose(fs))
    decreases |fs|
  {
    ComposeIsNested(fs + gs, args);
    ComposeIsNested(gs, args);
    assert (fs + gs)[1..] == fs[1..] + gs;
    if |fs| == 1 {
      assert (fs + gs)[1..] == gs;
    } else {
      ComposeConcat(fs[1..], gs, args);
      ComposeIsNested(fs[1..] + gs, args);
      match Compose(gs)(args)
      case Failure(e) =>
      case Success(v) =>
        ComposeIsNested(fs, [v]);
        ComposeIsNested(fs[1..], [v]);
    }
  }

  // ---------------------------------------------------------------------
  // Attrs

  /** An `Attrs` object (cor/util.py:40-72): the `_attrs` dict, and the
      instance's own `__dict__`, where dunder names are stored. */
  datatype Attrs = Attrs(attrs: map<string, Value>, own: map<string, Value>)

  /** Names found on the instance or its class before `__getattr__` is
      consulted. */
  const ClassMembers: set<string> := {"_attrs", "as_dict", "get_names", "as_args", "from_map"}

  /** A name starting with two underscores. */
  predicate IsDunder(name: string) {
    |name| >= 2 && name[0] == '_' && name[1] == '_'
  }

  /** `Attrs(*args, **kwargs)` (cor/util.py:41-44): the pairs, a later one
      overriding an earlier one, then the keyword arguments over them. */
  function NewAttrs(pairs: seq<(string, Value)>, kwargs: map<string, Value>): (a: Attrs)
    ensures a.own == map[]
    ensures forall k :: k in a.attrs <==> k in kwargs || exists i :: 0 <= i < |pairs| && pairs[i].0 == k
    ensures forall k :: k in kwargs ==> a.attrs[k] == kwargs[k]
    ensures forall i :: 0 <= i < |pairs| && pairs[i].0 !in kwargs && (forall j :: i < j < |pairs| ==> pairs[j].0 != pairs[i].0) ==>
      a.attrs[pairs[i].0] == pairs[i].1
  {
    PairsToMapSpec(pairs);
    Attrs(PairsToMap(pairs) + kwargs, map[])
  }

  /** What reading an attribute yields: a stored value, or a member of the
      class (a method, or the `_attrs` dict itself). */
  datatype AttrLookup = Attribute(value: Value) | Member(name: string)

  /** `attrs.name` (cor/util.py:46-53): the instance's own attributes and
      the class's members first; then a dunder name fails with Python's
      `AttributeError`, and any other name is looked up in `_attrs`, a
      missing one raising `AttributeError` caused by the `KeyError`. */
  function GetAttr(a: Attrs, name: string): (r: Result<AttrLookup>)
    ensures name in a.own ==> r == Success(Attribute(a.own[name]))
    ensures name !in a.own && name in ClassMembers ==> r == Success(Member(name))
    ensures name !in a.own && name !in ClassMembers ==>
      (r.Success? <==> !IsDunder(name) && name in a.attrs)
    ensures name !in a.own && name !in ClassMembers && r.Success? ==> r.value == Attribute(a.attrs[name])
    ensures r.Failure? ==> r.error.cls == AttributeError
    ensures r.Failure? && !IsDunder(name) ==> r.error.cause == Some(Exc(KeyError, [AText(name)], None))
  {
    if name in a.own then Success(Attribute(a.own[name]))
    else if name in ClassMembers then Success(Member(name))
    else if IsDunder(name) then
      Failure(Exc(AttributeError, [AText("type object 'object' has no attribute '__getattr__'")], None))
    else if name in a.attrs then Success(Attribute(a.attrs[name]))
    else
      var err := Exc(KeyError, [AText(name)], None);
      Failure(Exc(AttributeError, [AValue(VList([VStr(name)]))], Some(err)))
  }

  /** `attrs.name = value` (cor/util.py:55-59): `_attrs` replaces the dict,
      a dunder name goes to the instance, any other name into `_attrs`.
      SetThenGet relates it to GetAttr. */
  function SetAttr(a: Attrs, name: string, v: Value): (r: Attrs)
    requires name == "_attrs" ==> v.VDict?
    ensures name == "_attrs" ==> r == Attrs(v.entries, a.own)
    ensures IsDunder(name) ==> r.attrs == a.attrs && r.own == a.own[name := v]
    ensures name != "_attrs" && !IsDunder(name) ==> r.own == a.own && r.attrs == a.attrs[name := v]
  {
    if name == "_attrs" then Attrs(v.entries, a.own)
    else if IsDunder(name) then a.(own := a.own[name := v])
    else a.(attrs := a.attrs[name := v])
  }

  /** Reading back an attribute just stored gives the stored value, unless
      the name is one of the class's members, which shadow `_attrs`. */
  lemma SetThenGet(a: Attrs, name: string, v: Value)
    requires name != "_attrs"
    requires forall k :: k in a.own ==> IsDunder(k)
    ensures name !in ClassMembers ==> GetAttr(SetAttr(a, name, v), name) == Success(Attribute(v))
    ensures name in ClassMembers ==> GetAttr(SetAttr(a, name, v), name) == Success(Member(name))
    ensures name in ClassMembers ==> SetAttr(a, name, v).attrs[name] == v
  {
  }

  /** `attrs.as_args(names)` (cor/util.py:67-68): the values of the names in
      order, or the `KeyError` of the first missing one. */
  function AsArgs(a: Attrs, names: seq<string>): (r: Result<seq<Value>>)
    ensures r.Success? <==> forall i :: 0 <= i < |names| ==> names[i] in a.attrs
    ensures r.Success? ==> |r.value| == |names| && forall i :: 0 <= i < |names| ==> r.value[i] == a.attrs[names[i]]
    ensures r.Failure? ==> exists k :: (
      && 0 <= k < |names|
      && names[k] !in a.attrs
      && (forall i :: 0 <= i < k ==> names[i] in a.attrs)
      && r.error == Exc(KeyError, [AText(names[k])], None))
  {
    if names == [] then Success([])
    else if names[0] !in a.attrs then Failure(Exc(KeyError, [AText(names[0])], None))
    else
      var rest :- AsArgs(a, names[1..]);
      Success([a.attrs[names[0]]] + rest)
  }

  /** `Attrs.from_map(names, src)` (cor/util.py:70-72): one attribute per
      name, `None` for a name `src` lacks. */
  function FromMap(names: seq<string>, src: map<string, Value>): (a: Attrs)
    ensures a.own == map[]
    ensures a.attrs.Keys == ToSet(names)
    ensures forall k :: k in a.attrs ==> a.attrs[k] == Get(src, k)
  {
    NamePairsMap(names, src);
    assert PairsToMap(NamePairs(names, src)) + map[] == PairsToMap(NamePairs(names, src));
    Attrs(PairsToMap(NamePairs(names, src)), map[])
  }

  /** The pairs `(k, src.get(k))` that `from_map` passes on. */
  function NamePairs(names: seq<string>, src: map<string, Value>): (ps: seq<(string, Value)>)
    ensures |ps| == |names|
    ensures forall i :: 0 <= i < |names| ==> ps[i] == (names[i], Get(src, names[i]))
  {
    if names == [] then [] else [(names[0], Get(src, names[0]))] + NamePairs(names[1..], src)
  }

  lemma {:induction false} NamePairsMap(names: seq<string>, src: map<string, Value>)
    ensures forall k :: k in PairsToMap(NamePairs(names, src)) <==> k in names
    ensures forall k :: k in PairsToMap(NamePairs(names, src)) ==> PairsToMap(NamePairs(names, src))[k] == Get(src, k)
  {
    if names != [] {
      NamePairsMap(names[1..], src);
      assert NamePairs(names, src)[1..] == NamePairs(names[1..], src);
      assert forall k :: k in names <==> k == names[0] || k in names[1..];
    }
  }

  /** `[src.get(k) for k in names]`. */
  function Gets(src: map<string, Value>, names: seq<string>): (vs: seq<Value>)
    ensures |vs| == |names|
    ensures forall i :: 0 <= i < |names| ==> vs[i] == Get(src, names[i])
  {
    if names == [] then [] else [Get(src, names[0])] + Gets(src, names[1..])
  }

  lemma {:induction false} AsArgsOfGets(a: Attrs, names: seq<string>, src: map<string, Value>)
    requires forall i :: 0 <= i < |names| ==> names[i] in a.attrs && a.attrs[names[i]] == Get(src, names[i])
    ensures AsArgs(a, names) == Success(Gets(src, names))
  {
    if names != [] {
      assert forall i :: 0 <= i < |names[1..]| ==> names[1..][i] == names[i + 1];
      AsArgsOfGets(a, names[1..], src);
    }
  }

  /** `from_map` and `as_args` are inverse: reading the names back gives
      what `src.get` gives for each, and only the names are attributes. */
  lemma FromMapAsArgs(names: seq<string>, src: map<string, Value>)
    ensures AsArgs(FromMap(names, src), names) == Success(Gets(src, names))
    ensures FromMap(names, src).attrs.Keys == ToSet(names)
  {
    var a := FromMap(names, src);
    forall i | 0 <= i < |names| ensures names[i] in a.attrs && a.attrs[names[i]] == Get(src, names[i]) {
      assert names[i] in ToSet(names);
    }
    AsArgsOfGets(a, names, src);
  }

  // ---------------------------------------------------------------------
  // split_args

  /** An argument of `split_args`: a keyword marker (an enum member, by its
      string value) or any other value. */
  datatype SplitItem<T> = Marker(key: string) | Item(value: T)

  /** The key of the last marker, if any. */
  function LastMarker<T>(items: seq<SplitItem<T>>): Option<string> {
    if items == [] then None
    else if items[|items| - 1].Marker? then Some(items[|items| - 1].key)
    else LastMarker(items[..|items| - 1])
  }

  /** The values preceded by no marker. */
  function Positional<T>(items: seq<SplitItem<T>>): seq<T> {
    if items == [] then []
    else
      var init := items[..|items| - 1];
      var x := items[|items| - 1];
      if x.Item? && LastMarker(init) == None then Positional(init) + [x.value] else Positional(init)
  }

  /** The values whose nearest marker before them has key `k`. */
  function Keyed<T>(items: seq<SplitItem<T>>, k: string): seq<T> {
    if items == [] then []
    else
      var init := items[..|items| - 1];
      var x := items[|items| - 1];
      if x.Item? && LastMarker(init) == Some(k) then Keyed(init, k) + [x.value] else Keyed(init, k)
  }

  function MarkerKeys<T>(items: seq<SplitItem<T>>): set<string> {
    set i | 0 <= i < |items| && items[i].Marker? :: items[i].key
  }

  /** The values of all non-marker arguments, in order. */
  function ItemValues<T>(items: seq<SplitItem<T>>): seq<T> {
    if items == [] then []
    else
      var x := items[|items| - 1];
      ItemValues(items[..|items| - 1]) + (if x.Item? then [x.value] else [])
  }

  lemma {:induction false} LastMarkerIsMarked<T>(items: seq<SplitItem<T>>)
    ensures LastMarker(items).Some? ==> LastMarker(items).value in MarkerKeys(items)
  {
    if items != [] && !items[|items| - 1].Marker? {
      var init := items[..|items| - 1];
      LastMarkerIsMarked(init);
      if LastMarker(init).Some? {
        var i :| 0 <= i < |init| && init[i].Marker? && init[i].key == LastMarker(init).value;
        assert items[i] == init[i];
      }
    }
  }

  /** Dropping the last argument loses no marker but its own. */
  lemma MarkerKeysPrefix<T>(items: seq<SplitItem<T>>)
    requires items != []
    ensures MarkerKeys(items[..|items| - 1]) <= MarkerKeys(items)
  {
    var init := items[..|items| - 1];
    forall key | key in MarkerKeys(init) ensures key in MarkerKeys(items) {
      var i :| 0 <= i < |init| && init[i].Marker? && init[i].key == key;
      assert items[i] == init[i];
    }
  }

  /** A key no marker names collects nothing. */
  lemma {:induction false} UnmarkedEmpty<T>(items: seq<SplitItem<T>>, k: string)
    requires k !in MarkerKeys(items)
    ensures Keyed(items, k) == []
  {
    if items != [] {
      var init := items[..|items| - 1];
      MarkerKeysPrefix(items);
      LastMarkerIsMarked(init);
      UnmarkedEmpty(init, k);
    }
  }

  /** `split_args(keywords_enum, *args)` (cor/util.py:75-92): the values
      before the first marker, and for each marker key the values following
      its markers up to the next marker, in order; a repeated marker resumes
      the same list. */
  method SplitArgs<T>(items: seq<SplitItem<T>>) returns (positional: seq<T>, keyed: map<string, seq<T>>)
    ensures positional == Positional(items)
    ensures keyed.Keys == MarkerKeys(items)
    ensures forall k :: k in keyed ==> keyed[k] == Keyed(items, k)
  {
    positional := [];
    keyed := map[];
    var current: Option<string> := None;
    var i := 0;
    while i < |items|
      invariant 0 <= i <= |items|
      invariant current == LastMarker(items[..i])
      invariant current.Some? ==> current.value in keyed
      invariant positional == Positional(items[..i])
      invariant keyed.Keys == MarkerKeys(items[..i])
      invariant forall k :: k in keyed ==> keyed[k] == Keyed(items[..i], k)
    {
      var prefix := items[..i + 1];
      assert prefix[..i] == items[..i];
      assert MarkerKeys(prefix) == MarkerKeys(items[..i]) + (if items[i].Marker? then {items[i].key} else {}) by {
        forall key | key in MarkerKeys(prefix)
          ensures key in MarkerKeys(items[..i]) + (if items[i].Marker? then {items[i].key} else {})
        {
          var j :| 0 <= j < |prefix| && prefix[j].Marker? && prefix[j].key == key;
          if j < i {
            assert items[..i][j] == prefix[j];
          }
        }
        forall key | key in MarkerKeys(items[..i]) ensures key in MarkerKeys(prefix) {
          var j :| 0 <= j < i && items[..i][j].Marker? && items[..i][j].key == key;
          assert prefix[j] == items[..i][j];
        }
        if items[i].Marker? {
          assert prefix[i] == items[i];
        }
      }
      match items[i] {
        case Marker(key) =>
          if key !in keyed {
            UnmarkedEmpty(items[..i], key);
            keyed := keyed[key := []];
          }
          current := Some(key);
        case Item(v) =>
          if current.Some? {
            keyed := keyed[current.value := keyed[current.value] + [v]];
          } else {
            positional := positional + [v];
          }
      }
      i := i + 1;
    }
    assert items[..i] == items;
  }

  /** The values gathered under the keys, key by key. */
  function Gather<T>(items: seq<SplitItem<T>>, keys: seq<string>): seq<T> {
    if keys == [] then [] else Keyed(items, keys[0]) + Gather(items, keys[1..])
  }

  lemma NoDuplicatesTail(keys: seq<string>)
    requires keys != [] && NoDuplicates(keys)
    ensures NoDuplicates(keys[1..]) && keys[0] !in keys[1..]
  {
    assert forall i :: 0 <= i < |keys[1..]| ==> keys[1..][i] == keys[i + 1];
  }

  /** The list of key `k` after one more argument. */
  lemma KeyedSnoc<T>(init: seq<SplitItem<T>>, x: SplitItem<T>, k: string)
    ensures Keyed(init + [x], k) == Keyed(init, k) + (if x.Item? && LastMarker(init) == Some(k) then [x.value] else [])
  {
    assert (init + [x])[..|init + [x]| - 1] == init;
  }

  /** One more argument adds its value to the list of the current key, if
      that key is among those gathered. */
  lemma {:induction false} GatherStep<T>(init: seq<SplitItem<T>>, x: SplitItem<T>, keys: seq<string>)
    requires NoDuplicates(keys)
    ensures var owner := LastMarker(init);
      multiset(Gather(init + [x], keys)) ==
        multiset(Gather(init, keys)) + (if x.Item? && owner.Some? && owner.value in keys then multiset{x.value} else multiset{})
  {
    if keys != [] {
      var owner := LastMarker(init);
      var k0 := keys[0];
      NoDuplicatesTail(keys);
      GatherStep(init, x, keys[1..]);
      KeyedSnoc(init, x, k0);
      var add0 := if x.Item? && owner == Some(k0) then [x.value] else [];
      var addRest := if x.Item? && owner.Some? && owner.value in keys[1..] then multiset{x.value} else multiset{};
      assert multiset(Gather(init + [x], keys)) == multiset(Keyed(init, k0)) + multiset(add0) + multiset(Gather(init + [x], keys[1..]));
      assert multiset(Gather(init + [x], keys[1..])) == multiset(Gather(init, keys[1..])) + addRest;
      assert multiset(Gather(init, keys)) == multiset(Keyed(init, k0)) + multiset(Gather(init, keys[1..]));
      assert owner.Some? ==> (owner.value in keys <==> owner.value == k0 || owner.value in keys[1..]);
    }
  }

  /** One more argument adds its value, if it is not a marker, to exactly one
      of the outputs. */
  lemma SplitStep<T>(init: seq<SplitItem<T>>, x: SplitItem<T>, keys: seq<string>)
    requires NoDuplicates(keys)
    requires LastMarker(init).Some? ==> LastMarker(init).value in keys
    ensures multiset(Positional(init + [x]) + Gather(init + [x], keys)) ==
      multiset(Positional(init) + Gather(init, keys)) + multiset(if x.Item? then [x.value] else [])
    ensures ItemValues(init + [x]) == ItemValues(init) + (if x.Item? then [x.value] else [])
  {
    var items := init + [x];
    assert items[..|items| - 1] == init;
    GatherStep(init, x, keys);
    if x.Item? && LastMarker(init) == None {
      assert Positional(items) == Positional(init) + [x.value];
      assert multiset(Gather(items, keys)) == multiset(Gather(init, keys));
    } else if x.Item? {
      assert Positional(items) == Positional(init);
      assert multiset(Gather(items, keys)) == multiset(Gather(init, keys)) + multiset{x.value};
    } else {
      assert Positional(items) == Positional(init);
      assert multiset(Gather(items, keys)) == multiset(Gather(init, keys));
    }
  }

  /** Keys no marker names gather nothing. */
  lemma {:induction false} UnmarkedGatherEmpty<T>(items: seq<SplitItem<T>>, keys: seq<string>)
    requires forall i :: 0 <= i < |keys| ==> keys[i] !in MarkerKeys(items)
    ensures Gather(items, keys) == []
  {
    if keys != [] {
      UnmarkedEmpty(items, keys[0]);
      UnmarkedGatherEmpty(items, keys[1..]);
    }
  }

  /** `split_args` keeps every non-marker argument exactly once: the
      positional list and the keyed lists together are a permutation of
      them. */
  lemma {:induction false} SplitKeepsEveryItem<T>(items: seq<SplitItem<T>>, keys: seq<string>)
    requires NoDuplicates(keys)
    requires MarkerKeys(items) <= ToSet(keys)
    ensures multiset(Positional(items) + Gather(items, keys)) == multiset(ItemValues(items))
  {
    if items == [] {
      UnmarkedGatherEmpty(items, keys);
    } else {
      var init := items[..|items| - 1];
      var x := items[|items| - 1];
      MarkerKeysPrefix(items);
      SplitKeepsEveryItem(init, keys);
      LastMarkerIsMarked(init);
      if LastMarker(init).Some? {
        assert LastMarker(init).value in ToSet(keys);
      }
      assert init + [x] == items;
      SplitStep(init, x, keys);
      var add := if x.Item? then [x.value] else [];
      assert multiset(ItemValues(items)) == multiset(ItemValues(init)) + multiset(add);
      assert multiset(Positional(items) + Gather(items, keys)) == multiset(Positional(init) + Gather(init, keys)) + multiset(add);
    }
  }
}
