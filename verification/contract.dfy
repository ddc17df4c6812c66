/** Record contracts: the ordered field-name-to-operation table a record
    class holds, and how a new class builds it from its bases and its own
    namespace (cor/adt/record.py:42-51). */
module Contracts {
  import opened Values
  import opened Operations

  /** A contract: field names with their operations, in declaration order.
      As the keys of a dict, the names of a built contract are distinct. */
  type Contract = seq<(string, Operation)>

  function Names(c: Contract): seq<string> {
    seq(|c|, i requires 0 <= i < |c| => c[i].0)
  }

  /** The operation bound to `n` by the last entry naming it; for a contract
      with distinct names, the one entry naming it. */
  function LastBinding(c: Contract, n: string): Option<Operation> {
    if c == [] then None
    else
      var rest := LastBinding(c[1..], n);
      if rest.Some? then rest else if c[0].0 == n then Some(c[0].1) else None
  }

  /** The elements of `s` not in `seen`, each at its first occurrence. */
  function DedupFrom(s: seq<string>, seen: set<string>): seq<string> {
    if s == [] then []
    else if s[0] in seen then DedupFrom(s[1..], seen)
    else [s[0]] + DedupFrom(s[1..], seen + {s[0]})
  }

  lemma {:induction false} DedupFromProperties(s: seq<string>, seen: set<string>)
    ensures NoDuplicates(DedupFrom(s, seen))
    ensures forall x :: x in DedupFrom(s, seen) <==> x in s && x !in seen
  {
    if s != [] {
      if s[0] in seen {
        DedupFromProperties(s[1..], seen);
      } else {
        DedupFromProperties(s[1..], seen + {s[0]});
      }
    }
  }

  /** `d[k] = op` on a dict kept as a contract: an existing key keeps its
      position and takes the new operation; a new key goes last. */
  function Assign(c: Contract, k: string, op: Operation): (d: Contract)
    ensures Names(d) == if k in Names(c) then Names(c) else Names(c) + [k]
    ensures forall n :: LastBinding(d, n) == if n == k then Some(op) else LastBinding(c, n)
  {
    if k in Names(c) then Replace(c, k, op) else AssignNew(c, k, op)
  }

  function AssignNew(c: Contract, k: string, op: Operation): (d: Contract)
    ensures Names(d) == Names(c) + [k]
    ensures forall n :: LastBinding(d, n) == if n == k then Some(op) else LastBinding(c, n)
  {
    AppendBinding(c, k, op);
    c + [(k, op)]
  }

  lemma {:induction false} AppendBinding(c: Contract, k: string, op: Operation)
    ensures forall n :: LastBinding(c + [(k, op)], n) == if n == k then Some(op) else LastBinding(c, n)
  {
    if c != [] {
      assert (c + [(k, op)])[1..] == c[1..] + [(k, op)];
      AppendBinding(c[1..], k, op);
    }
  }

  /** Every entry naming `k` rebound to `op`. */
  function Replace(c: Contract, k: string, op: Operation): (d: Contract)
    ensures Names(d) == Names(c)
    ensures forall n :: LastBinding(d, n) == if n == k && k in Names(c) then Some(op) else LastBinding(c, n)
  {
    if c == [] then []
    else
      var d := [if c[0].0 == k then (k, op) else c[0]] + Replace(c[1..], k, op);
      assert d[1..] == Replace(c[1..], k, op);
      NamesCons(c);
      NamesCons(d);
      assert k !in Names(c[1..]) ==> LastBinding(c[1..], k) == None by {
        if k !in Names(c[1..]) { NoBinding(c[1..], k); }
      }
      d
  }

  lemma NamesCons(c: Contract)
    requires c != []
    ensures Names(c) == [c[0].0] + Names(c[1..])
  {
  }

  lemma NamesAppend(a: Contract, b: Contract)
    ensures Names(a + b) == Names(a) + Names(b)
  {
  }

  /** One step of `DedupFrom` on the first element of a contract's names. */
  lemma DedupStep(c: Contract, seen: set<string>)
    requires c != []
    ensures DedupFrom(Names(c), seen) ==
      if c[0].0 in seen then DedupFrom(Names(c[1..]), seen)
      else [c[0].0] + DedupFrom(Names(c[1..]), seen + {c[0].0})
  {
    NamesCons(c);
  }

  /** The dict comprehension `{k: v for k, v in items}` as a contract,
      starting from `c`. */
  function AssignAll(c: Contract, items: Contract): Contract
    decreases |items|
  {
    if items == [] then c else AssignAll(Assign(c, items[0].0, items[0].1), items[1..])
  }

  function FromItems(items: Contract): Contract {
    AssignAll([], items)
  }

  lemma {:induction false} AssignAllNames(c: Contract, items: Contract)
    ensures Names(AssignAll(c, items)) == Names(c) + DedupFrom(Names(items), ToSet(Names(c)))
    decreases |items|
  {
    if items == [] {
      assert Names(items) == [];
    } else {
      var k, op := items[0].0, items[0].1;
      var c' := Assign(c, k, op);
      AssignAllNames(c', items[1..]);
      assert AssignAll(c, items) == AssignAll(c', items[1..]);
      DedupStep(items, ToSet(Names(c)));
      if k in Names(c) {
        AssignOld(c, k, op);
      } else {
        AssignFresh(c, k, op);
        ConcatShift(Names(c), k, DedupFrom(Names(items[1..]), ToSet(Names(c'))));
      }
    }
  }

  lemma ConcatShift(a: seq<string>, k: string, b: seq<string>)
    ensures (a + [k]) + b == a + ([k] + b)
  {
  }

  lemma AssignOld(c: Contract, k: string, op: Operation)
    requires k in Names(c)
    ensures k in ToSet(Names(c))
    ensures ToSet(Names(Assign(c, k, op))) == ToSet(Names(c))
    ensures Names(Assign(c, k, op)) == Names(c)
  {
  }

  lemma AssignFresh(c: Contract, k: string, op: Operation)
    requires k !in Names(c)
    ensures k !in ToSet(Names(c))
    ensures ToSet(Names(Assign(c, k, op))) == ToSet(Names(c)) + {k}
    ensures Names(Assign(c, k, op)) == Names(c) + [k]
  {
    ToSetSnoc(Names(c), k);
  }

  lemma ToSetSnoc(s: seq<string>, x: string)
    ensures ToSet(s + [x]) == ToSet(s) + {x}
  {
  }

  lemma {:induction false} AssignAllBinding(c: Contract, items: Contract, n: string)
    ensures LastBinding(AssignAll(c, items), n) ==
      if n in Names(items) then LastBinding(items, n) else LastBinding(c, n)
    decreases |items|
  {
    if items != [] {
      AssignAllBinding(Assign(c, items[0].0, items[0].1), items[1..], n);
      NamesCons(items);
      if n !in Names(items[1..]) {
        NoBinding(items[1..], n);
      } else {
        SomeBinding(items[1..], n);
      }
    }
  }

  lemma {:induction false} NoBinding(c: Contract, n: string)
    requires n !in Names(c)
    ensures LastBinding(c, n) == None
  {
    if c != [] {
      NamesCons(c);
      NoBinding(c[1..], n);
    }
  }

  lemma {:induction false} SomeBinding(c: Contract, n: string)
    requires n in Names(c)
    ensures LastBinding(c, n).Some?
  {
    NamesCons(c);
    if n in Names(c[1..]) {
      SomeBinding(c[1..], n);
    }
  }

  /** The dict comprehension keeps each name once, at the position of its
      first occurrence, bound to the operation of its last occurrence. */
  lemma FromItemsSpec(items: Contract)
    ensures Names(FromItems(items)) == DedupFrom(Names(items), {})
    ensures NoDuplicates(Names(FromItems(items)))
    ensures forall n :: n in Names(FromItems(items)) <==> n in Names(items)
    ensures forall n :: LastBinding(FromItems(items), n) == LastBinding(items, n)
  {
    AssignAllNames([], items);
    assert ToSet(Names([])) == {};
    DedupFromProperties(Names(items), {});
    forall n ensures LastBinding(FromItems(items), n) == LastBinding(items, n) {
      AssignAllBinding([], items, n);
      if n !in Names(items) {
        NoBinding(items, n);
      }
    }
  }

  /** An attribute of a class body: an `Operation`, which becomes a field,
      or anything else, which stays a class attribute. */
  datatype Attr = OperationAttr(op: Operation) | PlainAttr(v: Value)

  /** A base class of a new record class. A record class contributes, for
      each record class in its MRO from the most basic to itself, that class's
      contract; any other class contributes nothing. */
  datatype Base = RecordBase(lineage: seq<Contract>) | OtherBase

  function Concat(cs: seq<Contract>): Contract {
    if cs == [] then [] else cs[0] + Concat(cs[1..])
  }

  /** `all_bases_fields`: the base contracts' items, base by base. */
  function BaseItems(bases: seq<Base>): Contract {
    if bases == [] then []
    else (if bases[0].RecordBase? then Concat(bases[0].lineage) else []) + BaseItems(bases[1..])
  }

  /** `ns_fields`: the class body's `Operation` attributes, in order. The
      class body is its namespace dict, so each name is bound once in it; the
      model does not require that, and a repeated name would be kept twice. */
  function OwnFields(namespace: seq<(string, Attr)>): Contract {
    if namespace == [] then []
    else
      var rest := OwnFields(namespace[1..]);
      if namespace[0].1.OperationAttr? then [(namespace[0].0, namespace[0].1.op)] + rest else rest
  }

  /** The names of `ns_fields` are exactly the names the class body binds to
      operations. */
  lemma {:induction false} OwnFieldsNames(namespace: seq<(string, Attr)>, n: string)
    ensures n in Names(OwnFields(namespace)) <==>
      exists i :: 0 <= i < |namespace| && namespace[i].0 == n && namespace[i].1.OperationAttr?
  {
    if namespace != [] {
      var rest := OwnFields(namespace[1..]);
      OwnFieldsNames(namespace[1..], n);
      if namespace[0].1.OperationAttr? {
        NamesCons(OwnFields(namespace));
      }
      if n in Names(rest) {
        var j :| 0 <= j < |namespace[1..]| && namespace[1..][j].0 == n && namespace[1..][j].1.OperationAttr?;
        assert namespace[j + 1] == namespace[1..][j];
      }
      if exists i :: 0 <= i < |namespace| && namespace[i].0 == n && namespace[i].1.OperationAttr? {
        var i :| 0 <= i < |namespace| && namespace[i].0 == n && namespace[i].1.OperationAttr?;
        if i > 0 {
          assert namespace[1..][i - 1] == namespace[i];
        }
      }
    }
  }

  /** The contract of a new record class (cor/adt/record.py:42-51). */
  function MergeContract(bases: seq<Base>, namespace: seq<(string, Attr)>): Contract {
    FromItems(BaseItems(bases) + OwnFields(namespace))
  }

  /** Base fields come first, most-base first and each name at its first
      position; own fields follow; a name declared again keeps its place and
      takes the operation of its latest declaration, own ones winning over
      inherited ones; attributes that are not operations are not fields. */
  lemma MergeContractSpec(bases: seq<Base>, namespace: seq<(string, Attr)>)
    ensures var c := MergeContract(bases, namespace);
      && NoDuplicates(Names(c))
      && Names(c) == DedupFrom(Names(BaseItems(bases)), {}) +
                     DedupFrom(Names(OwnFields(namespace)), ToSet(Names(BaseItems(bases))))
      && (forall n :: n in Names(c) <==> n in Names(BaseItems(bases)) || n in Names(OwnFields(namespace)))
      && (forall n :: LastBinding(c, n) ==
            if n in Names(OwnFields(namespace)) then LastBinding(OwnFields(namespace), n)
            else LastBinding(BaseItems(bases), n))
  {
    var b, o := BaseItems(bases), OwnFields(namespace);
    MergeNames(b, o);
    MergeBindings(b, o);
  }

  lemma MergeNames(b: Contract, o: Contract)
    ensures NoDuplicates(Names(FromItems(b + o)))
    ensures Names(FromItems(b + o)) == DedupFrom(Names(b), {}) + DedupFrom(Names(o), ToSet(Names(b)))
    ensures forall n :: n in Names(FromItems(b + o)) <==> n in Names(b) || n in Names(o)
  {
    FromItemsSpec(b + o);
    NamesAppend(b, o);
    DedupAppend(Names(b), Names(o), {});
    assert {} + ToSet(Names(b)) == ToSet(Names(b));
  }

  lemma MergeBindings(b: Contract, o: Contract)
    ensures forall n :: LastBinding(FromItems(b + o), n) ==
                          if n in Names(o) then LastBinding(o, n) else LastBinding(b, n)
  {
    FromItemsSpec(b + o);
    forall n ensures LastBinding(b + o, n) == if n in Names(o) then LastBinding(o, n) else LastBinding(b, n) {
      AppendBindings(b, o, n);
    }
  }

  lemma {:induction false} DedupAppend(a: seq<string>, b: seq<string>, seen: set<string>)
    ensures DedupFrom(a + b, seen) == DedupFrom(a, seen) + DedupFrom(b, seen + ToSet(a))
  {
    if a == [] {
      assert a + b == b;
      assert ToSet(a) == {};
      assert seen + ToSet(a) == seen;
    } else {
      assert (a + b)[1..] == a[1..] + b;
      assert ToSet(a) == {a[0]} + ToSet(a[1..]);
      if a[0] in seen {
        DedupAppend(a[1..], b, seen);
        assert seen + ToSet(a[1..]) == seen + ToSet(a);
      } else {
        DedupAppend(a[1..], b, seen + {a[0]});
        assert seen + {a[0]} + ToSet(a[1..]) == seen + ToSet(a);
      }
    }
  }

  lemma {:induction false} AppendBindings(a: Contract, b: Contract, n: string)
    ensures LastBinding(a + b, n) == if n in Names(b) then LastBinding(b, n) else LastBinding(a, n)
  {
    if a == [] {
      assert a + b == b;
      if n !in Names(b) { NoBinding(b, n); }
    } else {
      assert (a + b)[1..] == a[1..] + b;
      AppendBindings(a[1..], b, n);
      if n in Names(b) { SomeBinding(b, n); }
    }
  }

  /** A class body that binds `n` only to non-operations adds no field `n`
      beyond those its bases have. */
  lemma PlainAttributeNotField(bases: seq<Base>, namespace: seq<(string, Attr)>, n: string)
    requires forall i :: 0 <= i < |namespace| && namespace[i].0 == n ==> namespace[i].1.PlainAttr?
    requires n !in Names(BaseItems(bases))
    ensures n !in Names(MergeContract(bases, namespace))
  {
    MergeContractSpec(bases, namespace);
    OwnFieldsNames(namespace, n);
  }

  /** An inherited field redeclared in the class body keeps its inherited
      position and takes the new operation. */
  lemma RedeclaredKeepsPosition(bases: seq<Base>, namespace: seq<(string, Attr)>, i: nat)
    requires i < |DedupFrom(Names(BaseItems(bases)), {})|
    requires DedupFrom(Names(BaseItems(bases)), {})[i] in Names(OwnFields(namespace))
    ensures var n := DedupFrom(Names(BaseItems(bases)), {})[i];
      && i < |Names(MergeContract(bases, namespace))|
      && Names(MergeContract(bases, namespace))[i] == n
      && LastBinding(MergeContract(bases, namespace), n) == LastBinding(OwnFields(namespace), n)
  {
    MergeContractSpec(bases, namespace);
  }
}
