/** pyast/field.py: the `field` and `seq` descriptor factories, which build
    guard records stamped from a shared declaration counter, and the
    per-field validators and initialisers a node applies to its values. */
module Fields {
  import opened Values
  import opened Matcher
  import opened TypedLists

  /** The class a guard record names as `field_cls`: `field`, `seq`,
      `basefield` itself, or a class outside the basefield hierarchy (only
      a hand-written record can name one). */
  datatype FieldCls = FieldKind | SeqKind | BaseKind | ForeignKind

  /** `issubclass(field_cls, basefield)` */
  predicate IsBasefield(c: FieldCls) {
    !c.ForeignKind?
  }

  /** `guard_type`: compare by membership (`'str'`) or by `isinstance` (`'class'`). */
  datatype GuardType = StrGuard | ClassGuard

  /** The guard record a descriptor factory returns. */
  datatype Guard = Guard(types: Value, guardType: GuardType, fieldCls: FieldCls,
                         nullable: bool, default: Value, counter: nat)

  /** `types[0]`: the first item of a list, tuple or string; an IndexError
      when it is empty and a TypeError when the value cannot be indexed. */
  function First(types: Value): (r: Result<Value>)
    ensures r.Ok? <==> HasIter(types) && Truthy(types)
    ensures r.Ok? ==> r.value == Elements(types)[0]
    ensures r.Err? ==> r.error == (if HasIter(types) then IndexError else TypeError)
  {
    match types
    case VList(xs) => if xs == [] then Err(IndexError) else Ok(xs[0])
    case VTuple(xs) => if xs == [] then Err(IndexError) else Ok(xs[0])
    case VStr(s) => if s == "" then Err(IndexError) else Ok(VStr([s[0]]))
    case _ => Err(TypeError)
  }

  /** `basefield.__new__(cls, types, null, default)` once the counter reads
      `stamp`: a lone class or string becomes a one-element tuple, the guard
      type follows the first member, and a sequence left without a default
      gets the empty list. */
  function MakeGuard(cls: FieldCls, types: Value, nullable: bool, default: Value, stamp: nat): (r: Result<Guard>)
    ensures r.Ok? ==> r.value.counter == stamp && r.value.fieldCls == cls && r.value.nullable == nullable
  {
    var t := if types.VClass? || types.VStr? then VTuple([types]) else types;
    match First(t)
    case Err(e) => Err(e)
    case Ok(first) =>
      Ok(Guard(t, if first.VStr? then StrGuard else ClassGuard, cls, nullable,
               if default == VNone && cls == SeqKind then VList([]) else default, stamp))
  }

  /** A lone class or string is wrapped into a one-element tuple, and the
      record is then always built; its guard type says whether it was a string. */
  lemma MakeGuardWraps(cls: FieldCls, types: Value, nullable: bool, default: Value, stamp: nat)
    requires types.VClass? || types.VStr?
    ensures var r := MakeGuard(cls, types, nullable, default, stamp);
            r.Ok? && r.value.types == VTuple([types]) &&
            (r.value.guardType == StrGuard <==> types.VStr?)
  {
  }

  /** A list or tuple is kept as given: an empty one raises an IndexError, and
      otherwise the guard type is `'str'` exactly when its first member is a string. */
  lemma MakeGuardKeepsSequence(cls: FieldCls, types: Value, nullable: bool, default: Value, stamp: nat)
    requires types.VList? || types.VTuple?
    ensures var r := MakeGuard(cls, types, nullable, default, stamp);
            (r.Err? <==> types.elems == []) &&
            (r.Err? ==> r.error == IndexError) &&
            (r.Ok? ==> r.value.types == types && (r.value.guardType == StrGuard <==> types.elems[0].VStr?))
  {
  }

  /** Any other value (None, a number, a pattern, an object) cannot be
      indexed, so the factory raises a TypeError. */
  lemma MakeGuardRefusesScalar(cls: FieldCls, types: Value, nullable: bool, default: Value, stamp: nat)
    requires !HasIter(types) && !types.VClass?
    ensures MakeGuard(cls, types, nullable, default, stamp) == Err(TypeError)
  {
  }

  /** A `seq` declared without a default gets `[]`; every other descriptor
      keeps its default as given, `None` included. */
  lemma MakeGuardDefault(cls: FieldCls, types: Value, nullable: bool, default: Value, stamp: nat)
    requires MakeGuard(cls, types, nullable, default, stamp).Ok?
    ensures var g := MakeGuard(cls, types, nullable, default, stamp).value;
            g.default == (if cls == SeqKind && default == VNone then VList([]) else default)
  {
  }

  /** The declaration counter `basefield._counter`, shared by every factory. */
  class Registry {
    var counter: nat

    constructor ()
      ensures counter == 0
    {
      counter := 0;
    }

    /** `field(...)`, `seq(...)` or `basefield(...)`: the counter goes up
        before anything else, so even a declaration that raises uses a stamp. */
    method Declare(cls: FieldCls, types: Value, nullable: bool, default: Value) returns (r: Result<Guard>)
      modifies this
      ensures counter == old(counter) + 1
      ensures r == MakeGuard(cls, types, nullable, default, counter)
    {
      counter := counter + 1;
      r := MakeGuard(cls, types, nullable, default, counter);
    }

    /** Of two declarations in a row, the later one carries the larger stamp. */
    method DeclareTwo(c1: FieldCls, t1: Value, n1: bool, d1: Value,
                      c2: FieldCls, t2: Value, n2: bool, d2: Value) returns (r1: Result<Guard>, r2: Result<Guard>)
      modifies this
      ensures counter == old(counter) + 2
      ensures r1.Ok? && r2.Ok? ==> r1.value.counter < r2.value.counter
    {
      r1 := Declare(c1, t1, n1, d1);
      r2 := Declare(c2, t2, n2, d2);
    }
  }

  /** `field._validate_set(name, val, guard)` lets `val` through: None only
      when the field is nullable, otherwise membership for a `'str'` guard and
      `isinstance` for a `'class'` guard (a TypeError from either refuses). */
  predicate FieldAccepts(val: Value, g: Guard) {
    if val == VNone then g.nullable
    else match g.guardType
      case StrGuard => Contains(g.types, val) == Ok(true)
      case ClassGuard => Isinstance(val, g.types) == Ok(true)
  }

  /** `seq._validate_set(name, val, guard)` lets `val` through: None only
      when nullable, otherwise an iterable whose every item passes
      `isinstance` against the guard's types, whatever its guard type. */
  predicate SeqAccepts(val: Value, g: Guard) {
    (val == VNone && g.nullable) ||
    (HasIter(val) && forall k :: 0 <= k < |Elements(val)| ==> Isinstance(Elements(val)[k], g.types) == Ok(true))
  }

  /** For a non-None value, a `'str'` field accepts exactly the values a
      typed list over the same literal members accepts as one item. */
  lemma StrFieldAgreesWithList(rx: Regex, val: Value, g: Guard)
    requires val != VNone && g.guardType == StrGuard
    requires g.types.VTuple? && |g.types.elems| > 0
    requires (forall m :: m in g.types.elems ==> m.VStr?) || (forall m :: m in g.types.elems ==> m.VInt?)
    ensures FieldAccepts(val, g) <==>
            ItemAccepted(rx, g.types, SelectMode(Members(g.types)), ListFlavour, val)
  {
    LiteralMembers(rx, g.types, ListFlavour, val);
  }

  /** For a non-None value, a `'class'` field over classes of one metaclass
      accepts exactly what a typed list over the same classes accepts as one item. */
  lemma ClassFieldAgreesWithList(rx: Regex, val: Value, g: Guard)
    requires val != VNone && g.guardType == ClassGuard
    requires g.types.VTuple? && |g.types.elems| > 0
    requires forall m :: m in g.types.elems ==> m.VClass? && ClassOf(m) == ClassOf(g.types.elems[0])
    ensures FieldAccepts(val, g) <==>
            ItemAccepted(rx, g.types, SelectMode(Members(g.types)), ListFlavour, val)
  {
    ClassMembers(rx, g.types, ListFlavour, val);
  }

  /** Over a tuple of classes a `'class'` field accepts a non-None value
      exactly when it is an instance of one of them. */
  lemma ClassFieldAccepts(val: Value, g: Guard)
    requires val != VNone && g.guardType == ClassGuard
    requires g.types.VTuple? && forall j :: 0 <= j < |g.types.elems| ==> g.types.elems[j].VClass?
    ensures FieldAccepts(val, g) <==>
            exists j :: 0 <= j < |g.types.elems| && IsInstance(val, g.types.elems[j].cls)
  {
    IsinstanceOfClasses(val, g.types, 0);
  }

  /** `seq._validate_set` always uses `isinstance`: with a guard of string
      members, any non-empty iterable is refused, even one made of those strings. */
  lemma SeqValidateIgnoresGuardType(val: Value, g: Guard)
    requires g.types.VTuple? && |g.types.elems| > 0 && g.types.elems[0].VStr?
    requires HasIter(val) && Truthy(val)
    ensures !SeqAccepts(val, g)
  {
    var x := Elements(val)[0];
    assert Isinstance(x, g.types.elems[0]) == Err(TypeError);
    assert IsinstanceOfAny(x, g.types, 0) == Err(TypeError);
  }

  /** What a field holds once `field_cls.init` has accepted a value: the value
      itself, or a typed list with the given constraint, nullability and items. */
  datatype Stored = Plain(v: Value) | TypedSeq(types: Value, nullable: bool, items: seq<Value>)

  /** `field_cls.init(name, val, guard)`: `field.init` returns the value it
      validated, `seq.init` builds `TypedList(types, val, null)`, and
      `basefield` has no `init` (an AttributeError). */
  function FieldInit(rx: Regex, val: Value, g: Guard): (r: Result<Stored>)
    ensures g.fieldCls == FieldKind ==> (r.Ok? <==> FieldAccepts(val, g)) && (r.Ok? ==> r.value == Plain(val))
    ensures g.fieldCls == SeqKind ==> r.Ok? ==> r.value.TypedSeq? && r.value.nullable == g.nullable &&
                                                r.value.types == NormaliseTypes(g.types)
    ensures g.fieldCls == SeqKind ==> (r.Ok? <==> InitContents(rx, g.types, val, g.nullable).Ok?) &&
                                      (r.Ok? ==> r.value.items == InitContents(rx, g.types, val, g.nullable).value) &&
                                      (r.Err? ==> r.error == InitContents(rx, g.types, val, g.nullable).error)
    ensures g.fieldCls == FieldKind && r.Err? ==> r.error == TypeError
    ensures g.fieldCls != FieldKind && g.fieldCls != SeqKind ==> r == Err(AttributeError)
  {
    match g.fieldCls
    case FieldKind => if FieldAccepts(val, g) then Ok(Plain(val)) else Err(TypeError)
    case SeqKind =>
      (match InitContents(rx, g.types, val, g.nullable)
       case Ok(c) => Ok(TypedSeq(NormaliseTypes(g.types), g.nullable, c))
       case Err(e) => Err(e))
    case _ => Err(AttributeError)
  }

  /** The value a stored field reads back as (a typed list iterates as a list). */
  function StoredValue(st: Stored): Value {
    match st
    case Plain(v) => v
    case TypedSeq(_, _, items) => VList(items)
  }

  /** A `seq` field is empty only when it is nullable, and a present
      non-nullable `field` is never None. */
  lemma FieldInitNonEmpty(rx: Regex, val: Value, g: Guard)
    requires FieldInit(rx, val, g).Ok? && !g.nullable
    ensures g.fieldCls == SeqKind ==> FieldInit(rx, val, g).value.items != []
    ensures g.fieldCls == FieldKind ==> FieldInit(rx, val, g).value.v != VNone
  {
  }

  /** Running `field_cls.init` again on what it produced (as a debug-mode
      store does) accepts it and produces the same thing. */
  lemma FieldInitAgain(rx: Regex, val: Value, g: Guard)
    requires FieldInit(rx, val, g).Ok?
    ensures var st := FieldInit(rx, val, g).value;
            FieldInit(rx, StoredValue(st), g) == Ok(st)
  {
    if g.fieldCls == SeqKind {
      InitAgain(rx, g.types, val, g.nullable);
    }
  }

  /** A field slot of a node: a plain value, or a typed list the node owns. */
  datatype Slot = Raw(v: Value) | Typed(l: TypedList)

  /** Slot `s` holds what `st` describes. */
  predicate SlotHolds(s: Slot, st: Stored)
    reads if s.Typed? then {s.l} else {}
  {
    match st
    case Plain(v) => s == Raw(v)
    case TypedSeq(types, nullable, items) =>
      s.Typed? && s.l.types == types && s.l.nullable == nullable && s.l.items == items
  }

  /** `field_cls.init(name, val, guard)` as the node runs it: a `seq` guard
      allocates a new typed list. */
  method InitField(rx: Regex, val: Value, g: Guard) returns (r: Result<Slot>)
    ensures r.Err? <==> FieldInit(rx, val, g).Err?
    ensures r.Err? ==> r.error == FieldInit(rx, val, g).error
    ensures r.Ok? ==> SlotHolds(r.value, FieldInit(rx, val, g).value)
    ensures r.Ok? && r.value.Typed? ==> fresh(r.value.l) && r.value.l.rx == rx
  {
    match g.fieldCls
    case FieldKind =>
      if FieldAccepts(val, g) {
        return Ok(Raw(val));
      }
      return Err(TypeError);
    case SeqKind =>
      var l := TypedList.New(rx, g.types, val, g.nullable);
      if l.Err? {
        return Err(l.error);
      }
      return Ok(Typed(l.value));
    case _ =>
      return Err(AttributeError);
  }
}
