/** pyast/__init__.py: the earlier, single-module version of the schema layer
    (the descriptor factories, a typed list, the metaclass and the node
    base). Its module-wide `DEBUG` switch is the parameter `debug` here. Its
    two `_validate_set` methods are the same checks as in pyast/field.py,
    modelled by `Fields.FieldAccepts` and `Fields.SeqAccepts`; neither version
    calls them. This version runs under Python 2, so its typed list decides
    iterability with `Values.HasIterPy2`. */
module Snapshot {
  import opened Values
  import opened Slices
  import opened TypedLists
  import opened Fields
  import opened Schemas
  import opened Nodes

  // ---------------------------------------------------------------------
  // basefield

  /** `types.__class__ in (type, str)`: a string, or a class whose class is
      `type` itself. A node class, whose class is the metaclass, is not. */
  predicate WrappedAlone(types: Value) {
    types.VStr? || (types.VClass? && ClassOf(types) == TypeClass)
  }

  /** `basefield.__new__(cls, types, null, default)` once the counter reads
      `stamp`: a lone string or plain class becomes a one-element tuple, the
      guard type follows the first member, and the default is kept as given.
      The record is built exactly when the constraint was wrapped or is a
      non-empty list, tuple or string. */
  function SnapGuard(cls: FieldCls, types: Value, nullable: bool, default: Value, stamp: nat): (r: Result<Guard>)
    ensures r.Ok? <==> WrappedAlone(types) || (HasIter(types) && Truthy(types))
    ensures r.Ok? ==> r.value.counter == stamp && r.value.fieldCls == cls &&
                      r.value.nullable == nullable && r.value.default == default
  {
    var t := if WrappedAlone(types) then VTuple([types]) else types;
    match First(t)
    case Err(e) => Err(e)
    case Ok(first) => Ok(Guard(t, if first.VStr? then StrGuard else ClassGuard, cls, nullable, default, stamp))
  }

  /** A node class is not wrapped, and indexing it raises a TypeError: a
      field declared with a single node class is refused here, while the
      later factory accepts it. */
  lemma SnapGuardRefusesNodeClass(cls: FieldCls, c: ClassId, nullable: bool, default: Value, stamp: nat)
    requires IsSubclass(c, NodeClass)
    ensures SnapGuard(cls, VClass(c), nullable, default, stamp) == Err(TypeError)
    ensures MakeGuard(cls, VClass(c), nullable, default, stamp).Ok?
  {
  }

  /** The declaration `field(Identifier)` of a node class `Identifier`
      raises a TypeError. */
  lemma SnapFieldOfNodeClassRaises()
    ensures SnapGuard(FieldKind, VClass(UserClass("Identifier", [NodeClass])), false, VNone, 1) == Err(TypeError)
  {
    var c := UserClass("Identifier", [NodeClass]);
    assert c.bases[0] == NodeClass;
    SnapGuardRefusesNodeClass(FieldKind, c, false, VNone, 1);
  }

  /** For any constraint other than a node class, the two factories build
      the same record, except that this one never puts `[]` in for the
      missing default of a `seq`. */
  lemma SnapGuardMatchesLater(cls: FieldCls, types: Value, nullable: bool, default: Value, stamp: nat)
    requires !(types.VClass? && IsSubclass(types.cls, NodeClass))
    ensures var r := MakeGuard(cls, types, nullable, default, stamp);
            SnapGuard(cls, types, nullable, default, stamp) == if r.Ok? then Ok(r.value.(default := default)) else r
  {
  }

  /** `field(...)`, `seq(...)` or `basefield(...)` in this version: the
      shared counter goes up first, even for a declaration that raises. */
  method Declare(reg: Registry, cls: FieldCls, types: Value, nullable: bool, default: Value) returns (r: Result<Guard>)
    modifies reg
    ensures reg.counter == old(reg.counter) + 1
    ensures r == SnapGuard(cls, types, nullable, default, reg.counter)
  {
    reg.counter := reg.counter + 1;
    r := SnapGuard(cls, types, nullable, default, reg.counter);
  }

  // ---------------------------------------------------------------------
  // TypedList

  /** `self._type`: `"str"` (true) when `types[0]` is a string; `types[0]`
      raises an IndexError on an empty constraint and a TypeError on one
      that cannot be indexed. */
  function ListMode(types: Value): (r: Result<bool>)
    ensures r.Ok? <==> HasIter(types) && Truthy(types)
    ensures r.Ok? ==> (r.value <==> Elements(types)[0].VStr?)
  {
    match First(types)
    case Err(e) => Err(e)
    case Ok(first) => Ok(first.VStr?)
  }

  /** One item passes `__enforceType`: membership (`i in self._types`) in
      `"str"` mode, `isinstance(i, self._types)` otherwise; a TypeError from
      either refuses it. */
  predicate ItemOk(types: Value, strMode: bool, x: Value) {
    if strMode then Contains(types, x) == Ok(true) else Isinstance(x, types) == Ok(true)
  }

  /** Every item passes `__enforceType`. */
  predicate AllOk(types: Value, strMode: bool, xs: seq<Value>) {
    forall k :: 0 <= k < |xs| ==> ItemOk(types, strMode, xs[k])
  }

  /** `__enforceType(items)` once a non-iterable has been wrapped: the items
      are checked in order and the first failure stops the check. */
  method EnforceAll(types: Value, strMode: bool, xs: seq<Value>) returns (ok: bool)
    ensures ok == AllOk(types, strMode, xs)
  {
    var k := 0;
    while k < |xs|
      invariant 0 <= k <= |xs|
      invariant forall j :: 0 <= j < k ==> ItemOk(types, strMode, xs[j])
    {
      if !ItemOk(types, strMode, xs[k]) {
        return false;
      }
      k := k + 1;
    }
    return true;
  }

  /** The contents `TypedList(init, types, null)` starts with, or the error
      its constructor raises. A truthy `init` is checked as `extend` checks
      it and contributes its items; those of a list or tuple each pass the
      check of the list's mode. The list starts empty only when it is
      nullable. */
  function SnapListInit(init: Value, types: Value, nullable: bool): (r: Result<seq<Value>>)
    ensures r.Ok? ==> ListMode(types).Ok?
    ensures r.Ok? && Truthy(init) ==> HasIter(init) && AllOk(types, ListMode(types).value, ItemsOrSelfPy2(init)) && r.value == Elements(init)
    ensures r.Ok? && !init.VStr? ==> AllOk(types, ListMode(types).value, r.value)
    ensures r.Ok? && r.value == [] ==> nullable
    ensures r.Err? && ListMode(types).Ok? ==> r.error == TypeError
  {
    match ListMode(types)
    case Err(e) => Err(e)
    case Ok(strMode) =>
      if Truthy(init) then
        if AllOk(types, strMode, ItemsOrSelfPy2(init)) && HasIter(init) then Ok(Elements(init)) else Err(TypeError)
      else if nullable then Ok([])
      else Err(TypeError)
  }

  /** `TypedList.__delitem__(key)`: on a non-nullable list of length one any
      key is refused; otherwise the built-in deletion runs. */
  function SnapDeleteItem(s: seq<Value>, nullable: bool, k: Key): (r: Result<seq<Value>>)
    ensures !nullable && |s| == 1 ==> r == Err(TypeError)
    ensures !(!nullable && |s| == 1) ==> r == ListDelete(s, k)
  {
    if !nullable && |s| == 1 then Err(TypeError) else ListDelete(s, k)
  }

  /** `TypedList.__delslice__(i, j)`: on a non-nullable list the raw bounds
      are compared with the length (`len(self) <= j - i`) before the
      built-in deletion clamps them. */
  function SnapDeleteSlice(s: seq<Value>, nullable: bool, i: int, j: int): (r: Result<seq<Value>>)
    ensures r.Err? <==> !nullable && |s| <= j - i
    ensures r.Ok? ==> var (lo, hi) := ClampRun(i, j, |s|); r.value == s[..lo] + s[hi..]
  {
    if !nullable && |s| <= j - i then Err(TypeError)
    else
      var (lo, hi) := ClampRun(i, j, |s|);
      Ok(s[..lo] + s[hi..])
  }

  /** The list of this version. */
  class SnapList {
    /** The constraint, as given (`self._types`). */
    const types: Value
    /** `self._type is "str"`. */
    const strMode: bool
    /** `self._null`. */
    const nullable: bool
    /** The elements. */
    var items: seq<Value>

    /** `__init__` up to the point where the initial items are added. */
    constructor Empty(types: Value, strMode: bool, nullable: bool)
      ensures this.types == types && this.strMode == strMode && this.nullable == nullable && items == []
    {
      this.types := types;
      this.strMode := strMode;
      this.nullable := nullable;
      items := [];
    }

    /** `TypedList(init, types, null)`: `types[0]` picks the mode, then a
        truthy `init` is added through `extend` and a falsy one is refused
        unless the list is nullable. */
    static method New(init: Value, types: Value, nullable: bool) returns (r: Result<SnapList>)
      ensures r.Err? <==> SnapListInit(init, types, nullable).Err?
      ensures r.Err? ==> r.error == SnapListInit(init, types, nullable).error
      ensures r.Ok? ==> fresh(r.value) && r.value.items == SnapListInit(init, types, nullable).value &&
                        r.value.types == types && r.value.nullable == nullable &&
                        ListMode(types) == Ok(r.value.strMode)
    {
      var mode := ListMode(types);
      if mode.Err? {
        return Err(mode.error);
      }
      var l := new SnapList.Empty(types, mode.value, nullable);
      if Truthy(init) {
        var o := l.Extend(init);
        if o.Fail? {
          return Err(o.error);
        }
      } else if !nullable {
        return Err(TypeError);
      }
      return Ok(l);
    }

    /** `append(item)`: a list or tuple item has each of its items checked,
        anything else (a string included) is checked itself; then it is
        added at the end. */
    method Append(item: Value) returns (o: Outcome)
      modifies this
      ensures o.Pass? <==> AllOk(types, strMode, ItemsOrSelfPy2(item))
      ensures o.Pass? ==> items == old(items) + [item]
      ensures o.Fail? ==> o.error == TypeError && items == old(items)
    {
      var ok := EnforceAll(types, strMode, ItemsOrSelfPy2(item));
      if !ok {
        return Fail(TypeError);
      }
      items := items + [item];
      return Pass;
    }

    /** `insert(pos, item)`: checked as `append`, then put at the clamped position. */
    method Insert(pos: int, item: Value) returns (o: Outcome)
      modifies this
      ensures o.Pass? <==> AllOk(types, strMode, ItemsOrSelfPy2(item))
      ensures o.Pass? ==> var p := InsertPos(pos, |old(items)|);
                          items == old(items)[..p] + [item] + old(items)[p..]
      ensures o.Fail? ==> o.error == TypeError && items == old(items)
    {
      var ok := EnforceAll(types, strMode, ItemsOrSelfPy2(item));
      if !ok {
        return Fail(TypeError);
      }
      var p := InsertPos(pos, |items|);
      items := items[..p] + [item] + items[p..];
      return Pass;
    }

    /** `extend(vals)` (also bound as `set`): the items of a list or tuple,
        or the value itself, are checked, then the built-in `extend` adds
        the items of the value (the characters of a string) and refuses a
        value that is not iterable. */
    method Extend(vals: Value) returns (o: Outcome)
      modifies this
      ensures o.Pass? <==> HasIter(vals) && AllOk(types, strMode, ItemsOrSelfPy2(vals))
      ensures o.Pass? ==> items == old(items) + Elements(vals)
      ensures o.Fail? ==> o.error == TypeError && items == old(items)
    {
      var ok := EnforceAll(types, strMode, ItemsOrSelfPy2(vals));
      if !ok || !HasIter(vals) {
        return Fail(TypeError);
      }
      items := items + Elements(vals);
      return Pass;
    }

    /** `pop()`: refused on a non-nullable list of length one; otherwise the
        last element is removed and returned, an IndexError when there is none. */
    method Pop() returns (r: Result<Value>)
      modifies this
      ensures !nullable && |old(items)| == 1 ==> r == Err(TypeError) && items == old(items)
      ensures !(!nullable && |old(items)| == 1) && old(items) == [] ==> r == Err(IndexError) && items == old(items)
      ensures !(!nullable && |old(items)| == 1) && old(items) != [] ==>
                r == Ok(old(items)[|old(items)| - 1]) && items == old(items)[..|old(items)| - 1]
    {
      if !nullable && |items| == 1 {
        return Err(TypeError);
      }
      if items == [] {
        return Err(IndexError);
      }
      r := Ok(items[|items| - 1]);
      items := items[..|items| - 1];
    }

    /** `__delitem__(key)`. */
    method DelItem(k: Key) returns (o: Outcome)
      modifies this
      ensures var d := SnapDeleteItem(old(items), nullable, k);
              if d.Ok? then o == Pass && items == d.value
              else o == Fail(d.error) && items == old(items)
    {
      if !nullable && |items| == 1 {
        return Fail(TypeError);
      }
      var d := ListDelete(items, k);
      if d.Err? {
        return Fail(d.error);
      }
      items := d.value;
      return Pass;
    }

    /** `__setitem__(key, value)`: the value is checked as `append` checks
        an item, then the built-in assignment runs. */
    method SetItem(k: Key, value: Value) returns (o: Outcome)
      modifies this
      ensures var a := ListAssign(old(items), k, value);
              if !AllOk(types, strMode, ItemsOrSelfPy2(value)) then o == Fail(TypeError) && items == old(items)
              else if a.Err? then o == Fail(a.error) && items == old(items)
              else o == Pass && items == a.value
    {
      var ok := EnforceAll(types, strMode, ItemsOrSelfPy2(value));
      if !ok {
        return Fail(TypeError);
      }
      var a := ListAssign(items, k, value);
      if a.Err? {
        return Fail(a.error);
      }
      items := a.value;
      return Pass;
    }

    /** `__setslice__(i, j, vals)`: the items are checked, then the clamped
        run [i, j) is replaced by them; a non-iterable is refused. */
    method SetSlice(i: int, j: int, vals: Value) returns (o: Outcome)
      modifies this
      ensures o.Pass? <==> HasIter(vals) && AllOk(types, strMode, ItemsOrSelfPy2(vals))
      ensures o.Pass? ==> var (lo, hi) := ClampRun(i, j, |old(items)|);
                          items == old(items)[..lo] + Elements(vals) + old(items)[hi..]
      ensures o.Fail? ==> o.error == TypeError && items == old(items)
    {
      var ok := EnforceAll(types, strMode, ItemsOrSelfPy2(vals));
      if !ok || !HasIter(vals) {
        return Fail(TypeError);
      }
      var (lo, hi) := ClampRun(i, j, |items|);
      items := items[..lo] + Elements(vals) + items[hi..];
      return Pass;
    }

    /** `__delslice__(i, j)`. */
    method DelSlice(i: int, j: int) returns (o: Outcome)
      modifies this
      ensures var d := SnapDeleteSlice(old(items), nullable, i, j);
              if d.Ok? then o == Pass && items == d.value
              else o == Fail(d.error) && items == old(items)
    {
      if !nullable && |items| <= j - i {
        return Fail(TypeError);
      }
      var (lo, hi) := ClampRun(i, j, |items|);
      items := items[..lo] + items[hi..];
      return Pass;
    }
  }

  /** The mode follows the first member alone: over a constraint whose first
      member is a string, items are compared by equality with the members,
      so an instance of a class listed later is refused. */
  lemma StrModeComparesMembers(types: Value, x: Value)
    requires types.VTuple? && |types.elems| > 0 && types.elems[0].VStr?
    ensures ListMode(types) == Ok(true)
    ensures ItemOk(types, true, x) <==> x in types.elems
  {
  }

  /** Over `("+", int)` the integer 3 is refused, although it is an `int`. */
  lemma MixedConstraintRefusesInstance()
    ensures var types := VTuple([VStr("+"), VClass(IntClass)]);
            ListMode(types) == Ok(true) && !ItemOk(types, true, VInt(3)) &&
            Isinstance(VInt(3), VClass(IntClass)) == Ok(true)
  {
    var types := VTuple([VStr("+"), VClass(IntClass)]);
    assert VInt(3) !in types.elems;
  }

  /** Under Python 2 a string has no `__iter__`, so a string item is checked
      whole: over `("+", "-")` the list refuses `"+-"`, although each of its
      characters is a member. */
  lemma StringItemCheckedWhole()
    ensures var types := VTuple([VStr("+"), VStr("-")]);
            !AllOk(types, true, ItemsOrSelfPy2(VStr("+-"))) && AllOk(types, true, Elements(VStr("+-")))
  {
    var types := VTuple([VStr("+"), VStr("-")]);
    assert ItemsOrSelfPy2(VStr("+-")) == [VStr("+-")];
    assert VStr("+-") !in types.elems by {
      assert |"+-"| == 2 && |"+"| == 1 && |"-"| == 1;
    }
    assert !ItemOk(types, true, VStr("+-"));
    assert ItemsOrSelfPy2(VStr("+-"))[0] == VStr("+-");
    var xs := Elements(VStr("+-"));
    assert xs == [VStr("+"), VStr("-")];
    assert types.elems[0] == VStr("+") && types.elems[1] == VStr("-");
    assert ItemOk(types, true, xs[0]) && ItemOk(types, true, xs[1]);
  }

  /** `extend` checks a string whole but adds its characters: over `("+-",)`
      the string `"+-"` passes and the list gains `"+"` and `"-"`, neither of
      which is a member. So "every element satisfies the constraint" is not
      an invariant of this list either. */
  lemma StringExtendStoresCharacters()
    ensures var types := VTuple([VStr("+-")]);
            AllOk(types, true, ItemsOrSelfPy2(VStr("+-"))) &&
            SnapListInit(VStr("+-"), types, false) == Ok([VStr("+"), VStr("-")]) &&
            VStr("+") !in types.elems && VStr("-") !in types.elems
  {
    var types := VTuple([VStr("+-")]);
    assert ItemsOrSelfPy2(VStr("+-")) == [VStr("+-")];
    assert ListMode(types) == Ok(true);
    assert Elements(VStr("+-")) == [VStr("+"), VStr("-")];
  }

  /** On a non-nullable list of length one every deletion is refused, even
      one through a slice that would delete nothing. */
  lemma DeleteItemRefusesAtOne(x: Value)
    ensures SnapDeleteItem([x], false, SliceKey(Slice(Some(5), None, None))) == Err(TypeError)
    ensures ListDelete([x], SliceKey(Slice(Some(5), None, None))) == Ok([x])
  {
    var sl := Slice(Some(5), None, None);
    assert Indices(sl, 1) == Ok((1, 1, 1));
    assert Positions(1, 1, 1) == [];
    assert [x][..0] == [];
    assert KeepOutside([x], []) == KeepOutside([], []) + [x];
    assert KeepOutside([x], Positions(1, 1, 1)) == [x];
  }

  /** With two or more elements the guard no longer applies: `del l[::1]`
      empties a non-nullable list, which the later version refuses. */
  lemma ExtendedSliceDeleteEmpties(s: seq<Value>)
    requires |s| >= 2
    ensures SnapDeleteItem(s, false, SliceKey(Slice(None, None, Some(1)))) == Ok([])
    ensures DeleteItem(s, false, SliceKey(Slice(None, None, Some(1)))) == Err(TypeError)
  {
    var sl := Slice(None, None, Some(1));
    assert Indices(sl, |s|) == Ok((0, |s|, 1));
    UnitStepPositions(0, |s|, 1);
    KeepOutsideAll(s, Positions(0, |s|, 1));
  }

  /** The guard of `__delslice__` compares raw bounds: `del l[i:]` on a
      non-nullable list (Python 2 passes the largest integer as `j`) is
      refused although it would keep the first `i` elements. */
  lemma DeleteSliceRefusesTail(s: seq<Value>, i: int, j: int)
    requires 0 < i < |s| && |s| <= j - i
    ensures SnapDeleteSlice(s, false, i, j) == Err(TypeError)
    ensures SnapDeleteSlice(s, true, i, j) == Ok(s[..i]) && |s[..i]| > 0
  {
    assert ClampRun(i, j, |s|) == (i, |s|);
    assert s[..i] + s[|s|..] == s[..i];
  }

  // ---------------------------------------------------------------------
  // field and seq initialisers

  /** `field_cls.init(name, val, guard)` in this version. `field.init`
      validates only in debug mode and returns the value; `seq.init` builds a
      typed list in debug mode and copies the value into a plain list
      otherwise; `basefield` has no `init` (an AttributeError). */
  function SnapInit(debug: bool, val: Value, g: Guard): (r: Result<Stored>)
    ensures g.fieldCls == FieldKind ==> (r.Ok? <==> !debug || FieldAccepts(val, g)) && (r.Ok? ==> r.value == Plain(val))
    ensures g.fieldCls == SeqKind && debug && r.Ok? ==>
              r.value.TypedSeq? && r.value.types == g.types && r.value.nullable == g.nullable &&
              SnapListInit(val, g.types, g.nullable) == Ok(r.value.items)
    ensures g.fieldCls == SeqKind && !debug ==> (r.Ok? <==> !Truthy(val) || HasIter(val))
    ensures !IsBasefield(g.fieldCls) || g.fieldCls == BaseKind ==> r == Err(AttributeError)
  {
    match g.fieldCls
    case FieldKind => if debug && !FieldAccepts(val, g) then Err(TypeError) else Ok(Plain(val))
    case SeqKind =>
      if debug then
        (match SnapListInit(val, g.types, g.nullable)
         case Ok(c) => Ok(TypedSeq(g.types, g.nullable, c))
         case Err(e) => Err(e))
      else if !Truthy(val) then Ok(Plain(VList([])))
      else if HasIter(val) then Ok(Plain(VList(Elements(val))))
      else Err(TypeError)
    case _ => Err(AttributeError)
  }

  /** In fast mode a `seq` field holds a plain list of the value's items:
      an empty list for a falsy value, and a TypeError for a truthy value
      that cannot be iterated. */
  lemma FastSeqInitCopies(val: Value, g: Guard)
    requires g.fieldCls == SeqKind
    ensures SnapInit(false, val, g) ==
              if !Truthy(val) then Ok(Plain(VList([])))
              else if HasIter(val) then Ok(Plain(VList(Elements(val))))
              else Err(TypeError)
  {
  }

  // ---------------------------------------------------------------------
  // NodeBase

  /** A member this version's metaclass allows in a constraint:
      `isinstance(i, (type, str))`, so a class or a string, not a pattern. */
  predicate SnapAllowedMember(m: Value) {
    m.VClass? || m.VStr?
  }

  /** The checks of one declared attribute that is not skipped: a guard
      record of a basefield class whose types are all classes or strings. */
  function SnapCheckDeclaration(a: Attr): (r: Result<Guard>)
    ensures r.Ok? <==> a.Descriptor? && IsBasefield(a.g.fieldCls) && HasIter(a.g.types) &&
                       forall i :: 0 <= i < |Elements(a.g.types)| ==> SnapAllowedMember(Elements(a.g.types)[i])
    ensures r.Ok? ==> r.value == a.g
    ensures r.Err? ==> r.error == TypeError
  {
    match a
    case Descriptor(g) =>
      if !IsBasefield(g.fieldCls) then Err(TypeError)
      else if !HasIter(g.types) then Err(TypeError)
      else if forall i :: 0 <= i < |Elements(g.types)| ==> SnapAllowedMember(Elements(g.types)[i]) then Ok(g)
      else Err(TypeError)
    case _ => Err(TypeError)
  }

  /** A pattern member is refused here, and accepted by the later metaclass. */
  lemma PatternMemberRefused(g: Guard, p: string)
    requires IsBasefield(g.fieldCls) && g.types == VTuple([VPattern(p)])
    ensures SnapCheckDeclaration(Descriptor(g)) == Err(TypeError)
    ensures CheckDeclaration(Descriptor(g)) == Ok(g)
  {
    assert Elements(g.types)[0] == VPattern(p);
  }

  /** The class body's declarations put into `guards`, in body order; the
      first bad declaration raises. */
  function SnapAddOwn(d: Guards, body: Body): (r: Result<Guards>)
    ensures r.Err? ==> r.error == TypeError
    decreases |body|
  {
    if body == [] then Ok(d)
    else
      var (name, a) := body[0];
      if Skipped(name, a) then SnapAddOwn(d, body[1..])
      else match SnapCheckDeclaration(a)
        case Err(e) => Err(e)
        case Ok(g) => SnapAddOwn(Put(d, name, g), body[1..])
  }

  /** The body's own declaration of `k`, when it declares it as a field. */
  function SnapOwnGuard(body: Body, k: string): Option<Guard> {
    if body == [] then None
    else if body[0].0 == k && !Skipped(body[0].0, body[0].1) && SnapCheckDeclaration(body[0].1).Ok?
    then Some(body[0].1.g)
    else SnapOwnGuard(body[1..], k)
  }

  /** A name that does not occur in the body has no own declaration. */
  lemma {:induction false} SnapOwnGuardAbsent(body: Body, k: string)
    requires forall i :: 0 <= i < |body| ==> body[i].0 != k
    ensures SnapOwnGuard(body, k).None?
    decreases |body|
  {
    if body != [] {
      SnapOwnGuardAbsent(body[1..], k);
    }
  }

  /** The declarations put over `d` override it name by name. */
  lemma {:induction false} SnapAddOwnLookup(d: Guards, body: Body, k: string)
    requires DistinctNames(body) && SnapAddOwn(d, body).Ok?
    ensures Lookup(SnapAddOwn(d, body).value, k) ==
            if SnapOwnGuard(body, k).Some? then SnapOwnGuard(body, k) else Lookup(d, k)
    decreases |body|
  {
    if body != [] {
      assert DistinctNames(body[1..]) by {
        forall i, j | 0 <= i < j < |body[1..]| ensures body[1..][i].0 != body[1..][j].0 {
          assert body[1..][i] == body[i + 1] && body[1..][j] == body[j + 1];
        }
      }
      var (name, a) := body[0];
      if Skipped(name, a) {
        SnapAddOwnLookup(d, body[1..], k);
      } else {
        SnapAddOwnLookup(Put(d, name, a.g), body[1..], k);
        PutLookup(d, name, a.g, k);
        if name == k {
          assert SnapOwnGuard(body[1..], k).None? by {
            SnapOwnGuardAbsent(body[1..], k);
          }
        }
      }
    }
  }

  /** A declaration the metaclass refuses makes the whole class declaration raise. */
  lemma {:induction false} SnapAddOwnRefuses(d: Guards, body: Body, i: nat)
    requires i < |body| && !Skipped(body[i].0, body[i].1) && SnapCheckDeclaration(body[i].1).Err?
    ensures SnapAddOwn(d, body) == Err(TypeError)
    decreases |body|
  {
    if i > 0 {
      var (name, a) := body[0];
      assert body[1..][i - 1] == body[i];
      if Skipped(name, a) {
        SnapAddOwnRefuses(d, body[1..], i - 1);
      } else if SnapCheckDeclaration(a).Ok? {
        SnapAddOwnRefuses(Put(d, name, a.g), body[1..], i - 1);
      }
    }
  }

  /** `NodeBase.__init__(cls, name, bases, attrs)`: a class with no node
      base gets no schema; otherwise its own declarations alone are checked
      and become its guards, the field names listed by ascending counter. No
      class of this version is abstract. */
  function SnapCompose(bases: seq<BaseInfo>, body: Body): (r: Result<Option<Schema>>)
    ensures !HasNodeParent(bases) ==> r == Ok(None)
    ensures r.Ok? && HasNodeParent(bases) ==> r.value.Some? && !r.value.value.isAbstract
    ensures r.Err? ==> r.error == TypeError
  {
    if !HasNodeParent(bases) then Ok(None)
    else match SnapAddOwn([], body)
      case Err(e) => Err(e)
      case Ok(guards) => Ok(Some(Schema(guards, Names(SortByCounter(guards)), false)))
  }

  /** Nothing is inherited: a field's guard is the class's own declaration,
      and a field declared only by a base is not a field of the class. */
  lemma SnapComposeOwnOnly(bases: seq<BaseInfo>, body: Body, k: string)
    requires DistinctNames(body)
    requires SnapCompose(bases, body).Ok? && SnapCompose(bases, body).value.Some?
    ensures Lookup(SnapCompose(bases, body).value.value.guards, k) == SnapOwnGuard(body, k)
  {
    SnapAddOwnLookup([], body, k);
  }

  /** `_fields` lists the guard names in ascending counter order. */
  lemma SnapComposeFields(bases: seq<BaseInfo>, body: Body)
    requires SnapCompose(bases, body).Ok? && SnapCompose(bases, body).value.Some?
    ensures var s := SnapCompose(bases, body).value.value;
            multiset(s.fields) == multiset(Names(s.guards)) &&
            exists sorted: Guards :: SortedByCounter(sorted) && multiset(sorted) == multiset(s.guards) &&
                                     s.fields == Names(sorted)
  {
    var s := SnapCompose(bases, body).value.value;
    SortByCounterSorted(s.guards);
    SortByCounterPermutes(s.guards);
    SortByCounterNames(s.guards);
  }

  /** A node class declaring a field constrained by a pattern is refused. */
  lemma SnapComposeRefusesPattern(bases: seq<BaseInfo>, body: Body, i: nat, p: string)
    requires HasNodeParent(bases) && i < |body| && !Skipped(body[i].0, body[i].1)
    requires body[i].1.Descriptor? && IsBasefield(body[i].1.g.fieldCls) && body[i].1.g.types == VTuple([VPattern(p)])
    ensures SnapCompose(bases, body) == Err(TypeError)
  {
    PatternMemberRefused(body[i].1.g, p);
    SnapAddOwnRefuses([], body, i);
  }

  // ---------------------------------------------------------------------
  // Node

  /** What field `i` ends up holding, or the error its `init` raises: the
      value is bound as in the later version and always goes through
      `field_cls.init`. */
  function SnapStep(debug: bool, s: Schema, args: seq<Value>, kwargs: map<string, Value>, i: nat): Result<Stored>
    requires WellFormedSchema(s) && i < |s.fields|
  {
    SnapInit(debug, ArgFor(s, args, kwargs, i), GuardAt(s, i))
  }

  /** The outcome of every field's step, in field order. */
  function SnapSteps(debug: bool, s: Schema, args: seq<Value>, kwargs: map<string, Value>): (r: seq<Result<Stored>>)
    requires WellFormedSchema(s)
    ensures |r| == |s.fields|
    ensures forall i :: 0 <= i < |s.fields| ==> r[i] == SnapStep(debug, s, args, kwargs, i)
  {
    seq(|s.fields|, i requires 0 <= i < |s.fields| => SnapStep(debug, s, args, kwargs, i))
  }

  /** Entry `i` of `steps` is step `i` of the construction. */
  predicate SnapStepIs(debug: bool, s: Schema, args: seq<Value>, kwargs: map<string, Value>, steps: seq<Result<Stored>>, i: nat)
    requires WellFormedSchema(s) && i < |s.fields| && |steps| == |s.fields|
  {
    steps[i] == SnapStep(debug, s, args, kwargs, i)
  }

  /** `Node.__init__(*args, **kwargs)`: a class without a schema has no
      `_guards` (an AttributeError); otherwise every field is bound. */
  function SnapConstruction(debug: bool, schema: Option<Schema>, args: seq<Value>, kwargs: map<string, Value>): Result<map<string, Stored>>
    requires schema.Some? ==> WellFormedSchema(schema.value)
  {
    if schema.None? then Err(AttributeError)
    else Collect(schema.value.fields, SnapSteps(debug, schema.value, args, kwargs), |schema.value.fields|)
  }

  /** Over plain `field` fields the two versions build the same node, in
      debug mode and in fast mode. */
  lemma SnapPlainFieldsAgree(rx: Regex, s: Schema, debug: bool, args: seq<Value>, kwargs: map<string, Value>)
    requires WellFormedSchema(s) && !(debug && s.isAbstract)
    requires forall i :: 0 <= i < |s.fields| ==> GuardAt(s, i).fieldCls == FieldKind
    ensures SnapConstruction(debug, Some(s), args, kwargs) == Construction(rx, s, debug, args, kwargs)
  {
    var a := SnapSteps(debug, s, args, kwargs);
    var b := Steps(rx, s, debug, args, kwargs);
    forall i | 0 <= i < |s.fields| ensures a[i] == b[i] {
      StepAt(rx, s, debug, args, kwargs, i, ArgFor(s, args, kwargs, i));
    }
    assert a == b;
  }

  /** Even in fast mode a truthy non-iterable bound to a `seq` field makes
      the construction raise (the TypeError of that field, unless an earlier
      field raised first). */
  lemma FastSeqScalarRaises(s: Schema, args: seq<Value>, kwargs: map<string, Value>, i: nat)
    requires WellFormedSchema(s) && i < |s.fields| && GuardAt(s, i).fieldCls == SeqKind
    requires Truthy(ArgFor(s, args, kwargs, i)) && !HasIter(ArgFor(s, args, kwargs, i))
    ensures SnapConstruction(false, Some(s), args, kwargs).Err?
  {
    var steps := SnapSteps(false, s, args, kwargs);
    assert steps[i] == SnapStep(false, s, args, kwargs, i);
    FastSeqInitCopies(ArgFor(s, args, kwargs, i), GuardAt(s, i));
    var c := Collect(s.fields, steps, i);
    if c.Ok? {
      StepNext(s.fields, steps, i, c.value);
    } else {
      CollectErrStays(s.fields, steps, i, |s.fields|);
    }
  }

  /** A field slot of a node of this version. */
  datatype SnapSlot = SRaw(v: Value) | SList(l: SnapList)

  /** Slot `s` holds what `st` describes. */
  predicate SnapSlotHolds(s: SnapSlot, st: Stored)
    reads if s.SList? then {s.l} else {}
  {
    match st
    case Plain(v) => s == SRaw(v)
    case TypedSeq(types, nullable, items) =>
      s.SList? && s.l.types == types && s.l.nullable == nullable && s.l.items == items
  }

  /** `field_cls.init(name, val, guard)` as the node runs it: a debug-mode
      `seq` allocates a new typed list. */
  method SnapInitField(debug: bool, val: Value, g: Guard) returns (r: Result<SnapSlot>)
    ensures r.Err? <==> SnapInit(debug, val, g).Err?
    ensures r.Err? ==> r.error == SnapInit(debug, val, g).error
    ensures r.Ok? ==> SnapSlotHolds(r.value, SnapInit(debug, val, g).value)
    ensures r.Ok? && r.value.SList? ==> fresh(r.value.l)
  {
    match g.fieldCls
    case FieldKind =>
      if debug && !FieldAccepts(val, g) {
        return Err(TypeError);
      }
      return Ok(SRaw(val));
    case SeqKind =>
      if debug {
        var l := SnapList.New(val, g.types, g.nullable);
        if l.Err? {
          return Err(l.error);
        }
        return Ok(SList(l.value));
      }
      if !Truthy(val) {
        return Ok(SRaw(VList([])));
      }
      if !HasIter(val) {
        return Err(TypeError);
      }
      return Ok(SRaw(VList(Elements(val))));
    case _ =>
      return Err(AttributeError);
  }

  /** An instance of a node class of this version. */
  class SnapNode {
    /** Its class's `_guards` and `_fields`. */
    const schema: Schema
    /** The module's `DEBUG` switch. */
    const debug: bool
    /** The instance attributes. */
    var attrs: map<string, SnapSlot>

    constructor Blank(schema: Schema, debug: bool)
      ensures this.schema == schema && this.debug == debug && attrs == map[]
    {
      this.schema := schema;
      this.debug := debug;
      attrs := map[];
    }

    /** Every slot holds what the construction specification says. */
    predicate Holds(m: map<string, Stored>)
      reads this, set k | k in attrs && attrs[k].SList? :: attrs[k].l
    {
      attrs.Keys == m.Keys && forall k :: k in attrs ==> SnapSlotHolds(attrs[k], m[k])
    }

    /** Storing a slot that holds `st` under `f` extends what the node holds. */
    method Store(f: string, slot: SnapSlot, ghost m: map<string, Stored>, ghost st: Stored)
      requires Holds(m) && SnapSlotHolds(slot, st)
      modifies this
      ensures attrs == old(attrs)[f := slot]
      ensures Holds(m[f := st])
    {
      attrs := attrs[f := slot];
    }

    /** Running `init` on a bound value and storing the result under `f`
        with `object.__setattr__`; a refusal stores nothing. */
    method StoreStep(f: string, v: Value, g: Guard, ghost m: map<string, Stored>, ghost st: Result<Stored>) returns (o: Outcome)
      requires Holds(m) && st == SnapInit(debug, v, g)
      modifies this
      ensures o.Fail? <==> st.Err?
      ensures o.Fail? ==> o.error == st.error
      ensures o.Pass? ==> Holds(m[f := st.value])
    {
      var slot := SnapInitField(debug, v, g);
      if slot.Err? {
        return Fail(slot.error);
      }
      Store(f, slot.value, m, st.value);
      return Pass;
    }

    /** After the first `i` fields: `kw` holds the keyword arguments not yet
        popped, `key` is the positional cursor, and the node holds `m`. */
    predicate Filled(args: seq<Value>, kwargs: map<string, Value>, steps: seq<Result<Stored>>,
                     kw: map<string, Value>, key: nat, i: nat, m: map<string, Stored>)
      reads this, set k | k in attrs && attrs[k].SList? :: attrs[k].l
      requires |steps| == |schema.fields|
    {
      i <= |schema.fields| &&
      key == Cursor(schema.fields, kwargs, args, i) && kw == KwLeft(schema.fields, kwargs, i) &&
      Collect(schema.fields, steps, i) == Ok(m) && Holds(m)
    }

    /** The steps of constructing this node from `args` and `kwargs`. */
    predicate StepsOf(args: seq<Value>, kwargs: map<string, Value>, steps: seq<Result<Stored>>)
      requires WellFormedSchema(schema)
    {
      |steps| == |schema.fields| &&
      forall i :: 0 <= i < |schema.fields| ==> SnapStepIs(debug, schema, args, kwargs, steps, i)
    }

    /** Binding, initialising and storing field `i`. */
    method FillField(args: seq<Value>, kwargs: map<string, Value>, ghost steps: seq<Result<Stored>>,
                     kw: map<string, Value>, key: nat, i: nat, ghost m: map<string, Stored>)
      returns (o: Outcome, kw': map<string, Value>, key': nat, ghost m': map<string, Stored>)
      requires WellFormedSchema(schema) && StepsOf(args, kwargs, steps) && i < |schema.fields|
      requires Filled(args, kwargs, steps, kw, key, i, m)
      modifies this
      ensures o.Fail? ==> Collect(schema.fields, steps, |schema.fields|) == Err(o.error)
      ensures o.Pass? ==> Filled(args, kwargs, steps, kw', key', i + 1, m')
    {
      var v;
      v, kw', key' := Node.Bind(schema, args, kwargs, kw, key, i);
      assert SnapStepIs(debug, schema, args, kwargs, steps, i);
      StepNext(schema.fields, steps, i, m);
      o := StoreStep(schema.fields[i], v, GuardAt(schema, i), m, steps[i]);
      m' := if o.Pass? then m[schema.fields[i] := steps[i].value] else m;
    }

    /** The loop of `__init__` over `_fields`, until a field is refused. */
    method Fill(args: seq<Value>, kwargs: map<string, Value>, ghost steps: seq<Result<Stored>>) returns (o: Outcome)
      requires WellFormedSchema(schema) && StepsOf(args, kwargs, steps) && attrs == map[]
      modifies this
      ensures var c := Collect(schema.fields, steps, |schema.fields|);
              (o.Fail? <==> c.Err?) && (o.Fail? ==> o.error == c.error) && (o.Pass? ==> Holds(c.value))
    {
      var kw := kwargs;
      var key := 0;
      var i := 0;
      ghost var m: map<string, Stored> := map[];
      while i < |schema.fields|
        invariant Filled(args, kwargs, steps, kw, key, i, m)
      {
        o, kw, key, m := FillField(args, kwargs, steps, kw, key, i, m);
        if o.Fail? {
          return;
        }
        i := i + 1;
      }
      return Pass;
    }

    /** `cls(*args, **kwargs)`: a class without a schema raises an
        AttributeError; otherwise each field in `_fields` order takes its
        keyword argument, else the next positional one, else its default,
        and goes through `field_cls.init`. */
    static method Construct(debug: bool, schema: Option<Schema>, args: seq<Value>, kwargs: map<string, Value>)
      returns (r: Result<SnapNode>)
      requires schema.Some? ==> WellFormedSchema(schema.value)
      ensures r.Err? <==> SnapConstruction(debug, schema, args, kwargs).Err?
      ensures r.Err? ==> r.error == SnapConstruction(debug, schema, args, kwargs).error
      ensures r.Ok? ==> fresh(r.value) && schema == Some(r.value.schema) && r.value.debug == debug &&
                        r.value.Holds(SnapConstruction(debug, schema, args, kwargs).value)
    {
      if schema.None? {
        return Err(AttributeError);
      }
      var n := new SnapNode.Blank(schema.value, debug);
      ghost var steps := SnapSteps(debug, schema.value, args, kwargs);
      var o := n.Fill(args, kwargs, steps);
      if o.Fail? {
        return Err(o.error);
      }
      return Ok(n);
    }

    /** Setting attribute `name`: with `DEBUG` on, a schema field's new
        value goes through `field_cls.init` and a refused one leaves the old
        value; every other assignment stores the value as given. */
    method SetAttr(name: string, val: Value) returns (o: Outcome)
      requires WellFormedSchema(schema)
      modifies this
      ensures debug && name in schema.fields ==>
                var st := SnapInit(true, val, Lookup(schema.guards, name).value);
                if st.Err? then o == Fail(st.error) && attrs == old(attrs)
                else o == Pass && attrs.Keys == old(attrs).Keys + {name} && SnapSlotHolds(attrs[name], st.value) &&
                     (attrs[name].SList? ==> fresh(attrs[name].l)) &&
                     forall k :: k in old(attrs) && k != name ==> attrs[k] == old(attrs)[k]
      ensures !(debug && name in schema.fields) ==> o == Pass && attrs == old(attrs)[name := SRaw(val)]
    {
      if debug && name in schema.fields {
        var slot := SnapInitField(true, val, Lookup(schema.guards, name).value);
        if slot.Err? {
          return Fail(slot.error);
        }
        attrs := attrs[name := slot.value];
        return Pass;
      }
      attrs := attrs[name := SRaw(val)];
      return Pass;
    }

    /** Deleting attribute `name`: with `DEBUG` on a schema field is refused
        with a plain Exception; otherwise the attribute is removed, or an
        AttributeError raised when the instance does not have it. */
    method DelAttr(name: string) returns (o: Outcome)
      modifies this
      ensures debug && name in schema.fields ==> o == Fail(PlainException) && attrs == old(attrs)
      ensures !(debug && name in schema.fields) ==>
                if name in old(attrs) then o == Pass && attrs == old(attrs) - {name}
                else o == Fail(AttributeError) && attrs == old(attrs)
    {
      if debug && name in schema.fields {
        return Fail(PlainException);
      }
      if name !in attrs {
        return Fail(AttributeError);
      }
      attrs := attrs - {name};
      return Pass;
    }
  }
}
