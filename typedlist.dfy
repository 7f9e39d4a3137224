/** pyast/typedlist.py: a list whose incoming elements are checked against a
    type constraint before every insertion or replacement, and which refuses
    removals that would leave a non-nullable list empty. */
module TypedLists {
  import opened Values
  import opened Matcher
  import opened Slices

  /** The contents `TypedList(types, init, null)` starts with, or the error its
      constructor raises: a truthy `init` goes through `extend`, so it must be
      iterable and every item of it accepted, and a refusal raises what the
      check raises; a falsy one is refused unless the list may be empty. */
  function InitContents(rx: Regex, types: Value, init: Value, nullable: bool): (r: Result<seq<Value>>)
    ensures r.Err? ==> r.error == TypeError || r.error == AttributeError
    ensures r.Ok? ==> (r.value == [] <==> !Truthy(init))
  {
    var t := NormaliseTypes(types);
    if Truthy(init) then
      if !HasIter(init) then Err(TypeError)
      else
        match EnforceOutcome(rx, t, SelectMode(Members(t)), ListFlavour, Elements(init))
        case Pass => Ok(Elements(init))
        case Fail(e) => Err(e)
    else if nullable then Ok([])
    else Err(TypeError)
  }

  /** An empty or absent `init` is refused exactly when the list is not nullable,
      and a nullable list then starts empty. */
  lemma InitEmpty(rx: Regex, types: Value, init: Value, nullable: bool)
    requires !Truthy(init)
    ensures InitContents(rx, types, init, nullable) == if nullable then Ok([]) else Err(TypeError)
  {
  }

  /** A truthy `init` yields its items, in order, when all are accepted, and
      nothing at all otherwise: no partial list is produced. A non-iterable
      `init` raises a TypeError. */
  lemma InitAllOrNothing(rx: Regex, types: Value, init: Value, nullable: bool)
    requires Truthy(init)
    ensures var t := NormaliseTypes(types);
            InitContents(rx, types, init, nullable).Ok? <==>
              HasIter(init) && forall k :: 0 <= k < |Elements(init)| ==>
                                 ItemAccepted(rx, t, SelectMode(Members(t)), ListFlavour, Elements(init)[k])
    ensures InitContents(rx, types, init, nullable).Ok? ==> InitContents(rx, types, init, nullable).value == Elements(init)
    ensures !HasIter(init) ==> InitContents(rx, types, init, nullable) == Err(TypeError)
  {
  }

  /** `TypedList(("a", 1), [re.compile("x")])`: the constraint is mixed, the
      pattern checker runs `"a".match` and the constructor raises an
      AttributeError rather than a TypeError. */
  lemma InitPatternUnderLiterals(rx: Regex, nullable: bool)
    ensures InitContents(rx, VTuple([VStr("a"), VInt(1)]), VList([VPattern("x")]), nullable) == Err(AttributeError)
  {
    PatternItemUnderLiteralsRaises(rx, ListFlavour);
    assert NormaliseTypes(VTuple([VStr("a"), VInt(1)])) == VTuple([VStr("a"), VInt(1)]);
  }

  /** Building a typed list again from the contents of one just built, with
      the same constraint and nullability, succeeds with the same contents.
      A node in debug mode runs the sequence initialiser twice on a stored
      value, so the second run never changes the outcome. */
  lemma InitAgain(rx: Regex, types: Value, init: Value, nullable: bool)
    requires InitContents(rx, types, init, nullable).Ok?
    ensures var c := InitContents(rx, types, init, nullable).value;
            InitContents(rx, types, VList(c), nullable) == Ok(c)
  {
    var c := InitContents(rx, types, init, nullable).value;
    if c != [] {
      assert Truthy(init) && HasIter(init) && Elements(init) == c;
      assert Elements(VList(c)) == c;
    }
  }

  /** `list.__delitem__(k)`: an index out of range raises an IndexError, a
      zero step a ValueError; a slice removes the positions it visits. */
  function ListDelete(s: seq<Value>, k: Key): (r: Result<seq<Value>>)
    ensures r.Ok? && k.Index? ==> |r.value| == |s| - 1
    ensures r.Ok? ==> |r.value| <= |s|
  {
    match k
    case Index(i) =>
      (match NormIndex(i, |s|)
       case None => Err(IndexError)
       case Some(j) => Ok(s[..j] + s[j + 1..]))
    case SliceKey(sl) =>
      (match Indices(sl, |s|)
       case Err(e) => Err(e)
       case Ok((start, stop, step)) => Ok(KeepOutside(s, Positions(start, stop, step))))
  }

  /** `TypedList.__delitem__(k)`: on a non-nullable list a slice whose
      normalised stop minus start reaches the length, or any index on a list of
      length one, raises a TypeError; everything else is the built-in deletion. */
  function DeleteItem(s: seq<Value>, nullable: bool, k: Key): (r: Result<seq<Value>>)
    ensures !nullable && k.Index? && |s| == 1 ==> r == Err(TypeError)
    ensures r.Ok? ==> r == ListDelete(s, k)
  {
    if nullable then ListDelete(s, k)
    else
      match k
      case Index(_) => if |s| == 1 then Err(TypeError) else ListDelete(s, k)
      case SliceKey(sl) =>
        (match Indices(sl, |s|)
         case Err(e) => Err(e)
         case Ok((start, stop, _)) => if stop - start >= |s| then Err(TypeError) else ListDelete(s, k))
  }

  /** On a non-nullable list a slice deletion is refused exactly when the
      normalised stop minus start reaches the length; otherwise it goes
      through, including slices that delete nothing. */
  lemma SliceDeleteGuard(s: seq<Value>, sl: Slice)
    requires Indices(sl, |s|).Ok?
    ensures var (start, stop, step) := Indices(sl, |s|).value;
            DeleteItem(s, false, SliceKey(sl)) ==
              if stop - start >= |s| then Err(TypeError)
              else Ok(KeepOutside(s, Positions(start, stop, step)))
  {
  }

  /** A deletion through a slice of positive step that the non-nullable guard
      lets through never empties the list. */
  lemma PositiveStepDeleteKeepsOne(s: seq<Value>, sl: Slice)
    requires |s| > 0
    requires Indices(sl, |s|).Ok? && Indices(sl, |s|).value.2 > 0
    requires DeleteItem(s, false, SliceKey(sl)).Ok?
    ensures |DeleteItem(s, false, SliceKey(sl)).value| > 0
  {
    var (start, stop, step) := Indices(sl, |s|).value;
    var ps := Positions(start, stop, step);
    PositionsBetween(start, stop, step);
    assert stop - start < |s|;
    if start > 0 {
      KeepOutsideNonEmpty(s, ps, 0);
    } else {
      KeepOutsideNonEmpty(s, ps, |s| - 1);
    }
  }

  /** A deletion through a negative-step slice is never refused by the guard,
      so `del l[::-1]` empties even a non-nullable list. */
  lemma ReverseDeleteEmpties(s: seq<Value>)
    requires |s| > 0
    ensures DeleteItem(s, false, SliceKey(Slice(None, None, Some(-1)))) == Ok([])
  {
    var sl := Slice(None, None, Some(-1));
    assert Indices(sl, |s|) == Ok((|s| - 1, -1, -1));
    UnitStepPositions(|s| - 1, -1, -1);
    KeepOutsideAll(s, Positions(|s| - 1, -1, -1));
  }

  /** A unit-step slice deletion cuts the run [start, stop) out of the list. */
  lemma UnitSliceDeleteCutsRun(s: seq<Value>, nullable: bool, sl: Slice)
    requires Indices(sl, |s|).Ok? && Indices(sl, |s|).value.2 == 1
    requires DeleteItem(s, nullable, SliceKey(sl)).Ok?
    ensures var (start, stop, _) := Indices(sl, |s|).value;
            DeleteItem(s, nullable, SliceKey(sl)).value ==
              if start < stop then s[..start] + s[stop..] else s
  {
    var (start, stop, step) := Indices(sl, |s|).value;
    UnitStepPositions(start, stop, 1);
    if start < stop {
      KeepOutsideRun(s, Positions(start, stop, 1), start, stop);
    } else {
      KeepOutsideRun(s, Positions(start, stop, 1), start, start);
    }
  }

  /** `list.__setitem__(k, value)`: an index stores `value` itself as one
      element; a slice takes the items of `value`, which must be iterable,
      replacing a unit-step run by them, or assigning them one to one to the
      positions of an extended slice, which must be as many. */
  function ListAssign(s: seq<Value>, k: Key, value: Value): (r: Result<seq<Value>>)
    ensures r.Ok? && k.Index? ==> |r.value| == |s|
    ensures r.Ok? && k.SliceKey? ==> HasIter(value)
  {
    match k
    case Index(i) =>
      (match NormIndex(i, |s|)
       case None => Err(IndexError)
       case Some(j) => Ok(s[j := value]))
    case SliceKey(sl) =>
      (match Indices(sl, |s|)
       case Err(e) => Err(e)
       case Ok((start, stop, step)) =>
         if !HasIter(value) then Err(TypeError)
         else if step == 1 then Ok(ReplaceRun(s, start, stop, Elements(value)))
         else
           var ps := Positions(start, stop, step);
           if |Elements(value)| != |ps| then Err(ValueError)
           else
             SlicePositionsInRange(sl, |s|);
             Ok(AssignAt(s, ps, Elements(value))))
  }

  /** No position occurs twice. */
  predicate Distinct(ps: seq<int>) {
    forall i, j :: 0 <= i < j < |ps| ==> ps[i] != ps[j]
  }

  /** The positions of a slice strictly increase or strictly decrease. */
  lemma {:induction false} PositionsMonotone(start: int, stop: int, step: int)
    requires step != 0
    ensures var ps := Positions(start, stop, step);
            forall i, j :: 0 <= i < j < |ps| ==> if step > 0 then ps[i] < ps[j] else ps[i] > ps[j]
    ensures Distinct(Positions(start, stop, step))
    decreases if step > 0 then stop - start else start - stop
  {
    if (step > 0 && start < stop) || (step < 0 && start > stop) {
      PositionsMonotone(start + step, stop, step);
      PositionsBetween(start + step, stop, step);
      var ps := Positions(start, stop, step);
      assert ps == [start] + Positions(start + step, stop, step);
      forall i, j | 0 <= i < j < |ps| ensures if step > 0 then ps[i] < ps[j] else ps[i] > ps[j] {
        if i == 0 {
          assert ps[j] in Positions(start + step, stop, step);
        }
      }
    }
  }

  /** With distinct positions, each position receives its own value. */
  lemma {:induction false} AssignAtPlaces(s: seq<Value>, ps: seq<int>, vs: seq<Value>)
    requires |ps| == |vs|
    requires forall k :: 0 <= k < |ps| ==> 0 <= ps[k] < |s|
    requires Distinct(ps)
    ensures forall k :: 0 <= k < |ps| ==> AssignAt(s, ps, vs)[ps[k]] == vs[k]
    decreases |ps|
  {
    if ps != [] {
      assert ps[0] in ps;
      assert forall p :: p in ps[1..] ==> p in ps;
      var s' := s[ps[0] := vs[0]];
      AssignAtPlaces(s', ps[1..], vs[1..]);
      forall k | 0 <= k < |ps| ensures AssignAt(s, ps, vs)[ps[k]] == vs[k] {
        if k == 0 {
          forall j | 0 <= j < |ps[1..]| ensures ps[1..][j] != ps[0] {
            assert ps[1..][j] == ps[j + 1];
          }
          assert ps[0] !in ps[1..];
        } else {
          assert ps[1..][k - 1] == ps[k];
        }
      }
    }
  }

  /** An extended-slice assignment puts the k-th item of the value at the
      k-th position of the slice and leaves the other elements alone. */
  lemma ExtendedSliceAssign(s: seq<Value>, sl: Slice, value: Value)
    requires Indices(sl, |s|).Ok? && Indices(sl, |s|).value.2 != 1
    requires ListAssign(s, SliceKey(sl), value).Ok?
    ensures var (start, stop, step) := Indices(sl, |s|).value;
            var ps := Positions(start, stop, step);
            var r := ListAssign(s, SliceKey(sl), value).value;
            |Elements(value)| == |ps| && |r| == |s| &&
            (forall k :: 0 <= k < |ps| ==> 0 <= ps[k] < |s| && r[ps[k]] == Elements(value)[k]) &&
            (forall i :: 0 <= i < |s| && i !in ps ==> r[i] == s[i])
  {
    var t := Indices(sl, |s|).value;
    SlicePositionsInRange(sl, |s|);
    PositionsMonotone(t.0, t.1, t.2);
    var ps := Positions(t.0, t.1, t.2);
    assert forall p :: p in ps ==> 0 <= p < |s|;
    assert forall k :: 0 <= k < |ps| ==> ps[k] in ps;
    AssignAtPlaces(s, ps, Elements(value));
  }

  /** Index assignment checks the items of an iterable value but stores the
      value itself: a list of strings passes a `str` constraint and lands in
      the list as one element that is not a string. So "every element
      satisfies the constraint" is not an invariant of the typed list. */
  lemma IndexAssignStoresWholeValue(rx: Regex, s: seq<Value>)
    requires |s| > 0
    ensures var t := NormaliseTypes(VClass(StrClass));
            var v := VList([VStr("x")]);
            Accepts(rx, t, SelectMode(Members(t)), ListFlavour, ItemsOrSelf(v)) &&
            ListAssign(s, Index(0), v) == Ok(s[0 := v]) &&
            !IsInstance(v, StrClass)
  {
    var t := NormaliseTypes(VClass(StrClass));
    assert Members(t) == [VClass(StrClass)];
    assert SelectMode(Members(t)) == Single(ClassChecker);
    assert IsinstanceOfAny(VStr("x"), t, 0) == Ok(true);
  }

  /** `l[:] = []` passes the check (there is nothing to check) and empties
      the list: slice assignment has no guard for non-nullable lists. */
  lemma EmptySliceAssignEmpties(rx: Regex, types: Value, s: seq<Value>)
    ensures var t := NormaliseTypes(types);
            Accepts(rx, t, SelectMode(Members(t)), ListFlavour, ItemsOrSelf(VList([]))) &&
            ListAssign(s, SliceKey(Slice(None, None, None)), VList([])) == Ok([])
  {
    var sl := Slice(None, None, None);
    assert Indices(sl, |s|) == Ok((0, |s|, 1));
    assert ReplaceRun(s, 0, |s|, []) == [];
  }

  /** For bounds that are not negative, the guard of `__delslice__` refuses
      exactly the deletions that would remove every element. */
  lemma DelSliceGuardExact(n: nat, i: int, j: int)
    requires 0 <= i && 0 <= j
    ensures var ix := Indices(Slice(Some(i), Some(j), None), n).value;
            ix.1 - ix.0 >= n <==> ClampRun(i, j, n) == (0, n)
  {
    var ix := Indices(Slice(Some(i), Some(j), None), n).value;
    assert ix.0 == (if i > n then n else i);
    assert ix.1 == (if j > n then n else j);
  }

  /** A list whose incoming elements are checked against a constraint. */
  class TypedList {
    /** The regular-expression engine its pattern checks use. */
    const rx: Regex
    /** The normalised constraint (`self._types`). */
    const types: Value
    /** The enforcement method chosen at construction. */
    const mode: Mode
    /** May the list become empty (`self._null`)? */
    const nullable: bool
    /** The elements. */
    var items: seq<Value>

    /** `__init__` up to the point where the initial items are added: the
        constraint is normalised and the enforcement method chosen. */
    constructor Empty(rx: Regex, types: Value, nullable: bool)
      ensures this.rx == rx && this.types == NormaliseTypes(types) && this.nullable == nullable
      ensures mode == SelectMode(Members(this.types)) && items == []
    {
      this.rx := rx;
      this.types := NormaliseTypes(types);
      this.mode := SelectMode(Members(NormaliseTypes(types)));
      this.nullable := nullable;
      items := [];
    }

    /** `TypedList(types, init, null)`: a truthy `init` is added through
        `extend`; a falsy one is refused unless the list is nullable. */
    static method New(rx: Regex, types: Value, init: Value, nullable: bool) returns (r: Result<TypedList>)
      ensures r.Err? <==> InitContents(rx, types, init, nullable).Err?
      ensures r.Err? ==> r.error == InitContents(rx, types, init, nullable).error
      ensures r.Ok? ==> fresh(r.value) && r.value.items == InitContents(rx, types, init, nullable).value
      ensures r.Ok? ==> r.value.rx == rx && r.value.types == NormaliseTypes(types) && r.value.nullable == nullable
      ensures r.Ok? ==> r.value.mode == SelectMode(Members(NormaliseTypes(types)))
    {
      var l := new TypedList.Empty(rx, types, nullable);
      if Truthy(init) {
        var o := l.Extend(init);
        if o.Fail? {
          return Err(o.error);
        }
      } else if !nullable {
        return Err(TypeError);
      }
      return Ok(l);
    }

    /** `append(item)`: the item is checked, then added at the end. */
    method Append(item: Value) returns (o: Outcome)
      modifies this
      ensures o.Pass? <==> ItemAccepted(rx, types, mode, ListFlavour, item)
      ensures o.Pass? ==> items == old(items) + [item]
      ensures o.Fail? ==> o == EnforceOutcome(rx, types, mode, ListFlavour, [item]) && items == old(items)
    {
      o := Enforce(rx, types, mode, ListFlavour, [item]);
      assert [item][0] == item;
      if o.Fail? {
        return;
      }
      items := items + [item];
      return Pass;
    }

    /** `insert(pos, item)`: the item is checked, then put at the clamped position. */
    method Insert(pos: int, item: Value) returns (o: Outcome)
      modifies this
      ensures o.Pass? <==> ItemAccepted(rx, types, mode, ListFlavour, item)
      ensures o.Pass? ==> var p := InsertPos(pos, |old(items)|);
                          items == old(items)[..p] + [item] + old(items)[p..]
      ensures o.Fail? ==> o == EnforceOutcome(rx, types, mode, ListFlavour, [item]) && items == old(items)
    {
      o := Enforce(rx, types, mode, ListFlavour, [item]);
      assert [item][0] == item;
      if o.Fail? {
        return;
      }
      var p := InsertPos(pos, |items|);
      items := items[..p] + [item] + items[p..];
      return Pass;
    }

    /** `extend(vals)`: every item of `vals` is checked before any is added. */
    method Extend(vals: Value) returns (o: Outcome)
      modifies this
      ensures o.Pass? <==> HasIter(vals) && Accepts(rx, types, mode, ListFlavour, Elements(vals))
      ensures o.Pass? ==> items == old(items) + Elements(vals)
      ensures o.Fail? ==> items == old(items) &&
                          o == if HasIter(vals) then EnforceOutcome(rx, types, mode, ListFlavour, Elements(vals))
                               else Fail(TypeError)
    {
      if !HasIter(vals) {
        return Fail(TypeError);
      }
      o := Enforce(rx, types, mode, ListFlavour, Elements(vals));
      if o.Fail? {
        return;
      }
      items := items + Elements(vals);
      return Pass;
    }

    /** `pop(key)`: refused on a non-nullable list of length one, otherwise
        the built-in pop, which raises an IndexError on a bad index. */
    method Pop(key: int) returns (r: Result<Value>)
      modifies this
      ensures !nullable && |old(items)| == 1 ==> r == Err(TypeError) && items == old(items)
      ensures (nullable || |old(items)| != 1) && NormIndex(key, |old(items)|).None? ==>
                r == Err(IndexError) && items == old(items)
      ensures (nullable || |old(items)| != 1) && NormIndex(key, |old(items)|).Some? ==>
                var j := NormIndex(key, |old(items)|).value;
                r == Ok(old(items)[j]) && items == old(items)[..j] + old(items)[j + 1..]
    {
      if !nullable && |items| == 1 {
        return Err(TypeError);
      }
      var j := NormIndex(key, |items|);
      if j.None? {
        return Err(IndexError);
      }
      r := Ok(items[j.value]);
      items := items[..j.value] + items[j.value + 1..];
    }

    /** `__delitem__(k)`. */
    method DelItem(k: Key) returns (o: Outcome)
      modifies this
      ensures var d := DeleteItem(old(items), nullable, k);
              if d.Ok? then o == Pass && items == d.value
              else o == Fail(d.error) && items == old(items)
    {
      if !nullable {
        match k
        case SliceKey(sl) =>
          var ix := Indices(sl, |items|);
          if ix.Err? {
            return Fail(ix.error);
          }
          if ix.value.1 - ix.value.0 >= |items| {
            return Fail(TypeError);
          }
        case Index(_) =>
          if |items| == 1 {
            return Fail(TypeError);
          }
      }
      var d := ListDelete(items, k);
      if d.Err? {
        return Fail(d.error);
      }
      items := d.value;
      return Pass;
    }

    /** `__setitem__(k, value)`: the items of an iterable value, or the value
        itself, are checked before the built-in assignment runs. */
    method SetItem(k: Key, value: Value) returns (o: Outcome)
      modifies this
      ensures var check := EnforceOutcome(rx, types, mode, ListFlavour, ItemsOrSelf(value));
              var a := ListAssign(old(items), k, value);
              if check.Fail? then o == check && items == old(items)
              else if a.Err? then o == Fail(a.error) && items == old(items)
              else o == Pass && items == a.value
    {
      o := Enforce(rx, types, mode, ListFlavour, ItemsOrSelf(value));
      if o.Fail? {
        return;
      }
      var a := ListAssign(items, k, value);
      if a.Err? {
        return Fail(a.error);
      }
      items := a.value;
      return Pass;
    }

    /** `__setslice__(i, j, vals)` (the Python 2 hook): the items are checked,
        then the clamped run [i, j) is replaced by them. */
    method SetSlice(i: int, j: int, vals: Value) returns (o: Outcome)
      modifies this
      ensures o.Pass? <==> HasIter(vals) && Accepts(rx, types, mode, ListFlavour, Elements(vals))
      ensures o.Pass? ==> var (lo, hi) := ClampRun(i, j, |old(items)|);
                          items == old(items)[..lo] + Elements(vals) + old(items)[hi..]
      ensures o.Fail? ==> items == old(items) &&
                          o == if HasIter(vals) then EnforceOutcome(rx, types, mode, ListFlavour, Elements(vals))
                               else Fail(TypeError)
    {
      if !HasIter(vals) {
        return Fail(TypeError);
      }
      o := Enforce(rx, types, mode, ListFlavour, Elements(vals));
      if o.Fail? {
        return;
      }
      var (lo, hi) := ClampRun(i, j, |items|);
      items := items[..lo] + Elements(vals) + items[hi..];
      return Pass;
    }

    /** `__delslice__(i, j)` (the Python 2 hook): on a non-nullable list the
        guard normalises the bounds as `slice(i, j).indices(n)` does and refuses
        when stop minus start reaches the length; the deletion itself clamps
        the raw bounds. */
    method DelSlice(i: int, j: int) returns (o: Outcome)
      modifies this
      ensures var (start, stop, _) := Indices(Slice(Some(i), Some(j), None), |old(items)|).value;
              if !nullable && stop - start >= |old(items)| then o == Fail(TypeError) && items == old(items)
              else var (lo, hi) := ClampRun(i, j, |old(items)|);
                   o == Pass && items == old(items)[..lo] + old(items)[hi..]
    {
      var ix := Indices(Slice(Some(i), Some(j), None), |items|);
      if !nullable && ix.value.1 - ix.value.0 >= |items| {
        return Fail(TypeError);
      }
      var (lo, hi) := ClampRun(i, j, |items|);
      items := items[..lo] + items[hi..];
      return Pass;
    }
  }
}
