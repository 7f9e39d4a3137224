/** The value matcher shared by the typed containers (pyast/typedlist.py and
    pyast/typeddict.py): normalisation of the `types` argument, the choice of an
    enforcement method from the classes of the constraint's members, the three
    checkers, and the per-item dispatch of a mixed constraint. */
module Matcher {
  import opened Values

  /** The enforcement methods `__enforceTypeStrInt`, `__enforceTypePattern`
      and `__enforceTypeClass`. */
  datatype Checker = StrIntChecker | PatternChecker | ClassChecker

  /** One checker for every item, or a checker chosen per item (`__enforceTypeMixed`). */
  datatype Mode = Single(checker: Checker) | Mixed

  /** The list and the dict share the checkers, except that the class and
      pattern checkers of the dict return None where the list's return True. */
  datatype Flavour = ListFlavour | DictFlavour

  /** `types` as the container keeps it: a lone string or a non-iterable value
      is wrapped into a one-element tuple, an iterable is kept as it is. */
  function NormaliseTypes(types: Value): (t: Value)
    ensures t.VTuple? || t.VList?
    ensures types.VStr? || !HasIter(types) ==> t == VTuple([types])
    ensures types.VList? || types.VTuple? ==> t == types
  {
    if types.VStr? || !HasIter(types) then VTuple([types]) else types
  }

  /** The members `for t in self._types` visits. */
  function Members(t: Value): seq<Value> {
    if t.VList? || t.VTuple? then t.elems else []
  }

  /** `set([type(t) for t in self._types])` */
  function TypeSet(ms: seq<Value>): set<ClassId> {
    set m | m in ms :: ClassOf(m)
  }

  /** `__selectEnforcementMethod(t)`: subclasses of str or int compare by
      value, the pattern class matches, every other class uses `isinstance`. */
  function SelectChecker(t: ClassId): Checker {
    if IsSubclass(t, StrClass) || IsSubclass(t, IntClass) then StrIntChecker
    else if t == PatternClass then PatternChecker
    else ClassChecker
  }

  /** The mode chosen in `__init__`: a single checker when all members have the
      same class, the mixed check otherwise (including no members at all). */
  function SelectMode(ms: seq<Value>): Mode {
    if |ms| > 0 && forall m :: m in ms ==> ClassOf(m) == ClassOf(ms[0])
    then Single(SelectChecker(ClassOf(ms[0])))
    else Mixed
  }

  /** `any(j.match(i) for j in members)`, scanned in order: Ok(true) at the
      first pattern that matches at the start of the string, an
      AttributeError at a member that is not a pattern (it has no `match`),
      a TypeError when a pattern is handed an item that is not a string. */
  function PatternScan(rx: Regex, ms: seq<Value>, item: Value): (r: Result<bool>)
    ensures r.Err? ==> r.error == TypeError || r.error == AttributeError
    ensures r.Err? && r.error == AttributeError ==> exists m :: m in ms && !m.VPattern?
  {
    if ms == [] then Ok(false)
    else if !ms[0].VPattern? then Err(AttributeError)
    else if !item.VStr? then Err(TypeError)
    else if rx(ms[0].source, item.s) then Ok(true)
    else PatternScan(rx, ms[1..], item)
  }

  /** What checker `c` over the constraint `t` makes of the single item:
      Ok(true) lets it through, Ok(false) is a refusal the checker reports
      with a TypeError, Err(e) an exception raised while checking. */
  function Check(rx: Regex, t: Value, c: Checker, item: Value): Result<bool> {
    match c
    case StrIntChecker => Contains(t, item)
    case ClassChecker => Isinstance(item, t)
    case PatternChecker => PatternScan(rx, Members(t), item)
  }

  /** Checker `c` over the constraint `t` lets the single item through without raising. */
  predicate Passes(rx: Regex, t: Value, c: Checker, item: Value) {
    Check(rx, t, c, item) == Ok(true)
  }

  /** The value a passing checker returns is truthy. */
  predicate ReturnsTruthy(flavour: Flavour, c: Checker) {
    c == StrIntChecker || flavour == ListFlavour
  }

  /** One item is accepted: in mixed mode the checker is chosen by the item's
      own class, and `all(res)` also needs the checker's return value truthy. */
  predicate ItemAccepted(rx: Regex, t: Value, mode: Mode, flavour: Flavour, item: Value) {
    match mode
    case Single(c) => Passes(rx, t, c, item)
    case Mixed =>
      var c := SelectChecker(ClassOf(item));
      Passes(rx, t, c, item) && ReturnsTruthy(flavour, c)
  }

  /** `__enforceType(items)` returns without raising. */
  predicate Accepts(rx: Regex, t: Value, mode: Mode, flavour: Flavour, items: seq<Value>) {
    forall k :: 0 <= k < |items| ==> ItemAccepted(rx, t, mode, flavour, items[k])
  }

  /** The checker that judges `item`: the mode's single checker, or in mixed
      mode the one the item's own class selects. */
  function CheckerFor(mode: Mode, item: Value): Checker {
    match mode
    case Single(c) => c
    case Mixed => SelectChecker(ClassOf(item))
  }

  /** The exception raised at the first item, from index `i` on, that its
      checker does not let through: the exception the checker ran into, or
      the TypeError it raises for a refusal. None when every item passes. */
  function FirstFailure(rx: Regex, t: Value, mode: Mode, items: seq<Value>, i: nat): (r: Option<Error>)
    requires i <= |items|
    ensures r.None? <==> forall k :: i <= k < |items| ==> Passes(rx, t, CheckerFor(mode, items[k]), items[k])
    ensures r.Some? ==> r.value == TypeError || r.value == AttributeError
    decreases |items| - i
  {
    if i == |items| then None
    else
      match Check(rx, t, CheckerFor(mode, items[i]), items[i])
      case Ok(true) => FirstFailure(rx, t, mode, items, i + 1)
      case Ok(false) => Some(TypeError)
      case Err(e) => Some(e)
  }

  /** What `__enforceType(items)` does: Pass, or the exception it raises. The
      items are checked in order, so the first one its checker does not let
      through decides the exception; in mixed mode, once every item has
      passed, a falsy return value (a dict's class or pattern checker returns
      None) still makes the check raise a TypeError. */
  function EnforceOutcome(rx: Regex, t: Value, mode: Mode, flavour: Flavour, items: seq<Value>): (o: Outcome)
    ensures o.Pass? <==> Accepts(rx, t, mode, flavour, items)
    ensures o.Fail? ==> o.error == TypeError || o.error == AttributeError
  {
    match FirstFailure(rx, t, mode, items, 0)
    case Some(e) =>
      FailureRefuses(rx, t, mode, flavour, items);
      Fail(e)
    case None => if Accepts(rx, t, mode, flavour, items) then Pass else Fail(TypeError)
  }

  /** An item its checker does not let through spoils the batch. */
  lemma FailureRefuses(rx: Regex, t: Value, mode: Mode, flavour: Flavour, items: seq<Value>)
    requires FirstFailure(rx, t, mode, items, 0).Some?
    ensures !Accepts(rx, t, mode, flavour, items)
  {
    var k :| 0 <= k < |items| && !Passes(rx, t, CheckerFor(mode, items[k]), items[k]);
    assert !ItemAccepted(rx, t, mode, flavour, items[k]);
  }

  /** `__enforceType(items)`: every item is checked before the caller changes
      anything; the outcome is Pass exactly when every item is accepted. */
  method Enforce(rx: Regex, t: Value, mode: Mode, flavour: Flavour, items: seq<Value>) returns (o: Outcome)
    ensures o == EnforceOutcome(rx, t, mode, flavour, items)
    ensures o.Pass? <==> Accepts(rx, t, mode, flavour, items)
  {
    match mode
    case Single(_) =>
      var failure := FirstFailure(rx, t, mode, items, 0);
      o := if failure.Some? then Fail(failure.value) else Pass;
    case Mixed =>
      o := EnforceMixed(rx, t, flavour, items);
  }

  /** `__enforceTypeMixed`: each item goes through the checker its own class
      selects, and the first one that raises ends the check with its
      exception; the collected return values must then all be truthy. */
  method EnforceMixed(rx: Regex, t: Value, flavour: Flavour, items: seq<Value>) returns (o: Outcome)
    ensures o == EnforceOutcome(rx, t, Mixed, flavour, items)
    ensures o.Pass? <==> Accepts(rx, t, Mixed, flavour, items)
  {
    var allTruthy := true;
    var i := 0;
    while i < |items|
      invariant 0 <= i <= |items|
      invariant FirstFailure(rx, t, Mixed, items, i) == FirstFailure(rx, t, Mixed, items, 0)
      invariant forall k :: 0 <= k < i ==> Passes(rx, t, SelectChecker(ClassOf(items[k])), items[k])
      invariant allTruthy <==> forall k :: 0 <= k < i ==> ReturnsTruthy(flavour, SelectChecker(ClassOf(items[k])))
    {
      var c := SelectChecker(ClassOf(items[i]));
      var r := Check(rx, t, c, items[i]);
      assert c == CheckerFor(Mixed, items[i]);
      if r.Err? {
        assert FirstFailure(rx, t, Mixed, items, i) == Some(r.error);
        return Fail(r.error);
      }
      if !r.value {
        assert FirstFailure(rx, t, Mixed, items, i) == Some(TypeError);
        return Fail(TypeError);
      }
      assert FirstFailure(rx, t, Mixed, items, i) == FirstFailure(rx, t, Mixed, items, i + 1);
      allTruthy := allTruthy && ReturnsTruthy(flavour, c);
      i := i + 1;
    }
    MixedAccepts(rx, t, flavour, items);
    o := if allTruthy then Pass else Fail(TypeError);
  }

  /** Once every item passes its checker, a mixed batch is accepted exactly
      when every checker's return value is truthy. */
  lemma MixedAccepts(rx: Regex, t: Value, flavour: Flavour, items: seq<Value>)
    requires forall k :: 0 <= k < |items| ==> Passes(rx, t, SelectChecker(ClassOf(items[k])), items[k])
    ensures Accepts(rx, t, Mixed, flavour, items) <==>
            forall k :: 0 <= k < |items| ==> ReturnsTruthy(flavour, SelectChecker(ClassOf(items[k])))
  {
  }

  /** An AttributeError needs an item judged by the pattern checker and a
      member of the constraint that is not a compiled pattern: a constraint
      of patterns only, or a batch no pattern checker sees, raises nothing
      but TypeError. */
  lemma AttributeErrorSource(rx: Regex, t: Value, mode: Mode, flavour: Flavour, items: seq<Value>)
    ensures EnforceOutcome(rx, t, mode, flavour, items) == Fail(AttributeError) ==>
            (exists k :: 0 <= k < |items| && CheckerFor(mode, items[k]) == PatternChecker) &&
            (exists m :: m in Members(t) && !m.VPattern?)
  {
    if EnforceOutcome(rx, t, mode, flavour, items) == Fail(AttributeError) {
      AttributeErrorAt(rx, t, mode, items, 0);
    }
  }

  /** The item at which the scan from `i` raises an AttributeError. */
  lemma {:induction false} AttributeErrorAt(rx: Regex, t: Value, mode: Mode, items: seq<Value>, i: nat)
    requires i <= |items| && FirstFailure(rx, t, mode, items, i) == Some(AttributeError)
    ensures exists k :: i <= k < |items| && CheckerFor(mode, items[k]) == PatternChecker
    ensures exists m :: m in Members(t) && !m.VPattern?
    decreases |items| - i
  {
    var c := CheckerFor(mode, items[i]);
    var r := Check(rx, t, c, items[i]);
    if r == Ok(true) {
      AttributeErrorAt(rx, t, mode, items, i + 1);
    } else {
      assert r == Err(AttributeError);
      assert c == PatternChecker;
    }
  }

  /** A compiled pattern appended to a list over the literals `("a", 1)`: the
      two member classes make the check mixed, the item's class picks the
      pattern checker, and `"a".match` raises an AttributeError. A dict does
      the same. */
  lemma PatternItemUnderLiteralsRaises(rx: Regex, flavour: Flavour)
    ensures var t := VTuple([VStr("a"), VInt(1)]);
            SelectMode(Members(t)) == Mixed &&
            EnforceOutcome(rx, t, Mixed, flavour, [VPattern("x")]) == Fail(AttributeError)
  {
    var t := VTuple([VStr("a"), VInt(1)]);
    assert ClassOf(Members(t)[1]) != ClassOf(Members(t)[0]);
    assert !IsSubclass(PatternClass, StrClass) && !IsSubclass(PatternClass, IntClass);
    assert Check(rx, t, PatternChecker, VPattern("x")) == Err(AttributeError);
  }

  /** A set of size one holds one element. */
  lemma SingletonSet<X>(s: set<X>, a: X, b: X)
    requires |s| == 1 && a in s && b in s
    ensures a == b
  {
    var rest := s - {a};
    assert |rest| == 0;
    assert b !in rest;
  }

  /** The mode agrees with the source's test `len(tset) == 1` on the set of
      the members' classes, and a single checker is the one that class selects. */
  lemma SelectModeByTypeSet(ms: seq<Value>)
    ensures SelectMode(ms).Single? <==> |TypeSet(ms)| == 1
    ensures SelectMode(ms).Single? ==> TypeSet(ms) == {ClassOf(ms[0])} &&
                                        SelectMode(ms).checker == SelectChecker(ClassOf(ms[0]))
  {
    if |ms| > 0 {
      var c0 := ClassOf(ms[0]);
      assert c0 in TypeSet(ms);
      if forall m :: m in ms ==> ClassOf(m) == c0 {
        assert TypeSet(ms) == {c0};
      } else if |TypeSet(ms)| == 1 {
        var m :| m in ms && ClassOf(m) != c0;
        assert ClassOf(m) in TypeSet(ms);
        SingletonSet(TypeSet(ms), c0, ClassOf(m));
      }
    } else {
      assert TypeSet(ms) == {};
    }
  }

  /** A batch is accepted exactly when each of its parts is: no item is let
      through because of another. */
  lemma AcceptsConcat(rx: Regex, t: Value, mode: Mode, flavour: Flavour, xs: seq<Value>, ys: seq<Value>)
    ensures Accepts(rx, t, mode, flavour, xs + ys) <==>
            Accepts(rx, t, mode, flavour, xs) && Accepts(rx, t, mode, flavour, ys)
  {
    if Accepts(rx, t, mode, flavour, xs) && Accepts(rx, t, mode, flavour, ys) {
      forall k | 0 <= k < |xs + ys| ensures ItemAccepted(rx, t, mode, flavour, (xs + ys)[k]) {
        if k >= |xs| {
          assert (xs + ys)[k] == ys[k - |xs|];
        }
      }
    }
    if Accepts(rx, t, mode, flavour, xs + ys) {
      forall k | 0 <= k < |xs| ensures ItemAccepted(rx, t, mode, flavour, xs[k]) {
        assert (xs + ys)[k] == xs[k];
      }
      forall k | 0 <= k < |ys| ensures ItemAccepted(rx, t, mode, flavour, ys[k]) {
        assert (xs + ys)[|xs| + k] == ys[k];
      }
    }
  }

  /** All-string or all-integer members: one membership checker, and an item is
      accepted exactly when it equals a member. */
  lemma LiteralMembers(rx: Regex, t: Value, flavour: Flavour, item: Value)
    requires t.VTuple? || t.VList?
    requires |t.elems| > 0
    requires (forall m :: m in t.elems ==> m.VStr?) || (forall m :: m in t.elems ==> m.VInt?)
    ensures SelectMode(Members(t)) == Single(StrIntChecker)
    ensures ItemAccepted(rx, t, SelectMode(Members(t)), flavour, item) <==> item in t.elems
  {
    var ms := Members(t);
    assert ms[0] in ms;
    assert forall m :: m in ms ==> ClassOf(m) == ClassOf(ms[0]);
  }

  /** All members are classes of one metaclass, in a tuple: the `isinstance`
      checker, and an item is accepted exactly when it is an instance of one. */
  lemma ClassMembers(rx: Regex, t: Value, flavour: Flavour, item: Value)
    requires t.VTuple? && |t.elems| > 0
    requires forall m :: m in t.elems ==> m.VClass? && ClassOf(m) == ClassOf(t.elems[0])
    ensures SelectMode(Members(t)) == Single(ClassChecker)
    ensures ItemAccepted(rx, t, SelectMode(Members(t)), flavour, item) <==>
            exists m :: m in t.elems && IsInstance(item, m.cls)
  {
    ClassMembersMode(t);
    ClassTupleScan(t, item);
  }

  /** Members that are classes of one metaclass select the `isinstance` checker. */
  lemma ClassMembersMode(t: Value)
    requires t.VTuple? && |t.elems| > 0
    requires forall m :: m in t.elems ==> m.VClass? && ClassOf(m) == ClassOf(t.elems[0])
    ensures SelectMode(Members(t)) == Single(ClassChecker)
  {
    assert Members(t)[0] in Members(t);
    assert !IsSubclass(TypeClass, StrClass) && !IsSubclass(TypeClass, IntClass);
    assert !IsSubclass(NodeBaseClass, StrClass) && !IsSubclass(NodeBaseClass, IntClass);
  }

  /** `isinstance` over a tuple of classes holds when the item belongs to one. */
  lemma ClassTupleScan(t: Value, item: Value)
    requires t.VTuple? && forall m :: m in t.elems ==> m.VClass?
    ensures Isinstance(item, t) == Ok(exists m :: m in t.elems && IsInstance(item, m.cls))
  {
    assert forall j :: 0 <= j < |t.elems| ==> t.elems[j].VClass? by {
      forall j | 0 <= j < |t.elems| ensures t.elems[j].VClass? {
        assert t.elems[j] in t.elems;
      }
    }
    IsinstanceOfClasses(item, t, 0);
    if exists m :: m in t.elems && IsInstance(item, m.cls) {
      var m :| m in t.elems && IsInstance(item, m.cls);
      var j :| 0 <= j < |t.elems| && t.elems[j] == m;
    }
  }

  /** Over members that are all compiled patterns the in-order scan raises no
      AttributeError: for a string it is a plain "some pattern matches at the
      start of the string", and any other item raises a TypeError at the
      first pattern. */
  lemma {:induction false} PatternScanOverPatterns(rx: Regex, ms: seq<Value>, item: Value)
    requires forall m :: m in ms ==> m.VPattern?
    ensures item.VStr? ==> PatternScan(rx, ms, item) == Ok(exists m :: m in ms && rx(m.source, item.s))
    ensures !item.VStr? ==> PatternScan(rx, ms, item) == if ms == [] then Ok(false) else Err(TypeError)
  {
    if ms != [] && item.VStr? {
      assert forall m :: m in ms[1..] ==> m in ms;
      PatternScanOverPatterns(rx, ms[1..], item);
      if exists m :: m in ms && rx(m.source, item.s) {
        var m :| m in ms && rx(m.source, item.s);
        if m != ms[0] {
          var j :| 0 <= j < |ms| && ms[j] == m;
          assert ms[1..][j - 1] == m;
        }
      }
    }
  }

  /** All members are compiled patterns: the pattern checker, and an item is
      accepted exactly when it is a string some pattern matches at its start. */
  lemma PatternMembers(rx: Regex, t: Value, flavour: Flavour, item: Value)
    requires t.VTuple? || t.VList?
    requires |t.elems| > 0 && forall m :: m in t.elems ==> m.VPattern?
    ensures SelectMode(Members(t)) == Single(PatternChecker)
    ensures ItemAccepted(rx, t, SelectMode(Members(t)), flavour, item) <==>
            item.VStr? && exists m :: m in t.elems && rx(m.source, item.s)
  {
    var ms := Members(t);
    assert ms[0] in ms;
    assert !IsSubclass(PatternClass, StrClass) && !IsSubclass(PatternClass, IntClass);
    PatternScanOverPatterns(rx, ms, item);
  }

  /** Mixed constraint, list flavour: each item is judged by the checker its own
      class selects, so a string must equal a member while an object of a
      class unrelated to `str`, `int` and patterns (a node, say) only needs
      `isinstance` to hold over the constraint. */
  lemma MixedPerItem(rx: Regex, t: Value, item: Value)
    ensures item.VObj? && !IsSubclass(item.cls, StrClass) && !IsSubclass(item.cls, IntClass) &&
            item.cls != PatternClass ==>
            (ItemAccepted(rx, t, Mixed, ListFlavour, item) <==> Isinstance(item, t) == Ok(true))
    ensures item.VStr? ==> (ItemAccepted(rx, t, Mixed, ListFlavour, item) <==> Contains(t, item) == Ok(true))
  {
  }

  /** A constraint naming `str` next to a node class is mixed, because the two
      class objects have different classes (`type` and `NodeBase`); a string
      is then tested for literal membership and refused, although it is an
      instance of `str`. */
  lemma MixedRefusesInstanceOfBuiltin(rx: Regex, name: string)
    ensures var t := VTuple([VClass(StrClass), VClass(UserClass(name, [NodeClass]))]);
            SelectMode(Members(t)) == Mixed &&
            IsInstance(VStr("abc"), StrClass) &&
            !ItemAccepted(rx, t, SelectMode(Members(t)), ListFlavour, VStr("abc"))
  {
    var node := UserClass(name, [NodeClass]);
    assert IsSubclass(node, NodeClass) by {
      assert node.bases[0] == NodeClass;
    }
    var t := VTuple([VClass(StrClass), VClass(node)]);
    assert ClassOf(t.elems[0]) == TypeClass;
    assert ClassOf(t.elems[1]) == NodeBaseClass;
  }

  /** In a dict, the mixed check lets through only items that are literally
      members of the constraint (strings or integers), since the class and
      pattern checkers return None. */
  lemma DictMixedOnlyLiterals(rx: Regex, t: Value, items: seq<Value>)
    ensures Accepts(rx, t, Mixed, DictFlavour, items) <==>
            forall k :: 0 <= k < |items| ==>
              SelectChecker(ClassOf(items[k])) == StrIntChecker && Contains(t, items[k]) == Ok(true)
  {
  }

  /** Whatever the mode, a dict accepts no more than a list over the same constraint. */
  lemma DictNoLooserThanList(rx: Regex, t: Value, mode: Mode, items: seq<Value>)
    ensures Accepts(rx, t, mode, DictFlavour, items) ==> Accepts(rx, t, mode, ListFlavour, items)
  {
  }
}
