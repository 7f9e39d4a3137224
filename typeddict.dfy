/** pyast/typeddict.py: a dict whose incoming values are checked against a
    type constraint before they are stored, and which refuses removals that
    would leave a non-nullable dict empty. */
module TypedDicts {
  import opened Values
  import opened Matcher

  /** The `init` argument: a dict, given by its items in insertion order, or
      any other value (None when it is left out). */
  datatype DictInit = DictArg(pairs: seq<(Value, Value)>) | OtherArg(v: Value)

  /** `bool(init)` */
  predicate InitTruthy(init: DictInit) {
    match init
    case DictArg(pairs) => pairs != []
    case OtherArg(v) => Truthy(v)
  }

  /** The keys of a dict are hashable. */
  predicate WellFormedInit(init: DictInit) {
    init.DictArg? ==> forall k :: 0 <= k < |init.pairs| ==> Hashable(init.pairs[k].0)
  }

  /** The dict built from `pairs` by storing them in order: a later pair
      overrides an earlier one with the same key. */
  function MapOf(pairs: seq<(Value, Value)>): (m: map<Value, Value>)
    ensures forall k :: 0 <= k < |pairs| ==> pairs[k].0 in m
    ensures |pairs| > 0 ==> |m| > 0
  {
    if pairs == [] then map[]
    else
      var m := MapOf(pairs[..|pairs| - 1]);
      assert forall k :: 0 <= k < |pairs| - 1 ==> pairs[..|pairs| - 1][k] == pairs[k];
      m[pairs[|pairs| - 1].0 := pairs[|pairs| - 1].1]
  }

  /** The value of `pair` passes the check `__setitem__` applies. */
  predicate ValueOk(rx: Regex, t: Value, mode: Mode, pair: (Value, Value)) {
    Accepts(rx, t, mode, DictFlavour, ItemsOrSelf(pair.1))
  }

  /** Every value of `pairs` passes the check `__setitem__` applies. */
  predicate ValuesAccepted(rx: Regex, t: Value, mode: Mode, pairs: seq<(Value, Value)>) {
    forall k :: 0 <= k < |pairs| ==> ValueOk(rx, t, mode, pairs[k])
  }

  /** A prefix whose values are not all accepted spoils the whole sequence. */
  lemma ValuesAcceptedPrefix(rx: Regex, t: Value, mode: Mode, pairs: seq<(Value, Value)>, n: nat)
    requires n <= |pairs|
    ensures ValuesAccepted(rx, t, mode, pairs) ==> ValuesAccepted(rx, t, mode, pairs[..n])
  {
    if ValuesAccepted(rx, t, mode, pairs) {
      forall k | 0 <= k < n ensures ValueOk(rx, t, mode, pairs[..n][k]) {
        assert pairs[..n][k] == pairs[k];
      }
    }
  }

  /** A prefix one longer is accepted when the shorter one and the new value are. */
  lemma ValuesAcceptedSnoc(rx: Regex, t: Value, mode: Mode, pairs: seq<(Value, Value)>, i: nat)
    requires i < |pairs|
    ensures ValuesAccepted(rx, t, mode, pairs[..i + 1]) <==>
            ValuesAccepted(rx, t, mode, pairs[..i]) && ValueOk(rx, t, mode, pairs[i])
  {
    var longer, shorter := pairs[..i + 1], pairs[..i];
    assert longer == shorter + [pairs[i]];
    if ValuesAccepted(rx, t, mode, longer) {
      forall k | 0 <= k < i ensures ValueOk(rx, t, mode, shorter[k]) {
        assert shorter[k] == longer[k];
      }
      assert ValueOk(rx, t, mode, longer[i]);
    }
    if ValuesAccepted(rx, t, mode, shorter) && ValueOk(rx, t, mode, pairs[i]) {
      forall k | 0 <= k < i + 1 ensures ValueOk(rx, t, mode, longer[k]) {
        if k < i {
          assert longer[k] == shorter[k];
        }
      }
    }
  }

  /** The outcome of the check `__setitem__` applies to each pair's value, in order. */
  function PairOutcomes(rx: Regex, t: Value, mode: Mode, pairs: seq<(Value, Value)>): (os: seq<Outcome>)
    ensures |os| == |pairs|
    ensures forall j :: 0 <= j < |pairs| ==> os[j] == EnforceOutcome(rx, t, mode, DictFlavour, ItemsOrSelf(pairs[j].1))
  {
    seq(|pairs|, j requires 0 <= j < |pairs| => EnforceOutcome(rx, t, mode, DictFlavour, ItemsOrSelf(pairs[j].1)))
  }

  /** The error of the first failed outcome from index `i` on; None when
      every one passed. */
  function FirstError(os: seq<Outcome>, i: nat): (r: Option<Error>)
    requires i <= |os|
    ensures r.None? <==> forall j :: i <= j < |os| ==> os[j].Pass?
    ensures r.Some? ==> exists j :: i <= j < |os| && os[j] == Fail(r.value)
    decreases |os| - i
  {
    if i == |os| then None
    else
      match os[i]
      case Pass => FirstError(os, i + 1)
      case Fail(e) => Some(e)
  }

  /** The first failed outcome: every one before it passed. */
  lemma {:induction false} FirstErrorAt(os: seq<Outcome>, i: nat) returns (k: nat)
    requires i <= |os| && FirstError(os, i).Some?
    ensures i <= k < |os| && os[k] == Fail(FirstError(os, i).value)
    ensures forall j :: i <= j < k ==> os[j].Pass?
    decreases |os| - i
  {
    if os[i].Pass? {
      k := FirstErrorAt(os, i + 1);
    } else {
      k := i;
    }
  }

  /** The exception `__setitem__` raises for the first pair, from index `i`
      on, whose value it refuses; None when every value is accepted. */
  function FirstRefusal(rx: Regex, t: Value, mode: Mode, pairs: seq<(Value, Value)>, i: nat): (r: Option<Error>)
    requires i <= |pairs|
    ensures r.None? <==> forall k :: i <= k < |pairs| ==> ValueOk(rx, t, mode, pairs[k])
    ensures r.Some? ==> r.value == TypeError || r.value == AttributeError
  {
    FirstError(PairOutcomes(rx, t, mode, pairs), i)
  }

  /** One step of the scan: a pair whose value passes hands over to the
      next pair, and a refused one ends the scan with its exception. */
  lemma FirstRefusalStep(rx: Regex, t: Value, mode: Mode, pairs: seq<(Value, Value)>, i: nat)
    requires i < |pairs|
    ensures var o := EnforceOutcome(rx, t, mode, DictFlavour, ItemsOrSelf(pairs[i].1));
            FirstRefusal(rx, t, mode, pairs, i) == if o.Pass? then FirstRefusal(rx, t, mode, pairs, i + 1) else Some(o.error)
  {
    assert PairOutcomes(rx, t, mode, pairs)[i] == EnforceOutcome(rx, t, mode, DictFlavour, ItemsOrSelf(pairs[i].1));
  }

  /** The refusal the scan from `i` reports is raised for a pair `k` whose
      value the check refuses, after every pair from `i` up to it was
      accepted. */
  lemma FirstRefusalAt(rx: Regex, t: Value, mode: Mode, pairs: seq<(Value, Value)>, i: nat) returns (k: nat)
    requires i <= |pairs| && FirstRefusal(rx, t, mode, pairs, i).Some?
    ensures i <= k < |pairs| && forall j :: i <= j < k ==> ValueOk(rx, t, mode, pairs[j])
    ensures EnforceOutcome(rx, t, mode, DictFlavour, ItemsOrSelf(pairs[k].1)) ==
              Fail(FirstRefusal(rx, t, mode, pairs, i).value)
  {
    k := FirstErrorAt(PairOutcomes(rx, t, mode, pairs), i);
  }

  /** The keys of a dict built from hashable keys are hashable. */
  lemma MapOfKeysHashable(pairs: seq<(Value, Value)>)
    requires WellFormedInit(DictArg(pairs))
    ensures forall key :: key in MapOf(pairs) ==> Hashable(key)
  {
    if pairs != [] {
      MapOfKeysHashable(pairs[..|pairs| - 1]);
    }
  }

  /** Storing one more pair updates the dict built so far. */
  lemma MapOfSnoc(pairs: seq<(Value, Value)>, i: nat)
    requires i < |pairs|
    ensures MapOf(pairs[..i + 1]) == MapOf(pairs[..i])[pairs[i].0 := pairs[i].1]
  {
    assert pairs[..i + 1][..i] == pairs[..i];
  }

  /** The contents `TypedDict(types, init, null)` starts with, or the error its
      constructor raises: a truthy dict stores each of its values through the
      checked `__setitem__`, a truthy value that is not a dict has no
      `items()`, and a falsy one is refused unless the dict may be empty.
      The first refused value aborts the construction with the exception
      its check raises. */
  function DictInitContents(rx: Regex, types: Value, init: DictInit, nullable: bool): (r: Result<map<Value, Value>>)
    requires WellFormedInit(init)
    ensures r.Ok? ==> (|r.value| == 0 <==> !InitTruthy(init))
    ensures r.Ok? && !nullable ==> |r.value| > 0
    ensures r.Err? ==> r.error == TypeError || r.error == AttributeError
  {
    var t := NormaliseTypes(types);
    if InitTruthy(init) then
      match init
      case OtherArg(_) => Err(AttributeError)
      case DictArg(pairs) =>
        match FirstRefusal(rx, t, SelectMode(Members(t)), pairs, 0)
        case None => Ok(MapOf(pairs))
        case Some(e) => Err(e)
    else if nullable then Ok(map[])
    else Err(TypeError)
  }

  /** An absent or empty `init` is refused exactly when the dict is not nullable. */
  lemma DictInitEmpty(rx: Regex, types: Value, init: DictInit, nullable: bool)
    requires WellFormedInit(init) && !InitTruthy(init)
    ensures DictInitContents(rx, types, init, nullable) == if nullable then Ok(map[]) else Err(TypeError)
  {
  }

  /** A truthy dict is taken whole when every value is accepted; only the
      values are checked, never the keys. Otherwise the construction raises
      what the check raises for the first refused value, all values before
      it having been accepted. */
  lemma DictInitChecksValuesOnly(rx: Regex, types: Value, pairs: seq<(Value, Value)>, nullable: bool)
    requires pairs != [] && WellFormedInit(DictArg(pairs))
    ensures var t := NormaliseTypes(types);
            DictInitContents(rx, types, DictArg(pairs), nullable).Ok? <==>
              forall k :: 0 <= k < |pairs| ==>
                Accepts(rx, t, SelectMode(Members(t)), DictFlavour, ItemsOrSelf(pairs[k].1))
    ensures DictInitContents(rx, types, DictArg(pairs), nullable).Ok? ==>
              DictInitContents(rx, types, DictArg(pairs), nullable).value == MapOf(pairs)
    ensures var t := NormaliseTypes(types);
            var r := DictInitContents(rx, types, DictArg(pairs), nullable);
            r.Err? ==> exists k :: 0 <= k < |pairs| && ValuesAccepted(rx, t, SelectMode(Members(t)), pairs[..k]) &&
                                   EnforceOutcome(rx, t, SelectMode(Members(t)), DictFlavour, ItemsOrSelf(pairs[k].1)) ==
                                     Fail(r.error)
  {
    var t := NormaliseTypes(types);
    var mode := SelectMode(Members(t));
    if DictInitContents(rx, types, DictArg(pairs), nullable).Err? {
      var k := FirstRefusalAt(rx, t, mode, pairs, 0);
      assert ValuesAccepted(rx, t, mode, pairs[..k]) by {
        forall j | 0 <= j < k ensures ValueOk(rx, t, mode, pairs[..k][j]) {
          assert pairs[..k][j] == pairs[j];
        }
      }
    }
  }

  /** `TypedDict(("a", 1), {"k": re.compile("x")})`: the constraint is mixed,
      the pattern checker runs `"a".match` and the constructor raises an
      AttributeError rather than a TypeError. */
  lemma DictInitPatternUnderLiterals(rx: Regex, nullable: bool)
    ensures DictInitContents(rx, VTuple([VStr("a"), VInt(1)]), DictArg([(VStr("k"), VPattern("x"))]), nullable) ==
            Err(AttributeError)
  {
    PatternItemUnderLiteralsRaises(rx, DictFlavour);
    var t := VTuple([VStr("a"), VInt(1)]);
    assert NormaliseTypes(t) == t;
    assert ItemsOrSelf(VPattern("x")) == [VPattern("x")];
  }

  /** A dict whose incoming values are checked against a constraint. */
  class TypedDict {
    /** The regular-expression engine its pattern checks use. */
    const rx: Regex
    /** The normalised constraint (`self._types`). */
    const types: Value
    /** The enforcement method chosen at construction. */
    const mode: Mode
    /** May the dict become empty (`self._null`)? */
    const nullable: bool
    /** The entries. */
    var entries: map<Value, Value>

    /** The dict is never empty unless it may be, and holds only hashable keys. */
    predicate Valid()
      reads this
    {
      (nullable || |entries| > 0) && forall key :: key in entries ==> Hashable(key)
    }

    /** `__init__` up to the point where the initial entries are stored. */
    constructor Empty(rx: Regex, types: Value, nullable: bool)
      ensures this.rx == rx && this.types == NormaliseTypes(types) && this.nullable == nullable
      ensures mode == SelectMode(Members(this.types)) && entries == map[]
    {
      this.rx := rx;
      this.types := NormaliseTypes(types);
      this.mode := SelectMode(Members(NormaliseTypes(types)));
      this.nullable := nullable;
      entries := map[];
    }

    /** `TypedDict(types, init, null)`: the items of a truthy dict are stored
        one by one through `__setitem__`, so the first refused value aborts
        the construction. */
    static method New(rx: Regex, types: Value, init: DictInit, nullable: bool) returns (r: Result<TypedDict>)
      requires WellFormedInit(init)
      ensures r.Err? <==> DictInitContents(rx, types, init, nullable).Err?
      ensures r.Err? ==> r.error == DictInitContents(rx, types, init, nullable).error
      ensures r.Ok? ==> fresh(r.value) && r.value.Valid() &&
                        r.value.entries == DictInitContents(rx, types, init, nullable).value
      ensures r.Ok? ==> r.value.rx == rx && r.value.types == NormaliseTypes(types) && r.value.nullable == nullable
      ensures r.Ok? ==> r.value.mode == SelectMode(Members(NormaliseTypes(types)))
    {
      var d := new TypedDict.Empty(rx, types, nullable);
      if !InitTruthy(init) {
        if !nullable {
          return Err(TypeError);
        }
        return Ok(d);
      }
      if init.OtherArg? {
        return Err(AttributeError);
      }
      var o := d.StoreAll(init.pairs);
      if o.Fail? {
        return Err(o.error);
      }
      MapOfKeysHashable(init.pairs);
      return Ok(d);
    }

    /** The `for key, value in init.items()` loop of `__init__`: each pair is
        stored through the checked `__setitem__`, and the first refusal stops
        the loop with the exception `__setitem__` raised. */
    method StoreAll(pairs: seq<(Value, Value)>) returns (o: Outcome)
      requires WellFormedInit(DictArg(pairs)) && entries == map[]
      modifies this
      ensures o.Pass? <==> ValuesAccepted(rx, types, mode, pairs)
      ensures o.Pass? ==> entries == MapOf(pairs)
      ensures o.Fail? ==> FirstRefusal(rx, types, mode, pairs, 0) == Some(o.error)
    {
      var i := 0;
      while i < |pairs|
        invariant 0 <= i <= |pairs|
        invariant entries == MapOf(pairs[..i])
        invariant ValuesAccepted(rx, types, mode, pairs[..i])
        invariant FirstRefusal(rx, types, mode, pairs, i) == FirstRefusal(rx, types, mode, pairs, 0)
      {
        FirstRefusalStep(rx, types, mode, pairs, i);
        o := SetItem(pairs[i].0, pairs[i].1);
        if o.Fail? {
          assert Hashable(pairs[i].0);
          ValuesAcceptedSnoc(rx, types, mode, pairs, i);
          ValuesAcceptedPrefix(rx, types, mode, pairs, i + 1);
          return;
        }
        MapOfSnoc(pairs, i);
        ValuesAcceptedSnoc(rx, types, mode, pairs, i);
        i := i + 1;
      }
      assert pairs[..i] == pairs;
      return Pass;
    }

    /** `__setitem__(key, value)`: the items of an iterable value, or the value
        itself, are checked; then the key must be hashable. */
    method SetItem(key: Value, value: Value) returns (o: Outcome)
      modifies this
      ensures old(Valid()) ==> Valid()
      ensures var check := EnforceOutcome(rx, types, mode, DictFlavour, ItemsOrSelf(value));
              if check.Fail? then o == check && entries == old(entries)
              else if !Hashable(key) then o == Fail(TypeError) && entries == old(entries)
              else o == Pass && entries == old(entries)[key := value]
      ensures o.Pass? <==> Accepts(rx, types, mode, DictFlavour, ItemsOrSelf(value)) && Hashable(key)
    {
      o := Enforce(rx, types, mode, DictFlavour, ItemsOrSelf(value));
      if o.Fail? {
        return;
      }
      if !Hashable(key) {
        return Fail(TypeError);
      }
      entries := entries[key := value];
      return Pass;
    }

    /** `pop(key, default)`: refused on a non-nullable dict of one entry, even
        for a key it does not hold; otherwise the entry is removed and its
        value returned, or `default` returned for an absent key. */
    method Pop(key: Value, default: Value) returns (r: Result<Value>)
      modifies this
      ensures old(Valid()) ==> Valid()
      ensures !nullable && |old(entries)| == 1 ==> r == Err(TypeError) && entries == old(entries)
      ensures (nullable || |old(entries)| != 1) ==>
                if !Hashable(key) then r == Err(TypeError) && entries == old(entries)
                else if key in old(entries) then r == Ok(old(entries)[key]) && entries == old(entries) - {key}
                else r == Ok(default) && entries == old(entries)
    {
      if !nullable && |entries| == 1 {
        return Err(TypeError);
      }
      if !Hashable(key) {
        return Err(TypeError);
      }
      if key in entries {
        r := Ok(entries[key]);
        if !nullable {
          RemoveKeepsOne(entries, key);
        }
        entries := entries - {key};
      } else {
        r := Ok(default);
      }
    }

    /** `__delitem__(k)`: the same guard as `pop`, then a KeyError for an absent key. */
    method DelItem(key: Value) returns (o: Outcome)
      modifies this
      ensures old(Valid()) ==> Valid()
      ensures !nullable && |old(entries)| == 1 ==> o == Fail(TypeError) && entries == old(entries)
      ensures (nullable || |old(entries)| != 1) ==>
                if !Hashable(key) then o == Fail(TypeError) && entries == old(entries)
                else if key in old(entries) then o == Pass && entries == old(entries) - {key}
                else o == Fail(KeyError) && entries == old(entries)
    {
      if !nullable && |entries| == 1 {
        return Fail(TypeError);
      }
      if !Hashable(key) {
        return Fail(TypeError);
      }
      if key !in entries {
        return Fail(KeyError);
      }
      if !nullable {
        RemoveKeepsOne(entries, key);
      }
      entries := entries - {key};
      return Pass;
    }
  }

  /** Removing one key from a dict of more than one entry leaves it non-empty. */
  lemma RemoveKeepsOne(m: map<Value, Value>, key: Value)
    requires |m| != 1 && |m| > 0
    ensures |m - {key}| > 0
  {
    if key in m {
      assert |m.Keys - {key}| == |m.Keys| - 1;
      assert (m - {key}).Keys == m.Keys - {key};
    } else {
      assert m - {key} == m;
    }
  }
}
