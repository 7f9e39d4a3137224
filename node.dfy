/** pyast/node.py, `Node`: binding constructor arguments to the fields of a
    node class, validating them in debug mode, and the debug-mode attribute
    hooks that re-validate assignments and refuse to delete fields. */
module Nodes {
  import opened Values
  import opened Fields
  import opened TypedLists
  import opened Schemas

  /** A schema as the metaclass builds it: each field is named once and has a guard. */
  predicate WellFormedSchema(s: Schema) {
    (forall i, j :: 0 <= i < j < |s.fields| ==> s.fields[i] != s.fields[j]) &&
    forall i :: 0 <= i < |s.fields| ==> Lookup(s.guards, s.fields[i]).Some?
  }

  /** The guard of field `i`. */
  function GuardAt(s: Schema, i: nat): Guard
    requires WellFormedSchema(s) && i < |s.fields|
  {
    Lookup(s.guards, s.fields[i]).value
  }

  /** How many of the first `i` fields have no keyword argument. */
  function PositionalBefore(fields: seq<string>, kwargs: map<string, Value>, i: nat): (r: nat)
    requires i <= |fields|
    ensures r <= i
  {
    if i == 0 then 0
    else PositionalBefore(fields, kwargs, i - 1) + (if fields[i - 1] in kwargs then 0 else 1)
  }

  /** The value `__init__` binds to field `i` before any check: its keyword
      argument, else the next positional argument not yet taken, else the
      field's default (a copy when iterable, which is the same value). */
  function ArgFor(s: Schema, args: seq<Value>, kwargs: map<string, Value>, i: nat): Value
    requires WellFormedSchema(s) && i < |s.fields|
  {
    var f := s.fields[i];
    if f in kwargs then kwargs[f]
    else
      var c := PositionalBefore(s.fields, kwargs, i);
      if c < |args| then args[c] else GuardAt(s, i).default
  }

  /** Fields without a keyword argument take positional arguments in field
      order, each a different one: no argument is bound twice. */
  lemma {:induction false} PositionalStrictlyIncreasing(fields: seq<string>, kwargs: map<string, Value>, i: nat, j: nat)
    requires i < j <= |fields| && fields[i] !in kwargs
    ensures PositionalBefore(fields, kwargs, i) < PositionalBefore(fields, kwargs, j)
    decreases j
  {
    if j > i + 1 {
      PositionalStrictlyIncreasing(fields, kwargs, i, j - 1);
    }
  }

  /** Keyword arguments that name no field change nothing: they are ignored. */
  lemma {:induction false} UnknownKeywordIgnored(fields: seq<string>, kwargs: map<string, Value>, k: string, v: Value, i: nat)
    requires i <= |fields| && k !in fields
    ensures PositionalBefore(fields, kwargs[k := v], i) == PositionalBefore(fields, kwargs, i)
  {
    if i > 0 {
      UnknownKeywordIgnored(fields, kwargs, k, v, i - 1);
    }
  }

  /** A keyword argument that names no field binds nothing, so every field
      gets the same value and the whole construction comes out the same:
      `__init__` pops only the keywords of fields and ignores the rest. */
  lemma UnknownKeywordKeepsConstruction(rx: Regex, s: Schema, debug: bool, args: seq<Value>,
                                        kwargs: map<string, Value>, k: string, v: Value)
    requires WellFormedSchema(s) && k !in s.fields
    ensures forall i :: 0 <= i < |s.fields| ==> ArgFor(s, args, kwargs[k := v], i) == ArgFor(s, args, kwargs, i)
    ensures Construction(rx, s, debug, args, kwargs[k := v]) == Construction(rx, s, debug, args, kwargs)
  {
    forall i | 0 <= i < |s.fields|
      ensures ArgFor(s, args, kwargs[k := v], i) == ArgFor(s, args, kwargs, i)
    {
      UnknownKeywordIgnored(s.fields, kwargs, k, v, i);
      assert s.fields[i] != k;
    }
    assert Steps(rx, s, debug, args, kwargs[k := v]) == Steps(rx, s, debug, args, kwargs);
  }

  /** A keyword argument for a field wins over any positional argument. */
  lemma KeywordWins(s: Schema, args: seq<Value>, kwargs: map<string, Value>, i: nat)
    requires WellFormedSchema(s) && i < |s.fields| && s.fields[i] in kwargs
    ensures ArgFor(s, args, kwargs, i) == kwargs[s.fields[i]]
    ensures forall extra :: ArgFor(s, args + extra, kwargs, i) == kwargs[s.fields[i]]
  {
  }

  /** Positional arguments beyond the fields that take one are ignored. */
  lemma ExtraPositionalIgnored(s: Schema, args: seq<Value>, extra: seq<Value>, kwargs: map<string, Value>, i: nat)
    requires WellFormedSchema(s) && i < |s.fields|
    requires |args| >= PositionalBefore(s.fields, kwargs, |s.fields|)
    ensures ArgFor(s, args + extra, kwargs, i) == ArgFor(s, args, kwargs, i)
  {
    if s.fields[i] !in kwargs {
      PositionalStrictlyIncreasing(s.fields, kwargs, i, |s.fields|);
    }
  }

  /** What field `i` ends up holding, or the error its check raises: in
      debug mode the bound value goes through `field_cls.init`, in fast mode
      it is stored as given. */
  function Step(rx: Regex, s: Schema, debug: bool, args: seq<Value>, kwargs: map<string, Value>, i: nat): Result<Stored>
    requires WellFormedSchema(s) && i < |s.fields|
  {
    var v := ArgFor(s, args, kwargs, i);
    if debug then FieldInit(rx, v, GuardAt(s, i)) else Ok(Plain(v))
  }

  /** The outcome of every field's step, in field order. */
  function Steps(rx: Regex, s: Schema, debug: bool, args: seq<Value>, kwargs: map<string, Value>): (r: seq<Result<Stored>>)
    requires WellFormedSchema(s)
    ensures |r| == |s.fields|
    ensures forall i :: 0 <= i < |s.fields| ==> r[i] == Step(rx, s, debug, args, kwargs, i)
  {
    seq(|s.fields|, i requires 0 <= i < |s.fields| => Step(rx, s, debug, args, kwargs, i))
  }

  /** Entry `i` of `steps` is step `i` of the construction. */
  predicate StepIs(rx: Regex, s: Schema, debug: bool, args: seq<Value>, kwargs: map<string, Value>, steps: seq<Result<Stored>>, i: nat)
    requires WellFormedSchema(s) && i < |s.fields| && |steps| == |s.fields|
  {
    steps[i] == Step(rx, s, debug, args, kwargs, i)
  }

  /** The fields stored after the first `n` steps, or the error of the first
      step that fails. */
  function Collect(fields: seq<string>, steps: seq<Result<Stored>>, n: nat): Result<map<string, Stored>>
    requires |steps| == |fields| && n <= |fields|
  {
    if n == 0 then Ok(map[])
    else
      var prev := Collect(fields, steps, n - 1);
      if prev.Err? then prev
      else if steps[n - 1].Err? then Err(steps[n - 1].error)
      else Ok(prev.value[fields[n - 1] := steps[n - 1].value])
  }

  /** The positional cursor before field `i`: the next argument to take, or
      the end of `args` once they are all taken. */
  function Cursor(fields: seq<string>, kwargs: map<string, Value>, args: seq<Value>, i: nat): nat
    requires i <= |fields|
  {
    var c := PositionalBefore(fields, kwargs, i);
    if c < |args| then c else |args|
  }

  /** The keyword arguments left after the first `i` fields popped theirs. */
  function KwLeft(fields: seq<string>, kwargs: map<string, Value>, i: nat): map<string, Value>
    requires i <= |fields|
  {
    if i == 0 then kwargs else KwLeft(fields, kwargs, i - 1) - {fields[i - 1]}
  }

  /** A later field still finds its keyword argument, if it was given one. */
  lemma {:induction false} KwLeftKeeps(fields: seq<string>, kwargs: map<string, Value>, i: nat, j: nat)
    requires i <= j < |fields| && forall a, b :: 0 <= a < b < |fields| ==> fields[a] != fields[b]
    ensures fields[j] in KwLeft(fields, kwargs, i) <==> fields[j] in kwargs
    ensures fields[j] in kwargs ==> KwLeft(fields, kwargs, i)[fields[j]] == kwargs[fields[j]]
    decreases i
  {
    if i > 0 {
      KwLeftKeeps(fields, kwargs, i - 1, j);
      assert fields[i - 1] != fields[j];
    }
  }

  /** Popping field `i`'s keyword, else advancing the cursor, else taking the
      default, binds `ArgFor` and leaves the state for field `i + 1`. */
  lemma BindNext(s: Schema, args: seq<Value>, kwargs: map<string, Value>, kw: map<string, Value>, key: nat, i: nat)
    requires WellFormedSchema(s) && i < |s.fields|
    requires key == Cursor(s.fields, kwargs, args, i) && kw == KwLeft(s.fields, kwargs, i)
    ensures s.fields[i] in kw ==>
              kw[s.fields[i]] == ArgFor(s, args, kwargs, i) &&
              key == Cursor(s.fields, kwargs, args, i + 1) && kw - {s.fields[i]} == KwLeft(s.fields, kwargs, i + 1)
    ensures s.fields[i] !in kw && key < |args| ==>
              args[key] == ArgFor(s, args, kwargs, i) &&
              key + 1 == Cursor(s.fields, kwargs, args, i + 1) && kw == KwLeft(s.fields, kwargs, i + 1)
    ensures s.fields[i] !in kw && key >= |args| ==>
              GuardAt(s, i).default == ArgFor(s, args, kwargs, i) &&
              key == Cursor(s.fields, kwargs, args, i + 1) && kw == KwLeft(s.fields, kwargs, i + 1)
  {
    KwLeftKeeps(s.fields, kwargs, i, i);
  }

  /** One more step either fails with its error or stores its field. */
  lemma CollectNext(fields: seq<string>, steps: seq<Result<Stored>>, n: nat)
    requires |steps| == |fields| && n < |fields| && Collect(fields, steps, n).Ok?
    ensures steps[n].Err? ==> Collect(fields, steps, n + 1) == Err(steps[n].error)
    ensures steps[n].Ok? ==> Collect(fields, steps, n + 1) == Ok(Collect(fields, steps, n).value[fields[n] := steps[n].value])
  {
  }

  /** `Node.__init__(*args, **kwargs)`: in debug mode an abstract class
      refuses to be instantiated; then every field is bound. */
  function Construction(rx: Regex, s: Schema, debug: bool, args: seq<Value>, kwargs: map<string, Value>): Result<map<string, Stored>>
    requires WellFormedSchema(s)
  {
    if debug && s.isAbstract then Err(TypeError)
    else Collect(s.fields, Steps(rx, s, debug, args, kwargs), |s.fields|)
  }

  /** Once a step has failed, collecting the later ones keeps the error. */
  lemma {:induction false} CollectErrStays(fields: seq<string>, steps: seq<Result<Stored>>, n: nat, m: nat)
    requires |steps| == |fields| && n <= m <= |fields|
    requires Collect(fields, steps, n).Err?
    ensures Collect(fields, steps, m) == Collect(fields, steps, n)
    decreases m
  {
    if m > n {
      CollectErrStays(fields, steps, n, m - 1);
    }
  }

  /** After the first `i` fields were stored as `m`, a refusal at step `i`
      is the final error and an accepted step extends `m`. */
  lemma StepNext(fields: seq<string>, steps: seq<Result<Stored>>, i: nat, m: map<string, Stored>)
    requires |steps| == |fields| && i < |fields| && Collect(fields, steps, i) == Ok(m)
    ensures steps[i].Err? ==> Collect(fields, steps, |fields|) == Err(steps[i].error)
    ensures steps[i].Ok? ==> Collect(fields, steps, i + 1) == Ok(m[fields[i] := steps[i].value])
  {
    CollectNext(fields, steps, i);
    if steps[i].Err? {
      CollectErrStays(fields, steps, i + 1, |fields|);
    }
  }

  /** Step `i` checks the value bound to field `i`. */
  lemma StepAt(rx: Regex, s: Schema, debug: bool, args: seq<Value>, kwargs: map<string, Value>, i: nat, v: Value)
    requires WellFormedSchema(s) && i < |s.fields| && v == ArgFor(s, args, kwargs, i)
    ensures Steps(rx, s, debug, args, kwargs)[i] == if debug then FieldInit(rx, v, GuardAt(s, i)) else Ok(Plain(v))
  {
  }

  /** Collecting `n` steps succeeds exactly when each of them does, and then
      holds exactly those fields, each with its step's result. */
  lemma {:induction false} CollectSteps(fields: seq<string>, steps: seq<Result<Stored>>, n: nat)
    requires |steps| == |fields| && n <= |fields|
    requires forall i, j :: 0 <= i < j < |fields| ==> fields[i] != fields[j]
    ensures Collect(fields, steps, n).Ok? <==> forall i :: 0 <= i < n ==> steps[i].Ok?
    ensures Collect(fields, steps, n).Ok? ==>
            var m := Collect(fields, steps, n).value;
            (forall k :: k in m ==> exists i :: 0 <= i < n && fields[i] == k) &&
            forall i :: 0 <= i < n ==> fields[i] in m && m[fields[i]] == steps[i].value
  {
    if n > 0 {
      CollectSteps(fields, steps, n - 1);
      var prev := Collect(fields, steps, n - 1);
      if prev.Ok? && steps[n - 1].Ok? {
        var m := Collect(fields, steps, n).value;
        forall i | 0 <= i < n
          ensures fields[i] in m && m[fields[i]] == steps[i].value
        {
          if i < n - 1 {
            assert fields[i] != fields[n - 1];
          }
        }
        forall k | k in m ensures exists i :: 0 <= i < n && fields[i] == k {
          if k != fields[n - 1] {
            assert k in prev.value;
          }
        }
      }
    }
  }

  /** Fast mode never refuses: every field holds its bound value as given,
      abstract class or not. */
  lemma FastModeStoresRaw(rx: Regex, s: Schema, args: seq<Value>, kwargs: map<string, Value>)
    requires WellFormedSchema(s)
    ensures Construction(rx, s, false, args, kwargs).Ok?
    ensures forall i :: 0 <= i < |s.fields| ==>
              s.fields[i] in Construction(rx, s, false, args, kwargs).value &&
              Construction(rx, s, false, args, kwargs).value[s.fields[i]] == Plain(ArgFor(s, args, kwargs, i))
  {
    var steps := Steps(rx, s, false, args, kwargs);
    forall i | 0 <= i < |s.fields| ensures steps[i] == Ok(Plain(ArgFor(s, args, kwargs, i))) {
      StepAt(rx, s, false, args, kwargs, i, ArgFor(s, args, kwargs, i));
    }
    CollectSteps(s.fields, steps, |s.fields|);
  }

  /** In debug mode a node is built exactly when the class is concrete and
      every bound value passes its field's `init`, and then each field holds
      what that `init` produced. */
  lemma DebugModeValidates(rx: Regex, s: Schema, args: seq<Value>, kwargs: map<string, Value>)
    requires WellFormedSchema(s)
    ensures Construction(rx, s, true, args, kwargs).Ok? <==>
            !s.isAbstract && forall i :: 0 <= i < |s.fields| ==> FieldInit(rx, ArgFor(s, args, kwargs, i), GuardAt(s, i)).Ok?
    ensures Construction(rx, s, true, args, kwargs).Ok? ==>
            forall i :: 0 <= i < |s.fields| ==>
              s.fields[i] in Construction(rx, s, true, args, kwargs).value &&
              Construction(rx, s, true, args, kwargs).value[s.fields[i]] == FieldInit(rx, ArgFor(s, args, kwargs, i), GuardAt(s, i)).value
  {
    var steps := Steps(rx, s, true, args, kwargs);
    forall i | 0 <= i < |s.fields|
      ensures steps[i] == FieldInit(rx, ArgFor(s, args, kwargs, i), GuardAt(s, i))
    {
      StepAt(rx, s, true, args, kwargs, i, ArgFor(s, args, kwargs, i));
    }
    CollectSteps(s.fields, steps, |s.fields|);
  }

  /** Every schema field holds a value that its `init` maps to itself: what
      `field_cls.init` produces, read back, passes again unchanged. */
  predicate FieldsValid(rx: Regex, s: Schema, m: map<string, Stored>)
    requires WellFormedSchema(s)
  {
    forall i :: 0 <= i < |s.fields| ==>
      s.fields[i] in m && FieldInit(rx, StoredValue(m[s.fields[i]]), GuardAt(s, i)) == Ok(m[s.fields[i]])
  }

  /** A node built in debug mode has every field valid. */
  lemma DebugConstructionValid(rx: Regex, s: Schema, args: seq<Value>, kwargs: map<string, Value>)
    requires WellFormedSchema(s) && Construction(rx, s, true, args, kwargs).Ok?
    ensures FieldsValid(rx, s, Construction(rx, s, true, args, kwargs).value)
  {
    DebugModeValidates(rx, s, args, kwargs);
    forall i | 0 <= i < |s.fields|
      ensures FieldInit(rx, StoredValue(Construction(rx, s, true, args, kwargs).value[s.fields[i]]), GuardAt(s, i)) ==
              Ok(Construction(rx, s, true, args, kwargs).value[s.fields[i]])
    {
      FieldInitAgain(rx, ArgFor(s, args, kwargs, i), GuardAt(s, i));
    }
  }

  /** A debug-mode assignment that is accepted keeps every field valid. */
  lemma DebugAssignKeepsValid(rx: Regex, s: Schema, m: map<string, Stored>, k: nat, val: Value)
    requires WellFormedSchema(s) && FieldsValid(rx, s, m) && k < |s.fields|
    requires FieldInit(rx, val, GuardAt(s, k)).Ok?
    ensures FieldsValid(rx, s, m[s.fields[k] := FieldInit(rx, val, GuardAt(s, k)).value])
  {
    FieldInitAgain(rx, val, GuardAt(s, k));
  }

  /** `nodes[target].name = val` on debug nodes of one class, as the class is
      left by node.py:79-80: its `__setattr__` is the bound
      `__debug__setattr__` of the node constructed last, so the value is
      checked and stored on that node, whichever instance the assignment
      names. `nodes` lists the nodes' attributes in construction order. */
  function SwappedSetAttr(rx: Regex, s: Schema, nodes: seq<map<string, Stored>>, target: nat,
                          name: string, val: Value): Result<seq<map<string, Stored>>>
    requires target < |nodes|
  {
    var last := |nodes| - 1;
    var st := if name in s.fields && Lookup(s.guards, name).Some?
              then FieldInit(rx, val, Lookup(s.guards, name).value) else Ok(Plain(val));
    match st
    case Err(e) => Err(e)
    case Ok(x) => Ok(nodes[last := nodes[last][name := x]])
  }

  /** Of two debug nodes `a` and `b`, built in that order, an assignment to
      an attribute of `a` leaves `a` as it was and sets the attribute on `b`. */
  lemma SwappedHookWritesLastNode(rx: Regex, s: Schema, a: map<string, Stored>, b: map<string, Stored>,
                                  name: string, val: Value)
    requires name !in s.fields
    ensures SwappedSetAttr(rx, s, [a, b], 0, name, val) == Ok([a, b[name := Plain(val)]])
  {
    assert [a, b][1 := b[name := Plain(val)]] == [a, b[name := Plain(val)]];
  }

  /** An instance of a node class. */
  class Node {
    /** The regular-expression engine its typed lists use. */
    const rx: Regex
    /** Its class's `_guards`, `_fields` and `_abstract`. */
    const schema: Schema
    /** Its class's resolved `_debug`. */
    const debug: bool
    /** The instance attributes. */
    var attrs: map<string, Slot>

    constructor Blank(rx: Regex, schema: Schema, debug: bool)
      ensures this.rx == rx && this.schema == schema && this.debug == debug && attrs == map[]
    {
      this.rx := rx;
      this.schema := schema;
      this.debug := debug;
      attrs := map[];
    }

    /** Every slot holds what the construction specification says. */
    predicate Holds(m: map<string, Stored>)
      reads this, set k | k in attrs && attrs[k].Typed? :: attrs[k].l
    {
      attrs.Keys == m.Keys && forall k :: k in attrs ==> SlotHolds(attrs[k], m[k])
    }

    /** Storing a slot that holds `st` under `f` extends what the node holds. */
    method Store(f: string, slot: Slot, ghost m: map<string, Stored>, ghost st: Stored)
      requires Holds(m) && SlotHolds(slot, st)
      modifies this
      ensures attrs == old(attrs)[f := slot]
      ensures Holds(m[f := st])
    {
      attrs := attrs[f := slot];
    }

    /** Checking a bound value as the node's mode says and storing the
        result under `f`; a refusal stores nothing. */
    method StoreStep(f: string, v: Value, g: Guard, ghost m: map<string, Stored>, ghost st: Result<Stored>) returns (o: Outcome)
      requires Holds(m) && st == (if debug then FieldInit(rx, v, g) else Ok(Plain(v)))
      modifies this
      ensures o.Fail? <==> st.Err?
      ensures o.Fail? ==> o.error == st.error
      ensures o.Pass? ==> Holds(m[f := st.value])
    {
      if debug {
        var slot := InitField(rx, v, g);
        if slot.Err? {
          return Fail(slot.error);
        }
        Store(f, slot.value, m, st.value);
      } else {
        Store(f, Raw(v), m, st.value);
      }
      return Pass;
    }

    /** Binding field `i`: pop its keyword argument, else take the argument
        at the positional cursor, else its default. */
    static method Bind(s: Schema, args: seq<Value>, ghost kwargs: map<string, Value>, kw: map<string, Value>, key: nat, i: nat)
      returns (v: Value, kw': map<string, Value>, key': nat)
      requires WellFormedSchema(s) && i < |s.fields|
      requires key == Cursor(s.fields, kwargs, args, i) && kw == KwLeft(s.fields, kwargs, i)
      ensures v == ArgFor(s, args, kwargs, i)
      ensures key' == Cursor(s.fields, kwargs, args, i + 1) && kw' == KwLeft(s.fields, kwargs, i + 1)
    {
      var f := s.fields[i];
      BindNext(s, args, kwargs, kw, key, i);
      if f in kw {
        v, kw', key' := kw[f], kw - {f}, key;
      } else if key < |args| {
        v, kw', key' := args[key], kw, key + 1;
      } else {
        v, kw', key' := GuardAt(s, i).default, kw, key;
      }
    }

    /** After the first `i` fields: `kw` holds the keyword arguments not
        yet popped, `key` is the positional cursor, and the node holds `m`,
        the fields collected so far. */
    predicate Filled(args: seq<Value>, kwargs: map<string, Value>, steps: seq<Result<Stored>>,
                     kw: map<string, Value>, key: nat, i: nat, m: map<string, Stored>)
      reads this, set k | k in attrs && attrs[k].Typed? :: attrs[k].l
      requires |steps| == |schema.fields|
    {
      i <= |schema.fields| &&
      key == Cursor(schema.fields, kwargs, args, i) && kw == KwLeft(schema.fields, kwargs, i) &&
      Collect(schema.fields, steps, i) == Ok(m) && Holds(m)
    }

    /** The steps of constructing this node from `args` and `kwargs`. */
    predicate StepsOf(args: seq<Value>, kwargs: map<string, Value>, steps: seq<Result<Stored>>)
      requires WellFormedSchema(schema)
    {
      |steps| == |schema.fields| &&
      forall i :: 0 <= i < |schema.fields| ==> StepIs(rx, schema, debug, args, kwargs, steps, i)
    }

    /** Binding, checking and storing field `i`. */
    method FillField(args: seq<Value>, kwargs: map<string, Value>, ghost steps: seq<Result<Stored>>,
                     kw: map<string, Value>, key: nat, i: nat, ghost m: map<string, Stored>)
      returns (o: Outcome, kw': map<string, Value>, key': nat, ghost m': map<string, Stored>)
      requires WellFormedSchema(schema) && StepsOf(args, kwargs, steps) && i < |schema.fields|
      requires Filled(args, kwargs, steps, kw, key, i, m)
      modifies this
      ensures o.Fail? ==> Collect(schema.fields, steps, |schema.fields|) == Err(o.error)
      ensures o.Pass? ==> Filled(args, kwargs, steps, kw', key', i + 1, m')
    {
      var v;
      v, kw', key' := Bind(schema, args, kwargs, kw, key, i);
      assert StepIs(rx, schema, debug, args, kwargs, steps, i);
      StepNext(schema.fields, steps, i, m);
      o := StoreStep(schema.fields[i], v, GuardAt(schema, i), m, steps[i]);
      m' := if o.Pass? then m[schema.fields[i] := steps[i].value] else m;
    }

    /** Binding and storing every field of a blank node, in `_fields`
        order, until one is refused. */
    method Fill(args: seq<Value>, kwargs: map<string, Value>, ghost steps: seq<Result<Stored>>) returns (o: Outcome)
      requires WellFormedSchema(schema) && StepsOf(args, kwargs, steps) && attrs == map[]
      modifies this
      ensures var c := Collect(schema.fields, steps, |schema.fields|);
              (o.Fail? <==> c.Err?) && (o.Fail? ==> o.error == c.error) && (o.Pass? ==> Holds(c.value))
    {
      var kw := kwargs;
      var key := 0;
      var i := 0;
      ghost var m: map<string, Stored> := map[];
      while i < |schema.fields|
        invariant Filled(args, kwargs, steps, kw, key, i, m)
      {
        o, kw, key, m := FillField(args, kwargs, steps, kw, key, i, m);
        if o.Fail? {
          return;
        }
        i := i + 1;
      }
      assert i == |schema.fields| && Collect(schema.fields, steps, i) == Ok(m);
      return Pass;
    }

    /** `cls(*args, **kwargs)`: in debug mode an abstract class is refused;
        then the fields are visited in `_fields` order; a keyword argument is
        popped, else the positional cursor advances, else the default is
        taken; debug mode passes each value through `field_cls.init` and
        stores the result, fast mode stores it raw. */
    static method Construct(rx: Regex, s: Schema, debug: bool, args: seq<Value>, kwargs: map<string, Value>)
      returns (r: Result<Node>)
      requires WellFormedSchema(s)
      ensures r.Err? <==> Construction(rx, s, debug, args, kwargs).Err?
      ensures r.Err? ==> r.error == Construction(rx, s, debug, args, kwargs).error
      ensures r.Ok? ==> fresh(r.value) && r.value.rx == rx && r.value.schema == s && r.value.debug == debug &&
                        r.value.Holds(Construction(rx, s, debug, args, kwargs).value)
    {
      var n := new Node.Blank(rx, s, debug);
      if debug && s.isAbstract {
        return Err(TypeError);
      }
      ghost var steps := Steps(rx, s, debug, args, kwargs);
      var o := n.Fill(args, kwargs, steps);
      if o.Fail? {
        return Err(o.error);
      }
      return Ok(n);
    }

    /** Setting attribute `name`: on a debug node a schema field's new value
        goes through `field_cls.init`, and a refused one leaves the old value;
        every other assignment stores the value as given. */
    method SetAttr(name: string, val: Value) returns (o: Outcome)
      requires WellFormedSchema(schema)
      modifies this
      ensures debug && name in schema.fields ==>
                var st := FieldInit(rx, val, Lookup(schema.guards, name).value);
                if st.Err? then o == Fail(st.error) && attrs == old(attrs)
                else o == Pass && attrs.Keys == old(attrs).Keys + {name} && SlotHolds(attrs[name], st.value) &&
                     (attrs[name].Typed? ==> fresh(attrs[name].l)) &&
                     forall k :: k in old(attrs) && k != name ==> attrs[k] == old(attrs)[k]
      ensures !(debug && name in schema.fields) ==> o == Pass && attrs == old(attrs)[name := Raw(val)]
    {
      if debug && name in schema.fields {
        var slot := InitField(rx, val, Lookup(schema.guards, name).value);
        if slot.Err? {
          return Fail(slot.error);
        }
        attrs := attrs[name := slot.value];
        return Pass;
      }
      attrs := attrs[name := Raw(val)];
      return Pass;
    }

    /** Deleting attribute `name`: a debug node refuses for a schema field;
        otherwise the attribute is removed, or an AttributeError raised when
        the instance does not have it. */
    method DelAttr(name: string) returns (o: Outcome)
      modifies this
      ensures debug && name in schema.fields ==> o == Fail(PlainException) && attrs == old(attrs)
      ensures !(debug && name in schema.fields) ==>
                if name in old(attrs) then o == Pass && attrs == old(attrs) - {name}
                else o == Fail(AttributeError) && attrs == old(attrs)
    {
      if debug && name in schema.fields {
        return Fail(PlainException);
      }
      if name !in attrs {
        return Fail(AttributeError);
      }
      attrs := attrs - {name};
      return Pass;
    }
  }
}
