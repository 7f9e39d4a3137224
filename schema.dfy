/** pyast/node.py, `NodeBase.__new__`: the schema of a node class, composed
    when the class is declared from the schemas of its node bases and the
    field descriptors of its own body, ordered by declaration stamp. */
module Schemas {
  import opened Values
  import opened Fields

  /** An ordered dict from field names to guards, in insertion order. */
  type Guards = seq<(string, Guard)>

  /** A class attribute as the metaclass sees it: a guard record, something
      callable (a function or method), or any other value. */
  datatype Attr = Descriptor(g: Guard) | Callable | Data(v: Value)

  /** A base class: a node class (an instance of `NodeBase`), with its
      `_guards` when it has them, or any other class. */
  datatype BaseInfo = NodeBase(guards: Option<Guards>) | PlainBase

  /** What the metaclass attaches to a node class: `_guards`, `_fields` and `_abstract`. */
  datatype Schema = Schema(guards: Guards, fields: seq<string>, isAbstract: bool)

  /** The names of an ordered dict, in order. */
  function Names(d: Guards): (r: seq<string>)
    ensures |r| == |d| && forall i :: 0 <= i < |d| ==> r[i] == d[i].0
  {
    if d == [] then [] else [d[0].0] + Names(d[1..])
  }

  /** No name occurs twice, as in a dict. */
  predicate DistinctKeys(d: Guards) {
    forall i, j :: 0 <= i < j < |d| ==> d[i].0 != d[j].0
  }

  /** `d.get(k)` */
  function Lookup(d: Guards, k: string): (r: Option<Guard>)
    ensures r.Some? <==> k in Names(d)
    ensures r.Some? ==> (k, r.value) in d
  {
    if d == [] then None
    else if d[0].0 == k then Some(d[0].1)
    else Lookup(d[1..], k)
  }

  /** `d[k] = g`: an existing key keeps its place, a new one goes last. */
  function Put(d: Guards, k: string, g: Guard): (r: Guards)
    ensures |r| == if k in Names(d) then |d| else |d| + 1
  {
    if d == [] then [(k, g)]
    else if d[0].0 == k then [(k, g)] + d[1..]
    else [d[0]] + Put(d[1..], k, g)
  }

  /** After `d[k] = g`, `k` maps to `g` and every other key keeps its value. */
  lemma {:induction false} PutLookup(d: Guards, k: string, g: Guard, k': string)
    ensures Lookup(Put(d, k, g), k') == if k' == k then Some(g) else Lookup(d, k')
  {
    if d != [] && d[0].0 != k {
      PutLookup(d[1..], k, g, k');
    }
  }

  /** A key occurs in `d[k] = g` exactly when it is `k` or occurs in `d`. */
  lemma {:induction false} PutNames(d: Guards, k: string, g: Guard)
    ensures forall k' :: k' in Names(Put(d, k, g)) <==> k' == k || k' in Names(d)
  {
    if d != [] && d[0].0 != k {
      PutNames(d[1..], k, g);
      assert Names(d) == [d[0].0] + Names(d[1..]);
      assert Names(Put(d, k, g)) == [d[0].0] + Names(Put(d[1..], k, g));
    }
  }

  /** The tail of an ordered dict is one too, and does not name its head. */
  lemma DistinctTail(d: Guards)
    requires DistinctKeys(d) && d != []
    ensures DistinctKeys(d[1..]) && d[0].0 !in Names(d[1..])
  {
    forall i, j | 0 <= i < j < |d[1..]| ensures d[1..][i].0 != d[1..][j].0 {
      assert d[1..][i] == d[i + 1] && d[1..][j] == d[j + 1];
    }
    forall i | 0 <= i < |d[1..]| ensures Names(d[1..])[i] != d[0].0 {
      assert d[1..][i] == d[i + 1];
    }
  }

  /** `d[k] = g` keeps the names of an ordered dict distinct. */
  lemma {:induction false} PutDistinct(d: Guards, k: string, g: Guard)
    requires DistinctKeys(d)
    ensures DistinctKeys(Put(d, k, g))
  {
    if d != [] && d[0].0 != k {
      DistinctTail(d);
      PutDistinct(d[1..], k, g);
      PutNames(d[1..], k, g);
      var rest := Put(d[1..], k, g);
      forall i | 0 <= i < |rest| ensures rest[i].0 != d[0].0 {
        assert rest[i].0 == Names(rest)[i];
      }
      assert Put(d, k, g) == [d[0]] + rest;
    } else if d != [] {
      assert forall i :: 1 <= i < |d| ==> d[i].0 != d[0].0;
    }
  }

  /** `d.update(e)`: the entries of `e` put in order. */
  function UpdateAll(d: Guards, e: Guards): (r: Guards)
    decreases |e|
  {
    if e == [] then d else UpdateAll(Put(d, e[0].0, e[0].1), e[1..])
  }

  /** `d.update(e)` keeps the names of an ordered dict distinct. */
  lemma {:induction false} UpdateAllDistinct(d: Guards, e: Guards)
    requires DistinctKeys(d)
    ensures DistinctKeys(UpdateAll(d, e))
    decreases |e|
  {
    if e != [] {
      PutDistinct(d, e[0].0, e[0].1);
      UpdateAllDistinct(Put(d, e[0].0, e[0].1), e[1..]);
    }
  }

  /** After `d.update(e)` a key of `e` maps to its value there, and any other key keeps its value in `d`. */
  lemma {:induction false} UpdateAllLookup(d: Guards, e: Guards, k: string)
    requires DistinctKeys(e)
    ensures Lookup(UpdateAll(d, e), k) == if Lookup(e, k).Some? then Lookup(e, k) else Lookup(d, k)
    decreases |e|
  {
    if e != [] {
      assert DistinctKeys(e[1..]) by {
        forall i, j | 0 <= i < j < |e[1..]| ensures e[1..][i].0 != e[1..][j].0 {
          assert e[1..][i] == e[i + 1] && e[1..][j] == e[j + 1];
        }
      }
      UpdateAllLookup(Put(d, e[0].0, e[0].1), e[1..], k);
      PutLookup(d, e[0].0, e[0].1, k);
      if e[0].0 == k {
        assert Lookup(e[1..], k).None? by {
          forall i | 0 <= i < |e[1..]| ensures e[1..][i].0 != k {
            assert e[1..][i] == e[i + 1];
          }
        }
      }
    }
  }

  /** The guards a node base contributes: none when it has no `_guards`. */
  function BaseGuards(b: BaseInfo): Guards {
    if b.NodeBase? && b.guards.Some? then b.guards.value else []
  }

  /** A base's guards come from a class built by the metaclass, so they have distinct names. */
  predicate WellFormedBases(bases: seq<BaseInfo>) {
    forall i :: 0 <= i < |bases| ==> DistinctKeys(BaseGuards(bases[i]))
  }

  /** The guards gathered from the bases, in base order, by `guards.update(base._guards)`. */
  function MergeBases(bases: seq<BaseInfo>): Guards {
    if bases == [] then []
    else UpdateAll(MergeBases(bases[..|bases| - 1]), BaseGuards(bases[|bases| - 1]))
  }

  /** The merged guards have distinct names. */
  lemma {:induction false} MergeBasesDistinct(bases: seq<BaseInfo>)
    ensures DistinctKeys(MergeBases(bases))
  {
    if bases != [] {
      MergeBasesDistinct(bases[..|bases| - 1]);
      UpdateAllDistinct(MergeBases(bases[..|bases| - 1]), BaseGuards(bases[|bases| - 1]));
    }
  }

  /** The guard for `k` of the last base that has one. */
  function FromBases(bases: seq<BaseInfo>, k: string): Option<Guard> {
    if bases == [] then None
    else
      var g := Lookup(BaseGuards(bases[|bases| - 1]), k);
      if g.Some? then g else FromBases(bases[..|bases| - 1], k)
  }

  /** Merging the bases in order lets a later base override an earlier one. */
  lemma {:induction false} MergeBasesLookup(bases: seq<BaseInfo>, k: string)
    requires WellFormedBases(bases)
    ensures Lookup(MergeBases(bases), k) == FromBases(bases, k)
  {
    if bases != [] {
      var init := bases[..|bases| - 1];
      assert WellFormedBases(init) by {
        forall i | 0 <= i < |init| ensures DistinctKeys(BaseGuards(init[i])) {
          assert init[i] == bases[i];
        }
      }
      MergeBasesLookup(init, k);
      UpdateAllLookup(MergeBases(init), BaseGuards(bases[|bases| - 1]), k);
    }
  }

  /** A name the metaclass skips: private (`_`-prefixed) or callable; a class
      object is callable too. */
  predicate Skipped(name: string, a: Attr) {
    (|name| > 0 && name[0] == '_') || a.Callable? || (a.Data? && a.v.VClass?)
  }

  /** A member a field may constrain by: a class, a string or a pattern. */
  predicate AllowedMember(m: Value) {
    m.VClass? || m.VStr? || m.VPattern?
  }

  /** The checks of one declared attribute that is not skipped: it must be a
      guard record (indexing anything else raises a TypeError), of a basefield
      class, whose types are all classes, strings or patterns. */
  function CheckDeclaration(a: Attr): (r: Result<Guard>)
    ensures r.Ok? <==> a.Descriptor? && IsBasefield(a.g.fieldCls) && HasIter(a.g.types) &&
                       forall i :: 0 <= i < |Elements(a.g.types)| ==> AllowedMember(Elements(a.g.types)[i])
    ensures r.Ok? ==> r.value == a.g
    ensures r.Err? ==> r.error == TypeError
  {
    match a
    case Descriptor(g) =>
      if !IsBasefield(g.fieldCls) then Err(TypeError)
      else if !HasIter(g.types) then Err(TypeError)
      else if forall i :: 0 <= i < |Elements(g.types)| ==> AllowedMember(Elements(g.types)[i]) then Ok(g)
      else Err(TypeError)
    case _ => Err(TypeError)
  }

  /** The class body, in order, with distinct names. */
  type Body = seq<(string, Attr)>

  /** The own declarations put over the inherited guards, in body order; the
      first bad declaration raises. */
  function AddOwn(d: Guards, body: Body): (r: Result<Guards>)
    ensures r.Err? ==> r.error == TypeError
    decreases |body|
  {
    if body == [] then Ok(d)
    else
      var (name, a) := body[0];
      if Skipped(name, a) then AddOwn(d, body[1..])
      else match CheckDeclaration(a)
        case Err(e) => Err(e)
        case Ok(g) => AddOwn(Put(d, name, g), body[1..])
  }

  /** The own declaration of `k`, when the body declares it as a field. */
  function OwnGuard(body: Body, k: string): Option<Guard> {
    if body == [] then None
    else if body[0].0 == k && !Skipped(body[0].0, body[0].1) && CheckDeclaration(body[0].1).Ok?
    then Some(body[0].1.g)
    else OwnGuard(body[1..], k)
  }

  /** A body's names are distinct. */
  predicate DistinctNames(body: Body) {
    forall i, j :: 0 <= i < j < |body| ==> body[i].0 != body[j].0
  }

  /** The own declarations override what was inherited. */
  lemma {:induction false} AddOwnLookup(d: Guards, body: Body, k: string)
    requires DistinctNames(body) && AddOwn(d, body).Ok?
    ensures Lookup(AddOwn(d, body).value, k) == if OwnGuard(body, k).Some? then OwnGuard(body, k) else Lookup(d, k)
    decreases |body|
  {
    if body != [] {
      assert DistinctNames(body[1..]) by {
        forall i, j | 0 <= i < j < |body[1..]| ensures body[1..][i].0 != body[1..][j].0 {
          assert body[1..][i] == body[i + 1] && body[1..][j] == body[j + 1];
        }
      }
      var (name, a) := body[0];
      if Skipped(name, a) {
        AddOwnLookup(d, body[1..], k);
      } else {
        AddOwnLookup(Put(d, name, a.g), body[1..], k);
        PutLookup(d, name, a.g, k);
        if name == k {
          assert OwnGuard(body[1..], k).None? by {
            OwnGuardAbsent(body[1..], k);
          }
        }
      }
    }
  }

  /** A name that does not occur in the body has no own declaration. */
  lemma {:induction false} OwnGuardAbsent(body: Body, k: string)
    requires forall i :: 0 <= i < |body| ==> body[i].0 != k
    ensures OwnGuard(body, k).None?
    decreases |body|
  {
    if body != [] {
      OwnGuardAbsent(body[1..], k);
    }
  }

  /** A declaration the metaclass refuses makes the whole class declaration raise. */
  lemma {:induction false} AddOwnRefuses(d: Guards, body: Body, i: nat)
    requires i < |body| && !Skipped(body[i].0, body[i].1) && CheckDeclaration(body[i].1).Err?
    ensures AddOwn(d, body) == Err(TypeError)
    decreases |body|
  {
    if i > 0 {
      var (name, a) := body[0];
      assert body[1..][i - 1] == body[i];
      if Skipped(name, a) {
        AddOwnRefuses(d, body[1..], i - 1);
      } else if CheckDeclaration(a).Ok? {
        AddOwnRefuses(Put(d, name, a.g), body[1..], i - 1);
      }
    }
  }

  /** Counters never decrease along the sequence. */
  predicate SortedByCounter(d: Guards) {
    forall i, j :: 0 <= i < j < |d| ==> d[i].1.counter <= d[j].1.counter
  }

  /** Insert `e` before the first entry whose counter is not smaller, so that
      entries with equal counters keep their relative order. */
  function InsertByCounter(e: (string, Guard), d: Guards): (r: Guards)
    ensures |r| == |d| + 1
  {
    if d == [] || e.1.counter <= d[0].1.counter then [e] + d
    else [d[0]] + InsertByCounter(e, d[1..])
  }

  /** `sorted(d.items(), key=counter)`: a stable insertion sort. */
  function SortByCounter(d: Guards): (r: Guards)
    ensures |r| == |d|
  {
    if d == [] then []
    else InsertByCounter(d[0], SortByCounter(d[1..]))
  }

  /** Inserting adds exactly the one entry. */
  lemma {:induction false} InsertByCounterPermutes(e: (string, Guard), d: Guards)
    ensures multiset(InsertByCounter(e, d)) == multiset(d) + multiset{e}
    decreases |d|
  {
    if d != [] && e.1.counter > d[0].1.counter {
      InsertByCounterPermutes(e, d[1..]);
      assert d == [d[0]] + d[1..];
    }
  }

  /** Sorting is a permutation of the entries. */
  lemma {:induction false} SortByCounterPermutes(d: Guards)
    ensures multiset(SortByCounter(d)) == multiset(d)
  {
    if d != [] {
      SortByCounterPermutes(d[1..]);
      InsertByCounterPermutes(d[0], SortByCounter(d[1..]));
      assert d == [d[0]] + d[1..];
    }
  }

  /** The first entry of an insertion is either the inserted one or the old first. */
  lemma InsertByCounterHead(e: (string, Guard), d: Guards)
    ensures InsertByCounter(e, d)[0] == e || (d != [] && InsertByCounter(e, d)[0] == d[0])
  {
  }

  /** Inserting an entry whose counter is at least `lo` among entries whose
      counters are at least `lo` gives entries whose counters are at least `lo`. */
  lemma {:induction false} InsertByCounterBound(e: (string, Guard), d: Guards, lo: nat)
    requires lo <= e.1.counter && forall k :: 0 <= k < |d| ==> lo <= d[k].1.counter
    ensures forall k :: 0 <= k < |InsertByCounter(e, d)| ==> lo <= InsertByCounter(e, d)[k].1.counter
    decreases |d|
  {
    if d != [] && e.1.counter > d[0].1.counter {
      assert forall k :: 0 <= k < |d[1..]| ==> d[1..][k] == d[k + 1];
      InsertByCounterBound(e, d[1..], lo);
    }
  }

  /** Inserting into a sorted sequence keeps it sorted. */
  lemma {:induction false} InsertByCounterSorted(e: (string, Guard), d: Guards)
    requires SortedByCounter(d)
    ensures SortedByCounter(InsertByCounter(e, d))
    decreases |d|
  {
    if d != [] && e.1.counter > d[0].1.counter {
      var rest := InsertByCounter(e, d[1..]);
      assert SortedByCounter(d[1..]) by {
        forall i, j | 0 <= i < j < |d[1..]| ensures d[1..][i].1.counter <= d[1..][j].1.counter {
          assert d[1..][i] == d[i + 1] && d[1..][j] == d[j + 1];
        }
      }
      InsertByCounterSorted(e, d[1..]);
      assert forall k :: 0 <= k < |d[1..]| ==> d[0].1.counter <= d[1..][k].1.counter by {
        forall k | 0 <= k < |d[1..]| ensures d[0].1.counter <= d[1..][k].1.counter {
          assert d[1..][k] == d[k + 1];
        }
      }
      InsertByCounterBound(e, d[1..], d[0].1.counter);
      var r := [d[0]] + rest;
      assert InsertByCounter(e, d) == r;
      forall i, j | 0 <= i < j < |r| ensures r[i].1.counter <= r[j].1.counter {
        if i == 0 {
          assert r[j] == rest[j - 1];
        } else {
          assert r[i] == rest[i - 1] && r[j] == rest[j - 1];
        }
      }
    }
  }

  /** The sort returns its input ordered by counter. */
  lemma {:induction false} SortByCounterSorted(d: Guards)
    ensures SortedByCounter(SortByCounter(d))
  {
    if d != [] {
      SortByCounterSorted(d[1..]);
      InsertByCounterSorted(d[0], SortByCounter(d[1..]));
    }
  }

  /** `'_abstract' in attrs`, and then its truth value; a guard record or a
      function counts as true. */
  function AbstractFlag(body: Body): bool {
    if body == [] then false
    else if body[0].0 == "_abstract" then (match body[0].1 case Data(v) => Truthy(v) case _ => true)
    else AbstractFlag(body[1..])
  }

  /** A class not declaring `_abstract` in its own body is concrete, whatever its bases say. */
  lemma {:induction false} AbstractNotInherited(body: Body)
    requires forall i :: 0 <= i < |body| ==> body[i].0 != "_abstract"
    ensures !AbstractFlag(body)
    decreases |body|
  {
    if body != [] {
      AbstractNotInherited(body[1..]);
    }
  }

  /** Some base is a node class. */
  predicate HasNodeParent(bases: seq<BaseInfo>) {
    exists i :: 0 <= i < |bases| && bases[i].NodeBase?
  }

  /** `NodeBase.__new__(name, bases, attrs)`: a class with no node base is
      created as it is (no schema); otherwise the bases' guards are merged,
      the own declarations checked and put over them, the field names listed
      by ascending counter, and `_abstract` taken from the body. */
  function ComposeSchema(bases: seq<BaseInfo>, body: Body): (r: Result<Option<Schema>>)
    ensures !HasNodeParent(bases) ==> r == Ok(None)
    ensures r.Ok? && HasNodeParent(bases) ==> r.value.Some?
    ensures r.Err? ==> r.error == TypeError
  {
    if !HasNodeParent(bases) then Ok(None)
    else match AddOwn(MergeBases(bases), body)
      case Err(e) => Err(e)
      case Ok(guards) =>
        Ok(Some(Schema(guards, Names(SortByCounter(guards)), AbstractFlag(body))))
  }

  /** A field's guard is its own declaration if the body has one, otherwise
      that of the last base declaring it. */
  lemma ComposeSchemaLookup(bases: seq<BaseInfo>, body: Body, k: string)
    requires WellFormedBases(bases) && DistinctNames(body)
    requires ComposeSchema(bases, body).Ok? && ComposeSchema(bases, body).value.Some?
    ensures var s := ComposeSchema(bases, body).value.value;
            Lookup(s.guards, k) == if OwnGuard(body, k).Some? then OwnGuard(body, k) else FromBases(bases, k)
  {
    AddOwnLookup(MergeBases(bases), body, k);
    MergeBasesLookup(bases, k);
  }

  /** Adding the own declarations keeps the names distinct. */
  lemma {:induction false} AddOwnDistinct(d: Guards, body: Body)
    requires DistinctKeys(d) && AddOwn(d, body).Ok?
    ensures DistinctKeys(AddOwn(d, body).value)
    decreases |body|
  {
    if body != [] {
      var (name, a) := body[0];
      if Skipped(name, a) {
        AddOwnDistinct(d, body[1..]);
      } else {
        PutDistinct(d, name, a.g);
        AddOwnDistinct(Put(d, name, a.g), body[1..]);
      }
    }
  }

  /** A composed schema names each field once, so `_fields` has no repeats. */
  lemma ComposeSchemaDistinct(bases: seq<BaseInfo>, body: Body)
    requires ComposeSchema(bases, body).Ok? && ComposeSchema(bases, body).value.Some?
    ensures var s := ComposeSchema(bases, body).value.value;
            DistinctKeys(s.guards) && multiset(s.fields) == multiset(Names(s.guards))
  {
    MergeBasesDistinct(bases);
    AddOwnDistinct(MergeBases(bases), body);
    var s := ComposeSchema(bases, body).value.value;
    SortByCounterNames(s.guards);
  }

  /** `_fields` lists every guard name once, in ascending counter order. */
  lemma ComposeSchemaFields(bases: seq<BaseInfo>, body: Body)
    requires ComposeSchema(bases, body).Ok? && ComposeSchema(bases, body).value.Some?
    ensures var s := ComposeSchema(bases, body).value.value;
            multiset(s.fields) == multiset(Names(s.guards)) &&
            exists sorted: Guards :: SortedByCounter(sorted) && multiset(sorted) == multiset(s.guards) &&
                                     s.fields == Names(sorted)
  {
    var s := ComposeSchema(bases, body).value.value;
    var sorted := SortByCounter(s.guards);
    SortByCounterSorted(s.guards);
    SortByCounterPermutes(s.guards);
    SortByCounterNames(s.guards);
  }

  /** Inserting an entry adds its name to the names. */
  lemma {:induction false} InsertByCounterNames(e: (string, Guard), d: Guards)
    ensures multiset(Names(InsertByCounter(e, d))) == multiset(Names(d)) + multiset{e.0}
    decreases |d|
  {
    if d == [] || e.1.counter <= d[0].1.counter {
      NamesCons(e, d);
    } else {
      InsertByCounterNames(e, d[1..]);
      InsertPastHeadNames(e, d);
    }
  }

  /** An entry inserted past the head adds its name to the names, when it
      does so for the tail. */
  lemma InsertPastHeadNames(e: (string, Guard), d: Guards)
    requires d != [] && e.1.counter > d[0].1.counter
    requires multiset(Names(InsertByCounter(e, d[1..]))) == multiset(Names(d[1..])) + multiset{e.0}
    ensures multiset(Names(InsertByCounter(e, d))) == multiset(Names(d)) + multiset{e.0}
  {
    NamesCons(d[0], InsertByCounter(e, d[1..]));
    NamesHead(d);
  }

  /** The names of a non-empty dictionary: its first name and the rest. */
  lemma NamesHead(d: Guards)
    requires d != []
    ensures multiset(Names(d)) == multiset{d[0].0} + multiset(Names(d[1..]))
  {
    assert Names(d) == [d[0].0] + Names(d[1..]);
  }

  /** The names of a dictionary with one more entry in front. */
  lemma NamesCons(x: (string, Guard), d: Guards)
    ensures multiset(Names([x] + d)) == multiset{x.0} + multiset(Names(d))
  {
    NamesConcat([x], d);
    assert Names([x]) == [x.0];
  }

  /** Sorting keeps the names, each as often as before. */
  lemma {:induction false} SortByCounterNames(d: Guards)
    ensures multiset(Names(SortByCounter(d))) == multiset(Names(d))
  {
    if d != [] {
      var rest := SortByCounter(d[1..]);
      SortByCounterNames(d[1..]);
      InsertByCounterNames(d[0], rest);
      assert SortByCounter(d) == InsertByCounter(d[0], rest);
      assert Names(d) == [d[0].0] + Names(d[1..]);
      assert multiset(Names(d)) == multiset{d[0].0} + multiset(Names(d[1..]));
    }
  }

  /** Names distribute over concatenation. */
  lemma NamesConcat(a: Guards, b: Guards)
    ensures Names(a + b) == Names(a) + Names(b)
  {
    assert forall i :: 0 <= i < |a + b| ==> (a + b)[i].0 == (Names(a) + Names(b))[i];
  }
}
