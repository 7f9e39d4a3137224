/** The host-language values the schema layer inspects: the literals, classes,
    compiled patterns, containers and objects that can stand as a field value,
    as a member of a type constraint, or as an element of a typed container.
    Python's object model is reduced to what the checks of the schema layer
    observe: the class of a value, subclassing, equality, truthiness,
    `hasattr(v, '__iter__')`, iteration, `in` and `isinstance`. */
module Values {

  /** Classes. A user class carries its bases, so that subclass tests walk the
      hierarchy; every class is a subclass of `object`. */
  datatype ClassId =
    | ObjectClass
    | NoneClass
    | IntClass
    | StrClass
    | ListClass
    | TupleClass
    | TypeClass
    | NodeBaseClass   // the metaclass of node classes, a subclass of `type`
    | PatternClass    // the class of compiled regular expressions
    | UserClass(name: string, bases: seq<ClassId>)

  /** The root node class; every class derived from it has `NodeBase` as its class. */
  const NodeClass: ClassId := UserClass("Node", [ObjectClass])

  /** Values. A compiled pattern is known by its source text, a class object by
      the class it denotes, an instance of a user class by its identity and class.
      Python booleans and floats are not modelled. */
  datatype Value =
    | VNone
    | VInt(i: int)
    | VStr(s: string)
    | VList(elems: seq<Value>)
    | VTuple(elems: seq<Value>)
    | VPattern(source: string)
    | VClass(cls: ClassId)
    | VObj(oid: nat, cls: ClassId)

  /** The exceptions the schema layer raises or lets through. */
  datatype Error = TypeError | IndexError | ValueError | KeyError | AttributeError | PlainException

  datatype Result<T> = Ok(value: T) | Err(error: Error)

  datatype Option<T> = None | Some(value: T)

  /** Outcome of an operation that returns nothing (or whose return value is ignored). */
  datatype Outcome = Pass | Fail(error: Error)

  /** The regular-expression engine: `rx(source, s)` holds when the pattern
      compiled from `source` matches at the start of `s` (`pattern.match(s)`).
      It is a parameter because the engine is outside this model. */
  type Regex = (string, string) -> bool

  /** `issubclass(c, d)` */
  predicate IsSubclass(c: ClassId, d: ClassId)
    decreases c
  {
    c == d || d == ObjectClass ||
    match c
    case NodeBaseClass => d == TypeClass
    case UserClass(_, bases) => exists k :: 0 <= k < |bases| && IsSubclass(bases[k], d)
    case _ => false
  }

  /** `type(v)` */
  function ClassOf(v: Value): (c: ClassId)
    ensures v.VObj? ==> c == v.cls
    ensures v.VClass? ==> IsSubclass(c, TypeClass)
  {
    match v
    case VNone => NoneClass
    case VInt(_) => IntClass
    case VStr(_) => StrClass
    case VList(_) => ListClass
    case VTuple(_) => TupleClass
    case VPattern(_) => PatternClass
    case VClass(c) => if IsSubclass(c, NodeClass) then NodeBaseClass else TypeClass
    case VObj(_, c) => c
  }

  /** `isinstance(v, c)` for one class `c` */
  predicate IsInstance(v: Value, c: ClassId) {
    IsSubclass(ClassOf(v), c)
  }

  /** `bool(v)`: None, zero and empty strings and containers are false. */
  predicate Truthy(v: Value) {
    match v
    case VNone => false
    case VInt(i) => i != 0
    case VStr(s) => s != ""
    case VList(xs) => xs != []
    case VTuple(xs) => xs != []
    case _ => true
  }

  /** `hasattr(v, '__iter__')` under Python 3: strings, lists and tuples.
      Class objects and user objects are taken to have no `__iter__`. */
  predicate HasIter(v: Value) {
    v.VStr? || v.VList? || v.VTuple?
  }

  /** The one-character strings of `s`, as iterating over a string yields them. */
  function Chars(s: string): (r: seq<Value>)
    ensures |r| == |s|
    ensures forall k :: 0 <= k < |s| ==> r[k] == VStr([s[k]])
  {
    seq(|s|, k requires 0 <= k < |s| => VStr([s[k]]))
  }

  /** What `for x in v` yields, for an iterable `v`. */
  function Elements(v: Value): (r: seq<Value>)
    requires HasIter(v)
    ensures |r| == 0 <==> !Truthy(v)
  {
    match v
    case VStr(s) => Chars(s)
    case VList(xs) => xs
    case VTuple(xs) => xs
  }

  /** Iterating over `v`: a TypeError when `v` is not iterable. */
  function Iter(v: Value): (r: Result<seq<Value>>)
    ensures r.Ok? <==> HasIter(v)
    ensures r.Ok? ==> r.value == Elements(v)
  {
    if HasIter(v) then Ok(Elements(v)) else Err(TypeError)
  }

  /** The items a value stands for when a check is applied to
      `value if hasattr(value, '__iter__') else (value,)`. */
  function ItemsOrSelf(v: Value): (r: seq<Value>)
    ensures !HasIter(v) ==> r == [v]
    ensures HasIter(v) ==> r == Elements(v)
  {
    if HasIter(v) then Elements(v) else [v]
  }

  /** `hasattr(v, '__iter__')` under Python 2, where `str` has no `__iter__`:
      only lists and tuples. A string is still iterable there, through
      `__getitem__`, so `Elements` and `Iter` apply to it all the same. */
  predicate HasIterPy2(v: Value) {
    v.VList? || v.VTuple?
  }

  /** `value if hasattr(value, '__iter__') else (value,)` under Python 2: a
      string stands for itself, not for its characters. */
  function ItemsOrSelfPy2(v: Value): (r: seq<Value>)
    ensures !HasIterPy2(v) ==> r == [v]
    ensures HasIterPy2(v) ==> r == Elements(v)
  {
    if HasIterPy2(v) then Elements(v) else [v]
  }

  /** `hash(v)` succeeds: lists are unhashable, and so is a tuple holding one. */
  predicate Hashable(v: Value)
    decreases v
  {
    match v
    case VList(_) => false
    case VTuple(xs) => forall k :: 0 <= k < |xs| ==> Hashable(xs[k])
    case _ => true
  }

  /** `t` occurs in `s` as a contiguous substring. */
  predicate IsSubstring(t: string, s: string) {
    t <= s || (s != [] && IsSubstring(t, s[1..]))
  }

  /** `x in container`: substring test on a string, element equality on a list
      or tuple, a TypeError on anything else. */
  function Contains(container: Value, x: Value): (r: Result<bool>)
    ensures (container.VList? || container.VTuple?) ==> r == Ok(x in container.elems)
    ensures r.Err? <==> !HasIter(container) || (container.VStr? && !x.VStr?)
  {
    match container
    case VStr(s) => if x.VStr? then Ok(IsSubstring(x.s, s)) else Err(TypeError)
    case VList(xs) => Ok(x in xs)
    case VTuple(xs) => Ok(x in xs)
    case _ => Err(TypeError)
  }

  /** `isinstance(v, spec)`: `spec` is a class or a (possibly nested) tuple of
      them, scanned in order; the scan stops at the first class `v` belongs to,
      and a member that is neither a class nor a tuple raises a TypeError. */
  function Isinstance(v: Value, spec: Value): (r: Result<bool>)
    ensures r.Err? ==> r.error == TypeError
    decreases spec, 1
  {
    match spec
    case VClass(c) => Ok(IsInstance(v, c))
    case VTuple(xs) => IsinstanceOfAny(v, spec, 0)
    case _ => Err(TypeError)
  }

  /** The scan of `isinstance(v, spec)` over the members of the tuple `spec` from index `k`. */
  function IsinstanceOfAny(v: Value, spec: Value, k: nat): (r: Result<bool>)
    requires spec.VTuple?
    ensures r.Err? ==> r.error == TypeError
    decreases spec, 0, |spec.elems| - k
  {
    if k >= |spec.elems| then Ok(false)
    else
      match Isinstance(v, spec.elems[k])
      case Err(e) => Err(e)
      case Ok(true) => Ok(true)
      case Ok(false) => IsinstanceOfAny(v, spec, k + 1)
  }

  /** Over a tuple of classes `isinstance` holds exactly when `v` belongs to one of them. */
  lemma {:induction false} IsinstanceOfClasses(v: Value, spec: Value, k: nat)
    requires spec.VTuple? && k <= |spec.elems|
    requires forall j :: 0 <= j < |spec.elems| ==> spec.elems[j].VClass?
    ensures IsinstanceOfAny(v, spec, k) ==
            Ok(exists j :: k <= j < |spec.elems| && IsInstance(v, spec.elems[j].cls))
    decreases |spec.elems| - k
  {
    if k < |spec.elems| {
      IsinstanceOfClasses(v, spec, k + 1);
      if IsInstance(v, spec.elems[k].cls) {
      } else {
        var later := exists j :: k + 1 <= j < |spec.elems| && IsInstance(v, spec.elems[j].cls);
        assert (exists j :: k <= j < |spec.elems| && IsInstance(v, spec.elems[j].cls)) == later by {
          if later {
            var j :| k + 1 <= j < |spec.elems| && IsInstance(v, spec.elems[j].cls);
          }
        }
      }
    }
  }

  /** Python's scan order is observable: a non-class member met before a
      matching class makes `isinstance` raise, met after it does not. */
  lemma IsinstanceScanOrder()
    ensures Isinstance(VStr("x"), VTuple([VStr("a"), VClass(StrClass)])) == Err(TypeError)
    ensures Isinstance(VStr("x"), VTuple([VClass(StrClass), VStr("a")])) == Ok(true)
  {
    var bad := VTuple([VStr("a"), VClass(StrClass)]);
    assert IsinstanceOfAny(VStr("x"), bad, 0) == Err(TypeError);
    var good := VTuple([VClass(StrClass), VStr("a")]);
    assert IsInstance(VStr("x"), StrClass);
    assert IsinstanceOfAny(VStr("x"), good, 0) == Ok(true);
  }
}
