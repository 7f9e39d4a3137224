# pyast schema layer, modelled in Dafny

pyast builds abstract syntax trees out of declarative node classes. A node
class lists its fields with the factories `field(types, null, default)` and
`seq(types, null, default)`. A metaclass collects these declarations into the
class's `_guards` and `_fields`, ordered by a declaration counter. A node
instance binds its constructor arguments to those fields. In debug mode it
checks each value against the field's constraint, and later assignments are
checked too. Sequence fields hold a `TypedList`, which checks every element it
is given and refuses removals that would empty a non-nullable list.
`TypedDict` does the same for dict values.

The Dafny project models each source file as its own module:

| module | file | source |
|---|---|---|
| `Values` | values.dfy | the Python values the layer inspects: `type`, `isinstance`, `in`, truthiness, iteration |
| `Matcher` | matcher.dfy | the checker selection and checks shared by pyast/typedlist.py and pyast/typeddict.py |
| `Slices` | slices.dfy | Python's list indexing and `slice.indices`, used by the list guards |
| `TypedLists` | typedlist.dfy | pyast/typedlist.py, as the class `TypedList` |
| `TypedDicts` | typeddict.dfy | pyast/typeddict.py, as the class `TypedDict` |
| `Fields` | field.dfy | pyast/field.py: the guard record, the shared counter (class `Registry`), `init` and `_validate_set` |
| `Schemas` | schema.dfy | `NodeBase.__new__` of pyast/node.py: merging, checking and ordering the guards |
| `Nodes` | node.dfy | `Node` of pyast/node.py, as the class `Node`: binding, debug checks, the attribute hooks |
| `Snapshot` | snapshot.dfy | pyast/__init__.py, the earlier single-module version, with its own `SnapList` and `SnapNode` classes |

Typed containers, the declaration counter and node instances are Dafny
classes, and their methods change their fields in place. Each method's
contract ties the new state to a specification function. That function's
properties are proved as lemmas: round trips, what a guard refuses, and the
order of fields. Checks that the source runs as loops are methods with loop
invariants: `Matcher.EnforceMixed`, `TypedDicts.TypedDict.StoreAll`,
`Nodes.Node.Fill`, `Snapshot.EnforceAll` and `Snapshot.SnapNode.Fill`.

The two versions are read under different Python dialects, each the one it
runs under. pyast/typedlist.py, pyast/typeddict.py, pyast/field.py and
pyast/node.py carry shims for Python 2 and 3, and are modelled with Python 3's
`hasattr(v, '__iter__')`, which holds for strings (`Values.HasIter`). The
earlier version in pyast/__init__.py relies on `__metaclass__`, which only
Python 2 honours. It is modelled under Python 2, where a string has no
`__iter__` but can still be iterated (`Values.HasIterPy2`). "## Left out"
lists what each choice costs.

The checkers report the exception the source raises, not just a refusal.
Under a mixed constraint whose members are not all patterns, the pattern
checker calls `match` on a string or integer member and raises an
AttributeError (`Matcher.PatternItemUnderLiteralsRaises`). Every other
refusal is a TypeError.

Where the repository's prose and its code differ, the model follows the code:
- The prose says every element of a typed container satisfies the constraint.
  The code checks the items of an iterable value but stores the value itself
  (`TypedLists.IndexAssignStoresWholeValue`). The earlier version checks a
  string whole and then adds its characters (`Snapshot.StringExtendStoresCharacters`).
- The prose says a non-nullable container is never emptied by a removal. The
  code's guards let `del l[::-1]` and `l[:] = []` through
  (`TypedLists.ReverseDeleteEmpties`, `TypedLists.EmptySliceAssignEmpties`).
- The prose says construction always validates and that deleting a schema
  field always fails. In the code, fast mode stores the raw values
  (`Nodes.FastModeStoresRaw`) and lets fields be deleted (`Nodes.Node.DelAttr`).

## Model

| member | source | states |
|---|---|---|
| Values.IsinstanceOfClasses | pyast/typedlist.py:77-81 | over a tuple of classes, `isinstance` holds exactly when the value belongs to one of them |
| Values.IsinstanceScanOrder | pyast/typedlist.py:77-81 | the scan order shows: a non-class member before a matching class raises, one after it does not |
| Matcher.NormaliseTypes | pyast/typedlist.py:32-35 | a lone string or non-iterable constraint becomes a one-element tuple; a list or tuple is kept as given |
| Matcher.PatternScan | pyast/typedlist.py:83-87 | the `any(j.match(i) ...)` scan raises only TypeError or AttributeError, and an AttributeError only when some member is not a compiled pattern |
| Matcher.FirstFailure | pyast/typedlist.py:71-87 | the in-order scan finds no failure exactly when every item passes its checker, and any failure it reports is a TypeError or an AttributeError |
| Matcher.EnforceOutcome | pyast/typedlist.py:39-87 | a batch passes exactly when every item is accepted; a failure is a TypeError or an AttributeError |
| Matcher.AttributeErrorSource | pyast/typedlist.py:61-87 | an AttributeError needs an item judged by the pattern checker and a member that is not a compiled pattern |
| Matcher.PatternItemUnderLiteralsRaises | pyast/typedlist.py:61-87 | a compiled pattern checked against `("a", 1)` makes the check raise AttributeError, in a list and in a dict |
| Matcher.Enforce | pyast/typedlist.py:39-43 | the chosen enforcement method passes a batch exactly when every item is accepted, and otherwise raises the exception `EnforceOutcome` names |
| Matcher.EnforceMixed | pyast/typedlist.py:61-69 | the mixed check stops at the first item that raises in the checker its own class selects and raises that item's exception; otherwise it passes exactly when every returned value is truthy |
| Matcher.SelectModeByTypeSet | pyast/typedlist.py:36-43 | a single checker is used exactly when the members' classes form a one-element set, and it is the one that class selects |
| Matcher.AcceptsConcat | pyast/typedlist.py:97-99 | a batch is accepted exactly when each of its parts is |
| Matcher.LiteralMembers | pyast/typedlist.py:71-75 | over all-string or all-integer members, an item is accepted exactly when it equals a member |
| Matcher.ClassMembers | pyast/typedlist.py:77-81 | over classes of one metaclass, an item is accepted exactly when it is an instance of one of them |
| Matcher.ClassMembersMode | pyast/typedlist.py:53-59 | classes of one metaclass select the `isinstance` checker |
| Matcher.ClassTupleScan | pyast/typedlist.py:77-81 | over a tuple of classes, the `isinstance` scan holds exactly when the item belongs to one of them |
| Matcher.PatternScanOverPatterns | pyast/typedlist.py:83-87 | over patterns only, the scan raises no AttributeError: a string passes exactly when some pattern matches at its start, and any other item raises TypeError |
| Matcher.PatternMembers | pyast/typedlist.py:83-87 | over patterns, an item is accepted exactly when it is a string some pattern matches |
| Matcher.MixedPerItem | pyast/typedlist.py:61-69 | with a mixed constraint, a string must equal a member, while an object of a class unrelated to `str`, `int` and patterns only needs `isinstance` over the constraint |
| Matcher.MixedRefusesInstanceOfBuiltin | pyast/typedlist.py:36-43 | `(str, NodeClass)` is mixed, so a string that is an instance of `str` is still refused |
| Matcher.DictMixedOnlyLiterals | pyast/typeddict.py:58-66 | in a dict's mixed mode, only items that are literally members pass, because the class and pattern checkers return None |
| Matcher.DictNoLooserThanList | pyast/typeddict.py:68-84 | in every mode a dict accepts no more than a list over the same constraint |
| TypedLists.InitContents | pyast/typedlist.py:44-47 | the initial contents are empty exactly when `init` is falsy; a refusal is a TypeError or, from a pattern check, an AttributeError |
| TypedLists.InitEmpty | pyast/typedlist.py:44-47 | a falsy `init` is refused exactly when the list is not nullable |
| TypedLists.InitAllOrNothing | pyast/typedlist.py:44-45 | a truthy `init` yields all of its items exactly when every one is accepted, and raises otherwise, a TypeError when it is not iterable: no partial list is built |
| TypedLists.InitPatternUnderLiterals | pyast/typedlist.py:44-87 | `TypedList(("a", 1), [re.compile("x")])` raises AttributeError |
| TypedLists.InitAgain | pyast/typedlist.py:30-47 | rebuilding from the contents just built succeeds with the same contents |
| TypedLists.DeleteItem | pyast/typedlist.py:106-114 | a non-nullable list of length one refuses any index; an accepted deletion is the built-in one |
| TypedLists.SliceDeleteGuard | pyast/typedlist.py:106-114 | a slice deletion is refused exactly when its normalised stop minus start reaches the length |
| TypedLists.PositiveStepDeleteKeepsOne | pyast/typedlist.py:106-114 | a positive-step slice deletion that the guard lets through never empties the list |
| TypedLists.ReverseDeleteEmpties | pyast/typedlist.py:106-114 | `del l[::-1]` is never refused, so it empties even a non-nullable list |
| TypedLists.UnitSliceDeleteCutsRun | pyast/typedlist.py:106-114 | a unit-step slice deletion cuts exactly the run [start, stop) out of the list |
| TypedLists.ExtendedSliceAssign | pyast/typedlist.py:116-118 | an extended-slice assignment puts the k-th item at the k-th position of the slice and leaves the other elements alone |
| TypedLists.IndexAssignStoresWholeValue | pyast/typedlist.py:116-118 | index assignment checks the items of a list but stores the list itself, so the element invariant is not kept |
| TypedLists.EmptySliceAssignEmpties | pyast/typedlist.py:116-118 | `l[:] = []` passes the check and empties the list |
| TypedLists.DelSliceGuardExact | pyast/typedlist.py:124-128 | for non-negative bounds, the guard refuses exactly the deletions that would remove every element |
| TypedLists.TypedList.New | pyast/typedlist.py:30-47 | the new list holds `InitContents`, with the constraint normalised and the mode chosen from it, or raises exactly the error `InitContents` gives |
| TypedLists.TypedList.Append | pyast/typedlist.py:89-91 | the item is added at the end exactly when it is accepted; a refusal raises what the check raises and leaves the list unchanged |
| TypedLists.TypedList.Insert | pyast/typedlist.py:93-95 | an accepted item is put at the clamped position; a refusal raises what the check raises and changes nothing |
| TypedLists.TypedList.Extend | pyast/typedlist.py:97-99 | all the items are appended exactly when the value is iterable and every item is accepted; otherwise the check's exception, or TypeError for a non-iterable, and nothing changes |
| TypedLists.TypedList.Pop | pyast/typedlist.py:101-104 | refused at length one when non-nullable; otherwise it removes and returns the element at the normalised index, or raises IndexError |
| TypedLists.TypedList.DelItem | pyast/typedlist.py:106-114 | the new contents are `DeleteItem` of the old, or nothing changes and its error is raised |
| TypedLists.TypedList.SetItem | pyast/typedlist.py:116-118 | the items of the value are checked first, and a refusal raises the check's exception with nothing changed; then the built-in assignment runs |
| TypedLists.TypedList.SetSlice | pyast/typedlist.py:120-122 | the clamped run is replaced by the items exactly when the value is iterable and every item is accepted; otherwise the check's exception and nothing changes |
| TypedLists.TypedList.DelSlice | pyast/typedlist.py:124-128 | refused when the normalised bounds span the length; otherwise the clamped run is cut out |
| TypedDicts.MapOfSnoc | pyast/typeddict.py:44-46 | storing one more pair updates the dict built so far, a later key overriding an earlier one |
| TypedDicts.MapOfKeysHashable | pyast/typeddict.py:96-98 | a dict built from hashable keys holds only hashable keys |
| TypedDicts.ValuesAcceptedPrefix | pyast/typeddict.py:44-46 | if all values are accepted, so are the values of every prefix |
| TypedDicts.ValuesAcceptedSnoc | pyast/typeddict.py:44-46 | a prefix one longer is accepted exactly when the shorter one and the new value are |
| TypedDicts.FirstRefusal | pyast/typeddict.py:44-98 | the scan over the pairs finds no refusal exactly when every value is accepted, and a refusal is a TypeError or an AttributeError |
| TypedDicts.FirstRefusalAt | pyast/typeddict.py:44-46 | the refusal the scan reports is the exception raised for a pair whose value the check refuses, every pair before it having been accepted |
| TypedDicts.DictInitContents | pyast/typeddict.py:30-48 | the initial dict is empty exactly when `init` is falsy, and never empty when non-nullable; a refusal is a TypeError or an AttributeError |
| TypedDicts.DictInitEmpty | pyast/typeddict.py:44-48 | a falsy `init` is refused exactly when the dict is not nullable |
| TypedDicts.DictInitChecksValuesOnly | pyast/typeddict.py:44-46 | a truthy dict is taken whole exactly when every value is accepted, and keys are never checked; otherwise it raises what the check raises for the first refused value |
| TypedDicts.DictInitPatternUnderLiterals | pyast/typeddict.py:44-84 | `TypedDict(("a", 1), {"k": re.compile("x")})` raises AttributeError |
| TypedDicts.TypedDict.New | pyast/typeddict.py:30-48 | the new dict holds `DictInitContents` and is valid, or raises exactly the error `DictInitContents` gives |
| TypedDicts.TypedDict.StoreAll | pyast/typeddict.py:45-46 | the loop stores every pair exactly when every value is accepted, and otherwise stops with the first refusal's exception |
| TypedDicts.TypedDict.SetItem | pyast/typeddict.py:96-98 | a value is stored under the key exactly when its items are accepted and the key is hashable; a refused value raises the check's exception with nothing changed; validity is kept |
| TypedDicts.TypedDict.Pop | pyast/typeddict.py:86-89 | refused at one entry when non-nullable, even for an absent key; otherwise it removes and returns the value, or returns the default; validity is kept |
| TypedDicts.TypedDict.DelItem | pyast/typeddict.py:91-94 | the same guard as `pop`, then KeyError for an absent key; validity is kept |
| TypedDicts.RemoveKeepsOne | pyast/typeddict.py:91-94 | removing one key from a dict of several entries leaves it non-empty |
| Fields.First | pyast/field.py:40-41 | `types[0]` succeeds exactly on a non-empty list, tuple or string; otherwise IndexError or TypeError |
| Fields.MakeGuard | pyast/field.py:35-46 | the record carries the counter stamp, the factory class and the nullability |
| Fields.MakeGuardWraps | pyast/field.py:37-41 | a lone class or string becomes a one-element tuple; the guard type is `'str'` exactly for a string |
| Fields.MakeGuardKeepsSequence | pyast/field.py:37-41 | a list or tuple is kept; an empty one raises IndexError; the guard type follows the first member |
| Fields.MakeGuardRefusesScalar | pyast/field.py:37-41 | a constraint that is not iterable and not a class raises TypeError |
| Fields.MakeGuardDefault | pyast/field.py:45-46 | a `seq` without a default gets `[]`; every other default is kept as given |
| Fields.Registry.Declare | pyast/field.py:35-36 | the counter goes up by one before the record is built, even for a declaration that raises |
| Fields.Registry.DeclareTwo | pyast/field.py:35-36 | of two declarations in a row, the later one carries the larger stamp |
| Fields.StrFieldAgreesWithList | pyast/field.py:66-79 | for a non-None value, a `'str'` field accepts exactly what a typed list over the same literals accepts |
| Fields.ClassFieldAgreesWithList | pyast/field.py:66-79 | for a non-None value, a `'class'` field accepts exactly what a typed list over the same classes accepts |
| Fields.ClassFieldAccepts | pyast/field.py:66-79 | a `'class'` field accepts a non-None value exactly when it is an instance of one of the classes |
| Fields.SeqValidateIgnoresGuardType | pyast/field.py:100-108 | `seq._validate_set` always uses `isinstance`, so with string members it refuses every non-empty iterable |
| Fields.FieldInit | pyast/field.py:60-98 | `field.init` succeeds exactly when the value validates and then returns it, else TypeError; `seq.init` succeeds or fails as `InitContents` does, with its items, error and the guard's nullability |
| Fields.FieldInitNonEmpty | pyast/field.py:94-98 | a non-nullable `seq` field is never empty, and a non-nullable `field` is never None |
| Fields.FieldInitAgain | pyast/node.py:85-90 | running `init` again on what it produced accepts it and produces the same thing |
| Fields.InitField | pyast/field.py:94-98 | the slot holds what `FieldInit` specifies; a `seq` gets a freshly allocated typed list |
| Schemas.PutLookup | pyast/node.py:26 | after `guards[k] = v`, `k` maps to `v` and every other key keeps its value |
| Schemas.PutDistinct | pyast/node.py:26 | `guards[k] = v` keeps the names distinct |
| Schemas.UpdateAllLookup | pyast/node.py:14-16 | after `guards.update(e)`, the keys of `e` take its values and other keys keep theirs |
| Schemas.MergeBasesLookup | pyast/node.py:13-16 | merging the bases in order gives each name the guard of the last base declaring it |
| Schemas.MergeBasesDistinct | pyast/node.py:13-16 | the merged guards have distinct names |
| Schemas.CheckDeclaration | pyast/node.py:17-25 | a declaration passes exactly when it is a guard record of a basefield class whose members are classes, strings or patterns |
| Schemas.AddOwnLookup | pyast/node.py:17-26 | the class's own declarations override the inherited ones |
| Schemas.AddOwnRefuses | pyast/node.py:20-25 | one refused declaration makes the whole class declaration raise TypeError |
| Schemas.SortByCounterSorted | pyast/node.py:27-28 | the sort orders the guards by counter |
| Schemas.SortByCounterPermutes | pyast/node.py:27-28 | the sort is a permutation of the guards |
| Schemas.SortByCounterNames | pyast/node.py:27-28 | the sort keeps the names, each as often as before |
| Schemas.AbstractNotInherited | pyast/node.py:31-32 | a class that does not declare `_abstract` itself is concrete, whatever its bases say |
| Schemas.ComposeSchema | pyast/node.py:9-33 | a class without node bases gets no schema; with node bases it gets one, or raises TypeError |
| Schemas.ComposeSchemaLookup | pyast/node.py:13-26 | a field's guard is its own declaration if there is one, else that of the last base declaring it |
| Schemas.ComposeSchemaDistinct | pyast/node.py:27-30 | `_fields` names each guard exactly once |
| Schemas.ComposeSchemaFields | pyast/node.py:27-30 | `_fields` is the guard names sorted by ascending counter |
| Nodes.PositionalStrictlyIncreasing | pyast/node.py:63-73 | fields without keywords take the positional arguments in field order, each a different one |
| Nodes.UnknownKeywordIgnored | pyast/node.py:63-70 | a keyword that names no field does not change how many positional arguments the earlier fields take |
| Nodes.UnknownKeywordKeepsConstruction | pyast/node.py:63-83 | a keyword that names no field changes no binding and leaves the whole construction the same |
| Nodes.KeywordWins | pyast/node.py:64-65 | a field's keyword argument wins over any positional one |
| Nodes.ExtraPositionalIgnored | pyast/node.py:66-69 | positional arguments beyond those the fields take are ignored |
| Nodes.KwLeftKeeps | pyast/node.py:64-65 | popping earlier fields' keywords leaves a later field's keyword in place |
| Nodes.BindNext | pyast/node.py:63-73 | pop the keyword, else take the next positional argument, else the default: this binds `ArgFor` and advances the cursor |
| Nodes.CollectErrStays | pyast/node.py:63-83 | after a refused field, construction ends with that field's error |
| Nodes.CollectSteps | pyast/node.py:63-83 | construction succeeds exactly when every field's step does, and then holds exactly those fields with those values |
| Nodes.FastModeStoresRaw | pyast/node.py:82-83 | fast mode never refuses and stores every bound value as given |
| Nodes.DebugModeValidates | pyast/node.py:61-81 | debug mode builds a node exactly when the class is concrete and every bound value passes `init`, and stores what `init` produced |
| Nodes.DebugConstructionValid | pyast/node.py:74-81 | every field of a node built in debug mode is a fixpoint of its `init` |
| Nodes.DebugAssignKeepsValid | pyast/node.py:85-90 | an accepted debug assignment keeps every field valid |
| Nodes.Node.Bind | pyast/node.py:64-73 | binds `ArgFor` and leaves the cursor and the remaining keywords for the next field |
| Nodes.Node.Fill | pyast/node.py:63-83 | the loop stores every field as `Construction` specifies, or stops with the first field's error |
| Nodes.Node.Construct | pyast/node.py:59-83 | the new node holds `Construction`, or the construction's error is raised (an abstract class in debug mode) |
| Nodes.Node.SetAttr | pyast/node.py:85-90 | on a debug node, a field's value goes through `init` and a refusal keeps the old state; other assignments are stored raw |
| Nodes.Node.DelAttr | pyast/node.py:92-95 | on a debug node, deleting a field raises; otherwise the attribute is removed, or AttributeError is raised |
| Snapshot.SnapGuard | pyast/__init__.py:38-47 | the record is built exactly when the constraint was wrapped or is a non-empty sequence; the default is kept as given |
| Snapshot.SnapGuardRefusesNodeClass | pyast/__init__.py:40-43 | a node class is not wrapped, so declaring a field with one raises TypeError, which the later factory does not |
| Snapshot.SnapFieldOfNodeClassRaises | pyast/__init__.py:40-43 | `field(Identifier)` of a node class `Identifier` raises TypeError |
| Snapshot.SnapGuardMatchesLater | pyast/__init__.py:38-47 | except for node classes and a `seq`'s missing default, both factories build the same record |
| Snapshot.Declare | pyast/__init__.py:39 | the shared counter goes up by one before the record is built |
| Snapshot.ListMode | pyast/__init__.py:146 | the mode is `"str"` exactly when `types[0]` is a string; `types[0]` raises on an empty or unindexable constraint |
| Snapshot.EnforceAll | pyast/__init__.py:152-162 | the loop accepts exactly when every item passes the mode's check |
| Snapshot.SnapListInit | pyast/__init__.py:142-162 | a truthy `init` is checked as `extend` checks it and contributes its items, each passing when `init` is a list or tuple; the list starts empty only when nullable |
| Snapshot.SnapDeleteItem | pyast/__init__.py:182-185 | at length one a non-nullable list refuses every key; otherwise the built-in deletion runs |
| Snapshot.SnapDeleteSlice | pyast/__init__.py:195-198 | refused exactly when non-nullable and `len <= j - i` on the raw bounds; otherwise the clamped run is cut out |
| Snapshot.SnapList.New | pyast/__init__.py:142-150 | the new list holds `SnapListInit`, keeps `types` as given, and takes its mode from `types[0]` |
| Snapshot.SnapList.Append | pyast/__init__.py:164-166 | the item is added at the end exactly when all its items (a list or tuple) or the item itself (a string included) pass |
| Snapshot.SnapList.Insert | pyast/__init__.py:168-170 | an accepted item is put at the clamped position |
| Snapshot.SnapList.Extend | pyast/__init__.py:172-175 | the items are appended exactly when the value is iterable and its items, or a string as a whole, pass |
| Snapshot.SnapList.Pop | pyast/__init__.py:177-180 | refused at length one when non-nullable; otherwise it removes and returns the last element, or raises IndexError |
| Snapshot.SnapList.DelItem | pyast/__init__.py:182-185 | the new contents are `SnapDeleteItem` of the old, or its error is raised and nothing changes |
| Snapshot.SnapList.SetItem | pyast/__init__.py:187-189 | the value's items, or a string or scalar value itself, are checked before the built-in assignment |
| Snapshot.SnapList.SetSlice | pyast/__init__.py:191-193 | the clamped run is replaced exactly when the value is iterable and its items, or a string as a whole, pass |
| Snapshot.SnapList.DelSlice | pyast/__init__.py:195-198 | the new contents are `SnapDeleteSlice` of the old, or TypeError and nothing changes |
| Snapshot.StrModeComparesMembers | pyast/__init__.py:155-157 | when the first member is a string, items are compared with the members by equality |
| Snapshot.MixedConstraintRefusesInstance | pyast/__init__.py:146 | over `("+", int)` the integer 3 is refused, although it is an `int` |
| Snapshot.StringItemCheckedWhole | pyast/__init__.py:152-157 | under Python 2 a string item is checked whole, so `"+-"` is refused over `("+", "-")` although each character is a member |
| Snapshot.StringExtendStoresCharacters | pyast/__init__.py:146-175 | over `("+-",)` the string `"+-"` passes the check and the list is built from `"+"` and `"-"`, neither a member |
| Snapshot.DeleteItemRefusesAtOne | pyast/__init__.py:182-185 | at length one even a slice that deletes nothing is refused |
| Snapshot.ExtendedSliceDeleteEmpties | pyast/__init__.py:182-185 | `del l[::1]` empties a non-nullable list of two or more, which the later guard refuses |
| Snapshot.DeleteSliceRefusesTail | pyast/__init__.py:195-198 | `del l[i:]` with `0 < i < len` is refused although it would keep `i` elements |
| Snapshot.SnapInit | pyast/__init__.py:61-119 | `field.init` validates only in debug mode; a debug `seq.init` holds `SnapListInit`; a fast `seq.init` accepts exactly falsy or iterable values; `basefield` has no `init` |
| Snapshot.FastSeqInitCopies | pyast/__init__.py:107-109 | in fast mode a `seq` holds a plain list of the value's items, `[]` for a falsy value, and raises TypeError for a truthy non-iterable |
| Snapshot.SnapCheckDeclaration | pyast/__init__.py:209-216 | a declaration passes exactly when it is a guard record of a basefield class whose members are classes or strings |
| Snapshot.PatternMemberRefused | pyast/__init__.py:214-215 | a pattern member is refused here and accepted by the later metaclass |
| Snapshot.SnapAddOwnLookup | pyast/__init__.py:208-216 | the declarations put over the guards override them name by name |
| Snapshot.SnapAddOwnRefuses | pyast/__init__.py:212-215 | one refused declaration makes the class declaration raise TypeError |
| Snapshot.SnapCompose | pyast/__init__.py:204-220 | a class without node bases gets no schema; otherwise a non-abstract schema, or TypeError |
| Snapshot.SnapComposeOwnOnly | pyast/__init__.py:208-216 | nothing is inherited: a field's guard is the class's own declaration |
| Snapshot.SnapComposeFields | pyast/__init__.py:217-218 | `_fields` is the guard names sorted by ascending counter |
| Snapshot.SnapComposeRefusesPattern | pyast/__init__.py:214-215 | a node class declaring a pattern-constrained field is refused |
| Snapshot.SnapSteps | pyast/__init__.py:234-243 | one step per field, each being the field's `init` of its bound value |
| Snapshot.SnapPlainFieldsAgree | pyast/__init__.py:229-244 | over plain `field` fields, both versions build the same node in either mode |
| Snapshot.FastSeqScalarRaises | pyast/__init__.py:107-109 | even in fast mode, a truthy non-iterable bound to a `seq` field makes construction raise |
| Snapshot.SnapInitField | pyast/__init__.py:99-109 | the slot holds what `SnapInit` specifies; a debug `seq` gets a fresh typed list |
| Snapshot.SnapNode.Fill | pyast/__init__.py:234-244 | the loop stores every field as `SnapConstruction` specifies, or stops with the first error |
| Snapshot.SnapNode.Construct | pyast/__init__.py:229-244 | a class without a schema raises AttributeError; otherwise the node holds `SnapConstruction`, or its error is raised |
| Snapshot.SnapNode.SetAttr | pyast/__init__.py:246-252 | with `DEBUG` on, a field's value goes through `init` and a refusal keeps the old state; other assignments are stored raw |
| Snapshot.SnapNode.DelAttr | pyast/__init__.py:255-258 | with `DEBUG` on, deleting a field raises a plain Exception; otherwise the attribute is removed, or AttributeError is raised |

## Left out

- Booleans and floating-point values are not modelled; integers are unbounded.
- Matcher.NormaliseTypes: a class object is taken to have no `__iter__`, which holds for node classes. The built-in classes `list` and `tuple`, and under Python 3 also `str`, do have one. Under Python 3, `TypedList(str)` and `TypedDict(str)` therefore keep the bare class and raise TypeError when pyast/typedlist.py:36 and pyast/typeddict.py:36 iterate it. The model follows the reading under which a lone built-in class constraint is wrapped, as under Python 2 for `str`.
- User objects cannot be iterated, indexed or compared except by identity, and have no `match` attribute.
- Matcher.SelectMode: the pattern class is named `re._pattern_type`, which exists only up to Python 3.6. On a later Python every typed container and every node class would raise AttributeError; the model takes the attribute to exist.
- Fields.SeqAccepts: a string counts as iterable, as under Python 3. The earlier version in pyast/__init__.py runs under Python 2, where `seq._validate_set` would report a string as not a sequence; neither version calls it.
- Exception messages (the `%r` formatting of the constraint) are not modelled; only the kind of exception is.
- The regular-expression engine is a parameter `rx`, because `re` is outside this model. A pattern is known only by its source text.
- Nodes.Node.Construct: the method swap is modelled apart, by `Nodes.SwappedSetAttr` (see "## Findings"). Debug mode rebinds the class's `__setattr__` and `__delattr__` to the last instance built. The node methods give each node its own hooks, selected by the per-class `debug` flag.
- Nodes.Node.Construct: a debug-mode store runs `init` once where the source runs it twice. `Fields.FieldInitAgain` proves the second run is the identity.
- Nodes.ArgFor: the copy `val[:]` of an iterable default is the same value here. Sharing of defaults and typed lists between nodes (aliasing) is not modelled.
- TypedDicts.TypedDict: a dict `init` whose keys are not hashable is excluded up front. A dict is given by its items in insertion order.
- `__repr__`, node equality, template rendering and the dumpers (pyast/dump/) are not part of this model, nor is setup.py.
- The Python 2 slice hooks `__setslice__` and `__delslice__` are methods that take the bounds as Python 2 passes them.
- Snapshot: pyast/__init__.py only works where `__metaclass__` applies (Python 2). Under Python 3, `Node` would get no metaclass and every construction would raise AttributeError. The model follows the Python 2 reading.
- Snapshot.SnapList.Extend: the alias `set = extend` is the same method and has no member of its own.
- `seq._validate_set` is never called by the nodes of either version. It is modelled by `Fields.SeqAccepts` and the lemma about it, and has no caller in the model.

## Findings

| source | as written | input that shows it | evidently intended | confidence | as-written member | corrected member |
|---|---|---|---|---|---|---|
| pyast/__init__.py:40-43 | a lone constraint is wrapped only when `types.__class__` is exactly `type` or `str` | `field(Identifier)` where `Identifier` is a node class, whose class is the metaclass: `Identifier[0]` raises TypeError | any class is wrapped into a one-element tuple, as pyast/field.py:37-38 does | high, not executed | Snapshot.SnapFieldOfNodeClassRaises | Fields.MakeGuardWraps |
| pyast/__init__.py:195-198 | the non-nullable guard compares the raw bounds, `len(self) <= j - i` | non-nullable `[a, b]`, `del l[1:]`: Python 2 calls `__delslice__(1, sys.maxsize)`, which is refused although `[a]` would remain | refuse only a deletion that removes every element, as the normalised guard of pyast/typedlist.py:124-128 does | high, not executed | Snapshot.DeleteSliceRefusesTail | TypedLists.DelSliceGuardExact |
| pyast/node.py:79-80 | debug construction stores the new node's bound methods `self.__debug__setattr__` and `self.__debug__delattr__` on the class, and a bound method kept as a class attribute is not rebound | build node `a`, then node `b` of the same class; `a.x = v` for a non-field `x` calls `b.__debug__setattr__` and writes `x` into `b`, leaving `a` unchanged | each node's assignments go to that node: set the plain functions `Node.__debug__setattr__` and `Node.__debug__delattr__` on the class | high, not executed | Nodes.SwappedHookWritesLastNode | Nodes.Node.SetAttr |
