/** Python's list indexing and slicing, as the typed list's mutators hand
    them over to the built-in list: index normalisation, `slice.indices(n)`,
    the positions a slice visits, and the edits that deleting or assigning
    through a slice makes. */
module Slices {
  import opened Values

  /** `slice(start, stop, step)`; an absent part is None. */
  datatype Slice = Slice(start: Option<int>, stop: Option<int>, step: Option<int>)

  /** A subscript of a list: an integer or a slice. */
  datatype Key = Index(i: int) | SliceKey(sl: Slice)

  /** An integer index into a list of length `n`, negative ones counted from
      the end; None where the list raises an IndexError. */
  function NormIndex(k: int, n: nat): (r: Option<nat>)
    ensures r.Some? <==> 0 <= k + n && k < n
    ensures r.Some? ==> r.value < n && (if k < 0 then r.value == k + n else r.value == k)
  {
    var j := if k < 0 then k + n else k;
    if 0 <= j < n then Some(j) else None
  }

  /** The position `list.insert(pos, x)` puts `x` at: negative positions count
      from the end, and positions outside the list are clamped to its ends. */
  function InsertPos(pos: int, n: nat): (r: nat)
    ensures r <= n
    ensures 0 <= pos <= n ==> r == pos
    ensures 0 <= pos + n && pos < 0 ==> r == pos + n
    ensures pos + n < 0 ==> r == 0
    ensures pos > n ==> r == n
  {
    if pos < 0 then (if pos + n < 0 then 0 else pos + n)
    else if pos > n then n else pos
  }

  /** `slice.indices(n)`: the step defaults to 1 and must not be 0 (a
      ValueError); start and stop default to the ends the step walks from
      and to, negative values count from the end, and both are clamped to
      [0, n] for a positive step and to [-1, n - 1] for a negative one. */
  function Indices(sl: Slice, n: nat): (r: Result<(int, int, int)>)
    ensures r.Err? <==> sl.step == Some(0)
    ensures r.Err? ==> r.error == ValueError
    ensures r.Ok? ==> r.value.2 != 0 && (sl.step.None? ==> r.value.2 == 1)
    ensures r.Ok? && r.value.2 > 0 ==> 0 <= r.value.0 <= n && 0 <= r.value.1 <= n
    ensures r.Ok? && r.value.2 < 0 ==> -1 <= r.value.0 <= n - 1 && -1 <= r.value.1 <= n - 1
  {
    var step := if sl.step.None? then 1 else sl.step.value;
    if step == 0 then Err(ValueError)
    else
      var lower := if step < 0 then -1 else 0;
      var upper := if step < 0 then n - 1 else n;
      var start := Adjust(sl.start, if step < 0 then upper else lower, lower, upper, n);
      var stop := Adjust(sl.stop, if step < 0 then lower else upper, lower, upper, n);
      Ok((start, stop, step))
  }

  /** One bound of `slice.indices(n)`: its default when absent, else counted
      from the end when negative, then clamped to [lower, upper]. */
  function Adjust(b: Option<int>, default: int, lower: int, upper: int, n: nat): (r: int)
    requires lower <= default <= upper
    ensures lower <= r <= upper
    ensures b.Some? && lower <= (if b.value < 0 then b.value + n else b.value) <= upper ==>
            r == (if b.value < 0 then b.value + n else b.value)
  {
    if b.None? then default
    else
      var v := if b.value < 0 then b.value + n else b.value;
      if v < lower then lower else if v > upper then upper else v
  }

  /** The positions `range(start, stop, step)` visits: those a slice deletes or replaces. */
  function Positions(start: int, stop: int, step: int): seq<int>
    requires step != 0
    decreases if step > 0 then stop - start else start - stop
  {
    if (step > 0 && start < stop) || (step < 0 && start > stop)
    then [start] + Positions(start + step, stop, step)
    else []
  }

  /** Every visited position lies between start (included) and stop (excluded). */
  lemma {:induction false} PositionsBetween(start: int, stop: int, step: int)
    requires step != 0
    ensures forall p :: p in Positions(start, stop, step) ==>
              if step > 0 then start <= p < stop else stop < p <= start
    decreases if step > 0 then stop - start else start - stop
  {
    if (step > 0 && start < stop) || (step < 0 && start > stop) {
      PositionsBetween(start + step, stop, step);
    }
  }

  /** A step of 1 or -1 visits every position between start and stop. */
  lemma {:induction false} UnitStepPositions(start: int, stop: int, step: int)
    requires step == 1 || step == -1
    ensures forall p :: p in Positions(start, stop, step) <==>
              if step > 0 then start <= p < stop else stop < p <= start
    decreases if step > 0 then stop - start else start - stop
  {
    PositionsBetween(start, stop, step);
    if (step > 0 && start < stop) || (step < 0 && start > stop) {
      UnitStepPositions(start + step, stop, step);
    }
  }

  /** The positions of a slice normalised by `slice.indices(n)` are valid indices of a list of length n. */
  lemma SlicePositionsInRange(sl: Slice, n: nat)
    requires Indices(sl, n).Ok?
    ensures var (start, stop, step) := Indices(sl, n).value;
            forall p :: p in Positions(start, stop, step) ==> 0 <= p < n
  {
    var (start, stop, step) := Indices(sl, n).value;
    PositionsBetween(start, stop, step);
  }

  /** The list left after deleting the elements at the given positions. */
  function KeepOutside(s: seq<Value>, ps: seq<int>): (r: seq<Value>)
    ensures |r| <= |s|
    decreases |s|
  {
    if s == [] then []
    else KeepOutside(s[..|s| - 1], ps) + (if |s| - 1 in ps then [] else [s[|s| - 1]])
  }

  /** Deleting positions that leave one element out leaves a non-empty list. */
  lemma {:induction false} KeepOutsideNonEmpty(s: seq<Value>, ps: seq<int>, i: int)
    requires 0 <= i < |s| && i !in ps
    ensures |KeepOutside(s, ps)| > 0
    decreases |s|
  {
    if i < |s| - 1 {
      KeepOutsideNonEmpty(s[..|s| - 1], ps, i);
    }
  }

  /** Deleting every position leaves the empty list. */
  lemma {:induction false} KeepOutsideAll(s: seq<Value>, ps: seq<int>)
    requires forall i :: 0 <= i < |s| ==> i in ps
    ensures KeepOutside(s, ps) == []
    decreases |s|
  {
    if s != [] {
      KeepOutsideAll(s[..|s| - 1], ps);
    }
  }

  /** Deleting a contiguous run of positions [a, b) cuts it out of the list. */
  lemma {:induction false} KeepOutsideRun(s: seq<Value>, ps: seq<int>, a: int, b: int)
    requires 0 <= a <= b
    requires forall i :: 0 <= i < |s| ==> (i in ps <==> a <= i < b)
    ensures var lo := if a < |s| then a else |s|;
            var hi := if b < |s| then b else |s|;
            KeepOutside(s, ps) == s[..lo] + s[hi..]
    decreases |s|
  {
    if s != [] {
      var t := s[..|s| - 1];
      KeepOutsideRun(t, ps, a, b);
      var L := |s| - 1;
      var lo := if a < |t| then a else |t|;
      var hi := if b < |t| then b else |t|;
      assert KeepOutside(t, ps) == t[..lo] + t[hi..];
      assert KeepOutside(s, ps) == KeepOutside(t, ps) + (if L in ps then [] else [s[L]]);
      if L in ps {
        assert a <= L < b;
        assert s[..a] == t[..lo];
        assert s[|s|..] == [] && t[hi..] == [];
      } else if L < a {
        assert t[..lo] == t && s[..|s|] == s && t[hi..] == [];
        assert s == t + [s[L]];
      } else {
        assert b <= L;
        assert s[hi..] == t[hi..] + [s[L]];
      }
    }
  }

  /** The list after `s[p] = v` for each position `ps[k]` and value `vs[k]` in turn. */
  function AssignAt(s: seq<Value>, ps: seq<int>, vs: seq<Value>): (r: seq<Value>)
    requires |ps| == |vs|
    requires forall p :: p in ps ==> 0 <= p < |s|
    ensures |r| == |s|
    ensures forall i :: 0 <= i < |s| && i !in ps ==> r[i] == s[i]
    decreases |ps|
  {
    if ps == [] then s
    else
      assert ps[0] in ps;
      assert forall p :: p in ps[1..] ==> p in ps;
      AssignAt(s[ps[0] := vs[0]], ps[1..], vs[1..])
  }

  /** `s[i:j] = vs` for a normalised run: the run is replaced by `vs`; a stop
      before the start replaces nothing and inserts at the start. */
  function ReplaceRun(s: seq<Value>, start: int, stop: int, vs: seq<Value>): (r: seq<Value>)
    requires 0 <= start <= |s| && stop <= |s|
    ensures |r| == |s| - (if stop > start then stop - start else 0) + |vs|
    ensures r[..start] == s[..start]
  {
    var hi := if stop < start then start else stop;
    s[..start] + vs + s[hi..]
  }

  /** The clamping a Python 2 `list.__setslice__(i, j, ...)` or
      `list.__delslice__(i, j)` applies to its bounds. */
  function ClampRun(i: int, j: int, n: nat): (r: (nat, nat))
    ensures r.0 <= r.1 <= n
    ensures 0 <= i <= j <= n ==> r == (i, j)
  {
    var lo := if i < 0 then 0 else if i > n then n else i;
    var hi := if j < lo then lo else if j > n then n else j;
    (lo, hi)
  }
}
