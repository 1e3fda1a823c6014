/**
 * Index sets over the paired shape lists (lp_game.py): toggling a selection
 * under a cap, the set of all indices, and deleting a set of indices from a list.
 */
module Selection {

  /** {0, 1, ..., n - 1}: Python's `set(range(n))`. */
  function RangeSet(n: nat): (r: set<nat>)
    ensures |r| == n
    ensures forall i: nat :: i in r <==> i < n
  {
    if n == 0 then {} else RangeSet(n - 1) + {n - 1}
  }

  /**
   * Clicking shape `i`: a selected shape is deselected; an unselected one is
   * added only while fewer than `cap` shapes are selected.
   */
  function Toggle(sel: set<nat>, i: nat, cap: int): (r: set<nat>)
    ensures i in r <==> i !in sel && |sel| < cap
    ensures forall j: nat | j != i :: j in r <==> j in sel
    ensures |r| <= |sel| || |r| <= cap
  {
    if i in sel then sel - {i}
    else if |sel| < cap then sel + {i}
    else sel
  }

  /** The indices in [from, n) that are not in `sel`, in increasing order. */
  function KeptFrom(n: nat, sel: set<nat>, from: nat): seq<nat>
    decreases n - from
  {
    if from >= n then []
    else (if from in sel then [] else [from]) + KeptFrom(n, sel, from + 1)
  }

  /** The elements of `s` at positions from `from` on whose index is not in `sel`, in order. */
  function SurvivorsFrom<T>(s: seq<T>, sel: set<nat>, from: nat): seq<T>
    decreases |s| - from
  {
    if from >= |s| then []
    else (if from in sel then [] else [s[from]]) + SurvivorsFrom(s, sel, from + 1)
  }

  /** `s` with every position in `sel` deleted; the others keep their relative order. */
  function RemoveIndices<T>(s: seq<T>, sel: set<nat>): seq<T> {
    SurvivorsFrom(s, sel, 0)
  }

  /** The positions of `s` that survive deleting `sel`. */
  function Kept(n: nat, sel: set<nat>): seq<nat> {
    KeptFrom(n, sel, 0)
  }

  /**
   * The kept positions are exactly the positions in [from, n) outside `sel`,
   * strictly increasing.
   */
  lemma {:induction false} KeptFromSpec(n: nat, sel: set<nat>, from: nat)
    ensures forall k | 0 <= k < |KeptFrom(n, sel, from)| ::
      from <= KeptFrom(n, sel, from)[k] < n && KeptFrom(n, sel, from)[k] !in sel
    ensures forall k, l | 0 <= k < l < |KeptFrom(n, sel, from)| ::
      KeptFrom(n, sel, from)[k] < KeptFrom(n, sel, from)[l]
    ensures forall j: nat | from <= j < n && j !in sel :: j in KeptFrom(n, sel, from)
    decreases n - from
  {
    if from < n {
      KeptFromSpec(n, sel, from + 1);
    }
  }

  /** Element k of the survivors is the element of `s` at the k-th kept position. */
  lemma {:induction false} SurvivorsFromAt<T>(s: seq<T>, sel: set<nat>, from: nat)
    ensures |SurvivorsFrom(s, sel, from)| == |KeptFrom(|s|, sel, from)|
    ensures forall k | 0 <= k < |SurvivorsFrom(s, sel, from)| ::
      KeptFrom(|s|, sel, from)[k] < |s| &&
      SurvivorsFrom(s, sel, from)[k] == s[KeptFrom(|s|, sel, from)[k]]
    decreases |s| - from
  {
    if from < |s| {
      SurvivorsFromAt(s, sel, from + 1);
      KeptFromSpec(|s|, sel, from + 1);
    }
  }

  /**
   * Deleting the same indices from two lists of equal length keeps them
   * aligned: both results have the same length, and position k of each holds
   * what that list held at the k-th surviving index.
   */
  lemma RemoveIndicesAligned<A, B>(a: seq<A>, b: seq<B>, sel: set<nat>)
    requires |a| == |b|
    ensures |RemoveIndices(a, sel)| == |RemoveIndices(b, sel)| == |Kept(|a|, sel)|
    ensures forall k | 0 <= k < |Kept(|a|, sel)| ::
      Kept(|a|, sel)[k] < |a| &&
      RemoveIndices(a, sel)[k] == a[Kept(|a|, sel)[k]] &&
      RemoveIndices(b, sel)[k] == b[Kept(|a|, sel)[k]]
  {
    SurvivorsFromAt(a, sel, 0);
    SurvivorsFromAt(b, sel, 0);
  }

  /** The number of kept positions in [from, n) plus the selected ones there is n - from. */
  lemma {:induction false} KeptFromCount(n: nat, sel: set<nat>, from: nat)
    requires from <= n
    ensures |KeptFrom(n, sel, from)| + |set j: nat | j in sel && from <= j < n| == n - from
    decreases n - from
  {
    if from < n {
      KeptFromCount(n, sel, from + 1);
      var here := set j: nat | j in sel && from <= j < n;
      var rest := set j: nat | j in sel && from + 1 <= j < n;
      if from in sel {
        assert here == rest + {from};
      } else {
        assert here == rest;
      }
    } else {
      var none := set j: nat | j in sel && from <= j < n;
      assert none == {};
    }
  }

  /** Deleting a set of valid indices shortens the list by exactly the size of the set. */
  lemma RemoveIndicesLength<T>(s: seq<T>, sel: set<nat>)
    requires forall i | i in sel :: i < |s|
    ensures |RemoveIndices(s, sel)| == |s| - |sel|
  {
    SurvivorsFromAt(s, sel, 0);
    KeptFromCount(|s|, sel, 0);
    assert (set j: nat | j in sel && 0 <= j < |s|) == sel;
  }

  /** The first i elements of s, or all of s when it is shorter. */
  function Prefix<T>(s: seq<T>, i: nat): seq<T> {
    if i <= |s| then s[..i] else s
  }

  /**
   * One step of deleting in descending index order: with positions above i
   * already handled, deleting position i (when selected) or keeping it
   * (when not) handles position i too.
   */
  lemma DeleteStep<T>(s: seq<T>, sel: set<nat>, i: nat)
    ensures i in sel && i < |s| ==>
      var cur := Prefix(s, i + 1) + SurvivorsFrom(s, sel, i + 1);
      i < |cur| && cur[..i] + cur[i + 1..] == Prefix(s, i) + SurvivorsFrom(s, sel, i)
    ensures i !in sel ==>
      Prefix(s, i + 1) + SurvivorsFrom(s, sel, i + 1) == Prefix(s, i) + SurvivorsFrom(s, sel, i)
  {
    if i >= |s| {
      assert Prefix(s, i + 1) == s && Prefix(s, i) == s;
      assert SurvivorsFrom(s, sel, i + 1) == [] && SurvivorsFrom(s, sel, i) == [];
    } else if i in sel {
      DeleteSelected(s, sel, i);
    } else {
      KeepUnselected(s, sel, i);
    }
  }

  lemma DeleteSelected<T>(s: seq<T>, sel: set<nat>, i: nat)
    requires i < |s| && i in sel
    ensures var cur := Prefix(s, i + 1) + SurvivorsFrom(s, sel, i + 1);
      i < |cur| && cur[..i] + cur[i + 1..] == Prefix(s, i) + SurvivorsFrom(s, sel, i)
  {
    var rest := SurvivorsFrom(s, sel, i + 1);
    assert SurvivorsFrom(s, sel, i) == rest;
    assert Prefix(s, i + 1) == s[..i + 1];
    var cur := s[..i + 1] + rest;
    assert cur[..i] == s[..i];
    assert cur[i + 1..] == rest;
  }

  lemma KeepUnselected<T>(s: seq<T>, sel: set<nat>, i: nat)
    requires i < |s| && i !in sel
    ensures Prefix(s, i + 1) + SurvivorsFrom(s, sel, i + 1) == Prefix(s, i) + SurvivorsFrom(s, sel, i)
  {
    var rest := SurvivorsFrom(s, sel, i + 1);
    assert SurvivorsFrom(s, sel, i) == [s[i]] + rest;
    assert s[..i + 1] == s[..i] + [s[i]];
    assert (s[..i] + [s[i]]) + rest == s[..i] + ([s[i]] + rest);
  }
}
