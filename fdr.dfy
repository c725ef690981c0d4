/**
  `bh_correction` and `pairwise_correlations` (scripts/behav_analysis/analyze_scales.py).

  The Benjamini-Hochberg step-up procedure over the flattened p-value frame: NaN
  entries (`None` here) are set aside, the others are sorted by `np.argsort`, the
  last sorted position `k` with `p_(k) <= (k + 1) / m * alpha` decides how many of the
  smallest are rejected, and the adjusted p-values are the reversed cumulative
  minimum of `m / (k + 1) * p_(k)`, put back in the original order.

  `np.argsort` is the parameter `order`, required to be what it returns: a
  permutation of the positions that lists the p-values in ascending order.
 */
module Fdr {
  import opened Wrappers
  import opened Tensors

  // ---------------------------------------------------------------- the non-NaN p-values

  /** Lines 186-188: `flat[~np.isnan(flat)]`, the p-values that are not NaN, in order. */
  function Present(flat: seq<Option<real>>): (p: seq<real>)
    ensures |p| <= |flat|
  {
    if |flat| == 0 then []
    else Present(flat[..|flat| - 1]) + (if flat[|flat| - 1].Some? then [flat[|flat| - 1].value] else [])
  }

  /** The non-NaN values of a prefix are a prefix of the non-NaN values. */
  lemma {:induction false} PresentPrefix(flat: seq<Option<real>>, n: nat)
    requires n <= |flat|
    ensures Present(flat[..n]) <= Present(flat)
    decreases |flat|
  {
    if n < |flat| {
      var init := flat[..|flat| - 1];
      PresentPrefix(init, n);
      assert init[..n] == flat[..n];
    } else {
      assert flat[..n] == flat;
    }
  }

  /** Where the non-NaN entry `flat[i]` sits among the non-NaN values. */
  function PresentIndex(flat: seq<Option<real>>, i: nat): (j: nat)
    requires i < |flat| && flat[i].Some?
    ensures j < |Present(flat)| && Present(flat)[j] == flat[i].value
  {
    PresentPrefix(flat, i + 1);
    assert flat[..i + 1][..i] == flat[..i];
    |Present(flat[..i])|
  }

  // ---------------------------------------------------------------- sorting

  /** What `np.argsort(p)` returns: a permutation of `p`'s positions listing `p` in ascending order. */
  predicate IsArgsort(order: seq<nat>, p: seq<real>) {
    && |order| == |p|
    && (forall k | 0 <= k < |order| :: order[k] < |p|)
    && (forall k, l | 0 <= k < l < |order| :: order[k] != order[l])
    && (forall i | 0 <= i < |p| :: i in order)
    && (forall k, l | 0 <= k <= l < |order| :: p[order[k]] <= p[order[l]])
  }

  /** The sorted position of `p[i]`. */
  function Position(order: seq<nat>, i: nat): (k: nat)
    requires i in order
    ensures k < |order| && order[k] == i
  {
    if order[0] == i then 0 else 1 + Position(order[1..], i)
  }

  /** Lines 208 and 219: `a[order] = sorted`, which puts every sorted value back at its original position. */
  function Unsorted<T>(order: seq<nat>, sorted: seq<T>): (a: seq<T>)
    requires |sorted| == |order| && forall i | 0 <= i < |order| :: i in order
    ensures |a| == |order|
  {
    seq(|order|, i requires 0 <= i < |order| => sorted[Position(order, i)])
  }

  lemma UnsortedAt<T>(order: seq<nat>, sorted: seq<T>, p: seq<real>, k: nat)
    requires IsArgsort(order, p) && |sorted| == |order| && k < |order|
    ensures Unsorted(order, sorted)[order[k]] == sorted[k]
  {
    var j := Position(order, order[k]);
    assert j == k;
  }

  // ---------------------------------------------------------------- the step-up cut-off

  /** Line 198: `(k + 1) / m * alpha` at sorted position `k`. */
  function Threshold(k: nat, m: nat, alpha: real): real
    requires k < m
  {
    ((k + 1) as real / m as real) * alpha
  }

  /** Line 199: the sorted p-value at `k` is at or below its threshold. */
  predicate Below(ps: seq<real>, alpha: real, k: nat)
    requires k < |ps|
  {
    ps[k] <= Threshold(k, |ps|, alpha)
  }

  /** Lines 200-203 over the positions before `n`: the last one below its threshold, if any. */
  function LastBelow(ps: seq<real>, alpha: real, n: nat): (r: Option<nat>)
    requires n <= |ps|
    ensures r.Some? ==> r.value < n && Below(ps, alpha, r.value)
    ensures r.Some? ==> forall l | r.value < l < n :: !Below(ps, alpha, l)
    ensures r.None? ==> forall l | 0 <= l < n :: !Below(ps, alpha, l)
  {
    if n == 0 then None
    else if Below(ps, alpha, n - 1) then Some(n - 1)
    else LastBelow(ps, alpha, n - 1)
  }

  /** `max_k`: the largest sorted position below its threshold. */
  function Cutoff(p: seq<real>, order: seq<nat>, alpha: real): Option<nat>
    requires IsArgsort(order, p)
  {
    LastBelow(Indexed(p, order), alpha, |p|)
  }

  /** Lines 200-205: `reject_sorted`, the first `max_k + 1` sorted positions. */
  function RejectSorted(p: seq<real>, order: seq<nat>, alpha: real): (rs: seq<bool>)
    requires IsArgsort(order, p)
    ensures |rs| == |p|
  {
    var c := Cutoff(p, order, alpha);
    seq(|p|, k requires 0 <= k < |p| => c.Some? && k <= c.value)
  }

  /** Lines 200-208: `reject`, in the order of the non-NaN p-values. */
  function Rejected(p: seq<real>, order: seq<nat>, alpha: real): (r: seq<bool>)
    requires IsArgsort(order, p)
    ensures |r| == |p|
  {
    Unsorted(order, RejectSorted(p, order, alpha))
  }

  /** Lines 221-222: `corrected[~mask_nan] = values` on a `False` frame. */
  function Masked(flat: seq<Option<real>>, values: seq<bool>): (sig: seq<bool>)
    requires |values| == |Present(flat)|
    ensures |sig| == |flat|
  {
    seq(|flat|, i requires 0 <= i < |flat| => flat[i].Some? && values[PresentIndex(flat, i)])
  }

  /** Lines 221-223: the boolean frame, `False` at every NaN. */
  function Significant(flat: seq<Option<real>>, order: seq<nat>, alpha: real): (sig: seq<bool>)
    requires IsArgsort(order, Present(flat))
    ensures |sig| == |flat|
  {
    Masked(flat, Rejected(Present(flat), order, alpha))
  }

  // ---------------------------------------------------------------- adjusted p-values

  /** Line 213 at sorted position `k`: `m / (k + 1) * p_(k)`. */
  function ScaledAt(ps: seq<real>, k: nat): real
    requires k < |ps|
  {
    (|ps| as real / (k + 1) as real) * ps[k]
  }

  /** Line 213: `tmp`. */
  function Scaled(ps: seq<real>): (t: seq<real>)
    ensures |t| == |ps| && forall k | 0 <= k < |ps| :: t[k] == ScaledAt(ps, k)
  {
    seq(|ps|, k requires 0 <= k < |ps| => ScaledAt(ps, k))
  }

  /** The minimum of `t[k..]`. */
  function SuffixMin(t: seq<real>, k: nat): (r: real)
    requires k < |t|
    ensures forall l | k <= l < |t| :: r <= t[l]
    ensures exists l | k <= l < |t| :: r == t[l]
    decreases |t| - k
  {
    if k == |t| - 1 then t[k]
    else
      var rest := SuffixMin(t, k + 1);
      if t[k] <= rest then t[k] else rest
  }

  /** Lines 215-217: the reversed cumulative minimum, reversed back. */
  function SuffixMins(t: seq<real>): (a: seq<real>)
    ensures |a| == |t|
  {
    seq(|t|, k requires 0 <= k < |t| => SuffixMin(t, k))
  }

  /** Lines 213-217: `p_adj_sorted`. */
  function AdjustedSorted(ps: seq<real>): (a: seq<real>)
    ensures |a| == |ps|
  {
    SuffixMins(Scaled(ps))
  }

  /** Lines 211-219: the adjusted p-values in the order of the non-NaN p-values. */
  function Adjusted(p: seq<real>, order: seq<nat>): (a: seq<real>)
    requires IsArgsort(order, p)
    ensures |a| == |p|
  {
    Unsorted(order, AdjustedSorted(Indexed(p, order)))
  }

  // ---------------------------------------------------------------- the procedure

  /** Lines 207-208 and 219: scatter the sorted values back through `order`. */
  method Unsort<T>(order: seq<nat>, sorted: seq<T>, ghost p: seq<real>, init: T) returns (a: array<T>)
    requires IsArgsort(order, p) && |sorted| == |order|
    ensures fresh(a)
    ensures a[..] == Unsorted(order, sorted)
  {
    a := new T[|order|](_ => init);
    for k := 0 to |order|
      invariant forall l | 0 <= l < k :: a[order[l]] == sorted[l]
    {
      a[order[k]] := sorted[k];
    }
    forall i | 0 <= i < |order|
      ensures a[i] == Unsorted(order, sorted)[i]
    {
      var k := Position(order, i);
      UnsortedAt(order, sorted, p, k);
    }
  }

  /** Lines 215-217: `np.minimum.accumulate(tmp[::-1])[::-1]`. */
  method ReversedCumulativeMin(t: seq<real>) returns (a: array<real>)
    ensures fresh(a)
    ensures a[..] == SuffixMins(t)
  {
    a := new real[|t|];
    for j := 0 to |t|
      invariant forall k | |t| - j <= k < |t| :: a[k] == SuffixMin(t, k)
    {
      var k := |t| - 1 - j;
      if j == 0 {
        a[k] := t[k];
      } else {
        a[k] := if t[k] <= a[k + 1] then t[k] else a[k + 1];
      }
    }
  }

  /** Lines 221-222: `corrected[~mask_nan] = reject`. */
  method MaskAssign(flat: seq<Option<real>>, values: array<bool>) returns (sig: array<bool>)
    requires values.Length == |Present(flat)|
    ensures fresh(sig)
    ensures sig[..] == Masked(flat, values[..])
  {
    sig := new bool[|flat|](_ => false);
    var j := 0;
    for i := 0 to |flat|
      invariant j == |Present(flat[..i])|
      invariant forall l | 0 <= l < i :: sig[l] == (flat[l].Some? && values[PresentIndex(flat, l)])
      invariant forall l | i <= l < |flat| :: !sig[l]
    {
      assert flat[..i + 1][..i] == flat[..i];
      assert |Present(flat[..i + 1])| == j + (if flat[i].Some? then 1 else 0);
      if flat[i].Some? {
        assert j == PresentIndex(flat, i);
        sig[i] := values[j];
        j := j + 1;
      }
    }
  }

  /** Lines 195-208: sort, find `max_k` and mark the rejected p-values in their original order. */
  method RejectFlags(p: seq<real>, order: seq<nat>, alpha: real) returns (reject: array<bool>)
    requires IsArgsort(order, p) && 0 < |p|
    ensures fresh(reject)
    ensures reject[..] == Rejected(p, order, alpha)
  {
    var m := |p|;
    var ps := Indexed(p, order);
    var cutoff := LastBelow(ps, alpha, m);
    if cutoff.None? {
      reject := new bool[m](_ => false);
      assert reject[..] == Rejected(p, order, alpha);
    } else {
      var rejectSorted := seq(m, k requires 0 <= k < m => k <= cutoff.value);
      assert rejectSorted == RejectSorted(p, order, alpha);
      reject := Unsort(order, rejectSorted, p, false);
    }
  }

  /** Lines 211-219: the adjusted p-values in their original order. */
  method AdjustedValues(p: seq<real>, order: seq<nat>) returns (pAdj: array<real>)
    requires IsArgsort(order, p)
    ensures fresh(pAdj)
    ensures pAdj[..] == Adjusted(p, order)
  {
    var tmp := Scaled(Indexed(p, order));
    var adjustedSorted := ReversedCumulativeMin(tmp);
    pAdj := Unsort(order, adjustedSorted[..], p, 0.0);
  }

  /**
    `bh_correction(pvals_df, alpha)` on the flattened frame: the significance of
    every cell (row-major, like the flattening) and the adjusted p-values.
   */
  method BhCorrection(flat: seq<Option<real>>, alpha: real, order: seq<nat>)
    returns (sig: array<bool>, pAdj: array<real>)
    requires IsArgsort(order, Present(flat))
    ensures fresh(sig) && fresh(pAdj)
    ensures sig[..] == Significant(flat, order, alpha)
    ensures pAdj[..] == Adjusted(Present(flat), order)
  {
    var p := Present(flat);
    if |p| == 0 {
      sig := new bool[|flat|](_ => false);
      pAdj := new real[0];
      NothingToTest(flat, order, alpha);
      assert sig[..] == seq(|flat|, i => false);
      return;
    }
    var reject := RejectFlags(p, order, alpha);
    pAdj := AdjustedValues(p, order);
    sig := MaskAssign(flat, reject);
  }

  // ---------------------------------------------------------------- properties

  /** A frame has no p-value left exactly when every entry is NaN. */
  lemma {:induction false} PresentEmpty(flat: seq<Option<real>>)
    ensures Present(flat) == [] <==> forall i | 0 <= i < |flat| :: flat[i].None?
    decreases |flat|
  {
    if |flat| > 0 {
      PresentEmpty(flat[..|flat| - 1]);
    }
    if Present(flat) == [] {
      forall i | 0 <= i < |flat| ensures flat[i].None? {
        if flat[i].Some? {
          var j := PresentIndex(flat, i);
          assert false;
        }
      }
    }
  }

  /** Lines 190-192: with no p-value left, nothing is significant and there is nothing to adjust. */
  lemma {:induction false} NothingToTest(flat: seq<Option<real>>, order: seq<nat>, alpha: real)
    requires IsArgsort(order, Present(flat)) && Present(flat) == []
    ensures Significant(flat, order, alpha) == seq(|flat|, i => false)
    ensures Adjusted(Present(flat), order) == []
  {
    PresentEmpty(flat);
    var sig := Significant(flat, order, alpha);
    forall i | 0 <= i < |flat| ensures sig[i] == false {
      assert flat[i].None?;
    }
    assert sig == seq(|flat|, i => false);
  }

  /** Lines 203-208: the sorted position `k` is rejected exactly when `k <= max_k`, so the `max_k + 1` smallest are. */
  lemma RejectedAreSmallest(p: seq<real>, order: seq<nat>, alpha: real, k: nat)
    requires IsArgsort(order, p) && k < |p|
    ensures var c := Cutoff(p, order, alpha);
      Rejected(p, order, alpha)[order[k]] <==> c.Some? && k <= c.value
  {
    UnsortedAt(order, RejectSorted(p, order, alpha), p, k);
  }

  /** With a non-negative `alpha` the thresholds grow along the sorted order. */
  lemma ThresholdGrows(k: nat, l: nat, m: nat, alpha: real)
    requires k <= l < m && 0.0 <= alpha
    ensures Threshold(k, m, alpha) <= Threshold(l, m, alpha)
  {
    var mr := m as real;
    assert (k + 1) as real / mr <= (l + 1) as real / mr;
  }

  /**
    With a non-negative `alpha`, `p[i]` is rejected exactly when it is at most the
    p-value at the cut-off, whichever valid `argsort` is used (`RejectedTieFree` shows
    the cut-off and that p-value are the same for all of them).
   */
  lemma RejectedIff(p: seq<real>, order: seq<nat>, alpha: real, i: nat)
    requires IsArgsort(order, p) && 0.0 <= alpha && i < |p|
    ensures var c := Cutoff(p, order, alpha);
      Rejected(p, order, alpha)[i] <==> c.Some? && p[i] <= Indexed(p, order)[c.value]
  {
    var ps := Indexed(p, order);
    var c := Cutoff(p, order, alpha);
    var k := Position(order, i);
    RejectedAreSmallest(p, order, alpha, k);
    if c.Some? && c.value < k {
      // a tie with the cut-off value would put position k below its threshold too
      ThresholdGrows(c.value, k, |p|, alpha);
      TieIsBelow(ps, alpha, c.value, k);
    }
  }

  /** A sorted p-value no larger than one below its threshold is below its own, further on. */
  lemma TieIsBelow(ps: seq<real>, alpha: real, c: nat, k: nat)
    requires c < k < |ps| && Threshold(c, |ps|, alpha) <= Threshold(k, |ps|, alpha)
    ensures Below(ps, alpha, c) && ps[k] <= ps[c] ==> Below(ps, alpha, k)
  {
  }

  /** Lines 195-208: rejection is monotone: every p-value no larger than a rejected one is rejected. */
  lemma RejectionMonotone(p: seq<real>, order: seq<nat>, alpha: real, i: nat, j: nat)
    requires IsArgsort(order, p) && 0.0 <= alpha && i < |p| && j < |p|
    requires Rejected(p, order, alpha)[i] && p[j] <= p[i]
    ensures Rejected(p, order, alpha)[j]
  {
    RejectedIff(p, order, alpha, i);
    RejectedIff(p, order, alpha, j);
  }

  // ---------------------------------------------------------------- independence of tie order

  /** `o` lists each position below `n` exactly once. */
  predicate Picks(o: seq<nat>, n: nat) {
    && |o| == n
    && (forall k | 0 <= k < |o| :: o[k] < n)
    && (forall k, l | 0 <= k < l < |o| :: o[k] != o[l])
    && (forall i | 0 <= i < n :: i in o)
  }

  /** Dropping the entry for the last position leaves a pick of the others. */
  lemma DropLast(o: seq<nat>, n: nat, j: nat)
    requires Picks(o, n) && j < n && o[j] == n - 1
    ensures Picks(o[..j] + o[j + 1..], n - 1)
  {
    var o' := o[..j] + o[j + 1..];
    assert forall k | 0 <= k < |o'| :: o'[k] == if k < j then o[k] else o[k + 1];
    forall i | 0 <= i < n - 1 ensures i in o' {
      var k := Position(o, i);
      if k < j { assert o'[k] == i; } else { assert o'[k - 1] == i; }
    }
  }

  /** With `o[j]` the last position, `p[o]` is `p[..m][o']` with `p[m]` put back at `j`. */
  lemma IndexedSplit(p: seq<real>, o: seq<nat>, j: nat)
    requires Picks(o, |p|) && j < |p| && o[j] == |p| - 1
    requires Picks(o[..j] + o[j + 1..], |p| - 1)
    ensures var b := Indexed(p[..|p| - 1], o[..j] + o[j + 1..]);
      Indexed(p, o) == b[..j] + [p[|p| - 1]] + b[j..]
  {
  }

  /** Inserting one value anywhere adds it to the multiset. */
  lemma MultisetInsert(b: seq<real>, x: real, j: nat)
    requires j <= |b|
    ensures multiset(b[..j] + [x] + b[j..]) == multiset(b) + multiset{x}
  {
    assert b == b[..j] + b[j..];
  }

  /** Putting the last value of `p` back into a permutation of the others gives a permutation of `p`. */
  lemma InsertLast(p: seq<real>, b: seq<real>, j: nat)
    requires 0 < |p| && j <= |b| && multiset(b) == multiset(p[..|p| - 1])
    ensures multiset(b[..j] + [p[|p| - 1]] + b[j..]) == multiset(p)
  {
    MultisetInsert(b, p[|p| - 1], j);
    assert p == p[..|p| - 1] + [p[|p| - 1]];
  }

  /** Picking every position of `p` once, in any order, keeps the multiset of its values. */
  lemma {:induction false} IndexedMultiset(p: seq<real>, o: seq<nat>)
    requires Picks(o, |p|)
    ensures multiset(Indexed(p, o)) == multiset(p)
    decreases |p|
  {
    if |p| > 0 {
      var m := |p| - 1;
      var j := Position(o, m);
      var o' := o[..j] + o[j + 1..];
      var q := p[..m];
      DropLast(o, |p|, j);
      IndexedMultiset(q, o');
      IndexedSplit(p, o, j);
      InsertLast(p, Indexed(q, o'), j);
    }
  }

  predicate Ascending(s: seq<real>) {
    forall k, l | 0 <= k <= l < |s| :: s[k] <= s[l]
  }

  /** The first of an ascending sequence is at most every value it holds. */
  lemma FirstIsLeast(s: seq<real>, x: real)
    requires Ascending(s) && x in multiset(s)
    ensures 0 < |s| && s[0] <= x
  {
    var k :| 0 <= k < |s| && s[k] == x;
  }

  /** A suffix of an ascending sequence is ascending. */
  lemma AscendingTail(s: seq<real>)
    requires Ascending(s) && 0 < |s|
    ensures Ascending(s[1..])
  {
    forall k, l | 0 <= k <= l < |s| - 1 ensures s[1..][k] <= s[1..][l] {
      assert s[1..][k] == s[k + 1] && s[1..][l] == s[l + 1];
    }
  }

  /** The values of the tail are the values less the first one. */
  lemma TailMultiset(s: seq<real>)
    requires 0 < |s|
    ensures multiset(s[1..]) == multiset(s) - multiset{s[0]}
  {
    assert s == [s[0]] + s[1..];
  }

  /** Sequences with equal heads and equal tails are equal. */
  lemma HeadTailEqual(s: seq<real>, t: seq<real>)
    requires 0 < |s| && 0 < |t| && s[0] == t[0] && s[1..] == t[1..]
    ensures s == t
  {
    assert s == [s[0]] + s[1..] && t == [t[0]] + t[1..];
  }

  /** Equal multisets have the same size. */
  lemma SameLength(s: seq<real>, t: seq<real>)
    requires multiset(s) == multiset(t)
    ensures |s| == |t|
  {
    assert |s| == |multiset(s)| && |t| == |multiset(t)|;
  }

  /** Two ascending sequences holding the same values are equal. */
  lemma {:induction false} SortedMultisetUnique(s: seq<real>, t: seq<real>)
    requires Ascending(s) && Ascending(t)
    requires multiset(s) == multiset(t)
    ensures s == t
    decreases |s|
  {
    SameLength(s, t);
    if |s| > 0 {
      FirstIsLeast(t, s[0]);
      FirstIsLeast(s, t[0]);
      TailMultiset(s);
      TailMultiset(t);
      AscendingTail(s);
      AscendingTail(t);
      SortedMultisetUnique(s[1..], t[1..]);
      HeadTailEqual(s, t);
    }
  }

  /** Every valid `argsort` lists the same sorted p-values; only tied positions can differ. */
  lemma SortedUnique(p: seq<real>, o1: seq<nat>, o2: seq<nat>)
    requires IsArgsort(o1, p) && IsArgsort(o2, p)
    ensures Indexed(p, o1) == Indexed(p, o2)
  {
    IndexedMultiset(p, o1);
    IndexedMultiset(p, o2);
    SortedMultisetUnique(Indexed(p, o1), Indexed(p, o2));
  }

  /**
    Lines 195-208: with a non-negative `alpha`, which p-values are rejected does not depend
    on how `argsort` breaks ties.
   */
  lemma RejectedTieFree(p: seq<real>, o1: seq<nat>, o2: seq<nat>, alpha: real)
    requires IsArgsort(o1, p) && IsArgsort(o2, p) && 0.0 <= alpha
    ensures Cutoff(p, o1, alpha) == Cutoff(p, o2, alpha)
    ensures Rejected(p, o1, alpha) == Rejected(p, o2, alpha)
  {
    SortedUnique(p, o1, o2);
    forall i | 0 <= i < |p| ensures Rejected(p, o1, alpha)[i] == Rejected(p, o2, alpha)[i] {
      RejectedIff(p, o1, alpha, i);
      RejectedIff(p, o2, alpha, i);
    }
  }

  /** Lines 186-224: the significance frame does not depend on how `argsort` breaks ties either. */
  lemma SignificantTieFree(flat: seq<Option<real>>, o1: seq<nat>, o2: seq<nat>, alpha: real)
    requires IsArgsort(o1, Present(flat)) && IsArgsort(o2, Present(flat)) && 0.0 <= alpha
    ensures Significant(flat, o1, alpha) == Significant(flat, o2, alpha)
  {
    var p := Present(flat);
    RejectedTieFree(p, o1, o2, alpha);
    forall i | 0 <= i < |flat| ensures Significant(flat, o1, alpha)[i] == Significant(flat, o2, alpha)[i] {
      SignificantIff(flat, o1, alpha, i);
      SignificantIff(flat, o2, alpha, i);
    }
  }

  /**
    Lines 211-219: the adjusted value of the p-value at sorted position `k` is the
    minimum of `m / (l + 1) * p_(l)` over `l >= k`, and the adjusted values do not
    decrease along the sorted order.
   */
  lemma AdjustedIsSuffixMinimum(p: seq<real>, order: seq<nat>, k: nat, l: nat)
    requires IsArgsort(order, p) && k <= l < |p|
    ensures var a := Adjusted(p, order);
            var t := Scaled(Indexed(p, order));
      && a[order[k]] <= t[l]
      && (exists l' | k <= l' < |p| :: a[order[k]] == t[l'])
      && a[order[k]] <= a[order[l]]
  {
    var ps := Indexed(p, order);
    var t := Scaled(ps);
    UnsortedAt(order, AdjustedSorted(ps), p, k);
    UnsortedAt(order, AdjustedSorted(ps), p, l);
    var l' :| l <= l' < |p| && SuffixMin(t, l) == t[l'];
  }

  /** Multiplying by a positive number keeps an inequality. */
  lemma MulPositive(u: real, v: real, c: real)
    requires 0.0 < c
    ensures u <= v <==> u * c <= v * c
  {
    assert v * c - u * c == (v - u) * c;
  }

  /** `m / (k + 1) * p_(k) <= alpha` says the same as `p_(k) <= (k + 1) / m * alpha`. */
  lemma ScaledBelow(ps: seq<real>, k: nat, alpha: real)
    requires k < |ps|
    ensures ScaledAt(ps, k) <= alpha <==> Below(ps, alpha, k)
  {
    var x := ps[k];
    var a := |ps| as real;
    var b := (k + 1) as real;
    var u := (a / b) * x;
    var w := (b / a) * alpha;
    assert u * b == a * x;
    assert w * a == b * alpha;
    MulPositive(u, alpha, b);
    MulPositive(x, w, a);
  }

  /** The adjusted p-values agree with the step-up decision: `p[i]` is rejected exactly when its adjusted value is at most `alpha`. */
  lemma {:induction false} AdjustedAgreesWithRejection(p: seq<real>, order: seq<nat>, alpha: real, i: nat)
    requires IsArgsort(order, p) && i < |p|
    ensures Adjusted(p, order)[i] <= alpha <==> Rejected(p, order, alpha)[i]
  {
    var ps := Indexed(p, order);
    var t := Scaled(ps);
    var c := Cutoff(p, order, alpha);
    var k := Position(order, i);
    RejectedAreSmallest(p, order, alpha, k);
    UnsortedAt(order, AdjustedSorted(ps), p, k);
    assert Adjusted(p, order)[i] == SuffixMin(t, k);
    if c.Some? && k <= c.value {
      ScaledBelow(ps, c.value, alpha);
      assert SuffixMin(t, k) <= t[c.value];
    }
    if SuffixMin(t, k) <= alpha {
      var l :| k <= l < |p| && SuffixMin(t, k) == t[l];
      ScaledBelow(ps, l, alpha);
      assert Below(ps, alpha, l);
    }
  }

  /**
    Lines 221-223, cell by cell: with a non-negative `alpha`, a cell is significant
    exactly when its p-value is not NaN and is at most the p-value at the cut-off.
   */
  lemma {:induction false} SignificantIff(flat: seq<Option<real>>, order: seq<nat>, alpha: real, i: nat)
    requires IsArgsort(order, Present(flat)) && 0.0 <= alpha && i < |flat|
    ensures var p := Present(flat);
            var c := Cutoff(p, order, alpha);
      (Significant(flat, order, alpha)[i] <==> flat[i].Some? && c.Some? && flat[i].value <= Indexed(p, order)[c.value])
  {
    if flat[i].Some? {
      RejectedIff(Present(flat), order, alpha, PresentIndex(flat, i));
    }
  }

  // ---------------------------------------------------------------- pairwise_correlations

  /** What `stats.pearsonr` and `stats.spearmanr` return: the coefficient and its two-sided p-value. */
  datatype Stat = Stat(r: real, p: real)

  /** `ValueError('method must be pearson or spearman')`. */
  datatype CorrelationError = UnknownMethod

  predicate KnownMethod(methodName: string) {
    methodName == "pearson" || methodName == "spearman"
  }

  /** Lines 124-129: the statistic of one pair of columns, `None` where the method is unknown. */
  function PairStat(x: seq<real>, y: seq<real>, methodName: string,
                    pearson: (seq<real>, seq<real>) -> Stat,
                    spearman: (seq<real>, seq<real>) -> Stat): (r: Option<Stat>)
    ensures r.Some? <==> KnownMethod(methodName)
  {
    if methodName == "pearson" then Some(pearson(x, y))
    else if methodName == "spearman" then Some(spearman(x, y))
    else None
  }

  /** The statistic of columns `a` and `b`, computed once for the pair with the smaller index first (line 121). */
  function PairOf(cols: seq<seq<real>>, methodName: string, pearson: (seq<real>, seq<real>) -> Stat,
                  spearman: (seq<real>, seq<real>) -> Stat, a: nat, b: nat): Stat
    requires a < |cols| && b < |cols| && KnownMethod(methodName)
  {
    var lo := if a <= b then a else b;
    var hi := if a <= b then b else a;
    PairStat(cols[lo], cols[hi], methodName, pearson, spearman).value
  }

  /** The finished correlation matrix at `[a][b]`. */
  function CorrCell(cols: seq<seq<real>>, methodName: string, pearson: (seq<real>, seq<real>) -> Stat,
                    spearman: (seq<real>, seq<real>) -> Stat, a: nat, b: nat): real
    requires a < |cols| && b < |cols| && (a == b || KnownMethod(methodName))
  {
    if a == b then 1.0 else PairOf(cols, methodName, pearson, spearman, a, b).r
  }

  /** The finished p-value matrix at `[a][b]`. */
  function PvalCell(cols: seq<seq<real>>, methodName: string, pearson: (seq<real>, seq<real>) -> Stat,
                    spearman: (seq<real>, seq<real>) -> Stat, a: nat, b: nat): real
    requires a < |cols| && b < |cols| && (a == b || KnownMethod(methodName))
  {
    if a == b then 0.0 else PairOf(cols, methodName, pearson, spearman, a, b).p
  }

  /** `pairwise_correlations(df, method)` on the frame's columns. */
  function Correlations(cols: seq<seq<real>>, methodName: string, pearson: (seq<real>, seq<real>) -> Stat,
                        spearman: (seq<real>, seq<real>) -> Stat): Result<(Matrix, Matrix), CorrelationError>
  {
    var n := |cols|;
    if 2 <= n && !KnownMethod(methodName) then Err(UnknownMethod)
    else Ok((TabulateMatrix(n, n, (a: nat, b: nat) requires a < n && b < n => CorrCell(cols, methodName, pearson, spearman, a, b)),
             TabulateMatrix(n, n, (a: nat, b: nat) requires a < n && b < n => PvalCell(cols, methodName, pearson, spearman, a, b))))
  }

  /**
    Lines 118-136: the matrices are symmetric, with 1.0 and 0.0 on the diagonals and
    each pair's statistic off it; an unknown method fails exactly when there is a pair.
   */
  lemma CorrelationsShape(cols: seq<seq<real>>, methodName: string, pearson: (seq<real>, seq<real>) -> Stat,
                          spearman: (seq<real>, seq<real>) -> Stat)
    ensures var r := Correlations(cols, methodName, pearson, spearman);
      r.Err? <==> 2 <= |cols| && !KnownMethod(methodName)
    ensures var r := Correlations(cols, methodName, pearson, spearman);
            var n := |cols|;
      r.Ok? ==>
        && IsMatrix(r.value.0, n, n) && IsMatrix(r.value.1, n, n)
        && (forall a | 0 <= a < n :: r.value.0[a][a] == 1.0 && r.value.1[a][a] == 0.0)
        && (forall a, b | 0 <= a < n && 0 <= b < n ::
              r.value.0[a][b] == r.value.0[b][a] && r.value.1[a][b] == r.value.1[b][a])
        && (forall a, b | 0 <= a < b < n ::
              Some(Stat(r.value.0[a][b], r.value.1[a][b])) == PairStat(cols[a], cols[b], methodName, pearson, spearman))
  {
  }

  /** Lines 130-133 for row `i`: every pair `(i, j)` with `j > i`, written on both sides of the diagonal. */
  method FillPairs(cols: seq<seq<real>>, methodName: string, pearson: (seq<real>, seq<real>) -> Stat,
                   spearman: (seq<real>, seq<real>) -> Stat, corr: array2<real>, pvals: array2<real>, i: nat)
    returns (ok: bool)
    requires corr != pvals
    requires corr.Length0 == corr.Length1 == pvals.Length0 == pvals.Length1 == |cols| && i < |cols|
    modifies corr, pvals
    ensures ok <==> i + 1 == |cols| || KnownMethod(methodName)
    ensures ok ==> forall a, b | 0 <= a < |cols| && 0 <= b < |cols| ::
      && corr[a, b] == (if a != b && (a == i || b == i) && i < a + b - i
                        then PairOf(cols, methodName, pearson, spearman, a, b).r else old(corr[a, b]))
      && pvals[a, b] == (if a != b && (a == i || b == i) && i < a + b - i
                         then PairOf(cols, methodName, pearson, spearman, a, b).p else old(pvals[a, b]))
  {
    var n := |cols|;
    for j := i + 1 to n
      invariant i + 1 < j ==> KnownMethod(methodName)
      invariant forall a, b | 0 <= a < n && 0 <= b < n ::
        && corr[a, b] == (if a != b && (a == i || b == i) && i < a + b - i < j
                          then PairOf(cols, methodName, pearson, spearman, a, b).r else old(corr[a, b]))
        && pvals[a, b] == (if a != b && (a == i || b == i) && i < a + b - i < j
                           then PairOf(cols, methodName, pearson, spearman, a, b).p else old(pvals[a, b]))
    {
      var st := PairStat(cols[i], cols[j], methodName, pearson, spearman);
      if st.None? {
        return false;
      }
      corr[i, j] := st.value.r;
      corr[j, i] := st.value.r;
      pvals[i, j] := st.value.p;
      pvals[j, i] := st.value.p;
    }
    return true;
  }

  /**
    Lines 116-137: `corr` starts as zeros and `pvals` as ones, every pair `i < j` is written
    on both sides of the diagonal, then the diagonals are set to 1.0 and 0.0. The result is
    exactly the matrices `Correlations` describes, and fails exactly where it does.
   */
  method PairwiseCorrelations(cols: seq<seq<real>>, methodName: string, pearson: (seq<real>, seq<real>) -> Stat,
                              spearman: (seq<real>, seq<real>) -> Stat)
    returns (r: Result<(array2<real>, array2<real>), CorrelationError>)
    ensures r.Err? <==> Correlations(cols, methodName, pearson, spearman).Err?
    ensures r.Ok? ==>
      && fresh(r.value.0) && fresh(r.value.1)
      && MatrixOf(r.value.0) == Correlations(cols, methodName, pearson, spearman).value.0
      && MatrixOf(r.value.1) == Correlations(cols, methodName, pearson, spearman).value.1
  {
    var n := |cols|;
    var corr := new real[n, n]((a: nat, b: nat) => 0.0);
    var pvals := new real[n, n]((a: nat, b: nat) => 1.0);
    for i := 0 to n
      invariant 1 < n && 0 < i ==> KnownMethod(methodName)
      invariant forall a, b | 0 <= a < n && 0 <= b < n ::
        && corr[a, b] == (if a != b && (if a <= b then a else b) < i
                          then PairOf(cols, methodName, pearson, spearman, a, b).r else 0.0)
        && pvals[a, b] == (if a != b && (if a <= b then a else b) < i
                           then PairOf(cols, methodName, pearson, spearman, a, b).p else 1.0)
    {
      var ok := FillPairs(cols, methodName, pearson, spearman, corr, pvals, i);
      if !ok {
        return Err(UnknownMethod);
      }
    }
    FillDiagonals(corr, pvals);
    var c := Correlations(cols, methodName, pearson, spearman);
    assert c.Ok?;
    forall a, b | 0 <= a < n && 0 <= b < n
      ensures corr[a, b] == c.value.0[a][b] && pvals[a, b] == c.value.1[a][b]
    {
    }
    MatrixExt(MatrixOf(corr), c.value.0, n, n);
    MatrixExt(MatrixOf(pvals), c.value.1, n, n);
    return Ok((corr, pvals));
  }

  /** Lines 135-136: `np.fill_diagonal(corr, 1.0)` and `np.fill_diagonal(pvals, 0.0)`; nothing else changes. */
  method FillDiagonals(corr: array2<real>, pvals: array2<real>)
    requires corr != pvals && corr.Length0 == corr.Length1 && pvals.Length0 == pvals.Length1 == corr.Length0
    modifies corr, pvals
    ensures forall a, b | 0 <= a < corr.Length0 && 0 <= b < corr.Length0 ::
      && corr[a, b] == (if a == b then 1.0 else old(corr[a, b]))
      && pvals[a, b] == (if a == b then 0.0 else old(pvals[a, b]))
  {
    var n := corr.Length0;
    for k := 0 to n
      invariant forall a, b | 0 <= a < n && 0 <= b < n ::
        && corr[a, b] == (if a == b && a < k then 1.0 else old(corr[a, b]))
        && pvals[a, b] == (if a == b && a < k then 0.0 else old(pvals[a, b]))
    {
      corr[k, k] := 1.0;
      pvals[k, k] := 0.0;
    }
  }
}
