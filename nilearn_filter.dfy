/**
  Two helpers of the nilearn connectome plotter
  (scripts/visualization/plot_nilearn_connectivity.py):
  `filter_connections`, which keeps the `[target, source]` connections a region
  selection asks for, and `AALCoordinateMapper.get_coordinates`, which finds a
  coordinate for each region name in a label-to-coordinate map.
 */
module NilearnFilter {
  import opened Wrappers
  import opened Text
  import opened Tensors
  import PebHeatmap

  // ---------------------------------------------------------------- region selection

  /** `any(src in name for src in regions)`: one of the regions is a substring of the name. */
  predicate MatchesAny(name: string, regions: seq<string>) {
    exists r | r in regions :: Contains(name, r)
  }

  /**
    Lines 252-262: index `i` is selected when no region list is given, when the list
    is empty, or when one of its regions is a substring of `names[i]`.
   */
  predicate Selected(names: seq<string>, regions: Option<seq<string>>, i: nat)
    requires i < |names|
  {
    match regions
    case None => true
    case Some(rs) => |rs| == 0 || MatchesAny(names[i], rs)
  }

  /** The loop behind `any(...)`. */
  method AnyRegionIn(name: string, regions: seq<string>) returns (found: bool)
    ensures found <==> MatchesAny(name, regions)
  {
    found := false;
    for k := 0 to |regions|
      invariant found <==> exists r | r in regions[..k] :: Contains(name, r)
    {
      assert regions[..k + 1] == regions[..k] + [regions[k]];
      if Contains(name, regions[k]) {
        found := true;
      }
    }
    assert regions[..|regions|] == regions;
  }

  /** Lines 252-262: the selected indices, in increasing order. */
  method SelectIndices(names: seq<string>, regions: Option<seq<string>>) returns (idx: seq<nat>)
    ensures forall k | 0 <= k < |idx| :: idx[k] < |names|
    ensures forall k, l | 0 <= k < l < |idx| :: idx[k] < idx[l]
    ensures forall i: nat | i < |names| :: i in idx <==> Selected(names, regions, i)
  {
    idx := [];
    for i := 0 to |names|
      invariant forall k | 0 <= k < |idx| :: idx[k] < i
      invariant forall k, l | 0 <= k < l < |idx| :: idx[k] < idx[l]
      invariant forall j: nat | j < i :: j in idx <==> Selected(names, regions, j)
    {
      var keep := true;
      if regions.Some? && |regions.value| > 0 {
        keep := AnyRegionIn(names[i], regions.value);
      }
      if keep {
        idx := idx + [i];
      }
    }
  }

  // ---------------------------------------------------------------- the mask

  /**
    Lines 264-290: whether `filter_connections` keeps connection `[t, s]` (from source
    `s` to target `t`). 'outgoing' and 'incoming' build the same mask; 'bidirectional'
    keeps every connection that touches a selected source or target region; any other
    type keeps nothing. No type keeps a self-connection.
   */
  predicate Keep(names: seq<string>, sources: Option<seq<string>>, targets: Option<seq<string>>,
                 kind: string, t: nat, s: nat)
    requires t < |names| && s < |names|
  {
    if kind == "outgoing" || kind == "incoming" then
      Selected(names, sources, s) && Selected(names, targets, t) && s != t
    else if kind == "bidirectional" then
      s != t &&
      (Selected(names, sources, s) || Selected(names, sources, t) ||
       Selected(names, targets, s) || Selected(names, targets, t))
    else
      false
  }

  /** Lines 292-295: a kept cell survives unless its magnitude is below the threshold. */
  function FilterCell(m: Matrix, names: seq<string>, sources: Option<seq<string>>, targets: Option<seq<string>>,
                      kind: string, threshold: real, t: nat, s: nat): real
    requires IsMatrix(m, |names|, |names|) && t < |names| && s < |names|
  {
    var x := if Keep(names, sources, targets, kind, t, s) then m[t][s] else 0.0;
    if PebHeatmap.Abs(x) < threshold then 0.0 else x
  }

  /** The matrix `filter_connections` returns. */
  function Filtered(m: Matrix, names: seq<string>, sources: Option<seq<string>>, targets: Option<seq<string>>,
                    kind: string, threshold: real): (r: Matrix)
    requires IsMatrix(m, |names|, |names|)
    ensures IsMatrix(r, |names|, |names|)
  {
    var n := |names|;
    TabulateMatrix(n, n, (t: nat, s: nat) requires t < n && s < n =>
      FilterCell(m, names, sources, targets, kind, threshold, t, s))
  }

  /** 'outgoing' and 'incoming' give the same result. */
  lemma OutgoingIsIncoming(m: Matrix, names: seq<string>, sources: Option<seq<string>>, targets: Option<seq<string>>,
                           threshold: real)
    requires IsMatrix(m, |names|, |names|)
    ensures Filtered(m, names, sources, targets, "outgoing", threshold)
         == Filtered(m, names, sources, targets, "incoming", threshold)
  {
    var n := |names|;
    var o := Filtered(m, names, sources, targets, "outgoing", threshold);
    var i := Filtered(m, names, sources, targets, "incoming", threshold);
    forall t, s | 0 <= t < n && 0 <= s < n
      ensures o[t][s] == i[t][s]
    {
      assert Keep(names, sources, targets, "outgoing", t, s) == Keep(names, sources, targets, "incoming", t, s);
    }
    MatrixExt(o, i, n, n);
  }

  /** The mask never keeps a self-connection, and the 'bidirectional' mask is symmetric. */
  lemma MaskShape(names: seq<string>, sources: Option<seq<string>>, targets: Option<seq<string>>, kind: string, t: nat, s: nat)
    requires t < |names| && s < |names|
    ensures !Keep(names, sources, targets, kind, t, t)
    ensures kind == "bidirectional" ==>
      Keep(names, sources, targets, kind, t, s) == Keep(names, sources, targets, kind, s, t)
  {
  }

  /** Every output cell is its input cell or 0, and no surviving cell is below the threshold in magnitude. */
  lemma FilteredCells(m: Matrix, names: seq<string>, sources: Option<seq<string>>, targets: Option<seq<string>>,
                      kind: string, threshold: real, t: nat, s: nat)
    requires IsMatrix(m, |names|, |names|) && t < |names| && s < |names|
    ensures var r := Filtered(m, names, sources, targets, kind, threshold)[t][s];
      (r == m[t][s] || r == 0.0) && (r == 0.0 || threshold <= PebHeatmap.Abs(r))
    ensures !Keep(names, sources, targets, kind, t, s) ==> Filtered(m, names, sources, targets, kind, threshold)[t][s] == 0.0
    ensures Keep(names, sources, targets, kind, t, s) && threshold <= PebHeatmap.Abs(m[t][s]) ==>
      Filtered(m, names, sources, targets, kind, threshold)[t][s] == m[t][s]
  {
  }

  /** A connection type the code does not know keeps nothing. */
  lemma UnknownKindKeepsNothing(m: Matrix, names: seq<string>, sources: Option<seq<string>>, targets: Option<seq<string>>,
                                kind: string, threshold: real)
    requires IsMatrix(m, |names|, |names|)
    requires kind != "outgoing" && kind != "incoming" && kind != "bidirectional"
    ensures Filtered(m, names, sources, targets, kind, threshold) == ZeroMatrix(|names|, |names|)
  {
    var n := |names|;
    MatrixExt(Filtered(m, names, sources, targets, kind, threshold), ZeroMatrix(n, n), n, n);
  }

  /** With no region lists, 'outgoing' keeps every connection between two different regions. */
  lemma NoSelectionKeepsOffDiagonal(names: seq<string>, t: nat, s: nat)
    requires t < |names| && s < |names|
    ensures Keep(names, None, None, "outgoing", t, s) <==> t != s
    ensures Keep(names, Some([]), Some([]), "bidirectional", t, s) <==> t != s
  {
  }

  /** Lines 264-269: `mask[tgt, src] = True` for every listed pair with `src != tgt`. */
  method MarkDirected(mask: array2<bool>, srcIdx: seq<nat>, tgtIdx: seq<nat>)
    requires mask.Length0 == mask.Length1
    requires forall k | 0 <= k < |srcIdx| :: srcIdx[k] < mask.Length0
    requires forall k | 0 <= k < |tgtIdx| :: tgtIdx[k] < mask.Length0
    modifies mask
    ensures forall t, s | 0 <= t < mask.Length0 && 0 <= s < mask.Length1 ::
      mask[t, s] == (old(mask[t, s]) || (s in srcIdx && t in tgtIdx && s != t))
  {
    for i := 0 to |srcIdx|
      invariant forall t, s | 0 <= t < mask.Length0 && 0 <= s < mask.Length1 ::
        mask[t, s] == (old(mask[t, s]) || (s in srcIdx[..i] && t in tgtIdx && s != t))
    {
      assert srcIdx[..i + 1] == srcIdx[..i] + [srcIdx[i]];
      var src := srcIdx[i];
      for j := 0 to |tgtIdx|
        invariant forall t, s | 0 <= t < mask.Length0 && 0 <= s < mask.Length1 ::
          mask[t, s] == (old(mask[t, s]) || (s in srcIdx[..i] && t in tgtIdx && s != t)
                                          || (s == src && t in tgtIdx[..j] && s != t))
      {
        assert tgtIdx[..j + 1] == tgtIdx[..j] + [tgtIdx[j]];
        if src != tgtIdx[j] {
          mask[tgtIdx[j], src] := true;
        }
      }
      assert tgtIdx[..|tgtIdx|] == tgtIdx;
    }
    assert srcIdx[..|srcIdx|] == srcIdx;
  }

  /** One pass of lines 279-285 (or 286-290): mark row and column `x` except the diagonal. */
  method MarkCross(mask: array2<bool>, x: nat)
    requires mask.Length0 == mask.Length1 && x < mask.Length0
    modifies mask
    ensures forall a, b | 0 <= a < mask.Length0 && 0 <= b < mask.Length1 ::
      mask[a, b] == (old(mask[a, b]) || (a != b && (a == x || b == x)))
  {
    for other := 0 to mask.Length0
      invariant forall a, b | 0 <= a < mask.Length0 && 0 <= b < mask.Length1 ::
        mask[a, b] == (old(mask[a, b]) || (a != b && ((a == x && b < other) || (b == x && a < other))))
    {
      if x != other {
        mask[other, x] := true;
        mask[x, other] := true;
      }
    }
  }

  /** Lines 279-290: mark every connection touching one of `idx`. */
  method MarkTouching(mask: array2<bool>, idx: seq<nat>)
    requires mask.Length0 == mask.Length1
    requires forall k | 0 <= k < |idx| :: idx[k] < mask.Length0
    modifies mask
    ensures forall a, b | 0 <= a < mask.Length0 && 0 <= b < mask.Length1 ::
      mask[a, b] == (old(mask[a, b]) || (a != b && (a in idx || b in idx)))
  {
    for i := 0 to |idx|
      invariant forall a, b | 0 <= a < mask.Length0 && 0 <= b < mask.Length1 ::
        mask[a, b] == (old(mask[a, b]) || (a != b && (a in idx[..i] || b in idx[..i])))
    {
      assert idx[..i + 1] == idx[..i] + [idx[i]];
      MarkCross(mask, idx[i]);
    }
    assert idx[..|idx|] == idx;
  }

  /** Lines 252-290: the boolean mask, `Keep` for every cell. */
  method BuildMask(names: seq<string>, sources: Option<seq<string>>, targets: Option<seq<string>>, kind: string)
    returns (mask: array2<bool>)
    ensures fresh(mask) && mask.Length0 == |names| && mask.Length1 == |names|
    ensures forall t, s | 0 <= t < |names| && 0 <= s < |names| :: mask[t, s] == Keep(names, sources, targets, kind, t, s)
  {
    var n := |names|;
    var srcIdx := SelectIndices(names, sources);
    var tgtIdx := SelectIndices(names, targets);
    mask := new bool[n, n]((t, s) => false);
    if kind == "outgoing" || kind == "incoming" {
      MarkDirected(mask, srcIdx, tgtIdx);
    } else if kind == "bidirectional" {
      MarkTouching(mask, srcIdx);
      MarkTouching(mask, tgtIdx);
    }
  }

  /** Lines 292-295 on one row: zero what the mask drops, then what is below the threshold. */
  method FilterRow(filtered: array2<real>, mask: array2<bool>, threshold: real, t: nat)
    requires filtered.Length0 == mask.Length0 && filtered.Length1 == mask.Length1 && t < filtered.Length0
    modifies filtered
    ensures forall s | 0 <= s < filtered.Length1 ::
      filtered[t, s] == (var x := if mask[t, s] then old(filtered[t, s]) else 0.0;
                         if PebHeatmap.Abs(x) < threshold then 0.0 else x)
    ensures forall a, s | 0 <= a < filtered.Length0 && 0 <= s < filtered.Length1 && a != t ::
      filtered[a, s] == old(filtered[a, s])
  {
    for s := 0 to filtered.Length1
      invariant forall j | 0 <= j < s ::
        filtered[t, j] == (var x := if mask[t, j] then old(filtered[t, j]) else 0.0;
                           if PebHeatmap.Abs(x) < threshold then 0.0 else x)
      invariant forall j | s <= j < filtered.Length1 :: filtered[t, j] == old(filtered[t, j])
      invariant forall a, j | 0 <= a < filtered.Length0 && 0 <= j < filtered.Length1 && a != t ::
        filtered[a, j] == old(filtered[a, j])
    {
      if !mask[t, s] {
        filtered[t, s] := 0.0;
      }
      if PebHeatmap.Abs(filtered[t, s]) < threshold {
        filtered[t, s] := 0.0;
      }
    }
  }

  /**
    `filter_connections`: a new matrix holding the kept connections of `matrix` whose
    magnitude reaches `threshold`; `matrix` itself is not modified.
   */
  method FilterConnections(matrix: array2<real>, names: seq<string>, sources: Option<seq<string>>,
                           targets: Option<seq<string>>, kind: string, threshold: real)
    returns (filtered: array2<real>)
    requires matrix.Length0 == |names| && matrix.Length1 == |names|
    ensures fresh(filtered) && filtered.Length0 == |names| && filtered.Length1 == |names|
    ensures MatrixOf(filtered) == Filtered(MatrixOf(matrix), names, sources, targets, kind, threshold)
  {
    var n := |names|;
    filtered := new real[n, n]((t, s) reads matrix => if 0 <= t < n && 0 <= s < n then matrix[t, s] else 0.0);
    var mask := BuildMask(names, sources, targets, kind);
    ghost var m := MatrixOf(matrix);
    for t := 0 to n
      modifies filtered
      invariant forall a, s | 0 <= a < t && 0 <= s < n ::
        filtered[a, s] == FilterCell(m, names, sources, targets, kind, threshold, a, s)
      invariant forall a, s | t <= a < n && 0 <= s < n :: filtered[a, s] == matrix[a, s]
    {
      FilterRow(filtered, mask, threshold, t);
      forall s | 0 <= s < n
        ensures filtered[t, s] == FilterCell(m, names, sources, targets, kind, threshold, t, s)
      {
        assert mask[t, s] == Keep(names, sources, targets, kind, t, s);
      }
    }
    MatrixExt(MatrixOf(filtered), Filtered(m, names, sources, targets, kind, threshold), n, n);
  }

  // ---------------------------------------------------------------- coordinates

  /** An MNI coordinate. */
  datatype Coord = Coord(x: real, y: real, z: real)

  /** The coordinate of a region nothing matches. */
  const Origin := Coord(0.0, 0.0, 0.0)

  /** The label-to-coordinate map, in insertion order; a dictionary's labels are distinct. */
  ghost predicate DistinctLabels(entries: seq<(string, Coord)>) {
    forall k, l | 0 <= k < l < |entries| :: entries[k].0 != entries[l].0
  }

  /** `roi_name in self.coord_map`: the entry whose key is the name. */
  function FindExact(entries: seq<(string, Coord)>, name: string): (r: Option<nat>)
    ensures r.Some? ==> r.value < |entries| && entries[r.value].0 == name
    ensures r.None? ==> forall k | 0 <= k < |entries| :: entries[k].0 != name
  {
    if |entries| == 0 then None
    else if entries[0].0 == name then Some(0)
    else match FindExact(entries[1..], name)
      case None => None
      case Some(k) => Some(k + 1)
  }

  /** Line 104: the key and the name contain one another, ignoring ASCII case. */
  predicate PartialMatch(key: string, name: string) {
    Contains(LowerStr(key), LowerStr(name)) || Contains(LowerStr(name), LowerStr(key))
  }

  /** Lines 103-108: the first entry, in map order, whose key partially matches. */
  function FindPartial(entries: seq<(string, Coord)>, name: string): (r: Option<nat>)
    ensures r.Some? ==> r.value < |entries| && PartialMatch(entries[r.value].0, name)
    ensures r.Some? ==> forall k | 0 <= k < r.value :: !PartialMatch(entries[k].0, name)
    ensures r.None? ==> forall k | 0 <= k < |entries| :: !PartialMatch(entries[k].0, name)
  {
    if |entries| == 0 then None
    else if PartialMatch(entries[0].0, name) then Some(0)
    else match FindPartial(entries[1..], name)
      case None => None
      case Some(k) => Some(k + 1)
  }

  /** Lines 97-112: the coordinate `get_coordinates` gives one region name. */
  function Lookup(entries: seq<(string, Coord)>, name: string): Coord {
    match FindExact(entries, name)
    case Some(k) => entries[k].1
    case None =>
      match FindPartial(entries, name)
      case Some(k) => entries[k].1
      case None => Origin
  }

  /** An exact key wins over every partial match. */
  lemma ExactLabelWins(entries: seq<(string, Coord)>, name: string, c: Coord)
    requires DistinctLabels(entries) && (name, c) in entries
    ensures Lookup(entries, name) == c
  {
    var k :| 0 <= k < |entries| && entries[k] == (name, c);
    assert entries[FindExact(entries, name).value].0 == entries[k].0;
  }

  /** Without an exact key, the result is the first partial match, or the origin when none exists. */
  lemma PartialFallback(entries: seq<(string, Coord)>, name: string, k: nat)
    requires forall l | 0 <= l < |entries| :: entries[l].0 != name
    requires k < |entries| && PartialMatch(entries[k].0, name)
    requires forall l | 0 <= l < k :: !PartialMatch(entries[l].0, name)
    ensures Lookup(entries, name) == entries[k].1
  {
    var r := FindPartial(entries, name).value;
    assert k <= r;
    assert r <= k;
  }

  /** A name that matches no key in either direction maps to the origin. */
  lemma UnknownNameIsOrigin(entries: seq<(string, Coord)>, name: string)
    requires forall l | 0 <= l < |entries| :: entries[l].0 != name && !PartialMatch(entries[l].0, name)
    ensures Lookup(entries, name) == Origin
  {
  }

  /** The partial match ignores case: two names that differ only in letter case and have no exact key get the same coordinate. */
  lemma LookupIgnoresCase(entries: seq<(string, Coord)>, name1: string, name2: string)
    requires LowerStr(name1) == LowerStr(name2)
    requires FindExact(entries, name1).None? && FindExact(entries, name2).None?
    ensures Lookup(entries, name1) == Lookup(entries, name2)
  {
    assert forall key :: PartialMatch(key, name1) == PartialMatch(key, name2);
    FindPartialCongruent(entries, name1, name2);
  }

  lemma {:induction false} FindPartialCongruent(entries: seq<(string, Coord)>, name1: string, name2: string)
    requires forall key :: PartialMatch(key, name1) == PartialMatch(key, name2)
    ensures FindPartial(entries, name1) == FindPartial(entries, name2)
  {
    if |entries| > 0 {
      FindPartialCongruent(entries[1..], name1, name2);
    }
  }

  /** Lines 96-112: the loop over the region names, with the partial-match scan and its `break`. */
  method GetCoordinates(entries: seq<(string, Coord)>, names: seq<string>) returns (coords: seq<Coord>)
    ensures |coords| == |names|
    ensures forall k | 0 <= k < |names| :: coords[k] == Lookup(entries, names[k])
  {
    coords := [];
    for i := 0 to |names|
      invariant |coords| == i
      invariant forall k | 0 <= k < i :: coords[k] == Lookup(entries, names[k])
    {
      var name := names[i];
      var exact := FindExact(entries, name);
      if exact.Some? {
        coords := coords + [entries[exact.value].1];
      } else {
        var matched := false;
        var j := 0;
        while j < |entries|
          invariant 0 <= j <= |entries|
          invariant !matched && |coords| == i
          invariant forall l | 0 <= l < j :: !PartialMatch(entries[l].0, name)
        {
          if PartialMatch(entries[j].0, name) {
            PartialFallback(entries, name, j);
            coords := coords + [entries[j].1];
            matched := true;
            break;
          }
          j := j + 1;
        }
        if !matched {
          coords := coords + [Origin];
        }
      }
    }
  }
}
