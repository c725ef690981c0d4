/**
  The numeric first half of `PEBPlotter.plot_heatmaps` (plot_PEB_results.py:445-541):
  the reshaped `Ep` tensor is thresholded by posterior probability, the diagonal
  (self-connection) parameters are taken back from DCM's log scale, a `'change'`
  model gains two derived covariates, and the ROIs are optionally permuted.

  Each step is a function on cube values, and a method that updates the arrays the
  way the source does is proved to compute it. `exp` is a parameter: nothing about
  it is assumed except where a lemma says so.
 */
module PebHeatmap {
  import opened Wrappers
  import opened Tensors
  import opened PebReshape

  /** The exceptions this part of `plot_heatmaps` can raise. */
  datatype HeatmapError =
    | ReshapeFailed(cause: ReshapeError)  // ZeroDivisionError in the reshaper
    | MissingCovariateNames               // TypeError: `list(None)` for a 'change' model without `Xnames`
    | ReorderLengthMismatch               // ValueError: `roi_reorder` does not list every ROI
    | ReorderIndexOutOfRange              // IndexError: an index outside the ROI list

  // ---------------------------------------------------------------- threshold

  function ThresholdCell(e: real, p: real, threshold: real): real {
    if p < threshold then 0.0 else e
  }

  /** `Ep[Pp < pp_threshold] = 0`. */
  function Thresholded(e: Cube, p: Cube, threshold: real, n: nat, cov: nat): (t: Cube)
    requires IsCube(e, n, n, cov) && IsCube(p, n, n, cov)
    ensures IsCube(t, n, n, cov)
  {
    Tabulate(n, n, cov, (i: nat, j: nat, c: nat) requires i < n && j < n && c < cov =>
      ThresholdCell(e[i][j][c], p[i][j][c], threshold))
  }

  /** Thresholding twice with the same probabilities is thresholding once. */
  lemma ThresholdIdempotent(e: Cube, p: Cube, threshold: real, n: nat, cov: nat)
    requires IsCube(e, n, n, cov) && IsCube(p, n, n, cov)
    ensures Thresholded(Thresholded(e, p, threshold, n, cov), p, threshold, n, cov) == Thresholded(e, p, threshold, n, cov)
  {
    var once := Thresholded(e, p, threshold, n, cov);
    CubeExt(Thresholded(once, p, threshold, n, cov), once, n, n, cov);
  }

  /** A stricter threshold applied after a looser one gives the stricter threshold alone. */
  lemma ThresholdAbsorbs(e: Cube, p: Cube, loose: real, strict: real, n: nat, cov: nat)
    requires IsCube(e, n, n, cov) && IsCube(p, n, n, cov) && loose <= strict
    ensures Thresholded(Thresholded(e, p, loose, n, cov), p, strict, n, cov) == Thresholded(e, p, strict, n, cov)
  {
    CubeExt(Thresholded(Thresholded(e, p, loose, n, cov), p, strict, n, cov), Thresholded(e, p, strict, n, cov), n, n, cov);
  }

  /** Lines 469-472: the cells whose probability is below the threshold become 0, in place. */
  method ApplyThreshold(ep3: array3<real>, pp3: array3<real>, threshold: real)
    requires ep3 != pp3
    requires ep3.Length0 == ep3.Length1 && pp3.Length0 == ep3.Length0 && pp3.Length1 == ep3.Length0
    requires pp3.Length2 == ep3.Length2
    modifies ep3
    ensures CubeOf(ep3) == Thresholded(old(CubeOf(ep3)), CubeOf(pp3), threshold, ep3.Length0, ep3.Length2)
  {
    var n, cov := ep3.Length0, ep3.Length2;
    ghost var e0 := CubeOf(ep3);
    for c := 0 to cov
      invariant forall a, b, d | 0 <= a < n && 0 <= b < n && 0 <= d < cov ::
        ep3[a, b, d] == (if d < c then ThresholdCell(e0[a][b][d], pp3[a, b, d], threshold) else e0[a][b][d])
    {
      for i := 0 to n
        invariant forall a, b, d | 0 <= a < n && 0 <= b < n && 0 <= d < cov ::
          ep3[a, b, d] == (if d < c || (d == c && a < i) then ThresholdCell(e0[a][b][d], pp3[a, b, d], threshold) else e0[a][b][d])
      {
        for j := 0 to n
          invariant forall a, b, d | 0 <= a < n && 0 <= b < n && 0 <= d < cov ::
            ep3[a, b, d] == (if Before(d, a, b, c, i, j) then ThresholdCell(e0[a][b][d], pp3[a, b, d], threshold) else e0[a][b][d])
        {
          if pp3[i, j, c] < threshold {
            ep3[i, j, c] := 0.0;
          }
        }
      }
    }
    CubeExt(CubeOf(ep3), Thresholded(e0, CubeOf(pp3), threshold, n, cov), n, n, cov);
  }

  // ---------------------------------------------------------------- diagonal revert

  predicate IsChange(pebType: Option<string>) {
    pebType == Some("change")
  }

  predicate RevertsEveryCovariate(pebType: Option<string>) {
    pebType == Some("behav_associations") || pebType == Some("groupmean")
  }

  /** DCM stores a self-connection `x` as `log(-2x)`; `-exp(y)/2` takes it back. */
  function Unlog(exp: real -> real, y: real): real {
    -exp(y) / 2.0
  }

  function RevertCell(e: Cube, n: nat, cov: nat, pebType: Option<string>, revertDiag: bool, exp: real -> real,
                      i: nat, j: nat, c: nat): real
    requires IsCube(e, n, n, cov) && i < n && j < n && c < cov
  {
    if i != j || !revertDiag then e[i][j][c]
    else if IsChange(pebType) && cov == 2 then
      if c == 0 then Unlog(exp, e[i][i][0])
      else exp(e[i][i][0]) / 2.0 - exp(e[i][i][0] + e[i][i][1]) / 2.0
    else if RevertsEveryCovariate(pebType) then Unlog(exp, e[i][i][c])
    else e[i][j][c]
  }

  /** Lines 476-497, as a function of the thresholded tensor. */
  function Reverted(e: Cube, n: nat, cov: nat, pebType: Option<string>, revertDiag: bool, exp: real -> real): (t: Cube)
    requires IsCube(e, n, n, cov)
    ensures IsCube(t, n, n, cov)
  {
    Tabulate(n, n, cov, (i: nat, j: nat, c: nat) requires i < n && j < n && c < cov =>
      RevertCell(e, n, cov, pebType, revertDiag, exp, i, j, c))
  }

  /** Only diagonal cells change, and nothing changes when the revert is off or the model type has none. */
  lemma RevertTouchesOnlyDiagonal(e: Cube, n: nat, cov: nat, pebType: Option<string>, revertDiag: bool, exp: real -> real)
    requires IsCube(e, n, n, cov)
    ensures forall i, j, c | 0 <= i < n && 0 <= j < n && 0 <= c < cov && i != j ::
      Reverted(e, n, cov, pebType, revertDiag, exp)[i][j][c] == e[i][j][c]
    ensures !revertDiag || (!IsChange(pebType) && !RevertsEveryCovariate(pebType)) ==>
      Reverted(e, n, cov, pebType, revertDiag, exp) == e
  {
    var r := Reverted(e, n, cov, pebType, revertDiag, exp);
    if !revertDiag || (!IsChange(pebType) && !RevertsEveryCovariate(pebType)) {
      CubeExt(r, e, n, n, cov);
    }
  }

  /**
    For a 'change' model the two reverted diagonals add up to the revert of the
    second group's log value `d0 + d1`: the mean of the second group, formed later
    as the sum of the two covariates, is on the same scale as the first.
   */
  lemma ChangeRevertSum(e: Cube, n: nat, exp: real -> real, i: nat)
    requires IsCube(e, n, n, 2) && i < n
    ensures Reverted(e, n, 2, Some("change"), true, exp)[i][i][0] == Unlog(exp, e[i][i][0])
    ensures Reverted(e, n, 2, Some("change"), true, exp)[i][i][0] + Reverted(e, n, 2, Some("change"), true, exp)[i][i][1]
         == Unlog(exp, e[i][i][0] + e[i][i][1])
  {
  }

  /** A self-connection zeroed by the threshold reverts to `-exp(0)/2`, that is -0.5 when `exp(0) = 1`. */
  lemma ThresholdedSelfConnection(e: Cube, p: Cube, threshold: real, n: nat, cov: nat, exp: real -> real, pebType: Option<string>, i: nat, c: nat)
    requires IsCube(e, n, n, cov) && IsCube(p, n, n, cov) && i < n && c < cov
    requires RevertsEveryCovariate(pebType) && exp(0.0) == 1.0 && p[i][i][c] < threshold
    ensures Reverted(Thresholded(e, p, threshold, n, cov), n, cov, pebType, true, exp)[i][i][c] == -0.5
  {
  }

  /** `np.diag(Ep[:, :, c]).copy()`. */
  method DiagonalOf(ep3: array3<real>, c: nat) returns (d: seq<real>)
    requires ep3.Length0 == ep3.Length1 && c < ep3.Length2
    ensures |d| == ep3.Length0 && forall i | 0 <= i < |d| :: d[i] == ep3[i, i, c]
  {
    d := [];
    for i := 0 to ep3.Length0
      invariant |d| == i && forall k | 0 <= k < i :: d[k] == ep3[k, k, c]
    {
      d := d + [ep3[i, i, c]];
    }
  }

  /** Lines 476-497: the diagonals are rewritten in place, from copies taken before any write. */
  method RevertDiagonal(ep3: array3<real>, pebType: Option<string>, revertDiag: bool, exp: real -> real)
    requires ep3.Length0 == ep3.Length1
    modifies ep3
    ensures CubeOf(ep3) == Reverted(old(CubeOf(ep3)), ep3.Length0, ep3.Length2, pebType, revertDiag, exp)
  {
    var n, cov := ep3.Length0, ep3.Length2;
    ghost var e0 := CubeOf(ep3);
    if revertDiag && IsChange(pebType) && cov == 2 {
      RevertChangeDiagonals(ep3, exp);
    } else if revertDiag && RevertsEveryCovariate(pebType) {
      RevertEveryDiagonal(ep3, exp);
    }
    assert forall a, d | 0 <= a < n && 0 <= d < cov :: ep3[a, a, d] == RevertCell(e0, n, cov, pebType, revertDiag, exp, a, a, d);
    RevertedByCells(e0, CubeOf(ep3), n, cov, pebType, revertDiag, exp);
  }

  /** A cube that keeps the off-diagonal cells of `e` and holds the reverted diagonal is `Reverted(e, ...)`. */
  lemma RevertedByCells(e: Cube, r: Cube, n: nat, cov: nat, pebType: Option<string>, revertDiag: bool, exp: real -> real)
    requires IsCube(e, n, n, cov) && IsCube(r, n, n, cov)
    requires forall a, b, d | 0 <= a < n && 0 <= b < n && 0 <= d < cov && a != b :: r[a][b][d] == e[a][b][d]
    requires forall a, d | 0 <= a < n && 0 <= d < cov :: r[a][a][d] == RevertCell(e, n, cov, pebType, revertDiag, exp, a, a, d)
    ensures r == Reverted(e, n, cov, pebType, revertDiag, exp)
  {
    CubeExt(r, Reverted(e, n, cov, pebType, revertDiag, exp), n, n, cov);
  }

  /** The 'change' revert: both diagonals are computed from copies of the original two. */
  method RevertChangeDiagonals(ep3: array3<real>, exp: real -> real)
    requires ep3.Length0 == ep3.Length1 && ep3.Length2 == 2
    modifies ep3
    ensures forall a | 0 <= a < ep3.Length0 ::
      && ep3[a, a, 0] == Unlog(exp, old(ep3[a, a, 0]))
      && ep3[a, a, 1] == exp(old(ep3[a, a, 0])) / 2.0 - exp(old(ep3[a, a, 0]) + old(ep3[a, a, 1])) / 2.0
    ensures forall a, b, d | 0 <= a < ep3.Length0 && 0 <= b < ep3.Length1 && 0 <= d < 2 && a != b ::
      ep3[a, b, d] == old(ep3[a, b, d])
  {
    var n := ep3.Length0;
    var d0 := DiagonalOf(ep3, 0);
    var d1 := DiagonalOf(ep3, 1);
    for i := 0 to n
      invariant forall a | 0 <= a < n ::
        && ep3[a, a, 0] == (if a < i then Unlog(exp, d0[a]) else d0[a])
        && ep3[a, a, 1] == (if a < i then exp(d0[a]) / 2.0 - exp(d0[a] + d1[a]) / 2.0 else d1[a])
      invariant forall a, b, d | 0 <= a < n && 0 <= b < n && 0 <= d < 2 && a != b :: ep3[a, b, d] == old(ep3[a, b, d])
    {
      ep3[i, i, 0] := Unlog(exp, d0[i]);
      ep3[i, i, 1] := exp(d0[i]) / 2.0 - exp(d0[i] + d1[i]) / 2.0;
    }
  }

  /** The 'behav_associations' and 'groupmean' revert: every covariate's diagonal, one covariate at a time. */
  method RevertEveryDiagonal(ep3: array3<real>, exp: real -> real)
    requires ep3.Length0 == ep3.Length1
    modifies ep3
    ensures forall a, d | 0 <= a < ep3.Length0 && 0 <= d < ep3.Length2 :: ep3[a, a, d] == Unlog(exp, old(ep3[a, a, d]))
    ensures forall a, b, d | 0 <= a < ep3.Length0 && 0 <= b < ep3.Length1 && 0 <= d < ep3.Length2 && a != b ::
      ep3[a, b, d] == old(ep3[a, b, d])
  {
    var n, cov := ep3.Length0, ep3.Length2;
    for c := 0 to cov
      invariant forall a, b, d | 0 <= a < n && 0 <= b < n && 0 <= d < cov && a != b :: ep3[a, b, d] == old(ep3[a, b, d])
      invariant forall a, d | 0 <= a < n && 0 <= d < cov ::
        ep3[a, a, d] == (if d < c then Unlog(exp, old(ep3[a, a, d])) else old(ep3[a, a, d]))
    {
      RevertCovariate(ep3, c, exp);
    }
  }

  /** `np.fill_diagonal(A, -np.exp(np.diag(A)) / 2)` on covariate `c`. */
  method RevertCovariate(ep3: array3<real>, c: nat, exp: real -> real)
    requires ep3.Length0 == ep3.Length1 && c < ep3.Length2
    modifies ep3
    ensures forall a | 0 <= a < ep3.Length0 :: ep3[a, a, c] == Unlog(exp, old(ep3[a, a, c]))
    ensures forall a, b, d | 0 <= a < ep3.Length0 && 0 <= b < ep3.Length1 && 0 <= d < ep3.Length2 && (a != b || d != c) ::
      ep3[a, b, d] == old(ep3[a, b, d])
  {
    var n := ep3.Length0;
    for i := 0 to n
      invariant forall a | 0 <= a < n :: ep3[a, a, c] == (if a < i then Unlog(exp, old(ep3[a, a, c])) else old(ep3[a, a, c]))
      invariant forall a, b, d | 0 <= a < n && 0 <= b < n && 0 <= d < ep3.Length2 && (a != b || d != c) ::
        ep3[a, b, d] == old(ep3[a, b, d])
    {
      ep3[i, i, c] := Unlog(exp, ep3[i, i, c]);
    }
  }

  // ---------------------------------------------------------------- change toward zero

  function Abs(x: real): real {
    if x < 0.0 then -x else x
  }

  /** The four covariates of a 'change' model: baseline, change, second-group mean, and change toward 0. */
  function ExpandedCell(e: Cube, n: nat, i: nat, j: nat, c: nat): real
    requires IsCube(e, n, n, 2) && i < n && j < n && c < 4
  {
    var baseline, mean := e[i][j][0], e[i][j][0] + e[i][j][1];
    if c == 0 then baseline
    else if c == 1 then e[i][j][1]
    else if c == 2 then mean
    else mean - baseline
  }

  function ChangeExpanded(e: Cube, n: nat): (t: Cube)
    requires IsCube(e, n, n, 2)
    ensures IsCube(t, n, n, 4)
  {
    Tabulate(n, n, 4, (i: nat, j: nat, c: nat) requires i < n && j < n && c < 4 => ExpandedCell(e, n, i, j, c))
  }

  /** Distance from 0 of the second group's mean, less that of the baseline. */
  function MagnitudeCell(baseline: real, change: real): real {
    Abs(baseline + change) - Abs(baseline)
  }

  /** The baseline and the second group's mean have a negative product. */
  predicate SignFlips(baseline: real, change: real) {
    baseline * (baseline + change) < 0.0
  }

  /** `magnitude_change = |Ep_mean| - |baseline|`: negative when the connection moved toward 0. */
  function MagnitudeChange(e: Cube, n: nat): (m: Matrix)
    requires IsCube(e, n, n, 2)
    ensures IsMatrix(m, n, n)
  {
    TabulateMatrix(n, n, (i: nat, j: nat) requires i < n && j < n => MagnitudeCell(e[i][j][0], e[i][j][1]))
  }

  /** `sign_change_mask = baseline * Ep_mean < 0`. */
  function SignChange(e: Cube, n: nat): (m: seq<seq<bool>>)
    requires IsCube(e, n, n, 2)
    ensures IsMatrix(m, n, n)
  {
    TabulateMatrix(n, n, (i: nat, j: nat) requires i < n && j < n => SignFlips(e[i][j][0], e[i][j][1]))
  }

  /** The covariate names after the expansion; `list(None)` raises. */
  function ExpandedNames(names: Option<seq<string>>): (r: Result<seq<string>, HeatmapError>)
    ensures names.None? <==> r.Err?
    ensures r.Ok? ==> |r.value| == |names.value| + 2 && r.value[..|names.value|] == names.value
    ensures r.Ok? ==> r.value[|names.value|..] == ["mean of second group", "Change toward 0"]
  {
    match names
    case None => Err(MissingCovariateNames)
    case Some(ns) => Ok(ns + ["mean of second group", "Change toward 0"])
  }

  /** The expansion keeps the two original covariates, and "change toward 0" equals the change covariate. */
  lemma ExpansionKeepsCovariates(e: Cube, n: nat, i: nat, j: nat)
    requires IsCube(e, n, n, 2) && i < n && j < n
    ensures ChangeExpanded(e, n)[i][j][0] == e[i][j][0]
    ensures ChangeExpanded(e, n)[i][j][1] == e[i][j][1]
    ensures ChangeExpanded(e, n)[i][j][2] == ChangeExpanded(e, n)[i][j][0] + ChangeExpanded(e, n)[i][j][1]
    ensures ChangeExpanded(e, n)[i][j][3] == e[i][j][1]
  {
  }

  /** The sign mask marks exactly the connections whose baseline and second-group mean have opposite signs. */
  lemma SignChangeIff(e: Cube, n: nat, i: nat, j: nat)
    requires IsCube(e, n, n, 2) && i < n && j < n
    ensures SignChange(e, n)[i][j] <==>
      var baseline, mean := e[i][j][0], e[i][j][0] + e[i][j][1];
      (baseline < 0.0 && mean > 0.0) || (baseline > 0.0 && mean < 0.0)
  {
    var baseline, mean := e[i][j][0], e[i][j][0] + e[i][j][1];
    SignOfProduct(baseline, mean);
  }

  lemma SignOfProduct(x: real, y: real)
    ensures x * y < 0.0 <==> (x < 0.0 && y > 0.0) || (x > 0.0 && y < 0.0)
  {
    if x < 0.0 && y < 0.0 {
      assert (-x) * (-y) > 0.0;
    } else if x > 0.0 && y > 0.0 {
      assert x * y > 0.0;
    } else if x < 0.0 && y > 0.0 {
      assert (-x) * y > 0.0;
    } else if x > 0.0 && y < 0.0 {
      assert x * (-y) > 0.0;
    }
  }

  /** The magnitude is negative exactly when the second group's mean is closer to 0 than the baseline. */
  lemma MagnitudeTowardZero(e: Cube, n: nat, i: nat, j: nat)
    requires IsCube(e, n, n, 2) && i < n && j < n
    ensures MagnitudeChange(e, n)[i][j] < 0.0 <==> Abs(e[i][j][0] + e[i][j][1]) < Abs(e[i][j][0])
  {
  }

  /** Lines 500-527: `Ep_new` is built slice by slice, and the two masks are computed cell by cell. */
  method ExpandChange(ep3: array3<real>) returns (ep4: array3<real>, magnitude: array2<real>, signMask: array2<bool>)
    requires ep3.Length0 == ep3.Length1 && ep3.Length2 == 2
    ensures fresh(ep4) && fresh(magnitude) && fresh(signMask) && Shaped(ep4, ep3.Length0, 4)
    ensures CubeOf(ep4) == ChangeExpanded(CubeOf(ep3), ep3.Length0)
    ensures MatrixOf(magnitude) == MagnitudeChange(CubeOf(ep3), ep3.Length0)
    ensures MatrixOf(signMask) == SignChange(CubeOf(ep3), ep3.Length0)
  {
    var n := ep3.Length0;
    ghost var e := CubeOf(ep3);
    ep4 := new real[n, n, 4]((i, j, c) => 0.0);
    for c := 0 to 4
      invariant forall a, b, d | 0 <= a < n && 0 <= b < n && 0 <= d < c :: ep4[a, b, d] == ExpandedCell(e, n, a, b, d)
    {
      FillExpandedSlice(ep4, ep3, c);
    }
    CubeExt(CubeOf(ep4), ChangeExpanded(e, n), n, n, 4);
    magnitude := MagnitudeOf(ep3);
    signMask := SignMaskOf(ep3);
  }

  /** `np.abs(group2) - np.abs(group1)`, cell by cell. */
  method MagnitudeOf(ep3: array3<real>) returns (magnitude: array2<real>)
    requires ep3.Length0 == ep3.Length1 && ep3.Length2 == 2
    ensures fresh(magnitude)
    ensures MatrixOf(magnitude) == MagnitudeChange(CubeOf(ep3), ep3.Length0)
  {
    var n := ep3.Length0;
    magnitude := new real[n, n]((i, j) => 0.0);
    for i := 0 to n
      invariant forall a, b | 0 <= a < i && 0 <= b < n :: magnitude[a, b] == MagnitudeCell(ep3[a, b, 0], ep3[a, b, 1])
    {
      for j := 0 to n
        invariant forall a, b | 0 <= a < n && 0 <= b < n && (a < i || (a == i && b < j)) ::
          magnitude[a, b] == MagnitudeCell(ep3[a, b, 0], ep3[a, b, 1])
      {
        magnitude[i, j] := Abs(ep3[i, j, 0] + ep3[i, j, 1]) - Abs(ep3[i, j, 0]);
      }
    }
    MatrixExt(MatrixOf(magnitude), MagnitudeChange(CubeOf(ep3), n), n, n);
  }

  /** `(group1 * group2) < 0`, cell by cell. */
  method SignMaskOf(ep3: array3<real>) returns (signMask: array2<bool>)
    requires ep3.Length0 == ep3.Length1 && ep3.Length2 == 2
    ensures fresh(signMask)
    ensures MatrixOf(signMask) == SignChange(CubeOf(ep3), ep3.Length0)
  {
    var n := ep3.Length0;
    signMask := new bool[n, n]((i, j) => false);
    for i := 0 to n
      invariant forall a, b | 0 <= a < i && 0 <= b < n :: signMask[a, b] == SignFlips(ep3[a, b, 0], ep3[a, b, 1])
    {
      for j := 0 to n
        invariant forall a, b | 0 <= a < n && 0 <= b < n && (a < i || (a == i && b < j)) ::
          signMask[a, b] == SignFlips(ep3[a, b, 0], ep3[a, b, 1])
      {
        var group1, group2 := ep3[i, j, 0], ep3[i, j, 0] + ep3[i, j, 1];
        signMask[i, j] := group1 * group2 < 0.0;
      }
    }
    MatrixExt(MatrixOf(signMask), SignChange(CubeOf(ep3), n), n, n);
  }

  /** One slice of `Ep_new`: a copy of `Ep` for slices 0 and 1, `Ep_mean` for 2, `change` for 3. */
  method FillExpandedSlice(ep4: array3<real>, ep3: array3<real>, c: nat)
    requires ep4 != ep3 && ep3.Length0 == ep3.Length1 && ep3.Length2 == 2
    requires ep4.Length0 == ep3.Length0 && ep4.Length1 == ep3.Length0 && ep4.Length2 == 4 && c < 4
    modifies ep4
    ensures forall a, b | 0 <= a < ep3.Length0 && 0 <= b < ep3.Length0 ::
      ep4[a, b, c] == ExpandedCell(CubeOf(ep3), ep3.Length0, a, b, c)
    ensures forall a, b, d | 0 <= a < ep3.Length0 && 0 <= b < ep3.Length0 && 0 <= d < 4 && d != c :: ep4[a, b, d] == old(ep4[a, b, d])
  {
    var n := ep3.Length0;
    ghost var e := CubeOf(ep3);
    for i := 0 to n
      invariant forall a, b | 0 <= a < i && 0 <= b < n :: ep4[a, b, c] == ExpandedCell(e, n, a, b, c)
      invariant forall a, b, d | 0 <= a < n && 0 <= b < n && 0 <= d < 4 && d != c :: ep4[a, b, d] == old(ep4[a, b, d])
    {
      for j := 0 to n
        invariant forall a, b | 0 <= a < n && 0 <= b < n && (a < i || (a == i && b < j)) ::
          ep4[a, b, c] == ExpandedCell(e, n, a, b, c)
        invariant forall a, b, d | 0 <= a < n && 0 <= b < n && 0 <= d < 4 && d != c :: ep4[a, b, d] == old(ep4[a, b, d])
      {
        var group1, group2 := ep3[i, j, 0], ep3[i, j, 0] + ep3[i, j, 1];
        ep4[i, j, c] := if c == 0 then group1 else if c == 1 then ep3[i, j, 1] else if c == 2 then group2 else group2 - group1;
      }
    }
  }

  // ---------------------------------------------------------------- ROI reorder

  /** Python's `seq[i]` index resolution: negative indices count from the end. */
  function PyIndex(i: int, len: nat): (r: Option<nat>)
    ensures r.Some? <==> -(len as int) <= i < len
    ensures r.Some? ==> r.value < len && (r.value == i || r.value == i + len)
  {
    if 0 <= i < len then Some(i)
    else if -(len as int) <= i < 0 then Some(i + len)
    else None
  }

  predicate AllAtLeastOne(order: seq<int>) {
    forall k | 0 <= k < |order| :: order[k] >= 1
  }

  /** Lines 534-535: a list of 1-based indices is shifted to 0-based. */
  function NormalizeOrder(order: seq<int>): (r: seq<int>)
    ensures |r| == |order|
  {
    if AllAtLeastOne(order) then seq(|order|, k requires 0 <= k < |order| => order[k] - 1) else order
  }

  /** The 0-based positions `roi_reorder` selects, or the exception the source raises. */
  function ResolveOrder(order: seq<int>, n: nat): (r: Result<seq<nat>, HeatmapError>)
    ensures r.Ok? ==> |r.value| == n && forall k | 0 <= k < n :: r.value[k] < n
  {
    if |order| != n then Err(ReorderLengthMismatch)
    else
      var o := NormalizeOrder(order);
      if forall k | 0 <= k < n :: PyIndex(o[k], n).Some? then
        Ok(seq(n, k requires 0 <= k < n => PyIndex(o[k], n).value))
      else Err(ReorderIndexOutOfRange)
  }

  /** `Ep[np.ix_(r, r, range(cov_n))]`: cell `[a, b, c]` is the old cell `[r[a], r[b], c]`. */
  function Reordered(e: Cube, n: nat, cov: nat, idx: seq<nat>): (t: Cube)
    requires IsCube(e, n, n, cov) && |idx| == n && forall k | 0 <= k < n :: idx[k] < n
    ensures IsCube(t, n, n, cov)
  {
    Tabulate(n, n, cov, (a: nat, b: nat, c: nat) requires a < n && b < n && c < cov => e[idx[a]][idx[b]][c])
  }

  predicate IsPermutation(idx: seq<nat>, n: nat) {
    |idx| == n && (forall k | 0 <= k < n :: idx[k] < n) && forall k, l | 0 <= k < l < n :: idx[k] != idx[l]
  }

  /** Reordering by a permutation and then by its inverse gives the original tensor back. */
  lemma ReorderInverse(e: Cube, n: nat, cov: nat, idx: seq<nat>, inv: seq<nat>)
    requires IsCube(e, n, n, cov) && IsPermutation(idx, n) && IsPermutation(inv, n)
    requires forall k | 0 <= k < n :: idx[inv[k]] == k
    ensures Reordered(Reordered(e, n, cov, idx), n, cov, inv) == e
  {
    var once := Reordered(e, n, cov, idx);
    var twice := Reordered(once, n, cov, inv);
    forall a, b, c | 0 <= a < n && 0 <= b < n && 0 <= c < cov ensures twice[a][b][c] == e[a][b][c] {
      assert twice[a][b][c] == once[inv[a]][inv[b]][c];
    }
    CubeExt(twice, e, n, n, cov);
  }

  /** The same permutation written 1-based resolves to the same positions as written 0-based. */
  lemma OneBasedOrderSame(order: seq<int>, n: nat)
    requires |order| == n && forall k | 0 <= k < n :: 0 <= order[k] < n
    requires exists k | 0 <= k < n :: order[k] == 0
    ensures ResolveOrder(seq(n, k requires 0 <= k < n => order[k] + 1), n) == ResolveOrder(order, n)
  {
    var shifted := seq(n, k requires 0 <= k < n => order[k] + 1);
    assert !AllAtLeastOne(order);
    assert NormalizeOrder(shifted) == order;
  }

  /**
    Lines 532-535: a 0-based order (in range, with a 0 somewhere) is used as given, so
    `[2, 0, 1]` puts ROI 2 first.
   */
  lemma ZeroBasedOrderKept(order: seq<int>, n: nat)
    requires |order| == n && forall k | 0 <= k < n :: 0 <= order[k] < n
    requires exists k | 0 <= k < n :: order[k] == 0
    ensures ResolveOrder(order, n).Ok?
    ensures forall k | 0 <= k < n :: ResolveOrder(order, n).value[k] == order[k]
  {
    assert !AllAtLeastOne(order);
  }

  /** Lines 534-535: an order whose entries all lie in `1..n` is shifted down by one. */
  lemma OneBasedOrderShifted(order: seq<int>, n: nat)
    requires |order| == n && forall k | 0 <= k < n :: 1 <= order[k] <= n
    ensures ResolveOrder(order, n).Ok?
    ensures forall k | 0 <= k < n :: ResolveOrder(order, n).value[k] == order[k] - 1
  {
    assert AllAtLeastOne(order);
  }

  /** A list with one negative entry is not shifted, and the entry counts from the end, as numpy does. */
  lemma NegativeIndexWraps(order: seq<int>, n: nat, k: nat)
    requires |order| == n && k < n && -(n as int) <= order[k] < 0
    requires forall l | 0 <= l < n :: -(n as int) <= order[l] < n
    ensures ResolveOrder(order, n).Ok? && ResolveOrder(order, n).value[k] == order[k] + n
  {
    assert !AllAtLeastOne(order);
  }

  datatype Reordering = Reordering(ep: array3<real>, roiNames: seq<string>)

  /** Lines 529-541: validate, shift to 0-based, then gather the names and the tensor. */
  method ReorderRois(ep3: array3<real>, names: seq<string>, order: seq<int>) returns (r: Result<Reordering, HeatmapError>)
    requires ep3.Length0 == ep3.Length1 == |names|
    ensures r.Ok? <==> ResolveOrder(order, |names|).Ok?
    ensures r.Err? ==> r.error == ResolveOrder(order, |names|).error
    ensures r.Ok? ==> fresh(r.value.ep) && Shaped(r.value.ep, |names|, ep3.Length2)
    ensures r.Ok? ==> r.value.roiNames == Indexed(names, ResolveOrder(order, |names|).value)
    ensures r.Ok? ==> CubeOf(r.value.ep) == Reordered(CubeOf(ep3), |names|, ep3.Length2, ResolveOrder(order, |names|).value)
  {
    var n, cov := |names|, ep3.Length2;
    if |order| != n {
      return Err(ReorderLengthMismatch);
    }
    var o := NormalizeOrder(order);
    var idx: seq<nat> := [];
    var newNames: seq<string> := [];
    for k := 0 to n
      invariant |idx| == k && |newNames| == k
      invariant forall l | 0 <= l < k :: PyIndex(o[l], n).Some? && idx[l] == PyIndex(o[l], n).value
      invariant forall l | 0 <= l < k :: newNames[l] == names[idx[l]]
    {
      var p := PyIndex(o[k], n);
      if p.None? {
        return Err(ReorderIndexOutOfRange);
      }
      idx := idx + [p.value];
      newNames := newNames + [names[p.value]];
    }
    assert forall k | 0 <= k < n :: PyIndex(o[k], n).Some?;
    assert ResolveOrder(order, n).value == idx;
    var ep4 := Gather(ep3, idx);
    r := Ok(Reordering(ep4, newNames));
  }

  /** `Ep[np.ix_(r, r, range(cov_n))]` into a new array. */
  method Gather(ep3: array3<real>, idx: seq<nat>) returns (ep4: array3<real>)
    requires ep3.Length0 == ep3.Length1 == |idx| && forall k | 0 <= k < |idx| :: idx[k] < |idx|
    ensures fresh(ep4) && Shaped(ep4, |idx|, ep3.Length2)
    ensures CubeOf(ep4) == Reordered(CubeOf(ep3), |idx|, ep3.Length2, idx)
  {
    var n, cov := |idx|, ep3.Length2;
    ep4 := new real[n, n, cov]((a, b, c) => 0.0);
    for c := 0 to cov
      invariant forall a, b, d | 0 <= a < n && 0 <= b < n && 0 <= d < c :: ep4[a, b, d] == ep3[idx[a], idx[b], d]
    {
      GatherCovariate(ep4, ep3, idx, c);
    }
    CubeExt(CubeOf(ep4), Reordered(CubeOf(ep3), n, cov, idx), n, n, cov);
  }

  method GatherCovariate(ep4: array3<real>, ep3: array3<real>, idx: seq<nat>, c: nat)
    requires ep4 != ep3 && ep3.Length0 == ep3.Length1 == |idx| && forall k | 0 <= k < |idx| :: idx[k] < |idx|
    requires ep4.Length0 == ep4.Length1 == |idx| && ep4.Length2 == ep3.Length2 && c < ep3.Length2
    modifies ep4
    ensures forall a, b | 0 <= a < |idx| && 0 <= b < |idx| :: ep4[a, b, c] == ep3[idx[a], idx[b], c]
    ensures forall a, b, d | 0 <= a < |idx| && 0 <= b < |idx| && 0 <= d < ep4.Length2 && d != c :: ep4[a, b, d] == old(ep4[a, b, d])
  {
    var n := |idx|;
    for a := 0 to n
      invariant forall x, y | 0 <= x < a && 0 <= y < n :: ep4[x, y, c] == ep3[idx[x], idx[y], c]
      invariant forall x, y, d | 0 <= x < n && 0 <= y < n && 0 <= d < ep4.Length2 && d != c :: ep4[x, y, d] == old(ep4[x, y, d])
    {
      for b := 0 to n
        invariant forall x, y | 0 <= x < n && 0 <= y < n && (x < a || (x == a && y < b)) :: ep4[x, y, c] == ep3[idx[x], idx[y], c]
        invariant forall x, y, d | 0 <= x < n && 0 <= y < n && 0 <= d < ep4.Length2 && d != c :: ep4[x, y, d] == old(ep4[x, y, d])
      {
        ep4[a, b, c] := ep3[idx[a], idx[b], c];
      }
    }
  }

  // ---------------------------------------------------------------- plot_heatmaps

  /** The plot parameters `plot_heatmaps` reads (font size aside). */
  datatype HeatmapParams = HeatmapParams(ppThreshold: Option<real>, revertDiag: bool, roiReorder: Option<seq<int>>)

  /** `get_peb_plot_parameters` (plot_PEB_results.py:104-110). */
  const DefaultParams: HeatmapParams := HeatmapParams(Some(0.99), true, None)

  /** The tensor and labels handed to the drawing code, as values. */
  datatype HeatmapValue = HeatmapValue(
    ep: Cube, cov: nat, roiNames: seq<string>, covNames: Option<seq<string>>,
    magnitude: Option<Matrix>, signChange: Option<seq<seq<bool>>>)

  /** The same, as the arrays the method builds. */
  datatype Heatmaps = Heatmaps(
    ep: array3<real>, roiNames: seq<string>, covNames: Option<seq<string>>,
    magnitude: Option<array2<real>>, signChange: Option<array2<bool>>)

  predicate Expands(pebType: Option<string>, cov: nat) {
    IsChange(pebType) && cov == 2
  }

  /** After the threshold and the revert: a 'change' model gains its derived covariates and masks. */
  function Expanded(e: Cube, n: nat, cov: nat, roiNames: seq<string>, pebType: Option<string>, covNames: Option<seq<string>>)
    : (r: Result<HeatmapValue, HeatmapError>)
    requires IsCube(e, n, n, cov)
    ensures r.Ok? ==> IsCube(r.value.ep, n, n, r.value.cov)
    ensures r.Err? <==> Expands(pebType, cov) && covNames.None?
  {
    if !Expands(pebType, cov) then Ok(HeatmapValue(e, cov, roiNames, covNames, None, None))
    else match ExpandedNames(covNames)
      case Err(err) => Err(err)
      case Ok(names) =>
        Ok(HeatmapValue(ChangeExpanded(e, n), 4, roiNames, Some(names), Some(MagnitudeChange(e, n)), Some(SignChange(e, n))))
  }

  /** The optional ROI permutation, applied to the tensor and the ROI names but to neither mask. */
  function Reorder(h: HeatmapValue, n: nat, order: Option<seq<int>>): (r: Result<HeatmapValue, HeatmapError>)
    requires IsCube(h.ep, n, n, h.cov) && |h.roiNames| == n
  {
    match order
    case None => Ok(h)
    case Some(o) =>
      match ResolveOrder(o, n)
      case Err(err) => Err(err)
      case Ok(idx) => Ok(h.(ep := Reordered(h.ep, n, h.cov, idx), roiNames := Indexed(h.roiNames, idx)))
  }

  /** The reshaped `Ep`, thresholded by `Pp` when a threshold is set, with its diagonal reverted. */
  function Prepared(m: PebModel, n: nat, pebType: Option<string>, params: HeatmapParams, exp: real -> real): (t: Cube)
    requires |m.pp| == |m.ep| && CovariateCount(m) > 0
    ensures IsCube(t, n, n, CovariateCount(m))
  {
    var cov := CovariateCount(m);
    ChosenLayoutFits(m, n);
    var layout := ChooseLayout(m, n);
    ThresholdAndRevert(Place(layout, m.ep, n, cov), Place(layout, m.pp, n, cov), n, cov, pebType, params, exp)
  }

  /** `Ep` thresholded by `Pp` when a threshold is set, then its diagonal reverted. */
  function ThresholdAndRevert(e: Cube, p: Cube, n: nat, cov: nat, pebType: Option<string>, params: HeatmapParams, exp: real -> real): (t: Cube)
    requires IsCube(e, n, n, cov) && IsCube(p, n, n, cov)
    ensures IsCube(t, n, n, cov)
  {
    var thresholded :=
      match params.ppThreshold
      case None => e
      case Some(t) => Thresholded(e, p, t, n, cov);
    Reverted(thresholded, n, cov, pebType, params.revertDiag, exp)
  }

  /**
    The numeric part of `plot_heatmaps` as one function: reshape, threshold, revert,
    expand, reorder, with the exceptions each step can raise.
   */
  function HeatmapSpec(m: PebModel, roiNames: seq<string>, pebType: Option<string>, covNames: Option<seq<string>>,
                       params: HeatmapParams, exp: real -> real): (r: Result<HeatmapValue, HeatmapError>)
    requires |m.pp| == |m.ep|
    ensures r.Ok? ==> IsCube(r.value.ep, |roiNames|, |roiNames|, r.value.cov) && |r.value.roiNames| == |roiNames|
  {
    var n, cov := |roiNames|, CovariateCount(m);
    if cov == 0 then Err(ReshapeFailed(ZeroDivision))
    else
      match Expanded(Prepared(m, n, pebType, params, exp), n, cov, roiNames, pebType, covNames)
      case Err(err) => Err(err)
      case Ok(h) => Reorder(h, n, params.roiReorder)
  }

  /** The error each exception comes from, in the order the source raises them. */
  lemma HeatmapErrors(m: PebModel, roiNames: seq<string>, pebType: Option<string>, covNames: Option<seq<string>>,
                      params: HeatmapParams, exp: real -> real)
    requires |m.pp| == |m.ep|
    ensures CovariateCount(m) == 0 <==> HeatmapSpec(m, roiNames, pebType, covNames, params, exp) == Err(ReshapeFailed(ZeroDivision))
    ensures CovariateCount(m) > 0 && Expands(pebType, CovariateCount(m)) && covNames.None? ==>
      HeatmapSpec(m, roiNames, pebType, covNames, params, exp) == Err(MissingCovariateNames)
    ensures CovariateCount(m) > 0 && !(Expands(pebType, CovariateCount(m)) && covNames.None?) ==>
      (HeatmapSpec(m, roiNames, pebType, covNames, params, exp).Err? <==>
        params.roiReorder.Some? && ResolveOrder(params.roiReorder.value, |roiNames|).Err?)
  {
  }

  /** With the default parameters nothing is reordered and a model that is not 'change' keeps its covariates. */
  lemma DefaultsKeepRoiOrder(m: PebModel, roiNames: seq<string>, pebType: Option<string>, covNames: Option<seq<string>>,
                             exp: real -> real)
    requires |m.pp| == |m.ep| && CovariateCount(m) > 0 && !Expands(pebType, CovariateCount(m))
    ensures HeatmapSpec(m, roiNames, pebType, covNames, DefaultParams, exp).Ok?
    ensures HeatmapSpec(m, roiNames, pebType, covNames, DefaultParams, exp).value.roiNames == roiNames
    ensures HeatmapSpec(m, roiNames, pebType, covNames, DefaultParams, exp).value.cov == CovariateCount(m)
    ensures HeatmapSpec(m, roiNames, pebType, covNames, DefaultParams, exp).value.covNames == covNames
  {
  }

  /** A connection whose probability is below the threshold is drawn as 0, wherever the revert leaves it alone. */
  lemma SubThresholdConnectionIsZero(e: Cube, p: Cube, threshold: real, n: nat, cov: nat, pebType: Option<string>,
                                     revertDiag: bool, exp: real -> real, i: nat, j: nat, c: nat)
    requires IsCube(e, n, n, cov) && IsCube(p, n, n, cov) && i < n && j < n && c < cov
    requires p[i][j][c] < threshold && (i != j || !revertDiag)
    ensures Reverted(Thresholded(e, p, threshold, n, cov), n, cov, pebType, revertDiag, exp)[i][j][c] == 0.0
  {
  }

  /** Lines 446-497: reshape, then threshold and revert in place. */
  method PrepareTensor(m: PebModel, n: nat, pebType: Option<string>, params: HeatmapParams, exp: real -> real)
    returns (r: Result<array3<real>, HeatmapError>)
    requires |m.pp| == |m.ep|
    ensures r.Err? <==> CovariateCount(m) == 0
    ensures r.Err? ==> r.error == ReshapeFailed(ZeroDivision)
    ensures r.Ok? ==> fresh(r.value) && Shaped(r.value, n, CovariateCount(m))
    ensures r.Ok? ==> CubeOf(r.value) == Prepared(m, n, pebType, params, exp)
  {
    var reshaped := ReshapePosteriorSimple(m, n);
    if reshaped.Err? {
      return Err(ReshapeFailed(reshaped.error));
    }
    var ep3, pp3 := reshaped.value.ep, reshaped.value.pp;
    FilterTensor(ep3, pp3, pebType, params, exp);
    r := Ok(ep3);
  }

  /** Lines 446-497 after the reshape: the threshold, then the diagonal revert, both in place. */
  method FilterTensor(ep3: array3<real>, pp3: array3<real>, pebType: Option<string>, params: HeatmapParams, exp: real -> real)
    requires ep3 != pp3 && ep3.Length0 == ep3.Length1
    requires pp3.Length0 == ep3.Length0 && pp3.Length1 == ep3.Length0 && pp3.Length2 == ep3.Length2
    modifies ep3
    ensures CubeOf(ep3) == ThresholdAndRevert(old(CubeOf(ep3)), CubeOf(pp3), ep3.Length0, ep3.Length2, pebType, params, exp)
  {
    if params.ppThreshold.Some? {
      ApplyThreshold(ep3, pp3, params.ppThreshold.value);
    }
    RevertDiagonal(ep3, pebType, params.revertDiag, exp);
  }

  /** Lines 499-527 on the arrays. */
  method ExpandStep(ep3: array3<real>, roiNames: seq<string>, pebType: Option<string>, covNames: Option<seq<string>>)
    returns (r: Result<Heatmaps, HeatmapError>)
    requires Shaped(ep3, |roiNames|, ep3.Length2)
    ensures r.Err? <==> Expanded(CubeOf(ep3), |roiNames|, ep3.Length2, roiNames, pebType, covNames).Err?
    ensures r.Err? ==> r.error == MissingCovariateNames
    ensures r.Ok? ==> (r.value.ep == ep3 || fresh(r.value.ep))
    ensures r.Ok? ==> Matches(r.value, Expanded(CubeOf(ep3), |roiNames|, ep3.Length2, roiNames, pebType, covNames).value)
  {
    if Expands(pebType, ep3.Length2) {
      var ep4, magnitude, signMask := ExpandChange(ep3);
      var names := ExpandedNames(covNames);
      if names.Err? {
        return Err(names.error);
      }
      r := Ok(Heatmaps(ep4, roiNames, Some(names.value), Some(magnitude), Some(signMask)));
    } else {
      r := Ok(Heatmaps(ep3, roiNames, covNames, None, None));
    }
  }

  /** Lines 529-541 on the arrays. */
  method ReorderStep(h: Heatmaps, ghost v: HeatmapValue, order: Option<seq<int>>) returns (r: Result<Heatmaps, HeatmapError>)
    requires IsCube(v.ep, |v.roiNames|, |v.roiNames|, v.cov) && Matches(h, v)
    ensures r.Err? <==> Reorder(v, |v.roiNames|, order).Err?
    ensures r.Err? ==> r.error == Reorder(v, |v.roiNames|, order).error
    ensures r.Ok? ==> (r.value.ep == h.ep || fresh(r.value.ep))
    ensures r.Ok? ==> Matches(r.value, Reorder(v, |v.roiNames|, order).value)
  {
    if order.None? {
      return Ok(h);
    }
    var n := |v.roiNames|;
    if n == 0 {
      assert h.ep.Length0 == 0;
    }
    var reordered := ReorderRois(h.ep, h.roiNames, order.value);
    if reordered.Err? {
      return Err(reordered.error);
    }
    r := Ok(h.(ep := reordered.value.ep, roiNames := reordered.value.roiNames));
  }

  /** `plot_heatmaps` up to the drawing: the arrays it builds hold the values `HeatmapSpec` describes. */
  method PlotHeatmapsNumeric(m: PebModel, roiNames: seq<string>, pebType: Option<string>, covNames: Option<seq<string>>,
                             params: HeatmapParams, exp: real -> real) returns (r: Result<Heatmaps, HeatmapError>)
    requires |m.pp| == |m.ep|
    ensures r.Err? <==> HeatmapSpec(m, roiNames, pebType, covNames, params, exp).Err?
    ensures r.Err? ==> r.error == HeatmapSpec(m, roiNames, pebType, covNames, params, exp).error
    ensures r.Ok? ==> fresh(r.value.ep) && Matches(r.value, HeatmapSpec(m, roiNames, pebType, covNames, params, exp).value)
  {
    var n := |roiNames|;
    var prepared := PrepareTensor(m, n, pebType, params, exp);
    if prepared.Err? {
      return Err(prepared.error);
    }
    var ep3 := prepared.value;
    var expanded := ExpandStep(ep3, roiNames, pebType, covNames);
    if expanded.Err? {
      return Err(expanded.error);
    }
    ghost var v := Expanded(CubeOf(ep3), n, ep3.Length2, roiNames, pebType, covNames).value;
    r := ReorderStep(expanded.value, v, params.roiReorder);
  }

  /** The arrays hold the values. */
  ghost predicate Matches(h: Heatmaps, v: HeatmapValue)
    reads h.ep, if h.magnitude.Some? then {h.magnitude.value} else {}, if h.signChange.Some? then {h.signChange.value} else {}
  {
    && CubeOf(h.ep) == v.ep && h.ep.Length0 == |v.roiNames| && h.ep.Length1 == |v.roiNames| && h.ep.Length2 == v.cov
    && h.roiNames == v.roiNames && h.covNames == v.covNames
    && h.magnitude.Some? == v.magnitude.Some? && (h.magnitude.Some? ==> MatrixOf(h.magnitude.value) == v.magnitude.value)
    && h.signChange.Some? == v.signChange.Some? && (h.signChange.Some? ==> MatrixOf(h.signChange.value) == v.signChange.value)
  }
}
