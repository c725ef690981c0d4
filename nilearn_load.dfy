/**
  The numeric part of `NilearnConnectivityVisualizer.load_connectivity`
  (scripts/visualization/plot_nilearn_connectivity.py:177-209): threshold the flat
  posterior vector, reshape it to `[target, source, covariate]` (column-major when it
  is dense, through the "A(i,j)" parameter names otherwise), then take one
  covariate's slice.

  This loader places the dense vector in numpy's `order='F'`, unlike the PEB
  plotter's row-major reshape; `FortranIsTranspose` states the difference.
 */
module NilearnLoad {
  import opened Wrappers
  import opened Text
  import opened Tensors
  import opened FlatIndex
  import opened PebReshape
  import opened PebHeatmap

  /** The exceptions the numeric part can raise. */
  datatype LoadError =
    | MaskMismatch         // IndexError: the boolean mask `Pp < threshold` is not as long as `Ep`
    | ZeroDivision         // ZeroDivisionError: no ROI names, or an empty `Pnames` on the constrained path
    | MissingPnames        // KeyError: a constrained model without `Pnames`
    | BadIndex             // ValueError: `int()` of an index that is not an integer
    | MissingColumn        // IndexError: an "A(i)" name has no second index
    | RegionOutOfRange     // IndexError: an index outside the ROI axis
    | CovariateOutOfRange  // IndexError: the selected covariate does not exist

  /** The loaded slice and the ROI names, which come back unchanged. */
  datatype Connectivity = Connectivity(matrix: array2<real>, roiNames: seq<string>)

  // ---------------------------------------------------------------- threshold

  function ThresholdedVector(ep: seq<real>, pp: seq<real>, threshold: real): (t: seq<real>)
    requires |pp| == |ep|
    ensures |t| == |ep| && forall k | 0 <= k < |ep| :: t[k] == ThresholdCell(ep[k], pp[k], threshold)
  {
    seq(|ep|, k requires 0 <= k < |ep| => ThresholdCell(ep[k], pp[k], threshold))
  }

  /** Line 179: `Ep[Pp < pp_threshold] = 0` on the flat vector, in place. */
  method ThresholdVector(ep: array<real>, pp: seq<real>, threshold: real)
    requires |pp| == ep.Length
    modifies ep
    ensures ep[..] == ThresholdedVector(old(ep[..]), pp, threshold)
  {
    for k := 0 to ep.Length
      invariant forall l | 0 <= l < ep.Length :: ep[l] == (if l < k then ThresholdCell(old(ep[l]), pp[l], threshold) else old(ep[l]))
    {
      if pp[k] < threshold {
        ep[k] := 0.0;
      }
    }
  }

  // ---------------------------------------------------------------- dense, column-major

  function FortranCell(v: seq<real>, n: nat, cov: nat, a: nat, b: nat, c: nat): real
    requires |v| == cov * (n * n) && a < n && b < n && c < cov
  {
    IndexBound(n, cov, c, a, b);
    v[IndexF(n, c, a, b)]
  }

  /** `Ep.reshape((n, n, cov), order='F')`. */
  function FortranReshape(v: seq<real>, n: nat, cov: nat): (t: Cube)
    requires |v| == cov * (n * n)
    ensures IsCube(t, n, n, cov)
  {
    Tabulate(n, n, cov, (a: nat, b: nat, c: nat) requires a < n && b < n && c < cov => FortranCell(v, n, cov, a, b, c))
  }

  /** Entry `k` lands at `[k % n, (k / n) % n, k / n^2]`. */
  lemma FortranPlacement(v: seq<real>, n: nat, cov: nat, k: nat)
    requires |v| == cov * (n * n) && k < |v|
    ensures 0 < n && k % n < n && (k / n) % n < n && k / (n * n) < cov
    ensures CellAt(FortranReshape(v, n, cov), n, cov, k % n, (k / n) % n, k / (n * n)) == v[k]
  {
    FortranSplit(n, cov, k);
    FortranAt(v, n, cov, k % n, (k / n) % n, k / (n * n));
  }

  lemma FortranAt(v: seq<real>, n: nat, cov: nat, a: nat, b: nat, c: nat)
    requires |v| == cov * (n * n) && a < n && b < n && c < cov
    ensures IndexF(n, c, a, b) < |v|
    ensures CellAt(FortranReshape(v, n, cov), n, cov, a, b, c) == v[IndexF(n, c, a, b)]
  {
    IndexBound(n, cov, c, a, b);
  }

  /** The column-major cube is the row-major one with target and source swapped in every covariate. */
  lemma FortranIsTranspose(v: seq<real>, n: nat, cov: nat)
    requires |v| == cov * (n * n)
    ensures forall a, b, c | 0 <= a < n && 0 <= b < n && 0 <= c < cov ::
      FortranReshape(v, n, cov)[a][b][c] == DenseReshape(v, n, cov)[b][a][c]
  {
  }

  /** Thresholding the flat vector and then reshaping equals thresholding the reshaped cubes. */
  lemma ThresholdThenReshape(ep: seq<real>, pp: seq<real>, threshold: real, n: nat, cov: nat)
    requires |pp| == |ep| == cov * (n * n)
    ensures FortranReshape(ThresholdedVector(ep, pp, threshold), n, cov)
         == Thresholded(FortranReshape(ep, n, cov), FortranReshape(pp, n, cov), threshold, n, cov)
  {
    var v := ThresholdedVector(ep, pp, threshold);
    var lhs := FortranReshape(v, n, cov);
    var e, p := FortranReshape(ep, n, cov), FortranReshape(pp, n, cov);
    var rhs := Thresholded(e, p, threshold, n, cov);
    forall a, b, c | 0 <= a < n && 0 <= b < n && 0 <= c < cov ensures lhs[a][b][c] == rhs[a][b][c] {
      IndexBound(n, cov, c, a, b);
      var k := IndexF(n, c, a, b);
      assert lhs[a][b][c] == v[k];
      assert e[a][b][c] == ep[k] && p[a][b][c] == pp[k];
    }
    CubeExt(lhs, rhs, n, n, cov);
  }

  /** Line 188 into a new array. */
  method FillFortran(v: seq<real>, n: nat, cov: nat) returns (t3: array3<real>)
    requires |v| == cov * (n * n)
    ensures fresh(t3) && Shaped(t3, n, cov)
    ensures CubeOf(t3) == FortranReshape(v, n, cov)
  {
    t3 := new real[n, n, cov]((a, b, c) => 0.0);
    for c := 0 to cov
      invariant forall a, b, d | 0 <= a < n && 0 <= b < n && 0 <= d < c :: t3[a, b, d] == FortranCell(v, n, cov, a, b, d)
    {
      FillFortranCovariate(t3, v, n, cov, c);
    }
    CubeExt(CubeOf(t3), FortranReshape(v, n, cov), n, n, cov);
  }

  method FillFortranCovariate(t3: array3<real>, v: seq<real>, n: nat, cov: nat, c: nat)
    requires Shaped(t3, n, cov) && c < cov && |v| == cov * (n * n)
    modifies t3
    ensures forall a, b | 0 <= a < n && 0 <= b < n :: t3[a, b, c] == FortranCell(v, n, cov, a, b, c)
    ensures forall a, b, d | 0 <= a < n && 0 <= b < n && 0 <= d < cov && d != c :: t3[a, b, d] == old(t3[a, b, d])
  {
    for b := 0 to n
      invariant forall x, y | 0 <= x < n && 0 <= y < b :: t3[x, y, c] == FortranCell(v, n, cov, x, y, c)
      invariant forall x, y, d | 0 <= x < n && 0 <= y < n && 0 <= d < cov && d != c :: t3[x, y, d] == old(t3[x, y, d])
    {
      for a := 0 to n
        invariant forall x, y | 0 <= x < n && 0 <= y < n && (y < b || (y == b && x < a)) ::
          t3[x, y, c] == FortranCell(v, n, cov, x, y, c)
        invariant forall x, y, d | 0 <= x < n && 0 <= y < n && 0 <= d < cov && d != c :: t3[x, y, d] == old(t3[x, y, d])
      {
        IndexBound(n, cov, c, a, b);
        t3[a, b, c] := v[c * (n * n) + b * n + a];
      }
    }
  }

  // ---------------------------------------------------------------- constrained, by name

  lemma ParenSplits(s: string)
    requires Contains(s, "A(")
    ensures 2 <= |Split(s, '(')|
  {
    var k :| 0 <= k <= |s| - 2 && StartsWith(s[k..], "A(");
    assert s[k + 1] == s[k..][1] == '(';
  }

  /** `pname.split('(')[1].split(')')[0].split(',')`. */
  function IndexFields(pname: string): (parts: seq<string>)
    requires Contains(pname, "A(")
    ensures 0 < |parts|
  {
    ParenSplits(pname);
    Split(Split(Split(pname, '(')[1], ')')[0], ',')
  }

  /**
    The cell one name writes (0-based, after numpy's negative wrap), None when it writes
    nothing, or the exception its line raises. With no covariates the write loop is
    empty, so the indices are parsed but never used.
   */
  function NameTarget(pname: string, n: nat, cov: nat): (r: Result<Option<(nat, nat)>, LoadError>)
    ensures r.Ok? && r.value.Some? ==> r.value.value.0 < n && r.value.value.1 < n
  {
    if !Contains(pname, "A(") then Ok(None)
    else
      var parts := IndexFields(pname);
      match ParseInt(parts[0])
      case None => Err(BadIndex)
      case Some(row) =>
        if |parts| < 2 then Err(MissingColumn)
        else
          match ParseInt(parts[1])
          case None => Err(BadIndex)
          case Some(col) => CellOf(row, col, n, cov)
  }

  /** `Ep_3d[i - 1, j - 1, c]` for every covariate `c`: nothing when there are none, IndexError outside the axis. */
  function CellOf(row: int, col: int, n: nat, cov: nat): (r: Result<Option<(nat, nat)>, LoadError>)
    ensures r.Ok? && r.value.Some? ==> r.value.value.0 < n && r.value.value.1 < n
  {
    if cov == 0 then Ok(None)
    else if PyIndex(row - 1, n).None? || PyIndex(col - 1, n).None? then Err(RegionOutOfRange)
    else Ok(Some((PyIndex(row - 1, n).value, PyIndex(col - 1, n).value)))
  }

  /** The 1-based indices that land in range, and where they land. */
  lemma CellOfRange(row: int, col: int, n: nat, cov: nat)
    requires 0 < cov
    ensures CellOf(row, col, n, cov).Ok? <==> -(n as int) < row <= n && -(n as int) < col <= n
    ensures CellOf(row, col, n, cov).Err? ==> CellOf(row, col, n, cov).error == RegionOutOfRange
    ensures 1 <= row <= n && 1 <= col <= n ==> CellOf(row, col, n, cov) == Ok(Some((row - 1, col - 1)))
    ensures row == 0 && 1 <= col <= n ==> CellOf(row, col, n, cov) == Ok(Some((n - 1, col - 1)))
  {
  }

  /** The exception of the first name that raises one, if any. */
  function FirstError(names: seq<string>, n: nat, cov: nat): Option<LoadError>
  {
    if |names| == 0 then None
    else
      match FirstError(names[..|names| - 1], n, cov)
      case Some(e) => Some(e)
      case None =>
        var t := NameTarget(names[|names| - 1], n, cov);
        if t.Err? then Some(t.error) else None
  }

  /** Once some name has raised, the error stays the same for every longer prefix. */
  lemma {:induction false} FirstErrorSticks(names: seq<string>, n: nat, cov: nat, i: nat, j: nat)
    requires i <= j <= |names| && FirstError(names[..i], n, cov).Some?
    ensures FirstError(names[..j], n, cov) == FirstError(names[..i], n, cov)
    decreases j - i
  {
    if i < j {
      FirstErrorSticks(names, n, cov, i, j - 1);
      assert names[..j][..j - 1] == names[..j - 1];
    }
  }

  /** When no name raises, every name resolves. */
  lemma {:induction false} NoErrorAllResolve(names: seq<string>, n: nat, cov: nat)
    requires FirstError(names, n, cov).None?
    ensures forall k | 0 <= k < |names| :: NameTarget(names[k], n, cov).Ok?
  {
    if |names| > 0 {
      var init, last := names[..|names| - 1], names[|names| - 1];
      NoErrorAllResolve(init, n, cov);
      assert NameTarget(last, n, cov).Ok?;
      forall k | 0 <= k < |names| ensures NameTarget(names[k], n, cov).Ok? {
        if k < |init| {
          assert names[k] == init[k];
        } else {
          assert names[k] == last;
        }
      }
    }
  }

  /** The cell each name writes, once none of them raises. */
  function Targets(names: seq<string>, n: nat, cov: nat): (t: seq<Option<(nat, nat)>>)
    requires FirstError(names, n, cov).None?
    ensures |t| == |names|
    ensures forall k | 0 <= k < |names| :: Ok(t[k]) == NameTarget(names[k], n, cov)
  {
    NoErrorAllResolve(names, n, cov);
    seq(|names|, k requires 0 <= k < |names| => NameTarget(names[k], n, cov).value)
  }

  /** The position of the last name that writes cell `[a, b]`: later writes overwrite earlier ones. */
  function LastWriter(targets: seq<Option<(nat, nat)>>, a: nat, b: nat): (r: Option<nat>)
    ensures r.Some? ==> r.value < |targets| && targets[r.value] == Some((a, b))
    ensures r.Some? ==> forall k | r.value < k < |targets| :: targets[k] != Some((a, b))
    ensures r.None? ==> forall k | 0 <= k < |targets| :: targets[k] != Some((a, b))
  {
    if |targets| == 0 then None
    else if targets[|targets| - 1] == Some((a, b)) then Some(|targets| - 1)
    else LastWriter(targets[..|targets| - 1], a, b)
  }

  /** Entry `p` of covariate block `c` of a vector holding `cov` blocks of `L` entries: `Ep[p + c * L]`. */
  function BlockEntry(v: seq<real>, L: nat, cov: nat, c: nat, p: nat): real
    requires p < L && cov * L <= |v| && c < cov
  {
    BlockBound(cov, L, c, p, |v|);
    v[c * L + p]
  }

  /** The value of cell `[a, b, c]` after the writes `targets` describe, `L` entries per covariate block. */
  function WriterCell(v: seq<real>, targets: seq<Option<(nat, nat)>>, L: nat, cov: nat, a: nat, b: nat, c: nat): real
    requires |targets| <= L && cov * L <= |v| && c < cov
  {
    match LastWriter(targets, a, b)
    case None => 0.0
    case Some(p) => BlockEntry(v, L, cov, c, p)
  }

  /** One more write changes only the cell it targets. */
  lemma WriterStep(v: seq<real>, targets: seq<Option<(nat, nat)>>, x: Option<(nat, nat)>, L: nat, cov: nat, a: nat, b: nat, c: nat)
    requires |targets| < L && cov * L <= |v| && c < cov
    ensures WriterCell(v, targets + [x], L, cov, a, b, c)
         == if x == Some((a, b)) then BlockEntry(v, L, cov, c, |targets|) else WriterCell(v, targets, L, cov, a, b, c)
  {
    assert (targets + [x])[..|targets|] == targets;
  }

  /** Lines 189-203: `Ep_3d[i, j, c] = Ep[p + c * len(Pnames)]` for every name `p` that writes `[i, j]`, the last one winning. */
  function NamedReshape(v: seq<real>, names: seq<string>, n: nat, cov: nat): (t: Cube)
    requires cov * |names| <= |v| && FirstError(names, n, cov).None?
    ensures IsCube(t, n, n, cov)
  {
    var targets := Targets(names, n, cov);
    Tabulate(n, n, cov, (a: nat, b: nat, c: nat) requires a < n && b < n && c < cov =>
      WriterCell(v, targets, |names|, cov, a, b, c))
  }

  /** The last name that resolves to `[a, b]` is the one whose value the cell keeps. */
  lemma LastResolvedWriter(names: seq<string>, n: nat, cov: nat, p: nat, a: nat, b: nat)
    requires FirstError(names, n, cov).None?
    requires p < |names| && NameTarget(names[p], n, cov) == Ok(Some((a, b)))
    requires forall k | p < k < |names| :: NameTarget(names[k], n, cov) != Ok(Some((a, b)))
    ensures LastWriter(Targets(names, n, cov), a, b) == Some(p)
  {
    var targets := Targets(names, n, cov);
    assert targets[p] == Some((a, b));
    forall k | p < k < |targets|
      ensures targets[k] != Some((a, b))
    {
      assert Ok(targets[k]) == NameTarget(names[k], n, cov);
    }
    LastWriterIs(targets, a, b, p);
  }

  /** A write to `[a, b]` with no later write to it is the last writer. */
  lemma {:induction false} LastWriterIs(targets: seq<Option<(nat, nat)>>, a: nat, b: nat, p: nat)
    requires p < |targets| && targets[p] == Some((a, b))
    requires forall k | p < k < |targets| :: targets[k] != Some((a, b))
    ensures LastWriter(targets, a, b) == Some(p)
  {
    if p < |targets| - 1 {
      var front := targets[..|targets| - 1];
      assert front[p] == targets[p];
      assert forall k | p < k < |front| :: front[k] == targets[k];
      LastWriterIs(front, a, b, p);
    }
  }

  /** A cell that a name writes, with no later name writing it, holds that name's entry of each covariate block. */
  lemma NamedPlacement(v: seq<real>, names: seq<string>, n: nat, cov: nat, p: nat, a: nat, b: nat, c: nat)
    requires cov * |names| <= |v| && FirstError(names, n, cov).None? && a < n && b < n && c < cov
    requires p < |names| && NameTarget(names[p], n, cov) == Ok(Some((a, b)))
    requires forall k | p < k < |names| :: NameTarget(names[k], n, cov) != Ok(Some((a, b)))
    ensures NamedReshape(v, names, n, cov)[a][b][c] == BlockEntry(v, |names|, cov, c, p)
  {
    LastResolvedWriter(names, n, cov, p, a, b);
    assert NamedReshape(v, names, n, cov)[a][b][c] == WriterCell(v, Targets(names, n, cov), |names|, cov, a, b, c);
  }

  /** A cell that no name writes stays 0. */
  lemma UnwrittenCellIsZero(v: seq<real>, names: seq<string>, n: nat, cov: nat, a: nat, b: nat, c: nat)
    requires cov * |names| <= |v| && FirstError(names, n, cov).None? && a < n && b < n && c < cov
    requires forall k | 0 <= k < |names| :: NameTarget(names[k], n, cov) != Ok(Some((a, b)))
    ensures NamedReshape(v, names, n, cov)[a][b][c] == 0.0
  {
    var targets := Targets(names, n, cov);
    forall k | 0 <= k < |targets|
      ensures targets[k] != Some((a, b))
    {
      assert Ok(targets[k]) == NameTarget(names[k], n, cov);
    }
    assert LastWriter(targets, a, b).None?;
    assert NamedReshape(v, names, n, cov)[a][b][c] == WriterCell(v, targets, |names|, cov, a, b, c);
  }

  /** The fields of "A(r,c)" for digit strings `r` and `c` are `[r, c]`. */
  lemma FieldsOfName(rs: string, cs: string)
    requires AllDigits(rs) && AllDigits(cs)
    ensures Contains("A(" + rs + "," + cs + ")", "A(")
    ensures IndexFields("A(" + rs + "," + cs + ")") == [rs, cs]
  {
    var s := "A(" + rs + "," + cs + ")";
    assert StartsWith(s[0..], "A(");
    var inner := rs + "," + cs;
    var rest := inner + ")";
    NotInDigits(rs, '(');
    NotInDigits(cs, '(');
    NotInDigits(rs, ')');
    NotInDigits(cs, ')');
    NotInDigits(rs, ',');
    NotInDigits(cs, ',');
    assert s == "A" + ['('] + rest;
    SplitTwo("A", '(', rest);
    assert rest == inner + [')'] + "";
    SplitTwo(inner, ')', "");
    assert inner == rs + [','] + cs;
    SplitTwo(rs, ',', cs);
  }

  /** A name whose two fields parse writes the cell they select. */
  lemma NameTargetOfFields(pname: string, n: nat, cov: nat, row: int, col: int)
    requires Contains(pname, "A(") && 2 <= |IndexFields(pname)|
    requires ParseInt(IndexFields(pname)[0]) == Some(row) && ParseInt(IndexFields(pname)[1]) == Some(col)
    ensures NameTarget(pname, n, cov) == CellOf(row, col, n, cov)
  {
  }

  /** A well-formed name "A(i,j)" with `1 <= i, j <= n` writes cell `[i-1, j-1]`. */
  lemma WellFormedNameTarget(i: nat, j: nat, n: nat, cov: nat)
    requires 1 <= i <= n && 1 <= j <= n && 0 < cov
    ensures NameTarget("A(" + NatToString(i) + "," + NatToString(j) + ")", n, cov) == Ok(Some((i - 1, j - 1)))
  {
    var rs, cs := NatToString(i), NatToString(j);
    FieldsOfName(rs, cs);
    ParseIntOfNat(i);
    ParseIntOfNat(j);
    NameTargetOfFields("A(" + rs + "," + cs + ")", n, cov, i, j);
    CellOfRange(i, j, n, cov);
  }

  /**
    "A(0,j)" is not rejected: `int("0") - 1` is -1, which numpy reads as the last ROI,
    so the entry lands in the last row.
   */
  lemma ZeroRowWraps(j: nat, n: nat, cov: nat)
    requires 1 <= j <= n && 0 < cov
    ensures NameTarget("A(0," + NatToString(j) + ")", n, cov) == Ok(Some((n - 1, j - 1)))
  {
    var rs, cs := NatToString(0), NatToString(j);
    assert "A(0," + cs + ")" == "A(" + rs + "," + cs + ")";
    FieldsOfName(rs, cs);
    ParseIntOfNat(0);
    ParseIntOfNat(j);
    NameTargetOfFields("A(" + rs + "," + cs + ")", n, cov, 0, j);
    CellOfRange(0, j, n, cov);
  }

  /** A single-index name "A(i)" raises IndexError on `parts[1]`. */
  lemma SingleIndexRaises(i: nat, n: nat, cov: nat)
    ensures NameTarget("A(" + NatToString(i) + ")", n, cov) == Err(MissingColumn)
  {
    var rs := NatToString(i);
    var s := "A(" + rs + ")";
    assert StartsWith(s[0..], "A(");
    NotInDigits(rs, '(');
    NotInDigits(rs, ')');
    NotInDigits(rs, ',');
    assert s == "A" + ['('] + (rs + ")");
    SplitTwo("A", '(', rs + ")");
    assert rs + ")" == rs + [')'] + "";
    SplitTwo(rs, ')', "");
    assert Split(rs, ',') == [rs];
    assert IndexFields(s) == [rs];
    ParseIntOfNat(i);
  }

  // ---------------------------------------------------------------- covariate and whole load

  /** Lines 205-209: an index past the last covariate falls back to 0, and numpy then reads a negative one from the end. */
  function CovariateSlot(index: int, cov: nat): (r: Option<nat>)
    ensures r.Some? ==> r.value < cov
  {
    PyIndex(if index >= cov then 0 else index, cov)
  }

  lemma CovariateSlotCases(index: int, cov: nat)
    ensures CovariateSlot(index, cov).Some? <==> 0 < cov && -(cov as int) <= index
    ensures 0 <= index < cov ==> CovariateSlot(index, cov) == Some(index)
    ensures 0 < cov <= index ==> CovariateSlot(index, cov) == Some(0)
    ensures -(cov as int) <= index < 0 ==> CovariateSlot(index, cov) == Some(index + cov)
  {
  }

  /** `Ep_3d[:, :, c]`. */
  function Slice(t: Cube, n: nat, cov: nat, c: nat): (m: Matrix)
    requires IsCube(t, n, n, cov) && c < cov
    ensures IsMatrix(m, n, n)
  {
    TabulateMatrix(n, n, (a: nat, b: nat) requires a < n && b < n => t[a][b][c])
  }

  /** The tensor the thresholded vector reshapes to, and its covariate count (lines 181-203). */
  function LoadCube(v: seq<real>, n: nat, pnames: Option<seq<string>>): (r: Result<(Cube, nat), LoadError>)
    requires 0 < n
    ensures r.Ok? ==> IsCube(r.value.0, n, n, r.value.1)
  {
    if |v| % (n * n) == 0 then
      ExactDiv(|v|, n * n);
      var cov := |v| / (n * n);
      Ok((FortranReshape(v, n, cov), cov))
    else
      match pnames
      case None => Err(MissingPnames)
      case Some(names) =>
        if |names| == 0 then Err(LoadError.ZeroDivision)
        else
          var cov := |v| / |names|;
          FloorMul(|v|, |names|);
          match FirstError(names, n, cov)
          case Some(e) => Err(e)
          case None => Ok((NamedReshape(v, names, n, cov), cov))
  }

  /** The numeric part of `load_connectivity` as one function of its inputs. */
  function LoadSpec(ep: seq<real>, pp: seq<real>, n: nat, pnames: Option<seq<string>>, threshold: real, index: int)
    : (r: Result<Matrix, LoadError>)
    ensures |pp| != |ep| ==> r == Err(MaskMismatch)
    ensures r.Ok? ==> IsMatrix(r.value, n, n)
  {
    if |pp| != |ep| then Err(MaskMismatch)
    else if n == 0 then Err(LoadError.ZeroDivision)
    else
      var v := ThresholdedVector(ep, pp, threshold);
      match LoadCube(v, n, pnames)
      case Err(e) => Err(e)
      case Ok((t, cov)) =>
        match CovariateSlot(index, cov)
        case None => Err(CovariateOutOfRange)
        case Some(c) => Ok(Slice(t, n, cov, c))
  }

  /** A dense vector never needs the names, and its loaded cell `[a, b]` is entry `a + b n + c n^2` after the threshold. */
  lemma DenseLoadCell(ep: seq<real>, pp: seq<real>, n: nat, pnames: Option<seq<string>>, threshold: real, index: int, a: nat, b: nat)
    requires |pp| == |ep| && 0 < n && |ep| % (n * n) == 0 && a < n && b < n
    requires 0 <= index < |ep| / (n * n)
    ensures LoadSpec(ep, pp, n, pnames, threshold, index).Ok?
    ensures IndexF(n, index, a, b) < |ep|
    ensures LoadSpec(ep, pp, n, pnames, threshold, index).value[a][b]
         == ThresholdCell(ep[IndexF(n, index, a, b)], pp[IndexF(n, index, a, b)], threshold)
  {
    var v := ThresholdedVector(ep, pp, threshold);
    var cov := |ep| / (n * n);
    ExactDiv(|ep|, n * n);
    CovariateSlotCases(index, cov);
    FortranAt(v, n, cov, a, b, index);
    assert LoadSpec(ep, pp, n, pnames, threshold, index).value == Slice(FortranReshape(v, n, cov), n, cov, index);
  }

  /** Line 188 then 209: the slice of a dense vector, straight into a new matrix. */
  method SliceOf(t3: array3<real>, c: nat) returns (m: array2<real>)
    requires t3.Length0 == t3.Length1 && c < t3.Length2
    ensures fresh(m)
    ensures MatrixOf(m) == Slice(CubeOf(t3), t3.Length0, t3.Length2, c)
  {
    var n := t3.Length0;
    m := new real[n, n]((a, b) => 0.0);
    for a := 0 to n
      invariant forall x, y | 0 <= x < a && 0 <= y < n :: m[x, y] == t3[x, y, c]
    {
      for b := 0 to n
        invariant forall x, y | 0 <= x < n && 0 <= y < n && (x < a || (x == a && y < b)) :: m[x, y] == t3[x, y, c]
      {
        m[a, b] := t3[a, b, c];
      }
    }
    MatrixExt(MatrixOf(m), Slice(CubeOf(t3), n, t3.Length2, c), n, n);
  }

  /** One name's writes: `Ep_3d[i, j, c] = Ep[p + c * L]` for every covariate. */
  method WriteName(t3: array3<real>, v: seq<real>, L: nat, p: nat, a: nat, b: nat)
    requires a < t3.Length0 && b < t3.Length1 && p < L && t3.Length2 * L <= |v|
    modifies t3
    ensures forall c | 0 <= c < t3.Length2 :: t3[a, b, c] == BlockEntry(v, L, t3.Length2, c, p)
    ensures forall x, y, c | 0 <= x < t3.Length0 && 0 <= y < t3.Length1 && 0 <= c < t3.Length2 && (x != a || y != b) ::
      t3[x, y, c] == old(t3[x, y, c])
  {
    for c := 0 to t3.Length2
      invariant forall d | 0 <= d < c :: t3[a, b, d] == BlockEntry(v, L, t3.Length2, d, p)
      invariant forall x, y, d | 0 <= x < t3.Length0 && 0 <= y < t3.Length1 && 0 <= d < t3.Length2 && (x != a || y != b) ::
        t3[x, y, d] == old(t3[x, y, d])
    {
      BlockBound(t3.Length2, L, c, p, |v|);
      t3[a, b, c] := v[p + c * L];
    }
  }

  /** Lines 190-203: the loop over the parameter names, stopping at the first exception. */
  method ScatterNames(v: seq<real>, names: seq<string>, n: nat, cov: nat) returns (r: Result<array3<real>, LoadError>)
    requires cov * |names| <= |v|
    ensures r.Err? <==> FirstError(names, n, cov).Some?
    ensures r.Err? ==> r.error == FirstError(names, n, cov).value
    ensures r.Ok? ==> fresh(r.value) && Shaped(r.value, n, cov)
    ensures r.Ok? ==> CubeOf(r.value) == NamedReshape(v, names, n, cov)
  {
    var t3 := new real[n, n, cov]((a, b, c) => 0.0);
    var L := |names|;
    for p := 0 to L
      invariant FirstError(names[..p], n, cov).None?
      invariant forall a, b, c | 0 <= a < n && 0 <= b < n && 0 <= c < cov ::
        t3[a, b, c] == WriterCell(v, Targets(names[..p], n, cov), L, cov, a, b, c)
    {
      assert names[..p + 1][..p] == names[..p];
      var target := NameTarget(names[p], n, cov);
      if target.Err? {
        assert FirstError(names[..p + 1], n, cov) == Some(target.error);
        FirstErrorSticks(names, n, cov, p + 1, L);
        assert names[..L] == names;
        return Err(target.error);
      }
      ghost var before := Targets(names[..p], n, cov);
      assert Targets(names[..p + 1], n, cov) == before + [target.value];
      match target.value {
        case None =>
        case Some(cell) =>
          WriteName(t3, v, L, p, cell.0, cell.1);
      }
      forall a, b, c | 0 <= a < n && 0 <= b < n && 0 <= c < cov
        ensures t3[a, b, c] == WriterCell(v, Targets(names[..p + 1], n, cov), L, cov, a, b, c)
      {
        WriterStep(v, before, target.value, L, cov, a, b, c);
      }
    }
    assert names[..L] == names;
    CubeExt(CubeOf(t3), NamedReshape(v, names, n, cov), n, n, cov);
    r := Ok(t3);
  }

  /** Lines 181-203: reshape the thresholded vector, densely when it divides evenly, by parameter name otherwise. */
  method ReshapeVector(v: seq<real>, n: nat, pnames: Option<seq<string>>) returns (r: Result<(array3<real>, nat), LoadError>)
    requires 0 < n
    ensures r.Ok? <==> LoadCube(v, n, pnames).Ok?
    ensures r.Err? ==> r.error == LoadCube(v, n, pnames).error
    ensures r.Ok? ==> fresh(r.value.0) && Shaped(r.value.0, n, r.value.1)
    ensures r.Ok? ==> LoadCube(v, n, pnames).value == (CubeOf(r.value.0), r.value.1)
  {
    if |v| % (n * n) == 0 {
      ExactDiv(|v|, n * n);
      var cov := |v| / (n * n);
      var t3 := FillFortran(v, n, cov);
      return Ok((t3, cov));
    }
    if pnames.None? {
      return Err(MissingPnames);
    }
    var names := pnames.value;
    if |names| == 0 {
      return Err(LoadError.ZeroDivision);
    }
    var cov := |v| / |names|;
    FloorMul(|v|, |names|);
    var scattered := ScatterNames(v, names, n, cov);
    if scattered.Err? {
      return Err(scattered.error);
    }
    return Ok((scattered.value, cov));
  }

  /** `load_connectivity` after the file is read: the matrix it returns is the one `LoadSpec` describes. */
  method LoadConnectivity(ep: seq<real>, pp: seq<real>, roiNames: seq<string>, pnames: Option<seq<string>>,
                          threshold: real, index: int) returns (r: Result<Connectivity, LoadError>)
    ensures r.Ok? <==> LoadSpec(ep, pp, |roiNames|, pnames, threshold, index).Ok?
    ensures r.Err? ==> r.error == LoadSpec(ep, pp, |roiNames|, pnames, threshold, index).error
    ensures r.Ok? ==> fresh(r.value.matrix) && r.value.roiNames == roiNames
    ensures r.Ok? ==> MatrixOf(r.value.matrix) == LoadSpec(ep, pp, |roiNames|, pnames, threshold, index).value
  {
    if |pp| != |ep| {
      return Err(MaskMismatch);
    }
    var flat := new real[|ep|](k requires 0 <= k < |ep| => ep[k]);
    assert flat[..] == ep;
    ThresholdVector(flat, pp, threshold);
    var v := flat[..];
    var n := |roiNames|;
    if n == 0 {
      return Err(LoadError.ZeroDivision);
    }
    var reshaped := ReshapeVector(v, n, pnames);
    if reshaped.Err? {
      return Err(reshaped.error);
    }
    var (t3, cov) := reshaped.value;
    var ci := index;
    if ci >= cov {
      ci := 0;
    }
    var slot := PyIndex(ci, cov);
    if slot.None? {
      return Err(CovariateOutOfRange);
    }
    var m := SliceOf(t3, slot.value);
    r := Ok(Connectivity(m, roiNames));
  }
}
