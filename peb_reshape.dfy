/**
  `PEBDataLoader.reshape_*` in plot_PEB_results.py: the flat posterior vectors
  `Ep` (expected values) and `Pp` (posterior probabilities) of a PEB/BMA model
  become `n x n x cov` tensors indexed `[target, source, covariate]`.

  Three layouts are possible. `Dense` is numpy's default (row-major) reshape of
  each covariate block. `Named` places each estimated parameter at the cell its
  name "A(row,col)" gives. `Sequential` fills each covariate slice in row-major
  order until the block runs out. Each layout is specified by a function on
  sequences, and each method that fills arrays in place is proved to produce it.
 */
module PebReshape {
  import opened Wrappers
  import opened Text
  import opened Tensors
  import opened FlatIndex
  import opened PebNames

  /**
    The fields of the loaded model the reshaper reads. `designColumns` is the
    column count of the design matrix `M.X` when the model has one, and
    `pnames` is `Pnames` when present.
   */
  datatype PebModel = PebModel(ep: seq<real>, pp: seq<real>, designColumns: Option<nat>, pnames: Option<seq<string>>)

  /** A design matrix with no columns: `len(Ep) // cov_n` divides by zero. */
  datatype ReshapeError = ZeroDivision

  /** The reshaped `Ep` and `Pp` tensors and the reported parameter count per covariate. */
  datatype Posterior = Posterior(ep: array3<real>, pp: array3<real>, paramN: nat)

  /** The array has the shape `(n, n, cov)`. */
  predicate Shaped(a: array3<real>, n: nat, cov: nat) {
    a.Length0 == n && a.Length1 == n && a.Length2 == cov
  }

  datatype Layout = Dense | Named(parts: seq<ParamPart>) | Sequential

  function Min(a: int, b: int): int {
    if a <= b then a else b
  }

  /** `cov_n`: the design matrix's column count, or 1 without a design matrix. */
  function CovariateCount(m: PebModel): nat {
    m.designColumns.GetOr(1)
  }

  /** The parsed records of the names, one per name, in order. */
  function ParseAll(names: seq<string>): seq<ParamPart> {
    seq(|names|, k requires 0 <= k < |names| => ParseParameterName(names[k]))
  }

  /**
    The layout `reshape_posterior_simple` and `reshape_posterior_constrained` pick:
    dense exactly when `len(Ep) == n * n * cov_n`, otherwise the first
    `len(Ep) // cov_n` names when the model has names, otherwise sequential.
   */
  function ChooseLayout(m: PebModel, n: nat): Layout
    requires CovariateCount(m) > 0
  {
    var cov := CovariateCount(m);
    if |m.ep| == cov * (n * n) then Dense
    else
      match m.pnames
      case Some(names) => Named(ParseAll(names[..Min(|m.ep| / cov, |names|)]))
      case None => Sequential
  }

  ghost predicate LayoutFits(layout: Layout, len: nat, n: nat, cov: nat) {
    && cov > 0
    && (layout.Dense? ==> len == cov * (n * n))
    && (layout.Named? ==> |layout.parts| <= len / cov)
  }

  lemma ChosenLayoutFits(m: PebModel, n: nat)
    requires CovariateCount(m) > 0
    ensures LayoutFits(ChooseLayout(m, n), |m.ep|, n, CovariateCount(m))
  {
  }

  // ---------------------------------------------------------------- dense

  function DenseCell(v: seq<real>, n: nat, cov: nat, i: nat, j: nat, c: nat): real
    requires |v| == cov * (n * n) && i < n && j < n && c < cov
  {
    IndexBound(n, cov, c, i, j);
    v[Index(n, c, i, j)]
  }

  /** Each covariate block `v[c*n*n .. (c+1)*n*n]` reshaped row-major into the slice `[:, :, c]`. */
  function DenseReshape(v: seq<real>, n: nat, cov: nat): (t: Cube)
    requires |v| == cov * (n * n)
    ensures IsCube(t, n, n, cov)
  {
    Tabulate(n, n, cov, (i: nat, j: nat, c: nat) requires i < n && j < n && c < cov => DenseCell(v, n, cov, i, j, c))
  }

  function CellAt(t: Cube, n: nat, cov: nat, a: nat, b: nat, c: nat): real
    requires IsCube(t, n, n, cov) && a < n && b < n && c < cov
  {
    t[a][b][c]
  }

  function FlatCell(t: Cube, n: nat, cov: nat, k: nat): real
    requires IsCube(t, n, n, cov) && k < cov * (n * n)
  {
    SplitBounds(n, cov, k);
    CellAt(t, n, cov, (k % (n * n)) / n, k % n, k / (n * n))
  }

  /** The inverse of the dense reshape: covariate blocks, each slice read row by row. */
  function Flatten(t: Cube, n: nat, cov: nat): seq<real>
    requires IsCube(t, n, n, cov)
  {
    seq(cov * (n * n), k requires 0 <= k < cov * (n * n) => FlatCell(t, n, cov, k))
  }

  /** Entry `k` of covariate block `c`, that is `Ep[c*n*n + k]`, lands at `[k / n, k % n, c]`. */
  lemma DensePlacement(v: seq<real>, n: nat, cov: nat, c: nat, k: nat)
    requires |v| == cov * (n * n) && c < cov && 0 < n && k < n * n
    ensures k / n < n && k % n < n && c * (n * n) + k < |v|
    ensures CellAt(DenseReshape(v, n, cov), n, cov, k / n, k % n, c) == v[c * (n * n) + k]
  {
    IndexOfOffset(n, c, k);
    DenseAt(v, n, cov, k / n, k % n, c);
  }

  /** No entry is lost or moved by the dense reshape: flattening it back gives the vector. */
  lemma DenseFlattenRoundTrip(v: seq<real>, n: nat, cov: nat)
    requires |v| == cov * (n * n)
    ensures Flatten(DenseReshape(v, n, cov), n, cov) == v
  {
    var t := DenseReshape(v, n, cov);
    forall f | 0 <= f < |v| ensures Flatten(t, n, cov)[f] == v[f] {
      DenseFlatCell(v, n, cov, f);
    }
  }

  lemma DenseFlatCell(v: seq<real>, n: nat, cov: nat, f: nat)
    requires |v| == cov * (n * n) && f < |v|
    ensures FlatCell(DenseReshape(v, n, cov), n, cov, f) == v[f]
  {
    IndexSplit(n, cov, f);
    var c, a, b := f / (n * n), (f % (n * n)) / n, f % n;
    DenseAt(v, n, cov, a, b, c);
  }

  lemma DenseAt(v: seq<real>, n: nat, cov: nat, a: nat, b: nat, c: nat)
    requires |v| == cov * (n * n) && a < n && b < n && c < cov
    ensures Index(n, c, a, b) < |v|
    ensures CellAt(DenseReshape(v, n, cov), n, cov, a, b, c) == v[Index(n, c, a, b)]
  {
    IndexBound(n, cov, c, a, b);
  }

  /** Every cube of the right shape is the dense reshape of its flattening. */
  lemma FlattenDenseRoundTrip(t: Cube, n: nat, cov: nat)
    requires IsCube(t, n, n, cov)
    ensures DenseReshape(Flatten(t, n, cov), n, cov) == t
  {
    var u := DenseReshape(Flatten(t, n, cov), n, cov);
    forall i, j, c | 0 <= i < n && 0 <= j < n && 0 <= c < cov ensures u[i][j][c] == t[i][j][c] {
      IndexBound(n, cov, c, i, j);
      IndexParts(n, c, i, j);
    }
    CubeExt(u, t, n, n, cov);
  }

  // ---------------------------------------------------------------- named

  /** The record names cell `[i, j]`: both indices present and equal to `i + 1`, `j + 1`. */
  predicate Hits(part: ParamPart, i: nat, j: nat) {
    part.row == Some(i + 1) && part.col == Some(j + 1)
  }

  /** The last of the first `k` records that names cell `[i, j]`. */
  function LastHit(parts: seq<ParamPart>, k: nat, i: nat, j: nat): (r: Option<nat>)
    requires k <= |parts|
    ensures r.Some? ==> r.value < k && Hits(parts[r.value], i, j)
    ensures r.Some? ==> forall m | r.value < m < k :: !Hits(parts[m], i, j)
    ensures r.None? ==> forall m | 0 <= m < k :: !Hits(parts[m], i, j)
  {
    if k == 0 then None
    else if Hits(parts[k - 1], i, j) then Some(k - 1)
    else LastHit(parts, k - 1, i, j)
  }

  /** Cell `[i, j, c]` after the first `k` records of covariate `c` are written; blocks have `p` entries. */
  function NamedCell(v: seq<real>, cov: nat, p: nat, parts: seq<ParamPart>, k: nat, i: nat, j: nat, c: nat): real
    requires cov * p <= |v| && |parts| <= p && k <= |parts| && c < cov
  {
    match LastHit(parts, k, i, j)
    case Some(h) =>
      BlockBound(cov, p, c, h, |v|);
      v[c * p + h]
    case None => 0.0
  }

  /** Record `k` writes `v[c*p + k]` to the cell it names; a later record naming the same cell wins. */
  function NamedReshape(v: seq<real>, n: nat, cov: nat, parts: seq<ParamPart>): (t: Cube)
    requires 0 < cov && |parts| <= |v| / cov
    ensures IsCube(t, n, n, cov)
  {
    var p := |v| / cov;
    DivBound(|v|, cov);
    Tabulate(n, n, cov, (i: nat, j: nat, c: nat) requires i < n && j < n && c < cov => NamedCell(v, cov, p, parts, |parts|, i, j, c))
  }

  lemma {:induction false} LastHitUnique(parts: seq<ParamPart>, k: nat, i: nat, j: nat, h: nat)
    requires h < k <= |parts| && Hits(parts[h], i, j)
    requires forall m | 0 <= m < k && m != h :: !Hits(parts[m], i, j)
    ensures LastHit(parts, k, i, j) == Some(h)
    decreases k
  {
    if k - 1 != h {
      LastHitUnique(parts, k - 1, i, j, h);
    }
  }

  /** A record that is the only one naming its cell places its entry there, for every covariate. */
  lemma NamedPlacement(v: seq<real>, n: nat, cov: nat, parts: seq<ParamPart>, h: nat, i: nat, j: nat, c: nat)
    requires 0 < cov && |parts| <= |v| / cov
    requires h < |parts| && i < n && j < n && c < cov
    requires Hits(parts[h], i, j)
    requires forall m | 0 <= m < |parts| && m != h :: !Hits(parts[m], i, j)
    ensures c * (|v| / cov) + h < |v|
    ensures NamedReshape(v, n, cov, parts)[i][j][c] == v[c * (|v| / cov) + h]
  {
    DivBound(|v|, cov);
    BlockBound(cov, |v| / cov, c, h, |v|);
    LastHitUnique(parts, |parts|, i, j, h);
  }

  /**
    Lines 365 and 369-381: a cell that none of the used records names stays 0, so a non-zero
    cell is always named by some record.
   */
  lemma NamedUnwrittenIsZero(v: seq<real>, n: nat, cov: nat, parts: seq<ParamPart>, i: nat, j: nat, c: nat)
    requires 0 < cov && |parts| <= |v| / cov
    requires i < n && j < n && c < cov
    requires forall m | 0 <= m < |parts| :: !Hits(parts[m], i, j)
    ensures NamedReshape(v, n, cov, parts)[i][j][c] == 0.0
  {
    assert LastHit(parts, |parts|, i, j).None?;
  }

  /** The names DCM gives a full `n x n` matrix `field`, row by row: "A(1,1)", "A(1,2)", .... */
  function RowMajorNames(field: string, n: nat): (names: seq<string>)
    ensures |names| == n * n
  {
    seq(n * n, k requires 0 <= k < n * n => FormatName(field, k / n + 1, k % n + 1))
  }

  lemma RowMajorPart(field: string, n: nat, k: nat)
    requires IsFieldName(field) && k < n * n
    ensures ParseAll(RowMajorNames(field, n))[k] == ParamPart(field, Some(k / n + 1), Some(k % n + 1))
  {
    CellOfOffset(n, k);
    var row, col := k / n + 1, k % n + 1;
    var names := RowMajorNames(field, n);
    assert names[k] == FormatName(field, row, col);
    FormatNameRoundTrip(field, row, col);
  }

  /** Among the row-major names, exactly the one at position `i*n + j` names cell `[i, j]`. */
  lemma RowMajorHits(field: string, n: nat, i: nat, j: nat, m: nat)
    requires IsFieldName(field) && i < n && j < n && m < n * n
    ensures Hits(ParseAll(RowMajorNames(field, n))[m], i, j) <==> m == i * n + j
  {
    CellOfOffset(n, m);
    RowMajorPart(field, n, m);
    if m == i * n + j {
      DivModUnique(m, n, i, j);
    }
  }

  lemma NamedRowMajorCell(v: seq<real>, n: nat, cov: nat, field: string, i: nat, j: nat, c: nat)
    requires 0 < cov && |v| == cov * (n * n) && IsFieldName(field)
    requires i < n && j < n && c < cov && |v| / cov == n * n
    ensures NamedReshape(v, n, cov, ParseAll(RowMajorNames(field, n)))[i][j][c] == DenseReshape(v, n, cov)[i][j][c]
  {
    var parts := ParseAll(RowMajorNames(field, n));
    var h := i * n + j;
    RowMajorLess(n, i, j, n, 0);
    RowMajorHits(field, n, i, j, h);
    forall m | 0 <= m < |parts| && m != h ensures !Hits(parts[m], i, j) {
      RowMajorHits(field, n, i, j, m);
    }
    NamedPlacement(v, n, cov, parts, h, i, j, c);
    IndexBound(n, cov, c, i, j);
  }

  /** With row-major names for every connection, the named layout agrees with the dense one. */
  lemma NamedRowMajorIsDense(v: seq<real>, n: nat, cov: nat, field: string)
    requires 0 < cov && |v| == cov * (n * n) && IsFieldName(field)
    ensures |ParseAll(RowMajorNames(field, n))| <= |v| / cov
    ensures NamedReshape(v, n, cov, ParseAll(RowMajorNames(field, n))) == DenseReshape(v, n, cov)
  {
    DivModUnique(|v|, cov, n * n, 0);
    var a := NamedReshape(v, n, cov, ParseAll(RowMajorNames(field, n)));
    var b := DenseReshape(v, n, cov);
    forall i, j, c | 0 <= i < n && 0 <= j < n && 0 <= c < cov ensures a[i][j][c] == b[i][j][c] {
      NamedRowMajorCell(v, n, cov, field, i, j, c);
    }
    CubeExt(a, b, n, n, cov);
  }

  // ---------------------------------------------------------------- sequential

  /** Cell `[i, j, c]` of the sequential layout: entry `i*n + j` of block `c` when the block has one. */
  function SequentialCell(v: seq<real>, n: nat, cov: nat, p: nat, i: nat, j: nat, c: nat): real
    requires cov * p <= |v| && i < n && j < n && c < cov
  {
    var k := i * n + j;
    if k < p then
      BlockBound(cov, p, c, k, |v|);
      v[c * p + k]
    else 0.0
  }

  function SequentialReshape(v: seq<real>, n: nat, cov: nat): (t: Cube)
    requires 0 < cov
    ensures IsCube(t, n, n, cov)
  {
    var p := |v| / cov;
    DivBound(|v|, cov);
    Tabulate(n, n, cov, (i: nat, j: nat, c: nat) requires i < n && j < n && c < cov => SequentialCell(v, n, cov, p, i, j, c))
  }

  /** When every connection is present, the sequential fill is the dense reshape. */
  lemma SequentialFullIsDense(v: seq<real>, n: nat, cov: nat)
    requires 0 < cov && |v| == cov * (n * n)
    ensures SequentialReshape(v, n, cov) == DenseReshape(v, n, cov)
  {
    DivModUnique(|v|, cov, n * n, 0);
    var a := SequentialReshape(v, n, cov);
    var b := DenseReshape(v, n, cov);
    forall i, j, c | 0 <= i < n && 0 <= j < n && 0 <= c < cov ensures a[i][j][c] == b[i][j][c] {
      RowMajorLess(n, i, j, n, 0);
      IndexBound(n, cov, c, i, j);
    }
    CubeExt(a, b, n, n, cov);
  }

  /** The sequential fill holds at most `p` entries per covariate: cells at row-major position `>= p` are 0. */
  lemma SequentialTailIsZero(v: seq<real>, n: nat, cov: nat, i: nat, j: nat, c: nat)
    requires 0 < cov && i < n && j < n && c < cov
    requires |v| / cov <= i * n + j
    ensures SequentialReshape(v, n, cov)[i][j][c] == 0.0
  {
  }

  // ---------------------------------------------------------------- dispatch

  function Place(layout: Layout, v: seq<real>, n: nat, cov: nat): (t: Cube)
    requires LayoutFits(layout, |v|, n, cov)
    ensures IsCube(t, n, n, cov)
  {
    match layout
    case Dense => DenseReshape(v, n, cov)
    case Named(parts) => NamedReshape(v, n, cov, parts)
    case Sequential => SequentialReshape(v, n, cov)
  }

  /** Nothing is invented: every cell of every layout is 0 or an entry of the vector. */
  lemma PlaceDrawsFromVector(layout: Layout, v: seq<real>, n: nat, cov: nat, i: nat, j: nat, c: nat)
    requires LayoutFits(layout, |v|, n, cov) && i < n && j < n && c < cov
    ensures Place(layout, v, n, cov)[i][j][c] == 0.0
         || exists f | 0 <= f < |v| :: Place(layout, v, n, cov)[i][j][c] == v[f]
  {
    match layout
    case Dense => DenseDrawsFromVector(v, n, cov, i, j, c);
    case Named(parts) => NamedDrawsFromVector(v, n, cov, parts, i, j, c);
    case Sequential => SequentialDrawsFromVector(v, n, cov, i, j, c);
  }

  lemma DenseDrawsFromVector(v: seq<real>, n: nat, cov: nat, i: nat, j: nat, c: nat)
    requires |v| == cov * (n * n) && i < n && j < n && c < cov
    ensures exists f | 0 <= f < |v| :: DenseReshape(v, n, cov)[i][j][c] == v[f]
  {
    IndexBound(n, cov, c, i, j);
    var f := Index(n, c, i, j);
    assert DenseReshape(v, n, cov)[i][j][c] == v[f];
  }

  lemma NamedDrawsFromVector(v: seq<real>, n: nat, cov: nat, parts: seq<ParamPart>, i: nat, j: nat, c: nat)
    requires 0 < cov && |parts| <= |v| / cov && i < n && j < n && c < cov
    ensures NamedReshape(v, n, cov, parts)[i][j][c] == 0.0
         || exists f | 0 <= f < |v| :: NamedReshape(v, n, cov, parts)[i][j][c] == v[f]
  {
    NamedCellAt(v, n, cov, parts, i, j, c);
    NamedCellDraws(v, cov, |v| / cov, parts, i, j, c);
  }

  lemma NamedCellAt(v: seq<real>, n: nat, cov: nat, parts: seq<ParamPart>, i: nat, j: nat, c: nat)
    requires 0 < cov && |parts| <= |v| / cov && i < n && j < n && c < cov
    ensures cov * (|v| / cov) <= |v|
    ensures NamedReshape(v, n, cov, parts)[i][j][c] == NamedCell(v, cov, |v| / cov, parts, |parts|, i, j, c)
  {
    DivBound(|v|, cov);
  }

  lemma NamedCellDraws(v: seq<real>, cov: nat, p: nat, parts: seq<ParamPart>, i: nat, j: nat, c: nat)
    requires cov * p <= |v| && |parts| <= p && c < cov
    ensures NamedCell(v, cov, p, parts, |parts|, i, j, c) == 0.0
         || exists f | 0 <= f < |v| :: NamedCell(v, cov, p, parts, |parts|, i, j, c) == v[f]
  {
    match LastHit(parts, |parts|, i, j)
    case None =>
    case Some(h) =>
      BlockBound(cov, p, c, h, |v|);
      assert NamedCell(v, cov, p, parts, |parts|, i, j, c) == v[c * p + h];
  }

  lemma SequentialDrawsFromVector(v: seq<real>, n: nat, cov: nat, i: nat, j: nat, c: nat)
    requires 0 < cov && i < n && j < n && c < cov
    ensures SequentialReshape(v, n, cov)[i][j][c] == 0.0
         || exists f | 0 <= f < |v| :: SequentialReshape(v, n, cov)[i][j][c] == v[f]
  {
    SequentialAt(v, n, cov, i, j, c);
    SequentialCellDraws(v, n, cov, |v| / cov, i, j, c);
  }

  lemma SequentialCellDraws(v: seq<real>, n: nat, cov: nat, p: nat, i: nat, j: nat, c: nat)
    requires cov * p <= |v| && i < n && j < n && c < cov
    ensures SequentialCell(v, n, cov, p, i, j, c) == 0.0
         || exists f | 0 <= f < |v| :: SequentialCell(v, n, cov, p, i, j, c) == v[f]
  {
    var k := i * n + j;
    if k < p {
      BlockBound(cov, p, c, k, |v|);
      var f := c * p + k;
      assert SequentialCell(v, n, cov, p, i, j, c) == v[f];
    }
  }

  lemma SequentialAt(v: seq<real>, n: nat, cov: nat, i: nat, j: nat, c: nat)
    requires 0 < cov && i < n && j < n && c < cov
    ensures cov * (|v| / cov) <= |v|
    ensures SequentialReshape(v, n, cov)[i][j][c] == SequentialCell(v, n, cov, |v| / cov, i, j, c)
  {
    DivBound(|v|, cov);
  }

  // ---------------------------------------------------------------- methods

  /** `reshape_posterior_simple`: pick the layout from the vector length and the names, then fill. */
  method ReshapePosteriorSimple(m: PebModel, n: nat) returns (r: Result<Posterior, ReshapeError>)
    requires |m.pp| == |m.ep|
    ensures r.Err? <==> CovariateCount(m) == 0
    ensures r.Ok? ==> CovariateCount(m) > 0 && LayoutFits(ChooseLayout(m, n), |m.ep|, n, CovariateCount(m))
    ensures r.Ok? ==> Shaped(r.value.ep, n, CovariateCount(m)) && Shaped(r.value.pp, n, CovariateCount(m)) && r.value.ep != r.value.pp
    ensures r.Ok? ==> fresh(r.value.ep) && fresh(r.value.pp) && r.value.paramN == n * n
    ensures r.Ok? ==> CubeOf(r.value.ep) == Place(ChooseLayout(m, n), m.ep, n, CovariateCount(m))
    ensures r.Ok? ==> CubeOf(r.value.pp) == Place(ChooseLayout(m, n), m.pp, n, CovariateCount(m))
  {
    var cov := CovariateCount(m);
    if cov == 0 {
      return Err(ZeroDivision);
    }
    var paramNFull := n * n;
    var total := |m.ep|;
    var ep3, pp3, paramN;
    if total != paramNFull * cov {
      ep3, pp3, paramN := ReshapePosteriorConstrained(m, n, cov);
    } else {
      ep3, pp3, paramN := ReshapePosteriorFull(n, cov, m.ep, m.pp, paramNFull);
    }
    r := Ok(Posterior(ep3, pp3, paramN));
  }

  /** `reshape_posterior_full`: the dense layout; the reported count is the one passed in. */
  method ReshapePosteriorFull(n: nat, cov: nat, ep: seq<real>, pp: seq<real>, paramN: nat)
    returns (ep3: array3<real>, pp3: array3<real>, paramOut: nat)
    requires |ep| == |pp| == cov * (n * n)
    ensures Shaped(ep3, n, cov) && Shaped(pp3, n, cov) && ep3 != pp3
    ensures fresh(ep3) && fresh(pp3) && paramOut == paramN
    ensures CubeOf(ep3) == DenseReshape(ep, n, cov)
    ensures CubeOf(pp3) == DenseReshape(pp, n, cov)
  {
    ep3 := FillDense(ep, n, cov);
    pp3 := FillDense(pp, n, cov);
    paramOut := paramN;
  }

  /** The loop of `reshape_posterior_full` for one of the two vectors. */
  method FillDense(v: seq<real>, n: nat, cov: nat) returns (t3: array3<real>)
    requires |v| == cov * (n * n)
    ensures fresh(t3) && Shaped(t3, n, cov)
    ensures CubeOf(t3) == DenseReshape(v, n, cov)
  {
    t3 := new real[n, n, cov]((i, j, c) => 0.0);
    for c := 0 to cov
      invariant forall a, b, d | 0 <= a < n && 0 <= b < n && 0 <= d < cov ::
        t3[a, b, d] == (if d < c then DenseCell(v, n, cov, a, b, d) else 0.0)
    {
      FillDenseCovariate(t3, v, n, cov, c);
    }
    CubeExt(CubeOf(t3), DenseReshape(v, n, cov), n, n, cov);
  }

  /** `Ep_reshaped[:, :, c] = Ep[c*n*n:(c+1)*n*n].reshape(n, n)`. */
  method FillDenseCovariate(t3: array3<real>, v: seq<real>, n: nat, cov: nat, c: nat)
    requires t3.Length0 == n && t3.Length1 == n && t3.Length2 == cov
    requires c < cov && |v| == cov * (n * n)
    modifies t3
    ensures forall a, b | 0 <= a < n && 0 <= b < n :: t3[a, b, c] == DenseCell(v, n, cov, a, b, c)
    ensures forall a, b, d | 0 <= a < n && 0 <= b < n && 0 <= d < cov && d != c :: t3[a, b, d] == old(t3[a, b, d])
  {
    var start := c * (n * n);
    for i := 0 to n
      invariant forall a, b | 0 <= a < i && 0 <= b < n :: t3[a, b, c] == DenseCell(v, n, cov, a, b, c)
      invariant forall a, b, d | 0 <= a < n && 0 <= b < n && 0 <= d < cov && d != c :: t3[a, b, d] == old(t3[a, b, d])
    {
      for j := 0 to n
        invariant forall a, b | 0 <= a < n && 0 <= b < n && (a < i || (a == i && b < j)) ::
          t3[a, b, c] == DenseCell(v, n, cov, a, b, c)
        invariant forall a, b, d | 0 <= a < n && 0 <= b < n && 0 <= d < cov && d != c :: t3[a, b, d] == old(t3[a, b, d])
      {
        IndexBound(n, cov, c, i, j);
        t3[i, j, c] := v[start + i * n + j];
      }
    }
  }

  /** `reshape_posterior_constrained`: by names when the model has them, sequentially otherwise. */
  method ReshapePosteriorConstrained(m: PebModel, n: nat, cov: nat)
    returns (ep3: array3<real>, pp3: array3<real>, paramN: nat)
    requires |m.pp| == |m.ep| && cov == CovariateCount(m) && 0 < cov && |m.ep| != cov * (n * n)
    ensures Shaped(ep3, n, cov) && Shaped(pp3, n, cov) && ep3 != pp3
    ensures LayoutFits(ChooseLayout(m, n), |m.ep|, n, cov)
    ensures fresh(ep3) && fresh(pp3) && paramN == n * n
    ensures CubeOf(ep3) == Place(ChooseLayout(m, n), m.ep, n, cov)
    ensures CubeOf(pp3) == Place(ChooseLayout(m, n), m.pp, n, cov)
  {
    var p := |m.ep| / cov;
    ChosenLayoutFits(m, n);
    if m.pnames.Some? {
      assert ChooseLayout(m, n) == Named(ParseAll(m.pnames.value[..Min(p, |m.pnames.value|)]));
      ep3, pp3, paramN := ReshapeWithParameterNames(n, cov, m.ep, m.pp, m.pnames.value);
    } else {
      assert ChooseLayout(m, n) == Sequential;
      ep3, pp3, paramN := ReshapeConstrainedFallback(n, cov, m.ep, m.pp, p);
    }
  }

  /** `reshape_with_parameter_names`: the first `len(Ep) // cov` names place the entries of each block. */
  method ReshapeWithParameterNames(n: nat, cov: nat, ep: seq<real>, pp: seq<real>, pnames: seq<string>)
    returns (ep3: array3<real>, pp3: array3<real>, paramN: nat)
    requires |ep| == |pp| && 0 < cov
    ensures Shaped(ep3, n, cov) && Shaped(pp3, n, cov) && ep3 != pp3
    ensures |ParseAll(pnames[..Min(|ep| / cov, |pnames|)])| <= |ep| / cov
    ensures fresh(ep3) && fresh(pp3) && paramN == n * n
    ensures CubeOf(ep3) == NamedReshape(ep, n, cov, ParseAll(pnames[..Min(|ep| / cov, |pnames|)]))
    ensures CubeOf(pp3) == NamedReshape(pp, n, cov, ParseAll(pnames[..Min(|ep| / cov, |pnames|)]))
  {
    var p := |ep| / cov;
    var parts := ParseParameterNames(pnames[..Min(p, |pnames|)]);
    assert parts == ParseAll(pnames[..Min(p, |pnames|)]);
    ep3 := ScatterByName(ep, n, cov, parts);
    pp3 := ScatterByName(pp, n, cov, parts);
    paramN := n * n;
  }

  /**
    The loop of `reshape_with_parameter_names` for one of the two vectors: for each
    covariate, record `k` copies entry `c*p + k` to the cell it names, if it names one.
   */
  method ScatterByName(v: seq<real>, n: nat, cov: nat, parts: seq<ParamPart>) returns (t3: array3<real>)
    requires 0 < cov && |parts| <= |v| / cov
    ensures fresh(t3) && Shaped(t3, n, cov)
    ensures CubeOf(t3) == NamedReshape(v, n, cov, parts)
  {
    var p := |v| / cov;
    DivBound(|v|, cov);
    t3 := new real[n, n, cov]((i, j, c) => 0.0);
    for c := 0 to cov
      invariant forall a, b, d | 0 <= a < n && 0 <= b < n && 0 <= d < cov ::
        t3[a, b, d] == (if d < c then NamedCell(v, cov, p, parts, |parts|, a, b, d) else 0.0)
    {
      ScatterCovariate(t3, v, n, cov, p, parts, c);
    }
    CubeExt(CubeOf(t3), NamedReshape(v, n, cov, parts), n, n, cov);
  }

  /** One covariate of `ScatterByName`: the records, in order, fill slice `c`; later records overwrite earlier ones. */
  method ScatterCovariate(t3: array3<real>, v: seq<real>, n: nat, cov: nat, p: nat, parts: seq<ParamPart>, c: nat)
    requires t3.Length0 == n && t3.Length1 == n && t3.Length2 == cov
    requires c < cov && cov * p <= |v| && |parts| <= p
    requires forall a, b | 0 <= a < n && 0 <= b < n :: t3[a, b, c] == 0.0
    modifies t3
    ensures forall a, b | 0 <= a < n && 0 <= b < n :: t3[a, b, c] == NamedCell(v, cov, p, parts, |parts|, a, b, c)
    ensures forall a, b, d | 0 <= a < n && 0 <= b < n && 0 <= d < cov && d != c :: t3[a, b, d] == old(t3[a, b, d])
  {
    var start := c * p;
    for k := 0 to |parts|
      invariant forall a, b | 0 <= a < n && 0 <= b < n :: t3[a, b, c] == NamedCell(v, cov, p, parts, k, a, b, c)
      invariant forall a, b, d | 0 <= a < n && 0 <= b < n && 0 <= d < cov && d != c :: t3[a, b, d] == old(t3[a, b, d])
    {
      var part := parts[k];
      if part.row.Some? && part.col.Some? {
        var rowIdx := part.row.value - 1;
        var colIdx := part.col.value - 1;
        if 0 <= rowIdx < n && 0 <= colIdx < n {
          BlockBound(cov, p, c, k, |v|);
          t3[rowIdx, colIdx, c] := v[start + k];
        }
      }
    }
  }

  /** `reshape_constrained_fallback`: each block of `p` entries fills its slice row by row, then stops. */
  method ReshapeConstrainedFallback(n: nat, cov: nat, ep: seq<real>, pp: seq<real>, p: nat)
    returns (ep3: array3<real>, pp3: array3<real>, paramN: nat)
    requires |ep| == |pp| && 0 < cov && p == |ep| / cov
    ensures Shaped(ep3, n, cov) && Shaped(pp3, n, cov) && ep3 != pp3
    ensures fresh(ep3) && fresh(pp3) && paramN == n * n
    ensures CubeOf(ep3) == SequentialReshape(ep, n, cov)
    ensures CubeOf(pp3) == SequentialReshape(pp, n, cov)
  {
    ep3 := FillSequential(ep, n, cov, p);
    pp3 := FillSequential(pp, n, cov, p);
    paramN := n * n;
  }

  /** The loop of `reshape_constrained_fallback` for one of the two vectors. */
  method FillSequential(v: seq<real>, n: nat, cov: nat, p: nat) returns (t3: array3<real>)
    requires 0 < cov && p == |v| / cov
    ensures fresh(t3) && Shaped(t3, n, cov)
    ensures CubeOf(t3) == SequentialReshape(v, n, cov)
  {
    DivBound(|v|, cov);
    t3 := new real[n, n, cov]((i, j, c) => 0.0);
    for c := 0 to cov
      invariant forall a, b, d | 0 <= a < n && 0 <= b < n && 0 <= d < cov ::
        t3[a, b, d] == (if d < c then SequentialCell(v, n, cov, p, a, b, d) else 0.0)
    {
      FillSequentialCovariate(t3, v, n, cov, p, c);
    }
    CubeExt(CubeOf(t3), SequentialReshape(v, n, cov), n, n, cov);
  }

  /** One covariate of the fallback: copy `cov_ep[param_idx]` row by row, stopping when the block runs out. */
  method FillSequentialCovariate(t3: array3<real>, v: seq<real>, n: nat, cov: nat, p: nat, c: nat)
    requires t3.Length0 == n && t3.Length1 == n && t3.Length2 == cov
    requires c < cov && cov * p <= |v|
    requires forall a, b | 0 <= a < n && 0 <= b < n :: t3[a, b, c] == 0.0
    modifies t3
    ensures forall a, b | 0 <= a < n && 0 <= b < n :: t3[a, b, c] == SequentialCell(v, n, cov, p, a, b, c)
    ensures forall a, b, d | 0 <= a < n && 0 <= b < n && 0 <= d < cov && d != c :: t3[a, b, d] == old(t3[a, b, d])
  {
    var start := c * p;
    var idx := 0;
    var i := 0;
    while i < n && idx < p
      invariant 0 <= i <= n && idx == Min(i * n, p)
      invariant forall a, b | 0 <= a < n && 0 <= b < n ::
        t3[a, b, c] == (if a < i then SequentialCell(v, n, cov, p, a, b, c) else 0.0)
      invariant forall a, b, d | 0 <= a < n && 0 <= b < n && 0 <= d < cov && d != c :: t3[a, b, d] == old(t3[a, b, d])
    {
      idx := FillSequentialRow(t3, v, n, cov, p, c, start, i, idx);
      MulDiff(i + 1, 1, n);
      i := i + 1;
    }
    // The rows not reached lie past the block.
    forall a, b | i <= a < n && 0 <= b < n ensures SequentialCell(v, n, cov, p, a, b, c) == 0.0 {
      RowMajorLess(n, a, b, i, 0);
    }
  }

  /** One row `i` of the fallback's inner loop: copy entries while the block lasts, from position `idx == i * n`. */
  method FillSequentialRow(t3: array3<real>, v: seq<real>, n: nat, cov: nat, p: nat, c: nat, start: nat, i: nat, idx0: nat)
    returns (idx: nat)
    requires t3.Length0 == n && t3.Length1 == n && t3.Length2 == cov
    requires c < cov && cov * p <= |v| && start == c * p && i < n && idx0 == i * n && idx0 < p
    requires forall b | 0 <= b < n :: t3[i, b, c] == 0.0
    modifies t3
    ensures idx == Min(i * n + n, p)
    ensures forall b | 0 <= b < n :: t3[i, b, c] == SequentialCell(v, n, cov, p, i, b, c)
    ensures forall a, b, d | 0 <= a < n && 0 <= b < n && 0 <= d < cov && (a != i || d != c) :: t3[a, b, d] == old(t3[a, b, d])
  {
    idx := idx0;
    var j := 0;
    while j < n && idx < p
      invariant 0 <= j <= n && idx == idx0 + j && idx <= p
      invariant forall b | 0 <= b < n :: t3[i, b, c] == (if b < j then SequentialCell(v, n, cov, p, i, b, c) else 0.0)
      invariant forall a, b, d | 0 <= a < n && 0 <= b < n && 0 <= d < cov && (a != i || d != c) :: t3[a, b, d] == old(t3[a, b, d])
    {
      BlockBound(cov, p, c, idx, |v|);
      t3[i, j, c] := v[start + idx];
      idx := idx + 1;
      j := j + 1;
    }
  }
}
