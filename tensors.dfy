/**
  Value views of the numpy arrays the scripts fill in place. A `Cube` is indexed
  `[target][source][covariate]` like the source's `Ep[:, :, c]`; a `Matrix` is one
  covariate's `[target][source]` slice. The ghost functions `CubeOf` and `MatrixOf`
  read an array into its value, so that a method's new state can be stated as a
  function of its inputs.
 */
module Tensors {

  type Cube = seq<seq<seq<real>>>
  type Matrix = seq<seq<real>>

  ghost predicate IsCube(t: Cube, n0: nat, n1: nat, n2: nat) {
    && |t| == n0
    && (forall i | 0 <= i < n0 :: |t[i]| == n1)
    && (forall i, j | 0 <= i < n0 && 0 <= j < n1 :: |t[i][j]| == n2)
  }

  ghost predicate IsMatrix<T>(m: seq<seq<T>>, n0: nat, n1: nat) {
    |m| == n0 && forall i | 0 <= i < n0 :: |m[i]| == n1
  }

  /** numpy's integer-array indexing `xs[idx]`: entry `k` is `xs[idx[k]]`. */
  function Indexed<T>(xs: seq<T>, idx: seq<nat>): (r: seq<T>)
    requires forall k | 0 <= k < |idx| :: idx[k] < |xs|
    ensures |r| == |idx| && forall k | 0 <= k < |idx| :: r[k] == xs[idx[k]]
  {
    seq(|idx|, k requires 0 <= k < |idx| => xs[idx[k]])
  }

  /** The cube whose cell `[i][j][c]` is `f(i, j, c)`. */
  function Tabulate(n0: nat, n1: nat, n2: nat, f: (nat, nat, nat) --> real): (t: Cube)
    requires forall i, j, c | 0 <= i < n0 && 0 <= j < n1 && 0 <= c < n2 :: f.requires(i, j, c)
    ensures IsCube(t, n0, n1, n2)
    ensures forall i, j, c | 0 <= i < n0 && 0 <= j < n1 && 0 <= c < n2 :: t[i][j][c] == f(i, j, c)
  {
    seq(n0, i requires 0 <= i < n0 =>
      seq(n1, j requires 0 <= j < n1 =>
        seq(n2, c requires 0 <= c < n2 => f(i, j, c))))
  }

  /** The matrix whose cell `[i][j]` is `f(i, j)`. */
  function TabulateMatrix<T>(n0: nat, n1: nat, f: (nat, nat) --> T): (m: seq<seq<T>>)
    requires forall i, j | 0 <= i < n0 && 0 <= j < n1 :: f.requires(i, j)
    ensures IsMatrix(m, n0, n1)
    ensures forall i, j | 0 <= i < n0 && 0 <= j < n1 :: m[i][j] == f(i, j)
  {
    seq(n0, i requires 0 <= i < n0 => seq(n1, j requires 0 <= j < n1 => f(i, j)))
  }

  ghost function CubeOf(a: array3<real>): (t: Cube)
    reads a
    ensures IsCube(t, a.Length0, a.Length1, a.Length2)
    ensures forall i, j, c | 0 <= i < a.Length0 && 0 <= j < a.Length1 && 0 <= c < a.Length2 :: t[i][j][c] == a[i, j, c]
  {
    seq(a.Length0, i requires 0 <= i < a.Length0 reads a =>
      seq(a.Length1, j requires 0 <= j < a.Length1 reads a =>
        seq(a.Length2, c requires 0 <= c < a.Length2 reads a => a[i, j, c])))
  }

  ghost function MatrixOf<T>(a: array2<T>): (m: seq<seq<T>>)
    reads a
    ensures IsMatrix(m, a.Length0, a.Length1)
    ensures forall i, j | 0 <= i < a.Length0 && 0 <= j < a.Length1 :: m[i][j] == a[i, j]
  {
    seq(a.Length0, i requires 0 <= i < a.Length0 reads a =>
      seq(a.Length1, j requires 0 <= j < a.Length1 reads a => a[i, j]))
  }

  /** Two cubes of one shape that agree on every cell are equal. */
  lemma CubeExt(a: Cube, b: Cube, n0: nat, n1: nat, n2: nat)
    requires IsCube(a, n0, n1, n2) && IsCube(b, n0, n1, n2)
    requires forall i, j, c | 0 <= i < n0 && 0 <= j < n1 && 0 <= c < n2 :: a[i][j][c] == b[i][j][c]
    ensures a == b
  {
    forall i | 0 <= i < n0 ensures a[i] == b[i] {
      forall j | 0 <= j < n1 ensures a[i][j] == b[i][j] {
        assert |a[i][j]| == |b[i][j]| == n2;
      }
    }
  }

  lemma MatrixExt<T>(a: seq<seq<T>>, b: seq<seq<T>>, n0: nat, n1: nat)
    requires IsMatrix(a, n0, n1) && IsMatrix(b, n0, n1)
    requires forall i, j | 0 <= i < n0 && 0 <= j < n1 :: a[i][j] == b[i][j]
    ensures a == b
  {
    forall i | 0 <= i < n0 ensures a[i] == b[i] {
      assert |a[i]| == |b[i]| == n1;
    }
  }

  /** `np.zeros((n0, n1, n2))`. */
  function Zeros(n0: nat, n1: nat, n2: nat): (t: Cube)
    ensures IsCube(t, n0, n1, n2)
    ensures forall i, j, c | 0 <= i < n0 && 0 <= j < n1 && 0 <= c < n2 :: t[i][j][c] == 0.0
  {
    Tabulate(n0, n1, n2, (i, j, c) => 0.0)
  }

  /** `np.zeros((n0, n1))`. */
  function ZeroMatrix(n0: nat, n1: nat): (m: Matrix)
    ensures IsMatrix(m, n0, n1)
    ensures forall i, j | 0 <= i < n0 && 0 <= j < n1 :: m[i][j] == 0.0
  {
    TabulateMatrix(n0, n1, (i, j) => 0.0)
  }

  /** Lexicographic order of loop positions: cell `(a0, a1, a2)` is visited before `(b0, b1, b2)`. */
  predicate Before(a0: int, a1: int, a2: int, b0: int, b1: int, b2: int) {
    a0 < b0 || (a0 == b0 && (a1 < b1 || (a1 == b1 && a2 < b2)))
  }
}
