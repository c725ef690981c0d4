/**
  Index arithmetic between a flat posterior vector and the cells of an
  `n x n x cov` tensor, in the two element orders numpy offers: row-major
  (`reshape` with its default order) and column-major (`order='F'`).
 */
module FlatIndex {

  lemma DivModUnique(k: int, m: int, q: int, r: int)
    requires m > 0 && 0 <= r < m && k == q * m + r
    ensures k / m == q && k % m == r
  {
    var q', r' := k / m, k % m;
    assert k == q' * m + r' && 0 <= r' < m;
    if q' > q {
      MulDiff(q', q, m);
      MulAtLeast(q' - q, m);
    } else if q' < q {
      MulDiff(q, q', m);
      MulAtLeast(q - q', m);
    }
  }

  lemma MulDiff(a: int, b: int, m: int)
    ensures (a - b) * m == a * m - b * m
  {
  }

  lemma MulAtLeast(d: int, m: int)
    requires d >= 1 && m > 0
    ensures d * m >= m
  {
  }

  lemma MulMono(a: nat, b: nat, n: nat)
    requires a <= b
    ensures a * n <= b * n
  {
  }

  /** Row-major flat position of cell `[a, b]` of covariate `c`. */
  function Index(n: nat, c: nat, a: nat, b: nat): nat {
    c * (n * n) + a * n + b
  }

  /** Column-major flat position of cell `[a, b]` of covariate `c`. */
  function IndexF(n: nat, c: nat, a: nat, b: nat): nat {
    c * (n * n) + b * n + a
  }

  /** Within one covariate block, row-major order is the lexicographic order of `(a, b)`. */
  lemma RowMajorLess(n: nat, a: nat, b: nat, i: nat, j: nat)
    requires b < n && j <= n
    ensures a * n + b < i * n + j <==> (a < i || (a == i && b < j))
  {
    if a < i {
      MulMono(a + 1, i, n);
    } else if a > i {
      MulMono(i + 1, a, n);
    }
  }

  lemma IndexBound(n: nat, cov: nat, c: nat, a: nat, b: nat)
    requires a < n && b < n && c < cov
    ensures Index(n, c, a, b) < cov * (n * n)
    ensures IndexF(n, c, a, b) < cov * (n * n)
  {
    var nn := n * n;
    RowMajorLess(n, a, b, n, 0);
    RowMajorLess(n, b, a, n, 0);
    BlockEnd(c, cov, nn);
  }

  /** A block of `nn` entries starting at `c * nn` ends within `cov` blocks. */
  lemma BlockEnd(c: nat, cov: nat, nn: nat)
    requires c < cov
    ensures c * nn + nn <= cov * nn
  {
    MulMono(c + 1, cov, nn);
    MulDiff(c + 1, 1, nn);
  }

  lemma NonEmptySide(n: nat, cov: nat, k: nat)
    requires k < cov * (n * n)
    ensures 0 < n && 0 < n * n
  {
    if n == 0 {
      MulZero(cov);
    }
  }

  lemma MulZero(cov: nat)
    ensures cov * (0 * 0) == 0
  {
  }

  /** A flat position below `cov * n * n` decodes to a cell inside the tensor. */
  lemma SplitBounds(n: nat, cov: nat, k: nat)
    requires k < cov * (n * n)
    ensures 0 < n && 0 < n * n
    ensures k / (n * n) < cov && (k % (n * n)) / n < n && k % n < n
  {
    IndexSplit(n, cov, k);
  }

  /** Every flat position below `cov * n * n` is the row-major position of exactly the cell it decodes to. */
  lemma IndexSplit(n: nat, cov: nat, k: nat)
    requires k < cov * (n * n)
    ensures 0 < n && 0 < n * n
    ensures k / (n * n) < cov && (k % (n * n)) / n < n && k % n < n
    ensures Index(n, k / (n * n), (k % (n * n)) / n, k % n) == k
  {
    NonEmptySide(n, cov, k);
    var nn := n * n;
    QuotientBound(k, nn, cov);
    var c, rem := k / nn, k % nn;
    DivMod(k, nn);
    QuotientBound(rem, n, n);
    var a, b := rem / n, rem % n;
    DivMod(rem, n);
    Regroup(n, c, a, b);
    DivModUnique(k, n, c * n + a, b);
  }

  lemma DivMod(k: nat, m: nat)
    requires 0 < m
    ensures k == (k / m) * m + k % m && k % m < m
  {
  }

  lemma QuotientBound(k: nat, m: nat, bound: nat)
    requires 0 < m && k < bound * m
    ensures k / m < bound
  {
    DivMod(k, m);
    if k / m >= bound {
      MulMono(bound, k / m, m);
    }
  }

  /** An offset inside one `n x n` block decodes to the cell `[k / n, k % n]`. */
  lemma CellOfOffset(n: nat, k: nat)
    requires k < n * n
    ensures 0 < n && k / n < n && k % n < n && (k / n) * n + k % n == k
  {
    NonEmptySide(n, 1, k);
    QuotientBound(k, n, n);
    DivMod(k, n);
  }

  /** Offset `k` of block `c` is the row-major position of the cell `[k / n, k % n]` of that block. */
  lemma IndexOfOffset(n: nat, c: nat, k: nat)
    requires k < n * n
    ensures 0 < n && k / n < n && k % n < n
    ensures Index(n, c, k / n, k % n) == c * (n * n) + k
  {
    CellOfOffset(n, k);
  }

  lemma Regroup(n: nat, c: nat, a: nat, b: nat)
    ensures c * (n * n) + a * n + b == (c * n + a) * n + b
  {
  }

  /** Decoding the row-major position of a cell gives the cell back. */
  lemma IndexParts(n: nat, c: nat, a: nat, b: nat)
    requires a < n && b < n
    ensures Index(n, c, a, b) / (n * n) == c
    ensures (Index(n, c, a, b) % (n * n)) / n == a
    ensures Index(n, c, a, b) % n == b
  {
    var k := Index(n, c, a, b);
    RowMajorLess(n, a, b, n, 0);
    DivModUnique(k, n * n, c, a * n + b);
    DivModUnique(a * n + b, n, a, b);
    Regroup(n, c, a, b);
    DivModUnique(k, n, c * n + a, b);
  }

  /** The cell at offset `c * p + k` of a vector holding `cov` blocks of `p` entries lies inside the vector. */
  lemma BlockBound(cov: nat, p: nat, c: nat, k: nat, len: nat)
    requires c < cov && k < p && cov * p <= len
    ensures c * p + k < len
  {
    MulMono(c + 1, cov, p);
  }

  lemma DivBound(len: nat, cov: nat)
    requires 0 < cov
    ensures cov * (len / cov) <= len
  {
  }

  /** Every flat position below `cov * n * n` is the column-major position of the cell `[k % n, (k / n) % n, k / (n * n)]`. */
  lemma FortranSplit(n: nat, cov: nat, k: nat)
    requires k < cov * (n * n)
    ensures 0 < n
    ensures k % n < n && (k / n) % n < n && k / (n * n) < cov
    ensures IndexF(n, k / (n * n), k % n, (k / n) % n) == k
  {
    IndexSplit(n, cov, k);
    var c, a, b := k / (n * n), (k % (n * n)) / n, k % n;
    Regroup(n, c, a, b);
    DivModUnique(k, n, c * n + a, b);
    DivModUnique(k / n, n, c, a);
  }

  /** A length divisible by `m` is `m` times its quotient. */
  lemma ExactDiv(len: nat, m: nat)
    requires 0 < m && len % m == 0
    ensures (len / m) * m == len
  {
    DivMod(len, m);
  }

  /** Floor division never overshoots. */
  lemma FloorMul(len: nat, m: nat)
    requires 0 < m
    ensures (len / m) * m <= len
  {
    DivMod(len, m);
  }
}
