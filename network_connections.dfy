/**
  The arrows of the fully connected DCM network figure (`generate_all_connections` in
  scripts/analysis/utilities/generate_dcm_network_figure.py): for each pair of regions
  `i < j`, an arrow `i -> j` followed by its mirror `j -> i`, all drawn alike.
 */
module NetworkConnections {

  /** The five regions of the model, in the order their indices refer to. */
  const RegionNames: seq<string> :=
    ["Frontal_Mid_L", "Hippocampus_L", "Occipital_Sup_L", "Temporal_Mid_L", "Thalamus_L"]

  /** One arrow specification: its end points by region index and how it is drawn. */
  datatype ArrowSpec = ArrowSpec(fromIdx: nat, toIdx: nat, color: string, width: real, curve: real)

  /** The arrow from region `a` to region `b`, in the one style every arrow shares. */
  function Arrow(a: nat, b: nat): (s: ArrowSpec)
    ensures s.fromIdx == a && s.toIdx == b
    ensures s.color == "#333333" && s.width == 3.0 && s.curve == 0.25
  {
    ArrowSpec(a, b, "#333333", 3.0, 0.25)
  }

  function Min(a: nat, b: nat): nat {
    if a <= b then a else b
  }

  function Max(a: nat, b: nat): nat {
    if a <= b then b else a
  }

  /** `(a0, a1)` comes before `(b0, b1)` in lexicographic order. */
  predicate LexLess(a0: nat, a1: nat, b0: nat, b1: nat) {
    a0 < b0 || (a0 == b0 && a1 < b1)
  }

  /** No element occurs twice. */
  predicate Distinct<T(==)>(s: seq<T>) {
    forall k, l | 0 <= k < l < |s| :: s[k] != s[l]
  }

  /**
    `r` is `h` pairs: an arrow `a -> b` with `a < b` followed by its mirror `b -> a`, the
    first arrows of the pairs in lexicographic order.
   */
  predicate Paired(r: seq<ArrowSpec>, h: nat)
    requires |r| == 2 * h
  {
    && (forall m | 0 <= m < h :: r[2 * m].fromIdx < r[2 * m].toIdx && r[2 * m + 1] == Arrow(r[2 * m].toIdx, r[2 * m].fromIdx))
    && (forall m1, m2 | 0 <= m1 < m2 < h ::
          LexLess(r[2 * m1].fromIdx, r[2 * m1].toIdx, r[2 * m2].fromIdx, r[2 * m2].toIdx))
  }

  /** An arrow between two distinct regions among `n`, in the common style. */
  predicate WellFormed(x: ArrowSpec, n: nat) {
    x.fromIdx != x.toIdx && x.fromIdx < n && x.toIdx < n && x == Arrow(x.fromIdx, x.toIdx)
  }

  /** The arrows the inner loop adds for row `i` while `j` runs up to (not including) `j`. */
  function RowUpTo(i: nat, j: nat): (r: seq<ArrowSpec>)
    ensures |r| == if j > i then 2 * (j - i - 1) else 0
    decreases j
  {
    if j <= i + 1 then [] else RowUpTo(i, j - 1) + [Arrow(i, j - 1), Arrow(j - 1, i)]
  }

  /** Row `i` is `i -> i + 1`, `i + 1 -> i`, `i -> i + 2`, `i + 2 -> i`, ... */
  lemma {:induction false} RowIndex(i: nat, j: nat)
    ensures var r := RowUpTo(i, j);
      forall m | 0 <= m && i + 1 + m < j :: r[2 * m] == Arrow(i, i + 1 + m) && r[2 * m + 1] == Arrow(i + 1 + m, i)
    decreases j
  {
    if j > i + 1 {
      RowIndex(i, j - 1);
      var front, r := RowUpTo(i, j - 1), RowUpTo(i, j);
      assert r == front + [Arrow(i, j - 1), Arrow(j - 1, i)];
      forall m | 0 <= m && i + 1 + m < j
        ensures r[2 * m] == Arrow(i, i + 1 + m) && r[2 * m + 1] == Arrow(i + 1 + m, i)
      {
        if i + 1 + m < j - 1 {
          assert r[2 * m] == front[2 * m] && r[2 * m + 1] == front[2 * m + 1];
        } else {
          assert 2 * m == |front|;
        }
      }
    }
  }

  /** Every arrow of row `i` joins two distinct regions below `j`, the smaller being `i`. */
  lemma {:induction false} RowMembers(i: nat, j: nat)
    ensures forall x | x in RowUpTo(i, j) :: WellFormed(x, j) && Min(x.fromIdx, x.toIdx) == i
    decreases j
  {
    if j > i + 1 {
      RowMembers(i, j - 1);
      var front := RowUpTo(i, j - 1);
      var tail := [Arrow(i, j - 1), Arrow(j - 1, i)];
      assert RowUpTo(i, j) == front + tail;
      forall x | x in RowUpTo(i, j) ensures WellFormed(x, j) && Min(x.fromIdx, x.toIdx) == i {
        if x in front {
        } else {
          assert x in tail;
        }
      }
    }
  }

  /** No arrow appears twice in a row. */
  lemma {:induction false} RowDistinct(i: nat, j: nat)
    ensures Distinct(RowUpTo(i, j))
    decreases j
  {
    if j > i + 1 {
      RowDistinct(i, j - 1);
      RowMembers(i, j - 1);
      var front := RowUpTo(i, j - 1);
      var tail := [Arrow(i, j - 1), Arrow(j - 1, i)];
      assert RowUpTo(i, j) == front + tail;
      forall x | x in front ensures x !in tail {
        assert Max(x.fromIdx, x.toIdx) < j - 1;
      }
      DistinctConcat(front, tail);
    }
  }

  /** Row `i` holds `i -> i + 1 + m` and its mirror. */
  lemma {:induction false} RowContains(i: nat, n: nat, m: nat)
    requires i + 1 + m < n
    ensures Arrow(i, i + 1 + m) in RowUpTo(i, n) && Arrow(i + 1 + m, i) in RowUpTo(i, n)
  {
    RowIndex(i, n);
    InAt(RowUpTo(i, n), 2 * m, Arrow(i, i + 1 + m));
    InAt(RowUpTo(i, n), 2 * m + 1, Arrow(i + 1 + m, i));
  }

  lemma InAt(r: seq<ArrowSpec>, k: nat, x: ArrowSpec)
    requires k < |r| && r[k] == x
    ensures x in r
  {
  }

  /** The arrows of rows `0 .. i - 1` among `n` regions. */
  function Rows(i: nat, n: nat): seq<ArrowSpec> {
    if i == 0 then [] else Rows(i - 1, n) + RowUpTo(i - 1, n)
  }

  /** Rows `0 .. i - 1` are rows `0 .. i - 2` followed by row `i - 1`. */
  lemma RowsStep(i: nat, n: nat)
    requires 0 < i
    ensures Rows(i, n) == Rows(i - 1, n) + RowUpTo(i - 1, n)
  {
  }

  /** Every arrow among `n` regions, in the order the loops produce them. */
  function Connections(n: nat): seq<ArrowSpec> {
    Rows(n, n)
  }

  /** The number of pairs in rows `0 .. i - 1`. */
  function PairsIn(i: nat, n: nat): nat
    requires i <= n
  {
    if i == 0 then 0 else PairsIn(i - 1, n) + (n - i)
  }

  /** Rows `0 .. i - 1` hold `i (2n - i - 1) / 2` pairs. */
  lemma {:induction false} PairsInClosed(i: nat, n: nat)
    requires i <= n
    ensures 2 * PairsIn(i, n) == i * (2 * n - i - 1)
  {
    if i > 0 {
      PairsInClosed(i - 1, n);
      assert (i - 1) * (2 * n - (i - 1) - 1) + 2 * (n - i) == i * (2 * n - i - 1);
    }
  }

  lemma {:induction false} DistinctConcat<T>(a: seq<T>, b: seq<T>)
    requires Distinct(a) && Distinct(b)
    requires forall x | x in a :: x !in b
    ensures Distinct(a + b)
  {
    forall k, l | 0 <= k < l < |a + b| ensures (a + b)[k] != (a + b)[l] {
      if k < |a| && l >= |a| {
        assert (a + b)[k] in a && (a + b)[l] == b[l - |a|];
      }
    }
  }

  /** A row's pairs are `i -> j`, `j -> i` for increasing `j`. */
  lemma {:induction false} RowPaired(i: nat, n: nat)
    requires i < n
    ensures Paired(RowUpTo(i, n), n - i - 1)
  {
    RowIndex(i, n);
  }

  /** Rows `0 .. i - 1` hold `PairsIn(i, n)` pairs. */
  lemma {:induction false} RowsLength(i: nat, n: nat)
    requires i <= n
    ensures |Rows(i, n)| == 2 * PairsIn(i, n)
  {
    if i > 0 {
      RowsLength(i - 1, n);
    }
  }

  /** Every arrow of rows `0 .. i - 1` joins two distinct regions, the smaller below `i`. */
  lemma {:induction false} RowsMembers(i: nat, n: nat)
    requires i <= n
    ensures forall x | x in Rows(i, n) :: WellFormed(x, n) && Min(x.fromIdx, x.toIdx) < i
  {
    if i > 0 {
      var p := i - 1;
      RowsMembers(p, n);
      RowMembers(p, n);
      var front := Rows(p, n);
      var row := RowUpTo(p, n);
      RowsStep(i, n);
      forall x | x in Rows(i, n) ensures WellFormed(x, n) && Min(x.fromIdx, x.toIdx) < i {
        if x in front {
        } else {
          assert x in row;
        }
      }
    }
  }

  /** No arrow appears twice in rows `0 .. i - 1`. */
  lemma {:induction false} RowsDistinct(i: nat, n: nat)
    requires i <= n
    ensures Distinct(Rows(i, n))
  {
    if i > 0 {
      var p := i - 1;
      RowsDistinct(p, n);
      RowsMembers(p, n);
      RowMembers(p, n);
      RowDistinct(p, n);
      var front := Rows(p, n);
      var row := RowUpTo(p, n);
      RowsStep(i, n);
      forall x | x in front ensures x !in row {
        assert Min(x.fromIdx, x.toIdx) < p;
      }
      DistinctConcat(front, row);
    }
  }

  /** Rows `0 .. i - 1` are mirrored pairs whose first arrows run in lexicographic order. */
  lemma {:induction false} RowsPaired(i: nat, n: nat)
    requires i <= n
    ensures |Rows(i, n)| == 2 * PairsIn(i, n)
    ensures Paired(Rows(i, n), PairsIn(i, n))
  {
    RowsLength(i, n);
    if i > 0 {
      var p := i - 1;
      RowsPaired(p, n);
      RowPaired(p, n);
      RowsMembers(p, n);
      RowMembers(p, n);
      RowsLength(p, n);
      var front := Rows(p, n);
      var row := RowUpTo(p, n);
      var h := PairsIn(p, n);
      RowsStep(i, n);
      forall m | 0 <= m < h ensures front[2 * m].fromIdx < p {
        assert front[2 * m] in front;
      }
      forall m | 0 <= m < n - i ensures row[2 * m].fromIdx == p {
        assert row[2 * m] in row;
      }
      PairedConcat(front, h, row, n - i, p);
    }
  }

  /** Two runs of pairs, the first with first indices below `i` and the second with first index `i`, join into one. */
  lemma {:induction false} PairedConcat(a: seq<ArrowSpec>, ha: nat, b: seq<ArrowSpec>, hb: nat, i: nat)
    requires |a| == 2 * ha && |b| == 2 * hb
    requires Paired(a, ha) && Paired(b, hb)
    requires forall m | 0 <= m < ha :: a[2 * m].fromIdx < i
    requires forall m | 0 <= m < hb :: b[2 * m].fromIdx == i
    ensures Paired(a + b, ha + hb)
  {
    var r := a + b;
    forall m | 0 <= m < ha + hb
      ensures r[2 * m].fromIdx < r[2 * m].toIdx && r[2 * m + 1] == Arrow(r[2 * m].toIdx, r[2 * m].fromIdx)
    {
      if m >= ha {
        assert r[2 * m] == b[2 * (m - ha)] && r[2 * m + 1] == b[2 * (m - ha) + 1];
      }
    }
    forall m1, m2 | 0 <= m1 < m2 < ha + hb
      ensures LexLess(r[2 * m1].fromIdx, r[2 * m1].toIdx, r[2 * m2].fromIdx, r[2 * m2].toIdx)
    {
      if m2 >= ha {
        assert r[2 * m2] == b[2 * (m2 - ha)];
        if m1 >= ha {
          assert r[2 * m1] == b[2 * (m1 - ha)];
        }
      }
    }
  }

  /** Every arrow `a -> b` between two distinct regions whose smaller index is below `i` is in rows `0 .. i - 1`. */
  lemma {:induction false} RowsComplete(i: nat, n: nat, a: nat, b: nat)
    requires i <= n && a < n && b < n && a != b && Min(a, b) < i
    ensures Arrow(a, b) in Rows(i, n)
  {
    var p := i - 1;
    RowsStep(i, n);
    if Min(a, b) < p {
      RowsComplete(p, n, a, b);
    } else {
      RowContains(p, n, Max(a, b) - p - 1);
    }
  }

  /**
    Lines 70-103 over the regions: the nested loops append `i -> j` and `j -> i` for each
    `i < j`, in the order of `Connections`.
   */
  method GenerateAllConnections() returns (specs: seq<ArrowSpec>)
    ensures specs == Connections(|RegionNames|)
  {
    var n := |RegionNames|;
    specs := [];
    for i := 0 to n
      invariant specs == Rows(i, n)
    {
      for j := i + 1 to n
        invariant specs == Rows(i, n) + RowUpTo(i, j)
      {
        specs := specs + [ArrowSpec(i, j, "#333333", 3.0, 0.25)];
        specs := specs + [ArrowSpec(j, i, "#333333", 3.0, 0.25)];
      }
    }
  }

  /**
    Lines 36-42, 70-103 and 350-351: among `n` regions there are `n (n - 1)` arrows, 20 for
    the five regions; none is a self loop; every ordered pair of distinct regions appears
    exactly once; the arrows come as `i -> j` then `j -> i` for `i < j`, the pairs in
    lexicographic order; and all share colour '#333333', width 3.0 and curve 0.25.
   */
  lemma {:induction false} ConnectionsCorrect(n: nat)
    ensures var c := Connections(n);
      && |c| == n * (n - 1) == 2 * PairsIn(n, n)
      && (forall x | x in c :: x.fromIdx != x.toIdx && x.fromIdx < n && x.toIdx < n)
      && (forall a, b | 0 <= a < n && 0 <= b < n && a != b :: Arrow(a, b) in c)
      && Distinct(c)
      && Paired(c, PairsIn(n, n))
      && (forall x | x in c :: x.color == "#333333" && x.width == 3.0 && x.curve == 0.25)
  {
    RowsPaired(n, n);
    RowsMembers(n, n);
    RowsDistinct(n, n);
    PairsInClosed(n, n);
    assert n * (2 * n - n - 1) == n * (n - 1);
    forall a, b | 0 <= a < n && 0 <= b < n && a != b ensures Arrow(a, b) in Connections(n) {
      RowsComplete(n, n, a, b);
    }
  }

  /** The five regions give the 20 directed connections (10 mirrored pairs) the figure reports. */
  lemma TwentyConnections()
    ensures |Connections(|RegionNames|)| == 20
  {
    ConnectionsCorrect(|RegionNames|);
  }
}
