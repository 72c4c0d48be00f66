/**
 * `solveLinearSystem` of src/util/overlayTransform.js: Gauss-Jordan
 * elimination with partial pivoting on the augmented matrix [A | b].
 *
 * The functions below specify one elimination step at a time, exactly as the
 * source's loops perform it (the pivot search keeps the first row with the
 * strictly largest |entry|, a row is swapped only when it differs from row i,
 * division and subtraction touch only columns i .. n).  `SolveLinearSystem`
 * is the in-place algorithm and is proved to compute `Solve`.  The main
 * theorem, `SolveGivesTheUniqueSolution`, says that in exact arithmetic a
 * non-null result is THE solution of A·x = b.
 */
module LinearSystem {
  import opened Wrappers

  type Matrix = seq<seq<real>>

  /** Pivots with |pivot| below 1e-12 make the solver give up and return null. */
  const Eps: real := 0.000000000001

  function Abs(x: real): real {
    if x < 0.0 then -x else x
  }

  /** A is n × n and b has n entries, n = |b| (the source's `size`). */
  predicate IsSquareSystem(a: Matrix, b: seq<real>) {
    |a| == |b| && forall k :: 0 <= k < |a| ==> |a[k]| == |b|
  }

  /** An n × (n+1) augmented matrix. */
  predicate IsAugmented(m: Matrix, n: nat) {
    |m| == n && forall k :: 0 <= k < n ==> |m[k]| == n + 1
  }

  /** `A.map((row, i) => [...row, b[i]])` */
  function Augment(a: Matrix, b: seq<real>): (m: Matrix)
    requires IsSquareSystem(a, b)
    ensures IsAugmented(m, |b|)
  {
    seq(|b|, k requires 0 <= k < |b| => a[k] + [b[k]])
  }

  /** The sum of row[j] * x[j] over the first m columns. */
  function Dot(row: seq<real>, x: seq<real>, m: nat): real
    requires m <= |row| && m <= |x|
  {
    if m == 0 then 0.0 else Dot(row, x, m - 1) + row[m - 1] * x[m - 1]
  }

  /** x satisfies every equation of the augmented matrix m. */
  predicate Solves(m: Matrix, n: nat, x: seq<real>)
    requires IsAugmented(m, n) && |x| == n
  {
    forall k :: 0 <= k < n ==> Dot(m[k], x, n) == m[k][n]
  }

  /** x satisfies A·x = b. */
  predicate SatisfiesSystem(a: Matrix, b: seq<real>, x: seq<real>)
    requires IsSquareSystem(a, b) && |x| == |b|
  {
    forall k :: 0 <= k < |b| ==> Dot(a[k], x, |b|) == b[k]
  }

  /**
   * The value of `maxRow` once rows i+1 .. k-1 have been scanned at step i:
   * it starts at i and moves to row q only when |m[q][i]| is strictly larger.
   */
  function PivotAmong(m: Matrix, n: nat, i: nat, k: nat): (r: nat)
    requires IsAugmented(m, n) && i < k <= n
    ensures i <= r < k
  {
    if k == i + 1 then i
    else
      var p := PivotAmong(m, n, i, k - 1);
      if Abs(m[k - 1][i]) > Abs(m[p][i]) then k - 1 else p
  }

  function SwapRows(m: Matrix, i: nat, r: nat): Matrix
    requires i < |m| && r < |m|
  {
    m[i := m[r]][r := m[i]]
  }

  /** The matrix after the pivot search and the `if (maxRow !== i)` swap of step i. */
  function PivotSwap(m: Matrix, n: nat, i: nat): (s: Matrix)
    requires IsAugmented(m, n) && i < n
    ensures IsAugmented(s, n)
  {
    var maxRow := PivotAmong(m, n, i, n);
    if maxRow != i then SwapRows(m, i, maxRow) else m
  }

  /** `matrix[i][j] /= pivot` for j = i .. n. */
  function DivideRow(row: seq<real>, i: nat, pivot: real): (r: seq<real>)
    requires pivot != 0.0
    ensures |r| == |row|
  {
    seq(|row|, j requires 0 <= j < |row| => if j < i then row[j] else row[j] / pivot)
  }

  /** `matrix[k][j] -= factor * matrix[i][j]` for j = i .. n, with factor = row[i] read first. */
  function SubtractPivotRow(row: seq<real>, pivotRow: seq<real>, i: nat): (r: seq<real>)
    requires i < |row| == |pivotRow|
    ensures |r| == |row|
  {
    seq(|row|, j requires 0 <= j < |row| => if j < i then row[j] else row[j] - row[i] * pivotRow[j])
  }

  /** Step i's division of the pivot row by its pivot s[i][i]. */
  function Normalize(s: Matrix, n: nat, i: nat): (r: Matrix)
    requires IsAugmented(s, n) && i < n && s[i][i] != 0.0
    ensures IsAugmented(r, n)
  {
    s[i := DivideRow(s[i], i, s[i][i])]
  }

  /** Step i's elimination of column i from every other row. */
  function Eliminate(m: Matrix, n: nat, i: nat): (r: Matrix)
    requires IsAugmented(m, n) && i < n
    ensures IsAugmented(r, n)
  {
    seq(n, k requires 0 <= k < n => if k == i then m[i] else SubtractPivotRow(m[k], m[i], i))
  }

  /** Steps i .. n-1 of the outer loop; None is the early `return null` on a tiny pivot. */
  function GaussJordanFrom(m: Matrix, n: nat, i: nat): (r: Option<Matrix>)
    requires IsAugmented(m, n) && i <= n
    ensures r.Some? ==> IsAugmented(r.value, n)
    decreases n - i
  {
    if i == n then Some(m)
    else
      var s := PivotSwap(m, n, i);
      var pivot := s[i][i];
      if Abs(pivot) < Eps then None
      else GaussJordanFrom(Eliminate(Normalize(s, n, i), n, i), n, i + 1)
  }

  /** `matrix.map(row => row[size])` */
  function Solution(f: Matrix, n: nat): (x: seq<real>)
    requires IsAugmented(f, n)
    ensures |x| == n
  {
    seq(n, k requires 0 <= k < n => f[k][n])
  }

  /** What `solveLinearSystem(A, b)` returns; None stands for null. */
  function Solve(a: Matrix, b: seq<real>): (r: Option<seq<real>>)
    requires IsSquareSystem(a, b)
    ensures r.Some? ==> |r.value| == |b|
    ensures |b| == 0 ==> r == Some([])
  {
    match GaussJordanFrom(Augment(a, b), |b|, 0)
    case None => None
    case Some(f) => Some(Solution(f, |b|))
  }

  /** Columns 0 .. c-1 of m are unit columns: 1 on the diagonal, 0 elsewhere. */
  ghost predicate UnitColumns(m: Matrix, n: nat, c: nat)
    requires IsAugmented(m, n) && c <= n
  {
    forall k, j :: 0 <= k < n && 0 <= j < c ==> m[k][j] == if k == j then 1.0 else 0.0
  }

  // ---------------------------------------------------------------------------
  // The pivot choice
  // ---------------------------------------------------------------------------

  /**
   * At step i the row swapped into place has the largest |entry in column i|
   * among rows i .. k-1, and no earlier row among them ties with it.
   */
  lemma {:induction false} PivotIsFirstLargest(m: Matrix, n: nat, i: nat, k: nat)
    requires IsAugmented(m, n) && i < k <= n
    ensures forall q :: i <= q < k ==> Abs(m[q][i]) <= Abs(m[PivotAmong(m, n, i, k)][i])
    ensures forall q :: i <= q < PivotAmong(m, n, i, k) ==> Abs(m[q][i]) < Abs(m[PivotAmong(m, n, i, k)][i])
  {
    if k > i + 1 {
      PivotIsFirstLargest(m, n, i, k - 1);
    }
  }

  // ---------------------------------------------------------------------------
  // Linearity of Dot
  // ---------------------------------------------------------------------------

  lemma {:induction false} DotOfEqualPrefixes(u: seq<real>, v: seq<real>, x: seq<real>, m: nat)
    requires m <= |u| && m <= |v| && m <= |x|
    requires forall j :: 0 <= j < m ==> u[j] == v[j]
    ensures Dot(u, x, m) == Dot(v, x, m)
  {
    if m > 0 {
      DotOfEqualPrefixes(u, v, x, m - 1);
    }
  }

  lemma {:induction false} DotOfScaledRow(u: seq<real>, v: seq<real>, x: seq<real>, p: real, m: nat)
    requires m <= |u| && m <= |v| && m <= |x|
    requires forall j :: 0 <= j < m ==> u[j] == p * v[j]
    ensures Dot(u, x, m) == p * Dot(v, x, m)
  {
    if m > 0 {
      DotOfScaledRow(u, v, x, p, m - 1);
      assert u[m - 1] * x[m - 1] == p * (v[m - 1] * x[m - 1]);
    }
  }

  lemma {:induction false} DotOfRowDifference(u: seq<real>, v: seq<real>, w: seq<real>, x: seq<real>, f: real, m: nat)
    requires m <= |u| && m <= |v| && m <= |w| && m <= |x|
    requires forall j :: 0 <= j < m ==> u[j] == v[j] - f * w[j]
    ensures Dot(u, x, m) == Dot(v, x, m) - f * Dot(w, x, m)
  {
    if m > 0 {
      DotOfRowDifference(u, v, w, x, f, m - 1);
      assert u[m - 1] * x[m - 1] == v[m - 1] * x[m - 1] - f * (w[m - 1] * x[m - 1]);
    }
  }

  lemma {:induction false} DotOfUnitRow(row: seq<real>, x: seq<real>, k: nat, m: nat)
    requires m <= |row| && m <= |x|
    requires forall j :: 0 <= j < m ==> row[j] == if j == k then 1.0 else 0.0
    ensures Dot(row, x, m) == if k < m then x[k] else 0.0
  {
    if m > 0 {
      DotOfUnitRow(row, x, k, m - 1);
    }
  }

  // ---------------------------------------------------------------------------
  // Each step keeps the solution set and adds one unit column
  // ---------------------------------------------------------------------------

  lemma PivotSwapPreserves(m: Matrix, n: nat, i: nat, x: seq<real>)
    requires IsAugmented(m, n) && i < n && UnitColumns(m, n, i) && |x| == n
    ensures UnitColumns(PivotSwap(m, n, i), n, i)
    ensures Solves(PivotSwap(m, n, i), n, x) <==> Solves(m, n, x)
  {
    var r := PivotAmong(m, n, i, n);
    var s := PivotSwap(m, n, i);
    if r != i {
      assert s[i] == m[r] && s[r] == m[i];
      assert forall k :: 0 <= k < n && k != i && k != r ==> s[k] == m[k];
      if Solves(m, n, x) {
        forall k | 0 <= k < n ensures Dot(s[k], x, n) == s[k][n] {
          if k == i { assert s[k] == m[r]; } else if k == r { assert s[k] == m[i]; }
        }
      }
      if Solves(s, n, x) {
        forall k | 0 <= k < n ensures Dot(m[k], x, n) == m[k][n] {
          if k == i { assert m[k] == s[r]; } else if k == r { assert m[k] == s[i]; }
        }
      }
    }
  }

  lemma NormalizePreserves(s: Matrix, n: nat, i: nat, x: seq<real>)
    requires IsAugmented(s, n) && i < n && UnitColumns(s, n, i) && s[i][i] != 0.0 && |x| == n
    ensures UnitColumns(Normalize(s, n, i), n, i)
    ensures Normalize(s, n, i)[i][i] == 1.0
    ensures Solves(Normalize(s, n, i), n, x) <==> Solves(s, n, x)
  {
    var p := s[i][i];
    var nm := Normalize(s, n, i);
    var row := nm[i];
    assert row == DivideRow(s[i], i, p);
    forall j | 0 <= j < n + 1 ensures s[i][j] == p * row[j] {
      if j < i {
        assert s[i][j] == 0.0;
      }
    }
    DotOfScaledRow(s[i], row, x, p, n);
    assert Dot(s[i], x, n) == s[i][n] <==> Dot(row, x, n) == row[n];
    assert forall k :: 0 <= k < n && k != i ==> nm[k] == s[k];
  }

  lemma EliminatePreserves(nm: Matrix, n: nat, i: nat, x: seq<real>)
    requires IsAugmented(nm, n) && i < n && UnitColumns(nm, n, i) && nm[i][i] == 1.0 && |x| == n
    ensures UnitColumns(Eliminate(nm, n, i), n, i + 1)
    ensures Solves(Eliminate(nm, n, i), n, x) <==> Solves(nm, n, x)
  {
    var e := Eliminate(nm, n, i);
    assert e[i] == nm[i];
    forall k | 0 <= k < n && k != i
      ensures Dot(e[k], x, n) == Dot(nm[k], x, n) - nm[k][i] * Dot(nm[i], x, n)
      ensures e[k][n] == nm[k][n] - nm[k][i] * nm[i][n]
    {
      assert e[k] == SubtractPivotRow(nm[k], nm[i], i);
      forall j | 0 <= j < n + 1 ensures e[k][j] == nm[k][j] - nm[k][i] * nm[i][j] {
        if j < i {
          assert nm[i][j] == 0.0;
        }
      }
      DotOfRowDifference(e[k], nm[k], nm[i], x, nm[k][i], n);
    }
    forall k, j | 0 <= k < n && 0 <= j < i + 1
      ensures e[k][j] == if k == j then 1.0 else 0.0
    {
      if k != i {
        assert e[k] == SubtractPivotRow(nm[k], nm[i], i);
      }
    }
  }

  /** Steps i .. n-1 end in solved form [I | x] with the solution set unchanged. */
  lemma {:induction false} GaussJordanSound(m: Matrix, n: nat, i: nat, x: seq<real>)
    requires IsAugmented(m, n) && i <= n && UnitColumns(m, n, i) && |x| == n
    requires GaussJordanFrom(m, n, i).Some?
    ensures UnitColumns(GaussJordanFrom(m, n, i).value, n, n)
    ensures Solves(GaussJordanFrom(m, n, i).value, n, x) <==> Solves(m, n, x)
    decreases n - i
  {
    if i < n {
      var s := PivotSwap(m, n, i);
      PivotSwapPreserves(m, n, i, x);
      NormalizePreserves(s, n, i, x);
      var nm := Normalize(s, n, i);
      EliminatePreserves(nm, n, i, x);
      GaussJordanSound(Eliminate(nm, n, i), n, i + 1, x);
    }
  }

  /** In solved form [I | c], x solves the system exactly when x = c. */
  lemma SolvedFormSolution(f: Matrix, n: nat, x: seq<real>)
    requires IsAugmented(f, n) && UnitColumns(f, n, n) && |x| == n
    ensures Solves(f, n, x) <==> x == Solution(f, n)
  {
    forall k | 0 <= k < n ensures Dot(f[k], x, n) == x[k] {
      DotOfUnitRow(f[k], x, k, n);
    }
  }

  lemma AugmentedSystem(a: Matrix, b: seq<real>, x: seq<real>)
    requires IsSquareSystem(a, b) && |x| == |b|
    ensures Solves(Augment(a, b), |b|, x) <==> SatisfiesSystem(a, b, x)
  {
    var m := Augment(a, b);
    forall k | 0 <= k < |b| ensures Dot(m[k], x, |b|) == Dot(a[k], x, |b|) && m[k][|b|] == b[k] {
      DotOfEqualPrefixes(m[k], a[k], x, |b|);
    }
  }

  /**
   * In exact arithmetic a non-null result of the solver is the one and only
   * solution of A·x = b: every y satisfies the system iff y is the result.
   */
  lemma SolveGivesTheUniqueSolution(a: Matrix, b: seq<real>, y: seq<real>)
    requires IsSquareSystem(a, b) && Solve(a, b).Some? && |y| == |b|
    ensures SatisfiesSystem(a, b, y) <==> y == Solve(a, b).value
  {
    var n := |b|;
    var m := Augment(a, b);
    var f := GaussJordanFrom(m, n, 0).value;
    GaussJordanSound(m, n, 0, y);
    SolvedFormSolution(f, n, y);
    AugmentedSystem(a, b, y);
  }

  /** A non-null result satisfies A·x = b. */
  lemma SolveSatisfiesSystem(a: Matrix, b: seq<real>)
    requires IsSquareSystem(a, b) && Solve(a, b).Some?
    ensures SatisfiesSystem(a, b, Solve(a, b).value)
  {
    SolveGivesTheUniqueSolution(a, b, Solve(a, b).value);
  }

  /** A system with two different solutions is singular: the solver returns null. */
  lemma TwoSolutionsMeanNull(a: Matrix, b: seq<real>, y: seq<real>, z: seq<real>)
    requires IsSquareSystem(a, b) && |y| == |b| && |z| == |b| && y != z
    requires SatisfiesSystem(a, b, y) && SatisfiesSystem(a, b, z)
    ensures Solve(a, b) == None
  {
    if Solve(a, b).Some? {
      SolveGivesTheUniqueSolution(a, b, y);
      SolveGivesTheUniqueSolution(a, b, z);
    }
  }

  // ---------------------------------------------------------------------------
  // The in-place algorithm
  // ---------------------------------------------------------------------------

  /** The `maxRow` scan of step i. */
  method FindPivotRow(matrix: array<seq<real>>, n: nat, i: nat) returns (maxRow: nat)
    requires matrix.Length == n && IsAugmented(matrix[..], n) && i < n
    ensures maxRow == PivotAmong(matrix[..], n, i, n)
  {
    maxRow := i;
    for k := i + 1 to n
      invariant maxRow == PivotAmong(matrix[..], n, i, k)
    {
      if Abs(matrix[k][i]) > Abs(matrix[maxRow][i]) {
        maxRow := k;
      }
    }
  }

  /** Divides row i, from column i on, by the pivot. */
  method NormalizePivotRow(matrix: array<seq<real>>, n: nat, i: nat, pivot: real)
    requires matrix.Length == n && IsAugmented(matrix[..], n) && i < n
    requires pivot == matrix[i][i] && pivot != 0.0
    modifies matrix
    ensures matrix[..] == Normalize(old(matrix[..]), n, i)
  {
    for j := i to n + 1
      invariant |matrix[i]| == n + 1
      invariant forall k :: 0 <= k < n && k != i ==> matrix[k] == old(matrix[k])
      invariant forall jj :: 0 <= jj < n + 1 ==>
        matrix[i][jj] == if i <= jj < j then old(matrix[i][jj]) / pivot else old(matrix[i][jj])
    {
      matrix[i] := matrix[i][j := matrix[i][j] / pivot];
    }
    assert matrix[i] == DivideRow(old(matrix[i]), i, pivot);
    assert matrix[..] == old(matrix[..])[i := DivideRow(old(matrix[i]), i, pivot)];
  }

  /** Subtracts the right multiple of row i from every other row, from column i on. */
  method EliminateColumn(matrix: array<seq<real>>, n: nat, i: nat)
    requires matrix.Length == n && IsAugmented(matrix[..], n) && i < n
    modifies matrix
    ensures matrix[..] == Eliminate(old(matrix[..]), n, i)
  {
    for k := 0 to n
      invariant forall kk :: 0 <= kk < n ==>
        matrix[kk] == if kk < k && kk != i then SubtractPivotRow(old(matrix[kk]), old(matrix[i]), i) else old(matrix[kk])
    {
      if k != i {
        var factor := matrix[k][i];
        for j := i to n + 1
          invariant |matrix[k]| == n + 1
          invariant factor == old(matrix[k][i])
          invariant forall kk :: 0 <= kk < n && kk != k ==>
            matrix[kk] == if kk < k && kk != i then SubtractPivotRow(old(matrix[kk]), old(matrix[i]), i) else old(matrix[kk])
          invariant forall jj :: 0 <= jj < n + 1 ==>
            matrix[k][jj] == if i <= jj < j then old(matrix[k][jj]) - factor * old(matrix[i][jj]) else old(matrix[k][jj])
        {
          matrix[k] := matrix[k][j := matrix[k][j] - factor * matrix[i][j]];
        }
        ghost var expected := SubtractPivotRow(old(matrix[k]), old(matrix[i]), i);
        assert |old(matrix[k])| == |old(matrix[i])| == n + 1;
        forall jj | 0 <= jj < n + 1 ensures matrix[k][jj] == expected[jj] {
        }
        assert matrix[k] == expected;
      }
    }
    assert matrix[..] == Eliminate(old(matrix[..]), n, i);
  }

  /**
   * `solveLinearSystem(A, b)`: builds [A | b], runs the n elimination steps in
   * place and reads the last column back; None is the source's null.
   */
  method SolveLinearSystem(a: Matrix, b: seq<real>) returns (r: Option<seq<real>>)
    requires IsSquareSystem(a, b)
    ensures r == Solve(a, b)
    ensures r.Some? ==> SatisfiesSystem(a, b, r.value)
  {
    var size := |b|;
    var matrix := new seq<real>[size](k requires 0 <= k < size => a[k] + [b[k]]);
    assert matrix[..] == Augment(a, b);
    for i := 0 to size
      invariant IsAugmented(matrix[..], size)
      invariant GaussJordanFrom(matrix[..], size, i) == GaussJordanFrom(Augment(a, b), size, 0)
    {
      ghost var before := matrix[..];
      var maxRow := FindPivotRow(matrix, size, i);
      if maxRow != i {
        var temp := matrix[i];
        matrix[i] := matrix[maxRow];
        matrix[maxRow] := temp;
      }
      assert matrix[..] == PivotSwap(before, size, i);
      var pivot := matrix[i][i];
      if Abs(pivot) < Eps {
        return None;
      }
      NormalizePivotRow(matrix, size, i, pivot);
      EliminateColumn(matrix, size, i);
    }
    r := Some(Solution(matrix[..], size));
    SolveSatisfiesSystem(a, b);
  }
}
