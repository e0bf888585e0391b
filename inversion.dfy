/** mat4f::invert: Gauss-Jordan elimination by column operations. Every
    column operation is applied to a working copy `hold` of the input and,
    identically, to the result, which starts as the identity; pivots are
    chosen by comparing magnitudes with EPSILON. */
module Inversion {
  import opened MathLib
  import opened Matrices

  // ---------------------------------------------------------------------
  // Column operations on a matrix

  /** The column that ends up at column j when columns p and q trade places. */
  function Swapped(j: int, p: int, q: int): int
  {
    if j == p then q else if j == q then p else j
  }

  /** Columns p and q exchanged. */
  function SwapCols(m: Mat4, p: int, q: int): Mat4
    requires 0 <= p < 4 && 0 <= q < 4
  {
    seq(16, k requires 0 <= k < 16 => m[4 * RowOf(k) + Swapped(ColOf(k), p, q)])
  }

  /** Column c divided by d, each entry written as the product with the
      reciprocal of d, the same real number (MathLib.DivByRecip). */
  function DivCol(m: Mat4, c: int, d: real): Mat4
    requires 0 <= c < 4
  {
    seq(16, k requires 0 <= k < 16 => if ColOf(k) == c then m[k] * FDiv(1.0, d) else m[k])
  }

  /** Column c less f times column s. */
  function SubCol(m: Mat4, c: int, s: int, f: real): Mat4
    requires 0 <= c < 4 && 0 <= s < 4
  {
    seq(16, k requires 0 <= k < 16 => if ColOf(k) == c then m[k] - f * m[4 * RowOf(k) + s] else m[k])
  }

  // ---------------------------------------------------------------------
  // Column operations are right multiplications: applied to a product
  // a * b they can be applied to b instead.

  /** Row i of a times a column of x equals row i of a times a column of y
      when the two columns agree. */
  lemma RowColSameColumn(a: Mat4, x: Mat4, y: Mat4, i: int, j: int, j': int)
    requires 0 <= i < 4 && 0 <= j < 4 && 0 <= j' < 4
    requires x[j] == y[j'] && x[4 + j] == y[4 + j'] && x[8 + j] == y[8 + j'] && x[12 + j] == y[12 + j']
    ensures RowCol(a, x, i, j) == RowCol(a, y, i, j')
  {
  }

  /** Row i of a times column j of x, by the entries of that column. */
  lemma RowColEntries(a: Mat4, x: Mat4, i: int, j: int, x0: real, x1: real, x2: real, x3: real)
    requires 0 <= i < 4 && 0 <= j < 4
    requires x[j] == x0 && x[4 + j] == x1 && x[8 + j] == x2 && x[12 + j] == x3
    ensures RowCol(a, x, i, j) == a[4 * i] * x0 + a[4 * i + 1] * x1 + a[4 * i + 2] * x2 + a[4 * i + 3] * x3
  {
  }

  /** Entry 4 * i + j lies in row i and column j. */
  lemma Entry(i: int, j: int)
    requires 0 <= i < 4 && 0 <= j < 4
    ensures RowOf(4 * i + j) == i && ColOf(4 * i + j) == j
  {
  }

  lemma MulAt(a: Mat4, b: Mat4, i: int, j: int)
    requires 0 <= i < 4 && 0 <= j < 4
    ensures Mul(a, b)[4 * i + j] == RowCol(a, b, i, j)
  {
    Entry(i, j);
  }

  lemma SwapColsAt(m: Mat4, p: int, q: int, i: int, j: int)
    requires 0 <= p < 4 && 0 <= q < 4 && 0 <= i < 4 && 0 <= j < 4
    ensures SwapCols(m, p, q)[4 * i + j] == m[4 * i + Swapped(j, p, q)]
  {
    Entry(i, j);
  }

  lemma DivColAt(m: Mat4, c: int, d: real, i: int, j: int)
    requires 0 <= c < 4 && 0 <= i < 4 && 0 <= j < 4
    ensures DivCol(m, c, d)[4 * i + j] == if j == c then m[4 * i + j] * FDiv(1.0, d) else m[4 * i + j]
  {
    Entry(i, j);
  }

  lemma SubColAt(m: Mat4, c: int, s: int, f: real, i: int, j: int)
    requires 0 <= c < 4 && 0 <= s < 4 && 0 <= i < 4 && 0 <= j < 4
    ensures SubCol(m, c, s, f)[4 * i + j] == if j == c then m[4 * i + j] - f * m[4 * i + s] else m[4 * i + j]
  {
    Entry(i, j);
  }

  /** The changed column of SubCol, entry by entry. */
  lemma SubColColumn(m: Mat4, c: int, s: int, f: real)
    requires 0 <= c < 4 && 0 <= s < 4
    ensures var x := SubCol(m, c, s, f);
      && x[c] == m[c] - f * m[s] && x[4 + c] == m[4 + c] - f * m[4 + s]
      && x[8 + c] == m[8 + c] - f * m[8 + s] && x[12 + c] == m[12 + c] - f * m[12 + s]
  {
    Entry(0, c);
    Entry(1, c);
    Entry(2, c);
    Entry(3, c);
  }

  /** Scaling a combination scales each of its terms. */
  lemma ScaleCombination(a0: real, a1: real, a2: real, a3: real, b0: real, b1: real, b2: real, b3: real, e: real)
    ensures (a0 * b0 + a1 * b1 + a2 * b2 + a3 * b3) * e == a0 * (b0 * e) + a1 * (b1 * e) + a2 * (b2 * e) + a3 * (b3 * e)
  {
  }

  /** Subtracting f times one combination from another with the same
      coefficients. */
  lemma SubCombination(a0: real, a1: real, a2: real, a3: real,
                       b0: real, b1: real, b2: real, b3: real,
                       s0: real, s1: real, s2: real, s3: real, f: real)
    ensures (a0 * b0 + a1 * b1 + a2 * b2 + a3 * b3) - f * (a0 * s0 + a1 * s1 + a2 * s2 + a3 * s3)
         == a0 * (b0 - f * s0) + a1 * (b1 - f * s1) + a2 * (b2 - f * s2) + a3 * (b3 - f * s3)
  {
  }

  /** Row i of a times a column of x that is column c of b less f times
      column s of b. */
  lemma RowColSub(a: Mat4, b: Mat4, x: Mat4, i: int, c: int, s: int, f: real)
    requires 0 <= i < 4 && 0 <= c < 4 && 0 <= s < 4
    requires x[c] == b[c] - f * b[s] && x[4 + c] == b[4 + c] - f * b[4 + s]
    requires x[8 + c] == b[8 + c] - f * b[8 + s] && x[12 + c] == b[12 + c] - f * b[12 + s]
    ensures RowCol(a, x, i, c) == RowCol(a, b, i, c) - f * RowCol(a, b, i, s)
  {
    SubCombination(a[4 * i], a[4 * i + 1], a[4 * i + 2], a[4 * i + 3],
                   b[c], b[4 + c], b[8 + c], b[12 + c], b[s], b[4 + s], b[8 + s], b[12 + s], f);
  }

  lemma SwapColsMul(a: Mat4, b: Mat4, p: int, q: int)
    requires 0 <= p < 4 && 0 <= q < 4
    ensures SwapCols(Mul(a, b), p, q) == Mul(a, SwapCols(b, p, q))
  {
    forall k | 0 <= k < 16
      ensures SwapCols(Mul(a, b), p, q)[k] == Mul(a, SwapCols(b, p, q))[k]
    {
      SwapColsMulAt(a, b, p, q, RowOf(k), ColOf(k));
    }
  }

  lemma SwapColsMulAt(a: Mat4, b: Mat4, p: int, q: int, i: int, j: int)
    requires 0 <= p < 4 && 0 <= q < 4 && 0 <= i < 4 && 0 <= j < 4
    ensures SwapCols(Mul(a, b), p, q)[4 * i + j] == Mul(a, SwapCols(b, p, q))[4 * i + j]
  {
    var sb := SwapCols(b, p, q);
    var j' := Swapped(j, p, q);
    SwapColsAt(Mul(a, b), p, q, i, j);
    MulAt(a, b, i, j');
    MulAt(a, sb, i, j);
    SwapColsAt(b, p, q, 0, j);
    SwapColsAt(b, p, q, 1, j);
    SwapColsAt(b, p, q, 2, j);
    SwapColsAt(b, p, q, 3, j);
    RowColSameColumn(a, sb, b, i, j, j');
  }

  lemma DivColMul(a: Mat4, b: Mat4, c: int, d: real)
    requires 0 <= c < 4
    ensures DivCol(Mul(a, b), c, d) == Mul(a, DivCol(b, c, d))
  {
    forall k | 0 <= k < 16
      ensures DivCol(Mul(a, b), c, d)[k] == Mul(a, DivCol(b, c, d))[k]
    {
      DivColMulAt(a, b, c, d, RowOf(k), ColOf(k));
    }
  }

  lemma DivColMulAt(a: Mat4, b: Mat4, c: int, d: real, i: int, j: int)
    requires 0 <= c < 4 && 0 <= i < 4 && 0 <= j < 4
    ensures DivCol(Mul(a, b), c, d)[4 * i + j] == Mul(a, DivCol(b, c, d))[4 * i + j]
  {
    DivColAt(Mul(a, b), c, d, i, j);
    DivColColumn(b, c, d, j);
    if j == c {
      MulScaleColumn(a, b, DivCol(b, c, d), c, FDiv(1.0, d), i);
    } else {
      MulSameColumn(a, b, DivCol(b, c, d), j, i);
    }
  }

  /** The changed column of DivCol, entry by entry. */
  lemma DivColColumn(m: Mat4, c: int, d: real, j: int)
    requires 0 <= c < 4 && 0 <= j < 4
    ensures var x := DivCol(m, c, d); var e := if j == c then FDiv(1.0, d) else 1.0;
      && x[j] == m[j] * e && x[4 + j] == m[4 + j] * e
      && x[8 + j] == m[8 + j] * e && x[12 + j] == m[12 + j] * e
  {
    Entry(0, j);
    Entry(1, j);
    Entry(2, j);
    Entry(3, j);
  }

  /** Scaling column c of the right factor scales column c of the product. */
  lemma MulScaleColumn(a: Mat4, b: Mat4, x: Mat4, c: int, e: real, i: int)
    requires 0 <= c < 4 && 0 <= i < 4
    requires x[c] == b[c] * e && x[4 + c] == b[4 + c] * e
    requires x[8 + c] == b[8 + c] * e && x[12 + c] == b[12 + c] * e
    ensures Mul(a, b)[4 * i + c] * e == Mul(a, x)[4 * i + c]
  {
    MulAt(a, b, i, c);
    MulAt(a, x, i, c);
    ScaleCombination(a[4 * i], a[4 * i + 1], a[4 * i + 2], a[4 * i + 3], b[c], b[4 + c], b[8 + c], b[12 + c], e);
  }

  lemma SubColMul(a: Mat4, b: Mat4, c: int, s: int, f: real)
    requires 0 <= c < 4 && 0 <= s < 4
    ensures SubCol(Mul(a, b), c, s, f) == Mul(a, SubCol(b, c, s, f))
  {
    forall k | 0 <= k < 16
      ensures SubCol(Mul(a, b), c, s, f)[k] == Mul(a, SubCol(b, c, s, f))[k]
    {
      SubColMulAt(a, b, c, s, f, RowOf(k), ColOf(k));
    }
  }

  lemma SubColMulAt(a: Mat4, b: Mat4, c: int, s: int, f: real, i: int, j: int)
    requires 0 <= c < 4 && 0 <= s < 4 && 0 <= i < 4 && 0 <= j < 4
    ensures SubCol(Mul(a, b), c, s, f)[4 * i + j] == Mul(a, SubCol(b, c, s, f))[4 * i + j]
  {
    SubColAt(Mul(a, b), c, s, f, i, j);
    if j == c {
      SubColMulTarget(a, b, c, s, f, i);
    } else {
      SubColOther(b, c, s, f, j);
      MulSameColumn(a, b, SubCol(b, c, s, f), j, i);
    }
  }

  /** The other columns of SubCol are those of m. */
  lemma SubColOther(m: Mat4, c: int, s: int, f: real, j: int)
    requires 0 <= c < 4 && 0 <= s < 4 && 0 <= j < 4 && j != c
    ensures var x := SubCol(m, c, s, f);
      x[j] == m[j] && x[4 + j] == m[4 + j] && x[8 + j] == m[8 + j] && x[12 + j] == m[12 + j]
  {
    Entry(0, j);
    Entry(1, j);
    Entry(2, j);
    Entry(3, j);
  }

  /** Products with right factors that agree on column j agree on column j. */
  lemma MulSameColumn(a: Mat4, b: Mat4, x: Mat4, j: int, i: int)
    requires 0 <= j < 4 && 0 <= i < 4
    requires x[j] == b[j] && x[4 + j] == b[4 + j] && x[8 + j] == b[8 + j] && x[12 + j] == b[12 + j]
    ensures Mul(a, b)[4 * i + j] == Mul(a, x)[4 * i + j]
  {
    MulAt(a, b, i, j);
    MulAt(a, x, i, j);
  }

  /** The entry of the changed column. */
  lemma SubColMulTarget(a: Mat4, b: Mat4, c: int, s: int, f: real, i: int)
    requires 0 <= c < 4 && 0 <= s < 4 && 0 <= i < 4
    ensures Mul(a, b)[4 * i + c] - f * Mul(a, b)[4 * i + s] == Mul(a, SubCol(b, c, s, f))[4 * i + c]
  {
    SubColColumn(b, c, s, f);
    MulSubColumn(a, b, SubCol(b, c, s, f), c, s, f, i);
  }

  /** The same, for any matrix x whose column c is column c of b less f
      times column s. */
  lemma MulSubColumn(a: Mat4, b: Mat4, x: Mat4, c: int, s: int, f: real, i: int)
    requires 0 <= c < 4 && 0 <= s < 4 && 0 <= i < 4
    requires x[c] == b[c] - f * b[s] && x[4 + c] == b[4 + c] - f * b[4 + s]
    requires x[8 + c] == b[8 + c] - f * b[8 + s] && x[12 + c] == b[12 + c] - f * b[12 + s]
    ensures Mul(a, b)[4 * i + c] - f * Mul(a, b)[4 * i + s] == Mul(a, x)[4 * i + c]
  {
    MulAt(a, b, i, c);
    MulAt(a, b, i, s);
    MulAt(a, x, i, c);
    RowColSub(a, b, x, i, c, s, f);
  }

  // ---------------------------------------------------------------------
  // The elimination: each step applies one column operation to the working
  // copy and to the result alike

  /** The working copy `hold` and the result under construction. */
  datatype Work = Work(hold: Mat4, inv: Mat4)

  function WSwap(w: Work, p: int, q: int): Work
    requires 0 <= p < 4 && 0 <= q < 4
  {
    Work(SwapCols(w.hold, p, q), SwapCols(w.inv, p, q))
  }

  /** Column k divided by the pivot, the diagonal entry of hold. */
  function WDiv(w: Work, k: int): Work
    requires 0 <= k < 4
  {
    var d := w.hold[5 * k];
    Work(DivCol(w.hold, k, d), DivCol(w.inv, k, d))
  }

  /** Column c less the multiple of column k that clears entry (k, c) of hold. */
  function WSub(w: Work, c: int, k: int): Work
    requires 0 <= c < 4 && 0 <= k < 4
  {
    var f := w.hold[4 * k + c];
    Work(SubCol(w.hold, c, k, f), SubCol(w.inv, c, k, f))
  }

  /** One elimination phase: divide column k by its pivot, then clear the
      other entries of row k in column order. */
  function Reduce(w: Work, k: int): Work
    requires 0 <= k < 4
  {
    var w1 := WDiv(w, k);
    if k == 0 then WSub(WSub(WSub(w1, 1, 0), 2, 0), 3, 0)
    else if k == 1 then WSub(WSub(WSub(w1, 0, 1), 2, 1), 3, 1)
    else if k == 2 then WSub(WSub(WSub(w1, 0, 2), 1, 2), 3, 2)
    else WSub(WSub(WSub(w1, 0, 3), 1, 3), 2, 3)
  }

  /** rswap after the first phase: the first later column with a
      non-negligible entry in row 0 when entry 0 is negligible, else 0. */
  function FirstSwap(h: Mat4): (r: int)
    ensures 0 <= r < 4
    ensures Abs(h[0]) >= Epsilon ==> r == 0
    ensures r != 0 ==> Abs(h[r]) > Epsilon && forall j | 1 <= j < r :: Abs(h[j]) <= Epsilon
    ensures Abs(h[0]) < Epsilon && r == 0 ==> forall j | 1 <= j < 4 :: Abs(h[j]) <= Epsilon
  {
    if Abs(h[0]) < Epsilon then
      if Abs(h[1]) > Epsilon then 1
      else if Abs(h[2]) > Epsilon then 2
      else if Abs(h[3]) > Epsilon then 3
      else 0
    else 0
  }

  /** The column the second phase exchanges with column 1. */
  function SecondSwap(h: Mat4, fallback: int): (r: int)
    requires 0 <= fallback < 4
    ensures 0 <= r < 4
    ensures Abs(h[5]) >= Epsilon ==> r == 1
    ensures Abs(h[5]) < Epsilon && Abs(h[6]) > Epsilon ==> r == 2
    ensures Abs(h[5]) < Epsilon && Abs(h[6]) <= Epsilon && Abs(h[7]) > Epsilon ==> r == 3
    ensures Abs(h[5]) < Epsilon && Abs(h[6]) <= Epsilon && Abs(h[7]) <= Epsilon ==> r == fallback
  {
    if Abs(h[5]) < Epsilon then
      if Abs(h[6]) > Epsilon then 2
      else if Abs(h[7]) > Epsilon then 3
      else fallback
    else 1
  }

  /** What the second phase falls back on when neither later column has a
      usable entry: as written, the rswap left over from the first phase;
      corrected, column 1 itself (no exchange). */
  function Fallback(input: Mat4, staleSwap: bool): (r: int)
    ensures 0 <= r < 4
  {
    if staleSwap then FirstSwap(input) else 1
  }

  /** The exchange that opens phase k, when its diagonal entry is
      negligible; `fallback` is what the second phase falls back on. */
  function PivotSwap(w: Work, k: int, fallback: int): Work
    requires 0 <= k < 4 && 0 <= fallback < 4
  {
    if k == 0 then
      if Abs(w.hold[0]) < Epsilon then WSwap(w, 0, FirstSwap(w.hold)) else w
    else if k == 1 then
      if Abs(w.hold[5]) < Epsilon then WSwap(w, 1, SecondSwap(w.hold, fallback)) else w
    else if k == 2 then
      if Abs(w.hold[10]) < Epsilon then WSwap(w, 2, 3) else w
    else w
  }

  /** The state just before phase k divides by its pivot. */
  function Before(input: Mat4, staleSwap: bool, k: int): Work
    requires 0 <= k < 4
    decreases k
  {
    var w := if k == 0 then Work(input, Identity) else Reduce(Before(input, staleSwap, k - 1), k - 1);
    PivotSwap(w, k, Fallback(input, staleSwap))
  }

  /** The pivot phase k divides by. */
  function Pivot(input: Mat4, staleSwap: bool, k: int): real
    requires 0 <= k < 4
  {
    Before(input, staleSwap, k).hold[5 * k]
  }

  /** No phase divides by zero. */
  predicate NonzeroPivots(input: Mat4, staleSwap: bool)
  {
    Pivot(input, staleSwap, 0) != 0.0 && Pivot(input, staleSwap, 1) != 0.0
      && Pivot(input, staleSwap, 2) != 0.0 && Pivot(input, staleSwap, 3) != 0.0
  }

  /** The state after the four phases. */
  function Eliminate(input: Mat4, staleSwap: bool): Work
  {
    Reduce(Before(input, staleSwap, 3), 3)
  }

  /** The second phase does not trade column 1 with the already reduced
      column 0. */
  predicate KeepsFirstRow(input: Mat4, staleSwap: bool)
  {
    var w := Reduce(Before(input, staleSwap, 0), 0);
    !(Abs(w.hold[5]) < Epsilon && SecondSwap(w.hold, Fallback(input, staleSwap)) == 0)
  }

  /** The corrected fallback never brings back column 0. */
  lemma CorrectedKeepsFirstRow(input: Mat4)
    ensures KeepsFirstRow(input, false)
  {
    var w := Reduce(Before(input, false, 0), 0);
    assert SecondSwap(w.hold, 1) != 0;
  }

  /** The outcome of mat4f::invert: the return value and the receiver. */
  datatype Outcome = Outcome(ok: bool, result: Mat4)

  /** mat4f::invert as written. The receiver becomes the identity before
      the determinant of `mat` is taken, so when the receiver is `mat`
      itself (`aliased`, as in the one-argument invert()) the singularity
      test sees the identity. */
  function InvertAsWritten(input: Mat4, aliased: bool, singularFail: bool): Outcome
  {
    var det := Determinant(if aliased then Identity else input);
    if singularFail && Abs(det) < Epsilon then Outcome(false, Identity)
    else Outcome(true, Eliminate(input, true).inv)
  }

  /** mat4f::invert corrected: the determinant of the copy, and no exchange
      with column 0 in the second phase. */
  function InvertCorrected(input: Mat4, singularFail: bool): Outcome
  {
    if singularFail && Abs(Determinant(input)) < Epsilon then Outcome(false, Identity)
    else Outcome(true, Eliminate(input, false).inv)
  }

  // ---------------------------------------------------------------------
  // The invariant: hold is always the input times the result

  predicate Tracks(input: Mat4, w: Work)
  {
    Mul(input, w.inv) == w.hold
  }

  lemma TracksSwap(input: Mat4, w: Work, p: int, q: int)
    requires 0 <= p < 4 && 0 <= q < 4 && Tracks(input, w)
    ensures Tracks(input, WSwap(w, p, q))
  {
    SwapColsMul(input, w.inv, p, q);
  }

  lemma TracksDiv(input: Mat4, w: Work, k: int)
    requires 0 <= k < 4 && Tracks(input, w)
    ensures Tracks(input, WDiv(w, k))
  {
    DivColMul(input, w.inv, k, w.hold[5 * k]);
  }

  lemma TracksSub(input: Mat4, w: Work, c: int, k: int)
    requires 0 <= c < 4 && 0 <= k < 4 && Tracks(input, w)
    ensures Tracks(input, WSub(w, c, k))
  {
    SubColMul(input, w.inv, c, k, w.hold[4 * k + c]);
  }

  lemma TracksReduce(input: Mat4, w: Work, k: int)
    requires 0 <= k < 4 && Tracks(input, w)
    ensures Tracks(input, Reduce(w, k))
  {
    var w1 := WDiv(w, k);
    TracksDiv(input, w, k);
    var (a, b, c) := if k == 0 then (1, 2, 3) else if k == 1 then (0, 2, 3) else if k == 2 then (0, 1, 3) else (0, 1, 2);
    TracksSub(input, w1, a, k);
    TracksSub(input, WSub(w1, a, k), b, k);
    TracksSub(input, WSub(WSub(w1, a, k), b, k), c, k);
  }

  lemma {:induction false} TracksBefore(input: Mat4, staleSwap: bool, k: int)
    requires 0 <= k < 4
    ensures Tracks(input, Before(input, staleSwap, k))
    decreases k
  {
    if k == 0 {
      MulIdentity(input);
      TracksPivotSwap(input, Work(input, Identity), 0, Fallback(input, staleSwap));
    } else {
      TracksBefore(input, staleSwap, k - 1);
      TracksReduce(input, Before(input, staleSwap, k - 1), k - 1);
      TracksPivotSwap(input, Reduce(Before(input, staleSwap, k - 1), k - 1), k, Fallback(input, staleSwap));
    }
  }

  lemma TracksPivotSwap(input: Mat4, w: Work, k: int, fallback: int)
    requires 0 <= k < 4 && 0 <= fallback < 4 && Tracks(input, w)
    ensures Tracks(input, PivotSwap(w, k, fallback))
  {
    if k == 0 && Abs(w.hold[0]) < Epsilon {
      TracksSwap(input, w, 0, FirstSwap(w.hold));
    } else if k == 1 && Abs(w.hold[5]) < Epsilon {
      TracksSwap(input, w, 1, SecondSwap(w.hold, fallback));
    } else if k == 2 && Abs(w.hold[10]) < Epsilon {
      TracksSwap(input, w, 2, 3);
    }
  }

  /** Whatever the pivots, the working copy ends as the input times the
      result. */
  lemma TracksEliminate(input: Mat4, staleSwap: bool)
    ensures Mul(input, Eliminate(input, staleSwap).inv) == Eliminate(input, staleSwap).hold
  {
    TracksBefore(input, staleSwap, 3);
    TracksReduce(input, Before(input, staleSwap, 3), 3);
  }

  // ---------------------------------------------------------------------
  // With nonzero pivots the working copy ends as the identity, row by row

  /** Row r of a matrix. */
  function RowVec(h: Mat4, r: int): seq<real>
    requires 0 <= r < 4
  {
    [h[4 * r], h[4 * r + 1], h[4 * r + 2], h[4 * r + 3]]
  }

  /** Row r of the identity. */
  function Basis(r: int): seq<real>
  {
    [if r == 0 then 1.0 else 0.0, if r == 1 then 1.0 else 0.0,
     if r == 2 then 1.0 else 0.0, if r == 3 then 1.0 else 0.0]
  }

  /** The first n rows of h are those of the identity. */
  predicate UnitRows(h: Mat4, n: int)
    requires 0 <= n <= 4
  {
    forall r | 0 <= r < n :: RowVec(h, r) == Basis(r)
  }

  lemma SwapKeepsRows(h: Mat4, p: int, q: int, n: int)
    requires 0 <= n <= p < 4 && n <= q < 4 && UnitRows(h, n)
    ensures UnitRows(SwapCols(h, p, q), n)
  {
    forall r | 0 <= r < n
      ensures RowVec(SwapCols(h, p, q), r) == Basis(r)
    {
      SwapKeepsRow(h, p, q, r);
    }
  }

  lemma SwapKeepsRow(h: Mat4, p: int, q: int, r: int)
    requires 0 <= r < p < 4 && r < q < 4 && RowVec(h, r) == Basis(r)
    ensures RowVec(SwapCols(h, p, q), r) == Basis(r)
  {
    SwapEntry(h, p, q, r, 0);
    SwapEntry(h, p, q, r, 1);
    SwapEntry(h, p, q, r, 2);
    SwapEntry(h, p, q, r, 3);
    RowFromEntries(SwapCols(h, p, q), r);
  }

  /** The converse of RowEntry. */
  lemma RowFromEntries(x: Mat4, r: int)
    requires 0 <= r < 4
    requires x[4 * r] == (if r == 0 then 1.0 else 0.0) && x[4 * r + 1] == (if r == 1 then 1.0 else 0.0)
    requires x[4 * r + 2] == (if r == 2 then 1.0 else 0.0) && x[4 * r + 3] == (if r == 3 then 1.0 else 0.0)
    ensures RowVec(x, r) == Basis(r)
  {
  }

  lemma SwapEntry(h: Mat4, p: int, q: int, r: int, j: int)
    requires 0 <= r < p < 4 && r < q < 4 && 0 <= j < 4 && RowVec(h, r) == Basis(r)
    ensures SwapCols(h, p, q)[4 * r + j] == if j == r then 1.0 else 0.0
  {
    SwapColsAt(h, p, q, r, j);
    RowEntry(h, r, Swapped(j, p, q));
  }

  /** Entry j of a unit row r. */
  lemma RowEntry(h: Mat4, r: int, j: int)
    requires 0 <= r < 4 && 0 <= j < 4 && RowVec(h, r) == Basis(r)
    ensures h[4 * r + j] == if j == r then 1.0 else 0.0
  {
    assert h[4 * r + j] == RowVec(h, r)[j];
  }

  lemma DivKeepsRows(h: Mat4, k: int, d: real, n: int)
    requires 0 <= n <= k < 4 && UnitRows(h, n)
    ensures UnitRows(DivCol(h, k, d), n)
  {
    forall r | 0 <= r < n
      ensures RowVec(DivCol(h, k, d), r) == Basis(r)
    {
      assert RowVec(h, r) == Basis(r);
      DivColAt(h, k, d, r, 0);
      DivColAt(h, k, d, r, 1);
      DivColAt(h, k, d, r, 2);
      DivColAt(h, k, d, r, 3);
    }
  }

  lemma SubKeepsRows(h: Mat4, c: int, k: int, f: real, n: int)
    requires 0 <= c < 4 && 0 <= n <= k < 4 && UnitRows(h, n)
    ensures UnitRows(SubCol(h, c, k, f), n)
  {
    forall r | 0 <= r < n
      ensures RowVec(SubCol(h, c, k, f), r) == Basis(r)
    {
      SubKeepsRow(h, c, k, f, r);
    }
  }

  lemma SubKeepsRow(h: Mat4, c: int, k: int, f: real, r: int)
    requires 0 <= c < 4 && 0 <= r < k < 4 && RowVec(h, r) == Basis(r)
    ensures RowVec(SubCol(h, c, k, f), r) == Basis(r)
  {
    RowEntry(h, r, k);
    RowEntry(h, r, c);
    SubColAt(h, c, k, f, r, 0);
    SubColAt(h, c, k, f, r, 1);
    SubColAt(h, c, k, f, r, 2);
    SubColAt(h, c, k, f, r, 3);
  }

  /** Dividing by a nonzero pivot puts 1 on the diagonal of row k. */
  lemma DivMakesOne(h: Mat4, k: int)
    requires 0 <= k < 4 && h[5 * k] != 0.0
    ensures RowVec(DivCol(h, k, h[5 * k]), k) == RowVec(h, k)[k := 1.0]
  {
    var e := FDiv(1.0, h[5 * k]);
    assert h[4 * k + k] * e == 1.0;
    var x := DivCol(h, k, h[5 * k]);
    DivColAt(h, k, h[5 * k], k, 0);
    DivColAt(h, k, h[5 * k], k, 1);
    DivColAt(h, k, h[5 * k], k, 2);
    DivColAt(h, k, h[5 * k], k, 3);
    assert x[4 * k + k] == 1.0;
  }

  /** With 1 on the diagonal, the subtraction clears entry (k, c). */
  lemma SubMakesZero(h: Mat4, c: int, k: int)
    requires 0 <= c < 4 && 0 <= k < 4 && c != k && h[5 * k] == 1.0
    ensures RowVec(SubCol(h, c, k, h[4 * k + c]), k) == RowVec(h, k)[c := 0.0]
  {
    var f := h[4 * k + c];
    SubColAt(h, c, k, f, k, 0);
    SubColAt(h, c, k, f, k, 1);
    SubColAt(h, c, k, f, k, 2);
    SubColAt(h, c, k, f, k, 3);
  }

  /** One step of a phase: the earlier rows stay unit rows and row k is
      updated as the lemmas above say. */
  lemma SubStep(w: Work, c: int, k: int, row: seq<real>)
    requires 0 <= c < 4 && 0 <= k < 4 && c != k && UnitRows(w.hold, k)
    requires RowVec(w.hold, k) == row && |row| == 4 && row[k] == 1.0
    ensures UnitRows(WSub(w, c, k).hold, k) && RowVec(WSub(w, c, k).hold, k) == row[c := 0.0]
  {
    assert w.hold[5 * k] == RowVec(w.hold, k)[k];
    SubKeepsRows(w.hold, c, k, w.hold[4 * k + c], k);
    SubMakesZero(w.hold, c, k);
  }

  /** A phase with a nonzero pivot turns row k into a unit row. */
  lemma ReduceRow(w: Work, k: int)
    requires 0 <= k < 4 && UnitRows(w.hold, k) && w.hold[5 * k] != 0.0
    ensures UnitRows(Reduce(w, k).hold, k + 1)
  {
    var w1 := WDiv(w, k);
    DivKeepsRows(w.hold, k, w.hold[5 * k], k);
    DivMakesOne(w.hold, k);
    var row := RowVec(w1.hold, k);
    var (a, b, c) := if k == 0 then (1, 2, 3) else if k == 1 then (0, 2, 3) else if k == 2 then (0, 1, 3) else (0, 1, 2);
    SubStep(w1, a, k, row);
    SubStep(WSub(w1, a, k), b, k, row[a := 0.0]);
    SubStep(WSub(WSub(w1, a, k), b, k), c, k, row[a := 0.0][b := 0.0]);
    RowCleared(row, k, a, b, c);
  }

  /** A row with 1 at k and the three other entries cleared is row k of
      the identity. */
  lemma RowCleared(row: seq<real>, k: int, a: int, b: int, c: int)
    requires |row| == 4 && 0 <= k < 4 && row[k] == 1.0
    requires 0 <= a < 4 && 0 <= b < 4 && 0 <= c < 4
    requires a != k && b != k && c != k && a != b && a != c && b != c
    ensures row[a := 0.0][b := 0.0][c := 0.0] == Basis(k)
  {
    var r := row[a := 0.0][b := 0.0][c := 0.0];
    assert r[0] == Basis(k)[0] && r[1] == Basis(k)[1] && r[2] == Basis(k)[2] && r[3] == Basis(k)[3];
  }

  lemma PivotSwapKeepsRows(w: Work, k: int, fallback: int)
    requires 0 <= k < 4 && 0 <= fallback < 4 && UnitRows(w.hold, k)
    requires k == 1 && Abs(w.hold[5]) < Epsilon ==> SecondSwap(w.hold, fallback) != 0
    ensures UnitRows(PivotSwap(w, k, fallback).hold, k)
  {
    if k == 1 && Abs(w.hold[5]) < Epsilon {
      SwapKeepsRows(w.hold, 1, SecondSwap(w.hold, fallback), 1);
    } else if k == 2 && Abs(w.hold[10]) < Epsilon {
      SwapKeepsRows(w.hold, 2, 3, 2);
    }
  }

  /** Phase k - 1 and the exchange that opens phase k leave k unit rows. */
  lemma RowsStep(input: Mat4, staleSwap: bool, k: int)
    requires 1 <= k < 4 && UnitRows(Before(input, staleSwap, k - 1).hold, k - 1)
    requires Pivot(input, staleSwap, k - 1) != 0.0
    requires k == 1 ==> KeepsFirstRow(input, staleSwap)
    ensures UnitRows(Before(input, staleSwap, k).hold, k)
  {
    var w := Before(input, staleSwap, k - 1);
    ReduceRow(w, k - 1);
    PivotSwapKeepsRows(Reduce(w, k - 1), k, Fallback(input, staleSwap));
  }

  lemma UnitRowsIdentity(h: Mat4)
    requires UnitRows(h, 4)
    ensures h == Identity
  {
    assert RowVec(h, 0) == Basis(0) && RowVec(h, 1) == Basis(1);
    assert RowVec(h, 2) == Basis(2) && RowVec(h, 3) == Basis(3);
  }

  /** Gauss-Jordan elimination inverts: when every pivot is nonzero and the
      second phase does not bring back column 0, the input times the
      result is the identity. */
  lemma EliminateInverts(input: Mat4, staleSwap: bool)
    requires KeepsFirstRow(input, staleSwap)
    requires NonzeroPivots(input, staleSwap)
    ensures Eliminate(input, staleSwap).hold == Identity
    ensures Mul(input, Eliminate(input, staleSwap).inv) == Identity
  {
    RowsStep(input, staleSwap, 1);
    RowsStep(input, staleSwap, 2);
    RowsStep(input, staleSwap, 3);
    ReduceRow(Before(input, staleSwap, 3), 3);
    UnitRowsIdentity(Eliminate(input, staleSwap).hold);
    TracksEliminate(input, staleSwap);
  }

  /** The corrected invert fails exactly on a negligible determinant when
      asked to, leaving the identity, and otherwise returns a right inverse
      whenever its pivots are nonzero. */
  lemma InvertCorrectedSound(input: Mat4, singularFail: bool)
    ensures InvertCorrected(input, singularFail).ok <==> !(singularFail && Abs(Determinant(input)) < Epsilon)
    ensures !InvertCorrected(input, singularFail).ok ==> InvertCorrected(input, singularFail).result == Identity
    ensures InvertCorrected(input, singularFail).ok && NonzeroPivots(input, false)
            ==> Mul(input, InvertCorrected(input, singularFail).result) == Identity
  {
    if InvertCorrected(input, singularFail).ok && NonzeroPivots(input, false) {
      EliminateInverts(input, false);
    }
  }

  // ---------------------------------------------------------------------
  // Diagonal inputs, for the examples below

  predicate Diagonal(h: Mat4)
  {
    forall k | 0 <= k < 16 && k % 5 != 0 :: h[k] == 0.0
  }

  lemma DiagonalSet(h: Mat4, i: int)
    requires Diagonal(h) && 0 <= i < 16 && i % 5 == 0
    ensures Diagonal(h[i := 1.0])
  {
  }

  lemma SwapSelf(m: Mat4, p: int)
    requires 0 <= p < 4
    ensures SwapCols(m, p, p) == m
  {
    forall k | 0 <= k < 16
      ensures SwapCols(m, p, p)[k] == m[k]
    {
    }
  }

  /** A phase on a diagonal working copy with a nonzero pivot only puts 1
      in place of the pivot. */
  lemma ReduceDiagonal(w: Work, k: int)
    requires 0 <= k < 4 && Diagonal(w.hold) && w.hold[5 * k] != 0.0
    ensures Reduce(w, k).hold == w.hold[5 * k := 1.0]
  {
    var h := w.hold;
    var h1 := WDiv(w, k).hold;
    var e := FDiv(1.0, h[5 * k]);
    assert h[5 * k] * e == 1.0;
    forall i | 0 <= i < 16
      ensures h1[i] == h[5 * k := 1.0][i]
    {
      if ColOf(i) == k && i != 5 * k {
        assert i % 5 != 0;
      }
    }
    var w1 := WDiv(w, k);
    var (a, b, c) := if k == 0 then (1, 2, 3) else if k == 1 then (0, 2, 3) else if k == 2 then (0, 1, 3) else (0, 1, 2);
    SubOnDiagonal(w1, a, k);
    SubOnDiagonal(WSub(w1, a, k), b, k);
    SubOnDiagonal(WSub(WSub(w1, a, k), b, k), c, k);
  }

  /** A subtraction changes nothing on a diagonal copy. */
  lemma SubOnDiagonal(w: Work, c: int, k: int)
    requires 0 <= c < 4 && 0 <= k < 4 && c != k && Diagonal(w.hold)
    ensures WSub(w, c, k).hold == w.hold
  {
    assert (4 * k + c) % 5 != 0;
    forall i | 0 <= i < 16
      ensures WSub(w, c, k).hold[i] == w.hold[i]
    {
    }
  }

  // ---------------------------------------------------------------------
  // The two departures of the source from Gauss-Jordan inversion

  /** Inverting in place, the singularity test always passes: it looks at
      the receiver after it has become the identity. */
  lemma InPlaceSkipsSingularTest(input: Mat4, singularFail: bool)
    ensures InvertAsWritten(input, true, singularFail).ok
  {
    assert Determinant(Identity) == 1.0;
  }

  /** So a singular matrix inverted in place is reported invertible, while
      inverted into another matrix, or by the corrected invert, it is
      rejected. */
  lemma SingularInvertedInPlace(m: Mat4)
    requires Determinant(m) == 0.0
    ensures InvertAsWritten(m, true, true).ok
    ensures !InvertAsWritten(m, false, true).ok && !InvertCorrected(m, true).ok
  {
    InPlaceSkipsSingularTest(m, true);
  }

  /** A matrix whose determinant is below EPSILON, inverted into another
      matrix, leaves the identity there. */
  lemma SingularLeavesIdentity(input: Mat4)
    requires Abs(Determinant(input)) < Epsilon
    ensures InvertAsWritten(input, false, true) == Outcome(false, Identity)
  {
  }

  /** The zero matrix is one. */
  lemma ZeroSingular()
    ensures Determinant(Zero) == 0.0
  {
  }

  /** On a diagonal working copy the corrected exchanges change nothing,
      unless the third phase finds a negligible entry (2, 2). */
  lemma PivotSwapDiagonal(w: Work, k: int)
    requires 0 <= k < 4 && Diagonal(w.hold) && (k == 2 ==> Abs(w.hold[10]) >= Epsilon)
    ensures PivotSwap(w, k, 1).hold == w.hold
  {
    if k == 0 && Abs(w.hold[0]) < Epsilon {
      assert FirstSwap(w.hold) == 0;
      SwapSelf(w.hold, 0);
    } else if k == 1 && Abs(w.hold[5]) < Epsilon {
      assert SecondSwap(w.hold, 1) == 1;
      SwapSelf(w.hold, 1);
    }
  }

  /** Phase k of the corrected elimination on a diagonal input d, with h
      the working copy it starts from: its pivot is entry (k, k) of d. */
  lemma PhaseDiagonal(d: Mat4, k: int, h: Mat4)
    requires 0 <= k < 4 && Diagonal(h) && h[5 * k] == d[5 * k] && d[5 * k] != 0.0
    requires k == 2 ==> Abs(h[10]) >= Epsilon
    requires k == 0 ==> h == d
    requires k > 0 ==> Reduce(Before(d, false, k - 1), k - 1).hold == h
    ensures Pivot(d, false, k) == d[5 * k]
    ensures Reduce(Before(d, false, k), k).hold == h[5 * k := 1.0]
  {
    var w := if k == 0 then Work(d, Identity) else Reduce(Before(d, false, k - 1), k - 1);
    assert Before(d, false, k) == PivotSwap(w, k, 1);
    PivotSwapDiagonal(w, k);
    ReduceDiagonal(Before(d, false, k), k);
  }

  /** d with entries (0, 0) to (k, k) replaced by 1. */
  function Ones(d: Mat4, k: int): (h: Mat4)
    requires k < 4
    ensures forall j | 0 <= j < 4 && k < j :: h[5 * j] == d[5 * j]
    ensures Diagonal(d) ==> Diagonal(h)
    decreases k + 1
  {
    if k < 0 then d else Ones(d, k - 1)[5 * k := 1.0]
  }

  /** The first k + 1 corrected phases on a diagonal input. */
  lemma {:induction false} DiagonalPhases(d: Mat4, k: int)
    requires Diagonal(d) && d[0] != 0.0 && d[5] != 0.0 && d[15] != 0.0 && Abs(d[10]) >= Epsilon
    requires 0 <= k < 4
    ensures Pivot(d, false, k) == d[5 * k]
    ensures Reduce(Before(d, false, k), k).hold == Ones(d, k)
    decreases k
  {
    var h := Ones(d, k - 1);
    if k > 0 {
      DiagonalPhases(d, k - 1);
    }
    assert h[5 * k] == d[5 * k];
    assert Ones(d, k) == h[5 * k := 1.0];
    PhaseDiagonal(d, k, h);
  }

  /** Corrected, the pivots of a diagonal input are its diagonal entries
      when they are nonzero and entry (2, 2) is not negligible, */
  lemma CorrectedDiagonal(d: Mat4)
    requires Diagonal(d) && d[0] != 0.0 && d[5] != 0.0 && d[15] != 0.0 && Abs(d[10]) >= Epsilon
    ensures forall k | 0 <= k < 4 :: Pivot(d, false, k) == d[5 * k]
  {
    forall k | 0 <= k < 4
      ensures Pivot(d, false, k) == d[5 * k]
    {
      DiagonalPhases(d, k);
    }
  }

  /** so the result is its inverse. */
  lemma CorrectedDiagonalInverts(d: Mat4)
    requires Diagonal(d) && d[0] != 0.0 && d[5] != 0.0 && d[15] != 0.0 && Abs(d[10]) >= Epsilon
    ensures Mul(d, Eliminate(d, false).inv) == Identity
  {
    CorrectedDiagonal(d);
    CorrectedKeepsFirstRow(d);
    EliminateInverts(d, false);
  }

  /** As written, a diagonal input whose entry (1, 1) is below EPSILON
      after a usable entry (0, 0) makes the second phase fall back on the
      stale rswap 0 and trade column 1 with the reduced column 0, so it
      divides by a zero pivot, whatever the determinant. */
  lemma StaleSwapDiagonal(d: Mat4)
    requires Diagonal(d) && Abs(d[0]) >= Epsilon && Abs(d[5]) < Epsilon
    ensures !KeepsFirstRow(d, true) && Pivot(d, true, 1) == 0.0
  {
    var w := Reduce(Before(d, true, 0), 0);
    assert Before(d, true, 0) == Work(d, Identity);
    ReduceDiagonal(Work(d, Identity), 0);
    assert w.hold == d[0 := 1.0];
    assert Fallback(d, true) == 0;
    StaleSecondSwap(w);
  }

  /** The second phase with fallback 0 on a working copy whose row 1 is
      (0, below EPSILON, 0, 0). */
  lemma StaleSecondSwap(w: Work)
    requires w.hold[4] == 0.0 && Abs(w.hold[5]) < Epsilon && w.hold[6] == 0.0 && w.hold[7] == 0.0
    ensures SecondSwap(w.hold, 0) == 0 && PivotSwap(w, 1, 0).hold[5] == 0.0
  {
    SwapColsAt(w.hold, 1, 0, 1, 1);
  }

  /** diag(1, 0.000001, 1000000, 1), with determinant 1, is such an input. */
  lemma StaleExampleFits()
    ensures Determinant(StaleExample) == 1.0 && Diagonal(StaleExample)
    ensures Abs(StaleExample[0]) >= Epsilon && StaleExample[5] != 0.0 && Abs(StaleExample[5]) < Epsilon
    ensures Abs(StaleExample[10]) >= Epsilon && StaleExample[15] != 0.0
  {
  }

  const StaleExample: Mat4 := [1.0, 0.0, 0.0, 0.0,
                               0.0, 0.000001, 0.0, 0.0,
                               0.0, 0.0, 1000000.0, 0.0,
                               0.0, 0.0, 0.0, 1.0]

  // ---------------------------------------------------------------------
  // The loops of the source: every column operation walks the four rows,
  // updating hold and the receiver together

  /** Columns p and q of hold and of the receiver exchanged. */
  method SwapColumns(hold: array<real>, inv: array<real>, p: int, q: int)
    requires hold.Length == 16 && inv.Length == 16 && hold != inv
    requires 0 <= p < 4 && 0 <= q < 4
    modifies hold, inv
    ensures Work(hold[..], inv[..]) == WSwap(old(Work(hold[..], inv[..])), p, q)
  {
    SwapColumnsOf(hold, p, q);
    SwapColumnsOf(inv, p, q);
  }

  /** The loop invariant of every column operation: the rows before i
      (the first 4 * i entries, the layout being row-major) hold the
      target, the others are as they were. */
  predicate RowsDone(a: seq<real>, h: Mat4, t: Mat4, i: int)
    requires |a| == 16
  {
    (forall k | 0 <= k < 4 * i && k < 16 :: a[k] == t[k]) &&
    (forall k | 4 * i <= k < 16 && 0 <= k :: a[k] == h[k])
  }

  /** Doing row i keeps the invariant. */
  lemma RowStep(a0: seq<real>, a1: seq<real>, h: Mat4, t: Mat4, i: int)
    requires |a0| == 16 && |a1| == 16 && 0 <= i < 4 && RowsDone(a0, h, t, i)
    requires forall k | 0 <= k < 16 && (k < 4 * i || 4 * i + 4 <= k) :: a1[k] == a0[k]
    requires a1[4 * i] == t[4 * i] && a1[4 * i + 1] == t[4 * i + 1]
    requires a1[4 * i + 2] == t[4 * i + 2] && a1[4 * i + 3] == t[4 * i + 3]
    ensures RowsDone(a1, h, t, i + 1)
  {
  }

  lemma AllRowsDone(a: seq<real>, h: Mat4, t: Mat4)
    requires |a| == 16 && RowsDone(a, h, t, 4)
    ensures a == t
  {
  }

  /** Row i of t is row i of h with columns p and q exchanged. */
  predicate RowSwapped(t: Mat4, h: Mat4, p: int, q: int, i: int)
    requires 0 <= p < 4 && 0 <= q < 4 && 0 <= i < 4
  {
    t[4 * i + 0] == h[4 * i + Swapped(0, p, q)] &&
    t[4 * i + 1] == h[4 * i + Swapped(1, p, q)] &&
    t[4 * i + 2] == h[4 * i + Swapped(2, p, q)] &&
    t[4 * i + 3] == h[4 * i + Swapped(3, p, q)]
  }

  lemma SwapColsRows(h: Mat4, p: int, q: int)
    requires 0 <= p < 4 && 0 <= q < 4
    ensures forall i | 0 <= i < 4 :: RowSwapped(SwapCols(h, p, q), h, p, q, i)
  {
    forall i | 0 <= i < 4
      ensures RowSwapped(SwapCols(h, p, q), h, p, q, i)
    {
      SwapColsRow(h, p, q, i);
    }
  }

  lemma SwapColsRow(h: Mat4, p: int, q: int, i: int)
    requires 0 <= p < 4 && 0 <= q < 4 && 0 <= i < 4
    ensures RowSwapped(SwapCols(h, p, q), h, p, q, i)
  {
    SwapColsAt(h, p, q, i, 0);
    SwapColsAt(h, p, q, i, 1);
    SwapColsAt(h, p, q, i, 2);
    SwapColsAt(h, p, q, i, 3);
  }

  /** Exchanges columns p and q of one of the two matrices. */
  method SwapColumnsOf(a: array<real>, p: int, q: int)
    requires a.Length == 16 && 0 <= p < 4 && 0 <= q < 4
    modifies a
    ensures a[..] == SwapCols(old(a[..]), p, q)
  {
    SwapColsRows(a[..], p, q);
    SwapLoop(a, a[..], SwapCols(a[..], p, q), p, q);
  }

  /** The loop over the rows, towards any target whose rows are those of
      the array with columns p and q exchanged. */
  method SwapLoop(a: array<real>, ghost h: Mat4, ghost t: Mat4, p: int, q: int)
    requires a.Length == 16 && 0 <= p < 4 && 0 <= q < 4 && a[..] == h
    requires forall i | 0 <= i < 4 :: RowSwapped(t, h, p, q, i)
    modifies a
    ensures a[..] == t
  {
    for i := 0 to 4
      invariant RowsDone(a[..], h, t, i)
    {
      ghost var a0 := a[..];
      var swap := a[i * 4 + p];
      a[i * 4 + p] := a[i * 4 + q];
      a[i * 4 + q] := swap;
      SwapRow(a0, a[..], h, t, p, q, i);
    }
    AllRowsDone(a[..], h, t);
  }

  /** Row i of the exchange, towards any target whose row i is row i of
      h with columns p and q exchanged. */
  lemma SwapRow(a0: seq<real>, a1: seq<real>, h: Mat4, t: Mat4, p: int, q: int, i: int)
    requires |a0| == 16 && 0 <= p < 4 && 0 <= q < 4 && 0 <= i < 4
    requires RowsDone(a0, h, t, i) && RowSwapped(t, h, p, q, i)
    requires |a1| == 16 && a1[4 * i + p] == a0[4 * i + q] && a1[4 * i + q] == a0[4 * i + p]
    requires forall k | 0 <= k < 16 && k != 4 * i + p && k != 4 * i + q :: a1[k] == a0[k]
    ensures RowsDone(a1, h, t, i + 1)
  {
    RowStep(a0, a1, h, t, i);
  }

  /** Rows i of t and h agree outside column c. */
  predicate RowElsewhere(t: Mat4, h: Mat4, c: int, i: int)
    requires 0 <= c < 4 && 0 <= i < 4
  {
    (c == 0 || t[4 * i + 0] == h[4 * i + 0]) && (c == 1 || t[4 * i + 1] == h[4 * i + 1]) &&
    (c == 2 || t[4 * i + 2] == h[4 * i + 2]) && (c == 3 || t[4 * i + 3] == h[4 * i + 3])
  }

  /** Changing entry (i, c) into the target's keeps the loop invariant
      when the rest of row i already agrees. */
  lemma OneEntryRow(a0: seq<real>, a1: seq<real>, h: Mat4, t: Mat4, c: int, i: int)
    requires |a0| == 16 && |a1| == 16 && 0 <= c < 4 && 0 <= i < 4
    requires RowsDone(a0, h, t, i) && RowElsewhere(t, h, c, i)
    requires a1[4 * i + c] == t[4 * i + c]
    requires forall k | 0 <= k < 16 && k != 4 * i + c :: a1[k] == a0[k]
    ensures RowsDone(a1, h, t, i + 1)
  {
    RowStep(a0, a1, h, t, i);
  }

  /** Row i of t is row i of h with column c multiplied by the reciprocal of d. */
  predicate RowDivided(t: Mat4, h: Mat4, c: int, d: real, i: int)
    requires 0 <= c < 4 && 0 <= i < 4
  {
    RowElsewhere(t, h, c, i) && t[4 * i + c] == h[4 * i + c] * FDiv(1.0, d)
  }

  lemma DivColRows(h: Mat4, c: int, d: real)
    requires 0 <= c < 4
    ensures forall i | 0 <= i < 4 :: RowDivided(DivCol(h, c, d), h, c, d, i)
  {
    forall i | 0 <= i < 4
      ensures RowDivided(DivCol(h, c, d), h, c, d, i)
    {
      DivColRow(h, c, d, i);
    }
  }

  lemma DivColRow(h: Mat4, c: int, d: real, i: int)
    requires 0 <= c < 4 && 0 <= i < 4
    ensures RowDivided(DivCol(h, c, d), h, c, d, i)
  {
    DivColAt(h, c, d, i, 0);
    DivColAt(h, c, d, i, 1);
    DivColAt(h, c, d, i, 2);
    DivColAt(h, c, d, i, 3);
    DivColAt(h, c, d, i, c);
  }

  /** The division loop over the rows, towards any target whose rows are
      those of the array with column c divided by d. */
  method DivLoop(a: array<real>, ghost h: Mat4, ghost t: Mat4, c: int, d: real)
    requires a.Length == 16 && 0 <= c < 4 && a[..] == h
    requires forall i | 0 <= i < 4 :: RowDivided(t, h, c, d, i)
    modifies a
    ensures a[..] == t
  {
    for i := 0 to 4
      invariant RowsDone(a[..], h, t, i)
    {
      ghost var a0 := a[..];
      assert a0[4 * i + c] == h[4 * i + c] && RowDivided(t, h, c, d, i);
      DivByRecip(a[i * 4 + c], d);
      a[i * 4 + c] := FDiv(a[i * 4 + c], d);
      OneEntryRow(a0, a[..], h, t, c, i);
    }
    AllRowsDone(a[..], h, t);
  }

  /** Row i of t is row i of h with f times column s taken from column c. */
  predicate RowSubtracted(t: Mat4, h: Mat4, c: int, s: int, f: real, i: int)
    requires 0 <= c < 4 && 0 <= s < 4 && 0 <= i < 4
  {
    RowElsewhere(t, h, c, i) && t[4 * i + c] == h[4 * i + c] - f * h[4 * i + s]
  }

  lemma SubColRows(h: Mat4, c: int, s: int, f: real)
    requires 0 <= c < 4 && 0 <= s < 4
    ensures forall i | 0 <= i < 4 :: RowSubtracted(SubCol(h, c, s, f), h, c, s, f, i)
  {
    forall i | 0 <= i < 4
      ensures RowSubtracted(SubCol(h, c, s, f), h, c, s, f, i)
    {
      SubColRow(h, c, s, f, i);
    }
  }

  lemma SubColRow(h: Mat4, c: int, s: int, f: real, i: int)
    requires 0 <= c < 4 && 0 <= s < 4 && 0 <= i < 4
    ensures RowSubtracted(SubCol(h, c, s, f), h, c, s, f, i)
  {
    SubColAt(h, c, s, f, i, 0);
    SubColAt(h, c, s, f, i, 1);
    SubColAt(h, c, s, f, i, 2);
    SubColAt(h, c, s, f, i, 3);
    SubColAt(h, c, s, f, i, c);
  }

  /** The subtraction loop over the rows, towards any target whose rows
      are those of the array with f times column s taken from column c. */
  method SubLoop(a: array<real>, ghost h: Mat4, ghost t: Mat4, c: int, s: int, f: real)
    requires a.Length == 16 && 0 <= c < 4 && 0 <= s < 4 && c != s && a[..] == h
    requires forall i | 0 <= i < 4 :: RowSubtracted(t, h, c, s, f, i)
    modifies a
    ensures a[..] == t
  {
    for i := 0 to 4
      invariant RowsDone(a[..], h, t, i)
    {
      ghost var a0 := a[..];
      assert a0[4 * i + c] == h[4 * i + c] && a0[4 * i + s] == h[4 * i + s];
      assert RowSubtracted(t, h, c, s, f, i);
      a[i * 4 + c] := a[i * 4 + c] - f * a[i * 4 + s];
      OneEntryRow(a0, a[..], h, t, c, i);
    }
    AllRowsDone(a[..], h, t);
  }

  /** Divides column k of both matrices by the pivot hold[k][k]. */
  method DivideColumn(hold: array<real>, inv: array<real>, k: int)
    requires hold.Length == 16 && inv.Length == 16 && hold != inv && 0 <= k < 4
    modifies hold, inv
    ensures Work(hold[..], inv[..]) == WDiv(old(Work(hold[..], inv[..])), k)
  {
    var d := hold[k * 4 + k];
    DivColRows(hold[..], k, d);
    DivLoop(hold, hold[..], DivCol(hold[..], k, d), k, d);
    DivColRows(inv[..], k, d);
    DivLoop(inv, inv[..], DivCol(inv[..], k, d), k, d);
  }

  /** Takes hold[k][c] times column k from column c of both matrices. */
  method SubtractColumn(hold: array<real>, inv: array<real>, c: int, k: int)
    requires hold.Length == 16 && inv.Length == 16 && hold != inv
    requires 0 <= c < 4 && 0 <= k < 4 && c != k
    modifies hold, inv
    ensures Work(hold[..], inv[..]) == WSub(old(Work(hold[..], inv[..])), c, k)
  {
    var f := hold[k * 4 + c];
    SubColRows(hold[..], c, k, f);
    SubLoop(hold, hold[..], SubCol(hold[..], c, k, f), c, k, f);
    SubColRows(inv[..], c, k, f);
    SubLoop(inv, inv[..], SubCol(inv[..], c, k, f), c, k, f);
  }

  /** One phase of elimination on the two matrices: the division of
      column k, then the three subtractions in column order. */
  method ReduceColumn(hold: array<real>, inv: array<real>, k: int)
    requires hold.Length == 16 && inv.Length == 16 && hold != inv && 0 <= k < 4
    modifies hold, inv
    ensures Work(hold[..], inv[..]) == Reduce(old(Work(hold[..], inv[..])), k)
  {
    DivideColumn(hold, inv, k);
    if k == 0 {
      SubtractColumn(hold, inv, 1, 0);
      SubtractColumn(hold, inv, 2, 0);
      SubtractColumn(hold, inv, 3, 0);
    } else if k == 1 {
      SubtractColumn(hold, inv, 0, 1);
      SubtractColumn(hold, inv, 2, 1);
      SubtractColumn(hold, inv, 3, 1);
    } else if k == 2 {
      SubtractColumn(hold, inv, 0, 2);
      SubtractColumn(hold, inv, 1, 2);
      SubtractColumn(hold, inv, 3, 2);
    } else {
      SubtractColumn(hold, inv, 0, 3);
      SubtractColumn(hold, inv, 1, 3);
      SubtractColumn(hold, inv, 2, 3);
    }
  }

  /** The exchange that opens phase k, when the diagonal entry of hold is
      negligible; rswap is the column the source last chose. With
      staleSwap the second phase falls back on that rswap, as written;
      without it, on column 1 itself. */
  method OpenPhase(hold: array<real>, inv: array<real>, k: int, rswap: int, staleSwap: bool,
                   ghost fallback: int) returns (r: int)
    requires hold.Length == 16 && inv.Length == 16 && hold != inv
    requires 0 <= k < 4 && 0 <= rswap < 4 && 0 <= fallback < 4
    requires k == 1 ==> fallback == if staleSwap then rswap else 1
    modifies hold, inv
    ensures Work(hold[..], inv[..]) == PivotSwap(old(Work(hold[..], inv[..])), k, fallback)
    ensures 0 <= r < 4
    ensures k == 0 ==> r == FirstSwap(old(hold[..]))
  {
    r := rswap;
    if k == 0 {
      r := OpenFirst(hold, inv);
    } else if k == 1 {
      r := OpenSecond(hold, inv, rswap, staleSwap, fallback);
    } else if k == 2 {
      OpenThird(hold, inv);
    }
  }

  /** The first phase's exchange; rswap starts at 0. */
  method OpenFirst(hold: array<real>, inv: array<real>) returns (r: int)
    requires hold.Length == 16 && inv.Length == 16 && hold != inv
    modifies hold, inv
    ensures Work(hold[..], inv[..]) == PivotSwap(old(Work(hold[..], inv[..])), 0, 0)
    ensures r == FirstSwap(old(hold[..]))
  {
    ghost var w := Work(hold[..], inv[..]);
    PivotSwapFirst(w);
    r := 0;
    if Abs(hold[0]) < Epsilon {
      if Abs(hold[1]) > Epsilon {
        r := 1;
      } else if Abs(hold[2]) > Epsilon {
        r := 2;
      } else if Abs(hold[3]) > Epsilon {
        r := 3;
      }
      SwapColumns(hold, inv, 0, r);
    }
  }

  lemma PivotSwapFirst(w: Work)
    ensures PivotSwap(w, 0, 0) == if Abs(w.hold[0]) < Epsilon then WSwap(w, 0, FirstSwap(w.hold)) else w
  {
  }

  method OpenSecond(hold: array<real>, inv: array<real>, rswap: int, staleSwap: bool,
                    ghost fallback: int) returns (r: int)
    requires hold.Length == 16 && inv.Length == 16 && hold != inv && 0 <= rswap < 4
    requires fallback == if staleSwap then rswap else 1
    modifies hold, inv
    ensures Work(hold[..], inv[..]) == PivotSwap(old(Work(hold[..], inv[..])), 1, fallback)
    ensures 0 <= r < 4
  {
    r := rswap;
    if Abs(hold[5]) < Epsilon {
      if !staleSwap {
        r := 1;
      }
      if Abs(hold[6]) > Epsilon {
        r := 2;
      } else if Abs(hold[7]) > Epsilon {
        r := 3;
      }
      SwapColumns(hold, inv, 1, r);
    }
  }

  method OpenThird(hold: array<real>, inv: array<real>)
    requires hold.Length == 16 && inv.Length == 16 && hold != inv
    modifies hold, inv
    ensures Work(hold[..], inv[..]) == PivotSwap(old(Work(hold[..], inv[..])), 2, 0)
  {
    if Abs(hold[10]) < Epsilon {
      SwapColumns(hold, inv, 2, 3);
    }
  }

  /** The four phases of mat4f::invert on the copy `hold` and the receiver
      `inv`, which starts as the identity; the source writes the phases out
      one after the other, here they are the turns of a loop. */
  method EliminateInPlace(hold: array<real>, inv: array<real>, staleSwap: bool)
    requires hold.Length == 16 && inv.Length == 16 && hold != inv && inv[..] == Identity
    modifies hold, inv
    ensures Work(hold[..], inv[..]) == Eliminate(old(hold[..]), staleSwap)
  {
    ghost var input: Mat4 := hold[..];
    var rswap := 0;
    for k := 0 to 4
      invariant 0 <= rswap < 4
      invariant k == 0 ==> rswap == 0
      invariant k == 1 ==> rswap == FirstSwap(input)
      invariant Work(hold[..], inv[..]) ==
        if k == 0 then Work(input, Identity) else Reduce(Before(input, staleSwap, k - 1), k - 1)
    {
      rswap := OpenPhase(hold, inv, k, rswap, staleSwap, Fallback(input, staleSwap));
      ReduceColumn(hold, inv, k);
    }
  }

  /** The receiver becomes the identity. */
  method SetIdentity(self: array<real>)
    requires self.Length == 16
    modifies self
    ensures self[..] == Identity
  {
    for i := 0 to 16
      invariant self[..i] == Identity[..i]
    {
      self[i] := Identity[i];
    }
  }

  /** mat4f::invert(mat, singular_fail) as written; `self` is the receiver,
      which may be `mat` itself (mat4f::invert()). */
  method Invert(self: array<real>, mat: array<real>, singularFail: bool) returns (ok: bool)
    requires self.Length == 16 && mat.Length == 16
    modifies self
    ensures Outcome(ok, self[..]) == InvertAsWritten(old(mat[..]), self == mat, singularFail)
  {
    ghost var input: Mat4 := mat[..];
    var hold := new real[16];
    CopyInto(hold, mat);
    SetIdentity(self);
    ghost var tested: Mat4 := if self == mat then Identity else input;
    assert mat[..] == tested;
    var det := Determinant(mat[..]);
    assert hold[..] == input;
    ok := CheckAndEliminate(hold, self, det, singularFail, true);
    AsWrittenOutcome(input, self == mat, singularFail, det);
  }

  lemma AsWrittenOutcome(input: Mat4, aliased: bool, singularFail: bool, det: real)
    requires det == Determinant(if aliased then Identity else input)
    ensures InvertAsWritten(input, aliased, singularFail) ==
      if singularFail && Abs(det) < Epsilon then Outcome(false, Identity)
      else Outcome(true, Eliminate(input, true).inv)
  {
  }

  /** mat4f::invert corrected: the determinant is that of the copy, and
      the second phase never brings back column 0. */
  method InvertFixed(self: array<real>, mat: array<real>, singularFail: bool) returns (ok: bool)
    requires self.Length == 16 && mat.Length == 16
    modifies self
    ensures Outcome(ok, self[..]) == InvertCorrected(old(mat[..]), singularFail)
  {
    var hold := new real[16];
    CopyInto(hold, mat);
    SetIdentity(self);
    var det := Determinant(hold[..]);
    assert hold[..] == old(mat[..]);
    ok := CheckAndEliminate(hold, self, det, singularFail, false);
  }

  /** The singularity test on det, then the four phases. */
  method CheckAndEliminate(hold: array<real>, inv: array<real>, det: real, singularFail: bool,
                           staleSwap: bool) returns (ok: bool)
    requires hold.Length == 16 && inv.Length == 16 && hold != inv && inv[..] == Identity
    modifies hold, inv
    ensures ok == !(singularFail && Abs(det) < Epsilon)
    ensures inv[..] == if ok then Eliminate(old(hold[..]), staleSwap).inv else Identity
  {
    if singularFail && Abs(det) < Epsilon {
      return false;
    }
    EliminateInPlace(hold, inv, staleSwap);
    return true;
  }
}
