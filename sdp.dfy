/** The semidefinite helpers of first_sdp.py: the embedding of an r×c
    complex matrix M as the 2r×2c real matrix [[Re M, -Im M], [Im M, Re M]]
    and its inverse, the block-diagonal combination of two matrices, and the
    32 trace constraints `trace(A·X) == b` of the state-discrimination
    program. Complex numbers are pairs of reals; the program is data and
    its solution is not modelled. */
module Sdp {
  import opened Sums

  datatype Complex = Complex(re: real, im: real)

  const Zero := Complex(0.0, 0.0)

  function Conj(z: Complex): Complex { Complex(z.re, -z.im) }

  type Matrix = seq<seq<real>>
  type CMatrix = seq<seq<Complex>>

  /** m has r rows of c entries each. */
  predicate IsShape<T>(m: seq<seq<T>>, r: nat, c: nat)
  {
    |m| == r && forall i :: 0 <= i < r ==> |m[i]| == c
  }

  // ---------------------------------------------------------------------
  // complex_to_real and real_to_complex.

  function Re(row: seq<Complex>): (r: seq<real>)
    ensures |r| == |row|
  {
    seq(|row|, (k: int) requires 0 <= k < |row| => row[k].re)
  }

  function Im(row: seq<Complex>): (r: seq<real>)
    ensures |r| == |row|
  {
    seq(|row|, (k: int) requires 0 <= k < |row| => row[k].im)
  }

  function NegIm(row: seq<Complex>): (r: seq<real>)
    ensures |r| == |row|
  {
    seq(|row|, (k: int) requires 0 <= k < |row| => -row[k].im)
  }

  /** The rows complex_to_real produces: Re m[i] followed by -Im m[i] for
      every row, then Im m[i] followed by Re m[i]. */
  function RealEmbedding(m: CMatrix, cols: nat): (r: Matrix)
    requires IsShape(m, |m|, cols)
    ensures IsShape(r, 2 * |m|, 2 * cols)
  {
    seq(2 * |m|, (p: int) requires 0 <= p < 2 * |m| => EmbeddedRow(m, cols, p))
  }

  /** Row p of the embedding. */
  function EmbeddedRow(m: CMatrix, cols: nat, p: nat): (row: seq<real>)
    requires IsShape(m, |m|, cols) && p < 2 * |m|
    ensures |row| == 2 * cols
  {
    if p < |m| then Re(m[p]) + NegIm(m[p]) else Im(m[p - |m|]) + Re(m[p - |m|])
  }

  /** complex_to_real: grow the matrix row by row below a dummy zero row,
      drop the dummy, then append the lower half. */
  method ComplexToReal(m: CMatrix, cols: nat) returns (realMatrix: Matrix)
    requires IsShape(m, |m|, cols)
    ensures realMatrix == RealEmbedding(m, cols)
  {
    var rows := |m|;
    var all := RealEmbedding(m, cols);
    realMatrix := [seq(cols * 2, _ => 0.0)];
    for i := 0 to rows
      invariant |realMatrix| == i + 1 && realMatrix[1..] == all[..i]
    {
      var newRow := Re(m[i]) + NegIm(m[i]);
      assert all[i] == EmbeddedRow(m, cols, i) == newRow;
      realMatrix := realMatrix + [newRow];
      assert realMatrix[1..] == realMatrix[1..i + 1] + [newRow];
    }
    realMatrix := realMatrix[1..];
    for i := 0 to rows
      invariant realMatrix == all[..rows + i]
    {
      var newRow := Im(m[i]) + Re(m[i]);
      assert all[rows + i] == EmbeddedRow(m, cols, rows + i) == newRow;
      assert all[..rows + i + 1] == all[..rows + i] + [newRow];
      realMatrix := realMatrix + [newRow];
    }
    assert all[..2 * rows] == all;
  }

  /** The entries of the embedding: the four blocks Re M, -Im M, Im M, Re M. */
  lemma RealEmbeddingBlocks(m: CMatrix, cols: nat, i: nat, j: nat)
    requires IsShape(m, |m|, cols) && i < |m| && j < cols
    ensures var r, rows := RealEmbedding(m, cols), |m|;
            && r[i][j] == m[i][j].re && r[i][j + cols] == -m[i][j].im
            && r[i + rows][j] == m[i][j].im && r[i + rows][j + cols] == m[i][j].re
  {
    var r, rows := RealEmbedding(m, cols), |m|;
    assert r[i] == EmbeddedRow(m, cols, i) == Re(m[i]) + NegIm(m[i]);
    assert r[i + rows] == EmbeddedRow(m, cols, i + rows) == Im(m[i]) + Re(m[i]);
  }

  /** real_to_complex on a rows×cols matrix: the int(rows/2)×int(cols/2)
      complex matrix with entry r[i][j] - r[i][j + cols/2]·i. */
  function ComplexOf(r: Matrix, cols: nat): (m: CMatrix)
    requires IsShape(r, |r|, cols)
    ensures IsShape(m, |r| / 2, cols / 2)
  {
    seq(|r| / 2, (i: int) requires 0 <= i < |r| / 2 =>
      seq(cols / 2, (j: int) requires 0 <= j < cols / 2 => Complex(r[i][j], -r[i][j + cols / 2])))
  }

  /** real_to_complex: allocate a zero complex matrix and fill it entry by entry. */
  method RealToComplex(r: Matrix, cols: nat) returns (m: CMatrix)
    requires IsShape(r, |r|, cols)
    ensures m == ComplexOf(r, cols)
  {
    var h, w := |r| / 2, cols / 2;
    var complexMatrix := new Complex[h, w]((p, q) => Zero);
    for i := 0 to h
      invariant forall p, q :: 0 <= p < i && 0 <= q < w ==> complexMatrix[p, q] == Complex(r[p][q], -r[p][q + w])
    {
      for j := 0 to w
        invariant forall p, q :: 0 <= p < i && 0 <= q < w ==> complexMatrix[p, q] == Complex(r[p][q], -r[p][q + w])
        invariant forall q :: 0 <= q < j ==> complexMatrix[i, q] == Complex(r[i][q], -r[i][q + w])
      {
        complexMatrix[i, j] := Complex(r[i][j], -r[i][j + w]);
      }
    }
    m := seq(h, (p: int) requires 0 <= p < h reads complexMatrix =>
           seq(w, (q: int) requires 0 <= q < w reads complexMatrix => complexMatrix[p, q]));
    forall p | 0 <= p < h
      ensures m[p] == ComplexOf(r, cols)[p]
    {
    }
  }

  /** real_to_complex undoes complex_to_real. */
  lemma ComplexOfRealEmbedding(m: CMatrix, cols: nat)
    requires IsShape(m, |m|, cols)
    ensures ComplexOf(RealEmbedding(m, cols), 2 * cols) == m
  {
    var back := ComplexOf(RealEmbedding(m, cols), 2 * cols);
    forall i | 0 <= i < |m|
      ensures back[i] == m[i]
    {
      forall j | 0 <= j < cols
        ensures back[i][j] == m[i][j]
      {
        RealEmbeddingBlocks(m, cols, i, j);
      }
    }
  }

  /** A 2r×2c real matrix of the form [[A, -B], [B, A]]. */
  predicate IsEmbedding(r: Matrix, rows: nat, cols: nat)
  {
    IsShape(r, 2 * rows, 2 * cols) && forall i, j :: 0 <= i < rows && 0 <= j < cols ==> EmbeddedAt(r, rows, cols, i, j)
  }

  /** The lower blocks repeat entry (i, j) of the upper ones: Re below Re, and Im below -Im. */
  predicate EmbeddedAt(r: Matrix, rows: nat, cols: nat, i: nat, j: nat)
    requires IsShape(r, 2 * rows, 2 * cols) && i < rows && j < cols
  {
    r[i + rows][j + cols] == r[i][j] && r[i + rows][j] == -r[i][j + cols]
  }

  /** Every embedding is complex_to_real of one matrix, so complex_to_real
      undoes real_to_complex on embeddings. */
  lemma RealEmbeddingOfComplexOf(r: Matrix, rows: nat, cols: nat)
    requires IsEmbedding(r, rows, cols)
    ensures RealEmbedding(ComplexOf(r, 2 * cols), cols) == r
  {
    var back := RealEmbedding(ComplexOf(r, 2 * cols), cols);
    forall p | 0 <= p < 2 * rows
      ensures back[p] == r[p]
    {
      forall q | 0 <= q < 2 * cols
        ensures back[p][q] == r[p][q]
      {
        RealEmbeddingOfComplexOfAt(r, rows, cols, if p < rows then p else p - rows, if q < cols then q else q - cols);
      }
    }
  }

  /** The four entries of the round trip that come from entry (i, j). */
  lemma RealEmbeddingOfComplexOfAt(r: Matrix, rows: nat, cols: nat, i: nat, j: nat)
    requires IsEmbedding(r, rows, cols) && i < rows && j < cols
    ensures var back := RealEmbedding(ComplexOf(r, 2 * cols), cols);
            && back[i][j] == r[i][j] && back[i][j + cols] == r[i][j + cols]
            && back[i + rows][j] == r[i + rows][j] && back[i + rows][j + cols] == r[i + rows][j + cols]
  {
    var m := ComplexOf(r, 2 * cols);
    assert EmbeddedAt(r, rows, cols, i, j);
    assert m[i][j] == Complex(r[i][j], -r[i][j + cols]);
    RealEmbeddingBlocks(m, cols, i, j);
  }

  // ---------------------------------------------------------------------
  // combine.

  /** combine(q1, q2) for q1 of shape rows×cols: the rows of q1 padded by
      cols zeros, then cols zeros followed by the first rows rows of q2. */
  function BlockDiagonal(q1: CMatrix, q2: CMatrix, cols: nat): (r: CMatrix)
    requires IsShape(q1, |q1|, cols) && |q2| >= |q1| && forall i :: 0 <= i < |q1| ==> |q2[i]| == cols
    ensures IsShape(r, 2 * |q1|, 2 * cols)
  {
    var rows := |q1|;
    seq(2 * rows, (p: int) requires 0 <= p < 2 * rows =>
      if p < rows then q1[p] + seq(cols, _ => Zero) else seq(cols, _ => Zero) + q2[p - rows])
  }

  /** combine: the same two passes as complex_to_real, with zero padding. */
  method Combine(q1: CMatrix, q2: CMatrix, cols: nat) returns (combinedMatrix: CMatrix)
    requires IsShape(q1, |q1|, cols) && |q2| >= |q1| && forall i :: 0 <= i < |q1| ==> |q2[i]| == cols
    ensures combinedMatrix == BlockDiagonal(q1, q2, cols)
  {
    var rows := |q1|;
    var all := BlockDiagonal(q1, q2, cols);
    var zeros := seq(cols, _ => Zero);
    combinedMatrix := [seq(cols * 2, _ => Zero)];
    for i := 0 to rows
      invariant |combinedMatrix| == i + 1 && combinedMatrix[1..] == all[..i]
    {
      var newRow := q1[i] + zeros;
      assert all[i] == newRow;
      combinedMatrix := combinedMatrix + [newRow];
      assert combinedMatrix[1..] == combinedMatrix[1..i + 1] + [newRow];
    }
    combinedMatrix := combinedMatrix[1..];
    for i := 0 to rows
      invariant combinedMatrix == all[..rows + i]
    {
      var newRow := zeros + q2[i];
      assert all[rows + i] == newRow;
      assert all[..rows + i + 1] == all[..rows + i] + [newRow];
      combinedMatrix := combinedMatrix + [newRow];
    }
    assert all[..2 * rows] == all;
  }

  /** q1 sits top-left, q2 bottom-right, and the other two blocks are zero. */
  lemma BlockDiagonalBlocks(q1: CMatrix, q2: CMatrix, cols: nat, i: nat, j: nat)
    requires IsShape(q1, |q1|, cols) && |q2| >= |q1| && forall i :: 0 <= i < |q1| ==> |q2[i]| == cols
    requires i < |q1| && j < cols
    ensures var r, rows := BlockDiagonal(q1, q2, cols), |q1|;
            && r[i][j] == q1[i][j] && r[i][j + cols] == Zero
            && r[i + rows][j] == Zero && r[i + rows][j + cols] == q2[i][j]
  {
  }

  // ---------------------------------------------------------------------
  // Hermitian inputs give a symmetric objective.

  /** s · m entry by entry (numpy's scalar times array). */
  function Scaled(s: real, m: CMatrix): (r: CMatrix)
    ensures |r| == |m| && forall i :: 0 <= i < |m| ==> |r[i]| == |m[i]|
  {
    seq(|m|, (i: int) requires 0 <= i < |m| =>
      seq(|m[i]|, (j: int) requires 0 <= j < |m[i]| => Complex(s * m[i][j].re, s * m[i][j].im)))
  }

  predicate Hermitian(m: CMatrix, n: nat)
  {
    IsShape(m, n, n) && forall i, j :: 0 <= i < n && 0 <= j < n ==> m[j][i] == Conj(m[i][j])
  }

  predicate Symmetric(r: Matrix, n: nat)
  {
    IsShape(r, n, n) && forall i, j :: 0 <= i < n && 0 <= j < n ==> r[j][i] == r[i][j]
  }

  lemma ScaledHermitian(s: real, m: CMatrix, n: nat)
    requires Hermitian(m, n)
    ensures Hermitian(Scaled(s, m), n)
  {
    var r := Scaled(s, m);
    forall i, j | 0 <= i < n && 0 <= j < n
      ensures r[j][i] == Conj(r[i][j])
    {
      assert m[j][i] == Conj(m[i][j]);
      assert s * -m[i][j].im == -(s * m[i][j].im);
    }
  }

  lemma BlockDiagonalHermitian(q1: CMatrix, q2: CMatrix, n: nat)
    requires Hermitian(q1, n) && Hermitian(q2, n)
    ensures Hermitian(BlockDiagonal(q1, q2, n), 2 * n)
  {
    var r := BlockDiagonal(q1, q2, n);
    forall p, q | 0 <= p < 2 * n && 0 <= q < 2 * n
      ensures r[q][p] == Conj(r[p][q])
    {
      var i, j := if p < n then p else p - n, if q < n then q else q - n;
      BlockDiagonalBlocks(q1, q2, n, i, j);
      BlockDiagonalBlocks(q1, q2, n, j, i);
      assert q1[j][i] == Conj(q1[i][j]) && q2[j][i] == Conj(q2[i][j]);
    }
  }

  /** The real embedding of a Hermitian matrix is symmetric. */
  lemma RealEmbeddingSymmetric(m: CMatrix, n: nat)
    requires Hermitian(m, n)
    ensures Symmetric(RealEmbedding(m, n), 2 * n)
  {
    var r := RealEmbedding(m, n);
    forall p, q | 0 <= p < 2 * n && 0 <= q < 2 * n
      ensures r[q][p] == r[p][q]
    {
      var i, j := if p < n then p else p - n, if q < n then q else q - n;
      RealEmbeddingBlocks(m, n, i, j);
      RealEmbeddingBlocks(m, n, j, i);
      assert m[j][i] == Conj(m[i][j]);
    }
  }

  // ---------------------------------------------------------------------
  // The trace constraints.

  /** One assignment `A[row][col] = 1` into a matrix of zeros. */
  datatype Entry = Entry(row: int, col: int)

  predicate EntriesIn(n: nat, ps: seq<Entry>)
  {
    forall k :: 0 <= k < |ps| ==> 0 <= ps[k].row < n && 0 <= ps[k].col < n
  }

  /** The n×n matrix np.zeros((n,n)) after the assignments ps of the value 1. */
  function Ones(n: nat, ps: seq<Entry>): (a: Matrix)
    ensures IsShape(a, n, n)
  {
    seq(n, (p: int) requires 0 <= p < n => seq(n, (q: int) requires 0 <= q < n => if Entry(p, q) in ps then 1.0 else 0.0))
  }

  /** Allocate np.zeros((n,n)) and set the listed entries to 1. */
  method OnesMatrix(n: nat, ps: seq<Entry>) returns (a: Matrix)
    requires EntriesIn(n, ps)
    ensures a == Ones(n, ps)
  {
    var A := new real[n, n]((p, q) => 0.0);
    for k := 0 to |ps|
      invariant forall p, q :: 0 <= p < n && 0 <= q < n ==> A[p, q] == if Entry(p, q) in ps[..k] then 1.0 else 0.0
    {
      assert ps[..k + 1] == ps[..k] + [ps[k]];
      A[ps[k].row, ps[k].col] := 1.0;
    }
    assert ps[..|ps|] == ps;
    a := seq(n, (p: int) requires 0 <= p < n reads A => seq(n, (q: int) requires 0 <= q < n reads A => A[p, q]));
    forall p | 0 <= p < n
      ensures a[p] == Ones(n, ps)[p]
    {
    }
  }

  /** The loop counters (offset1, offset2, i, j) of step r of the four
      nested `range(2)` loops. */
  datatype Counters = Counters(offset1: int, offset2: int, i: int, j: int)

  /** The side of the real matrices of the program: two 2×2 complex states,
      combined into a 4×4 matrix and embedded as an 8×8 real one. */
  const Dim: nat := 8

  /** Every loop counter is 0 or 1. */
  predicate InRange(t: Counters)
  {
    0 <= t.offset1 < 2 && 0 <= t.offset2 < 2 && 0 <= t.i < 2 && 0 <= t.j < 2
  }

  function CountersOf(r: nat): Counters
  {
    Counters(r / 8, (r / 4) % 2, (r / 2) % 2, r % 2)
  }

  /** The zero-block constraint: ones at (4·offset1 + i + 2, 4·offset2 + j) and
      at its transpose. */
  function ZeroBlockEntries(t: Counters): seq<Entry>
  {
    [Entry(t.offset1 * 4 + t.i + 2, t.offset2 * 4 + t.j), Entry(t.offset2 * 4 + t.j, t.offset1 * 4 + t.i + 2)]
  }

  /** The POVM constraint: ones at the four positions the source assigns. */
  function PovmEntries(t: Counters): seq<Entry>
  {
    [Entry(t.offset1 * 4 + t.i, t.offset2 * 4 + t.j), Entry(t.offset1 * 4 + t.i + 2, t.offset2 * 4 + t.j + 2),
     Entry(t.offset1 * 4 + t.j, t.offset1 * 4 + t.i), Entry(t.offset1 * 4 + t.j + 2, t.offset1 * 4 + t.i + 2)]
  }

  function ZeroBlockMatrix(r: nat): Matrix { Ones(Dim, ZeroBlockEntries(CountersOf(r))) }

  function PovmMatrix(r: nat): Matrix { Ones(Dim, PovmEntries(CountersOf(r))) }

  /** 1 when i == j and 0 otherwise. */
  function PovmValue(r: nat): real { if CountersOf(r).i == CountersOf(r).j then 1.0 else 0.0 }

  /** The 16 zero-block matrices followed by the 16 POVM matrices. */
  function TraceMatrices(): (r: seq<Matrix>)
    ensures |r| == 32
  {
    seq(16, (r: int) requires 0 <= r < 16 => ZeroBlockMatrix(r)) + seq(16, (r: int) requires 0 <= r < 16 => PovmMatrix(r))
  }

  /** 0 for every zero-block constraint, then the POVM values. */
  function TraceValues(): (r: seq<real>)
    ensures |r| == 32
  {
    seq(16, (r: int) requires 0 <= r < 16 => 0.0) + seq(16, (r: int) requires 0 <= r < 16 => PovmValue(r))
  }

  lemma CountersInRange(r: nat)
    requires r < 16
    ensures InRange(CountersOf(r))
  {
  }

  /** The zero-block loops: step r of the flat loop is the step of the four
      nested loops with counters CountersOf(r). */
  method ZeroBlockConstraints() returns (As: seq<Matrix>, bs: seq<real>)
    ensures As == TraceMatrices()[..16] && bs == TraceValues()[..16]
  {
    As, bs := [], [];
    for r := 0 to 16
      invariant |As| == |bs| == r
      invariant forall k :: 0 <= k < r ==> As[k] == ZeroBlockMatrix(k) && bs[k] == 0.0
    {
      CountersInRange(r);
      var A := OnesMatrix(Dim, ZeroBlockEntries(CountersOf(r)));
      As, bs := As + [A], bs + [0.0];
    }
  }

  /** The POVM loops, in the same order. */
  method PovmConstraints() returns (As: seq<Matrix>, bs: seq<real>)
    ensures As == TraceMatrices()[16..] && bs == TraceValues()[16..]
  {
    As, bs := [], [];
    for r := 0 to 16
      invariant |As| == |bs| == r
      invariant forall k :: 0 <= k < r ==> As[k] == PovmMatrix(k) && bs[k] == PovmValue(k)
    {
      var t := CountersOf(r);
      CountersInRange(r);
      var A := OnesMatrix(Dim, PovmEntries(t));
      var b := if t.i == t.j then 1.0 else 0.0;
      As, bs := As + [A], bs + [b];
    }
  }

  /** The As and bs lists of both loop nests. */
  method TraceConstraints() returns (As: seq<Matrix>, bs: seq<real>)
    ensures As == TraceMatrices() && bs == TraceValues()
  {
    var zeroAs, zeroBs := ZeroBlockConstraints();
    var povmAs, povmBs := PovmConstraints();
    As, bs := zeroAs + povmAs, zeroBs + povmBs;
    assert TraceMatrices() == TraceMatrices()[..16] + TraceMatrices()[16..];
    assert TraceValues() == TraceValues()[..16] + TraceValues()[16..];
  }

  /** Entry (p, q) of a matrix, read as 0 outside it. */
  function At2(m: Matrix, p: int, q: int): real
  {
    if 0 <= p < |m| && 0 <= q < |m[p]| then m[p][q] else 0.0
  }

  function TraceRow(a: Matrix, x: Matrix, p: nat): nat -> real
  {
    (q: nat) => At2(a, p, q) * At2(x, q, p)
  }

  function TraceRows(a: Matrix, x: Matrix, n: nat): nat -> real
  {
    (p: nat) => SumOf(n, TraceRow(a, x, p))
  }

  /** trace(A @ X) = Σ_p Σ_q A[p][q]·X[q][p] for n×n matrices. */
  function Trace(a: Matrix, x: Matrix, n: nat): real
  {
    SumOf(n, TraceRows(a, x, n))
  }

  /** The sum of X[col][row] over the assigned entries. */
  function EntrySum(x: Matrix, ps: seq<Entry>): real
  {
    if |ps| == 0 then 0.0 else EntrySum(x, ps[..|ps| - 1]) + At2(x, ps[|ps| - 1].col, ps[|ps| - 1].row)
  }

  lemma EntrySum2(x: Matrix, a: Entry, b: Entry)
    ensures EntrySum(x, [a, b]) == At2(x, a.col, a.row) + At2(x, b.col, b.row)
  {
    assert [a, b][..1] == [a] && [a][..0] == [];
    assert EntrySum(x, [a]) == EntrySum(x, []) + At2(x, a.col, a.row);
    assert EntrySum(x, [a, b]) == EntrySum(x, [a]) + At2(x, b.col, b.row);
  }

  lemma EntrySum4(x: Matrix, a: Entry, b: Entry, c: Entry, d: Entry)
    ensures EntrySum(x, [a, b, c, d]) == At2(x, a.col, a.row) + At2(x, b.col, b.row) + At2(x, c.col, c.row) + At2(x, d.col, d.row)
  {
    assert [a, b, c, d][..3] == [a, b, c] && [a, b, c][..2] == [a, b];
    assert EntrySum(x, [a, b, c, d]) == EntrySum(x, [a, b, c]) + At2(x, d.col, d.row);
    assert EntrySum(x, [a, b, c]) == EntrySum(x, [a, b]) + At2(x, c.col, c.row);
    EntrySum2(x, a, b);
  }

  /** The trace is additive in A. */
  lemma TracePlus(a: Matrix, b: Matrix, c: Matrix, x: Matrix, n: nat)
    requires forall p: nat, q: nat :: p < n && q < n ==> At2(c, p, q) == At2(a, p, q) + At2(b, p, q)
    ensures Trace(c, x, n) == Trace(a, x, n) + Trace(b, x, n)
  {
    forall p: nat | p < n
      ensures TraceRows(c, x, n)(p) == TraceRows(a, x, n)(p) + TraceRows(b, x, n)(p)
    {
      var fa, fb := TraceRow(a, x, p), TraceRow(b, x, p);
      forall q: nat | q < n
        ensures TraceRow(c, x, p)(q) == fa(q) + fb(q)
      {
        assert (At2(a, p, q) + At2(b, p, q)) * At2(x, q, p) == At2(a, p, q) * At2(x, q, p) + At2(b, p, q) * At2(x, q, p);
      }
      SumOfCongruent(n, TraceRow(c, x, p), (q: nat) => fa(q) + fb(q));
      SumOfPlus(n, fa, fb);
    }
    var ga, gb := TraceRows(a, x, n), TraceRows(b, x, n);
    SumOfCongruent(n, TraceRows(c, x, n), (p: nat) => ga(p) + gb(p));
    SumOfPlus(n, ga, gb);
  }

  /** A single 1 at e picks X[e.col][e.row]. */
  lemma TraceUnit(n: nat, e: Entry, x: Matrix)
    requires 0 <= e.row < n && 0 <= e.col < n
    ensures Trace(Ones(n, [e]), x, n) == At2(x, e.col, e.row)
  {
    var a, v := Ones(n, [e]), At2(x, e.col, e.row);
    forall p: nat | p < n
      ensures TraceRows(a, x, n)(p) == if p == e.row then v else 0.0
    {
      var c := if p == e.row then v else 0.0;
      forall q: nat | q < n
        ensures TraceRow(a, x, p)(q) == if q == e.col then c else 0.0
      {
      }
      SumOfCongruent(n, TraceRow(a, x, p), (q: nat) => if q == e.col then c else 0.0);
      SumOfIndicator(n, e.col, c);
    }
    SumOfCongruent(n, TraceRows(a, x, n), (p: nat) => if p == e.row then v else 0.0);
    SumOfIndicator(n, e.row, v);
  }

  predicate DistinctEntries(ps: seq<Entry>)
  {
    forall k, l :: 0 <= k < l < |ps| ==> ps[k] != ps[l]
  }

  /** With distinct assignments, trace(A @ X) is the sum of X over the
      transposed positions of the ones. */
  lemma {:induction false} TraceOnes(n: nat, ps: seq<Entry>, x: Matrix)
    requires EntriesIn(n, ps) && DistinctEntries(ps)
    ensures Trace(Ones(n, ps), x, n) == EntrySum(x, ps)
  {
    if |ps| == 0 {
      var a := Ones(n, ps);
      forall p: nat | p < n
        ensures TraceRows(a, x, n)(p) == 0.0
      {
        SumOfCongruent(n, TraceRow(a, x, p), _ => 0.0);
        SumOfConstant(n, 0.0);
      }
      SumOfCongruent(n, TraceRows(a, x, n), _ => 0.0);
      SumOfConstant(n, 0.0);
    } else {
      var init, e := ps[..|ps| - 1], ps[|ps| - 1];
      assert ps == init + [e];
      TraceOnes(n, init, x);
      TraceUnit(n, e, x);
      forall p: nat, q: nat | p < n && q < n
        ensures At2(Ones(n, ps), p, q) == At2(Ones(n, init), p, q) + At2(Ones(n, [e]), p, q)
      {
        if Entry(p, q) == e {
          assert Entry(p, q) !in init;
        }
      }
      TracePlus(Ones(n, init), Ones(n, [e]), Ones(n, ps), x, n);
    }
  }

  /** Each of the 32 matrices is 8×8, and there are as many values as matrices. */
  lemma TraceConstraintShapes()
    ensures |TraceMatrices()| == |TraceValues()| == 32
    ensures forall k :: 0 <= k < 32 ==> IsShape(TraceMatrices()[k], Dim, Dim)
  {
  }

  /** Zero-block matrix r is symmetric, with exactly two ones: at
      (4·offset1 + i + 2, 4·offset2 + j) and at its transpose, which differ. */
  lemma ZeroBlockShape(r: nat)
    requires r < 16
    ensures var t, a := CountersOf(r), TraceMatrices()[r];
            var p, q := t.offset1 * 4 + t.i + 2, t.offset2 * 4 + t.j;
            && Symmetric(a, Dim) && 0 <= p < 8 && 0 <= q < 8 && p != q
            && a[p][q] == 1.0 && a[q][p] == 1.0
            && (forall u, v :: 0 <= u < 8 && 0 <= v < 8 && (u, v) != (p, q) && (u, v) != (q, p) ==> a[u][v] == 0.0)
  {
    CountersInRange(r);
  }

  /** The two positions of a zero-block constraint lie in the matrix and
      differ: the row is 2 or 3 modulo 4, the column 0 or 1. */
  lemma ZeroBlockDistinct(t: Counters, n: nat)
    requires InRange(t) && Dim <= n
    ensures EntriesIn(n, ZeroBlockEntries(t)) && DistinctEntries(ZeroBlockEntries(t))
  {
    var ps := ZeroBlockEntries(t);
    if t.offset1 == 0 {
      assert ps[0].row < 4;
    } else {
      assert ps[0].row >= 6;
    }
  }

  /** The four positions of a POVM constraint lie in the matrix and differ
      unless offset1 == offset2 and i == j. */
  lemma PovmDistinct(t: Counters, n: nat)
    requires InRange(t) && Dim <= n && !(t.offset1 == t.offset2 && t.i == t.j)
    ensures EntriesIn(n, PovmEntries(t)) && DistinctEntries(PovmEntries(t))
  {
  }

  /** What zero-block constraint t says about X: the entry at
      (4·offset1 + i + 2, 4·offset2 + j) is 0. */
  predicate ZeroBlockHolds(t: Counters, x: Matrix)
  {
    At2(x, t.offset1 * 4 + t.i + 2, t.offset2 * 4 + t.j) == 0.0
  }

  /** The sum that POVM constraint t takes of X. With offset1 == offset2 and
      i == j the four ones collapse onto the diagonal entries d and d + 2 for
      d = 4·offset1 + i; otherwise it is the sum of the four entries at the
      transposed positions. */
  function PovmSum(t: Counters, x: Matrix): real
  {
    var d, e, f := t.offset1 * 4 + t.i, t.offset2 * 4 + t.j, t.offset1 * 4 + t.j;
    if t.offset1 == t.offset2 && t.i == t.j then At2(x, d, d) + At2(x, d + 2, d + 2)
    else At2(x, e, d) + At2(x, e + 2, d + 2) + At2(x, d, f) + At2(x, d + 2, f + 2)
  }

  /** What POVM constraint t says about X: the sum is 1 when i == j and 0 otherwise. */
  predicate PovmHolds(t: Counters, x: Matrix)
  {
    PovmSum(t, x) == if t.i == t.j then 1.0 else 0.0
  }

  /** The two ones of a zero-block matrix pick the entry it selects and its
      transpose. */
  lemma ZeroBlockTrace(t: Counters, x: Matrix, n: nat)
    requires InRange(t) && Dim <= n
    ensures var p, q := t.offset1 * 4 + t.i + 2, t.offset2 * 4 + t.j;
            Trace(Ones(n, ZeroBlockEntries(t)), x, n) == At2(x, q, p) + At2(x, p, q)
  {
    ZeroBlockDistinct(t, n);
    TraceOnes(n, ZeroBlockEntries(t), x);
    var p, q := t.offset1 * 4 + t.i + 2, t.offset2 * 4 + t.j;
    EntrySum2(x, Entry(p, q), Entry(q, p));
  }

  /** For a symmetric X, zero-block constraint r holds exactly when the entry
      it selects is 0. */
  lemma ZeroBlockMeaning(r: nat, x: Matrix)
    requires r < 16 && Symmetric(x, Dim)
    ensures Trace(ZeroBlockMatrix(r), x, Dim) == 0.0 <==> ZeroBlockHolds(CountersOf(r), x)
  {
    CountersInRange(r);
    ZeroBlockSymmetric(CountersOf(r), x);
  }

  lemma ZeroBlockSymmetric(t: Counters, x: Matrix)
    requires InRange(t) && Symmetric(x, Dim)
    ensures Trace(Ones(Dim, ZeroBlockEntries(t)), x, Dim) == 0.0 <==> ZeroBlockHolds(t, x)
  {
    var p, q := t.offset1 * 4 + t.i + 2, t.offset2 * 4 + t.j;
    ZeroBlockTrace(t, x, Dim);
    assert x[q][p] == x[p][q];
  }

  lemma PovmTraceCollapsed(t: Counters, x: Matrix, n: nat)
    requires InRange(t) && Dim <= n && t.offset1 == t.offset2 && t.i == t.j
    ensures var d := t.offset1 * 4 + t.i;
            Trace(Ones(n, PovmEntries(t)), x, n) == At2(x, d, d) + At2(x, d + 2, d + 2)
  {
    var d := t.offset1 * 4 + t.i;
    var a, b := Entry(d, d), Entry(d + 2, d + 2);
    PovmCollapses(t, n);
    assert a.row < b.row;
    TwoDistinct(a, b);
    TraceOnes(n, [a, b], x);
    EntrySum2(x, a, b);
  }

  /** With offset1 == offset2 and i == j the four assignments repeat two entries. */
  lemma PovmCollapses(t: Counters, n: nat)
    requires InRange(t) && t.offset1 == t.offset2 && t.i == t.j
    ensures var d := t.offset1 * 4 + t.i;
            Ones(n, PovmEntries(t)) == Ones(n, [Entry(d, d), Entry(d + 2, d + 2)])
  {
    var d := t.offset1 * 4 + t.i;
    forall u | 0 <= u < n
      ensures Ones(n, PovmEntries(t))[u] == Ones(n, [Entry(d, d), Entry(d + 2, d + 2)])[u]
    {
    }
  }

  lemma TwoDistinct(a: Entry, b: Entry)
    requires a != b
    ensures DistinctEntries([a, b])
  {
  }

  lemma PovmTraceSpread(t: Counters, x: Matrix, n: nat)
    requires InRange(t) && Dim <= n && !(t.offset1 == t.offset2 && t.i == t.j)
    ensures var d, e, f := t.offset1 * 4 + t.i, t.offset2 * 4 + t.j, t.offset1 * 4 + t.j;
            Trace(Ones(n, PovmEntries(t)), x, n) == At2(x, e, d) + At2(x, e + 2, d + 2) + At2(x, d, f) + At2(x, d + 2, f + 2)
  {
    PovmDistinct(t, n);
    TraceOnes(n, PovmEntries(t), x);
    var d, e, f := t.offset1 * 4 + t.i, t.offset2 * 4 + t.j, t.offset1 * 4 + t.j;
    EntrySum4(x, Entry(d, e), Entry(d + 2, e + 2), Entry(f, d), Entry(f + 2, d + 2));
  }

  /** POVM constraint r holds exactly when PovmHolds does. */
  lemma PovmMeaning(r: nat, x: Matrix)
    requires r < 16
    ensures Trace(PovmMatrix(r), x, Dim) == PovmValue(r) <==> PovmHolds(CountersOf(r), x)
  {
    CountersInRange(r);
    PovmTrace(CountersOf(r), x, Dim);
  }

  /** The trace of POVM matrix t is the sum PovmSum names. */
  lemma PovmTrace(t: Counters, x: Matrix, n: nat)
    requires InRange(t) && Dim <= n
    ensures Trace(Ones(n, PovmEntries(t)), x, n) == PovmSum(t, x)
  {
    if t.offset1 == t.offset2 && t.i == t.j {
      PovmTraceCollapsed(t, x, n);
    } else {
      PovmTraceSpread(t, x, n);
    }
  }

  /** Entry k of the constraint lists. */
  lemma TraceListsAt(k: nat)
    requires k < 32
    ensures k < 16 ==> TraceMatrices()[k] == ZeroBlockMatrix(k) && TraceValues()[k] == 0.0
    ensures k >= 16 ==> TraceMatrices()[k] == PovmMatrix(k - 16) && TraceValues()[k] == PovmValue(k - 16)
  {
  }

  // ---------------------------------------------------------------------
  // discriminate_two_states.

  /** maximise trace(C @ X) over symmetric X with trace(A_k @ X) == b_k;
      the constraint X >> 0 is not part of the model. */
  datatype Problem = Problem(objective: Matrix, matrices: seq<Matrix>, values: seq<real>)

  /** A symmetric X meeting every trace constraint. */
  predicate Feasible(prob: Problem, x: Matrix)
  {
    && Symmetric(x, Dim) && |prob.matrices| == |prob.values|
    && forall k :: 0 <= k < |prob.matrices| ==> Trace(prob.matrices[k], x, Dim) == prob.values[k]
  }

  /** C = complex_to_real(combine(w1·q1, w2·q2)): the objective that weighs
      the outcome for state 1 by w1 and the one for state 2 by w2. */
  function WeightedCost(w1: real, w2: real, q1: CMatrix, q2: CMatrix): (c: Matrix)
    requires IsShape(q1, 2, 2) && IsShape(q2, 2, 2)
    ensures IsShape(c, Dim, Dim)
  {
    RealEmbedding(BlockDiagonal(Scaled(w1, q1), Scaled(w2, q2), 2), 4)
  }

  function DiscriminationProblem(q1: CMatrix, q2: CMatrix): Problem
    requires IsShape(q1, 2, 2) && IsShape(q2, 2, 2)
  {
    Problem(WeightedCost(0.25, 0.25, q1, q2), TraceMatrices(), TraceValues())
  }

  /** discriminate_two_states for two 2×2 states: the program it hands to
      the solver. */
  method DiscriminateTwoStates(q1: CMatrix, q2: CMatrix) returns (prob: Problem)
    requires IsShape(q1, 2, 2) && IsShape(q2, 2, 2)
    ensures prob == DiscriminationProblem(q1, q2)
  {
    var As, bs := TraceConstraints();
    var c := Combine(Scaled(0.25, q1), Scaled(0.25, q2), 2);
    var C := ComplexToReal(c, 4);
    prob := Problem(C, As, bs);
  }

  /** Constraint k of the lists, read through ZeroBlockHolds and PovmHolds. */
  lemma ConstraintMeaning(k: nat, x: Matrix)
    requires k < 32 && Symmetric(x, Dim)
    ensures Trace(TraceMatrices()[k], x, Dim) == TraceValues()[k]
        <==> if k < 16 then ZeroBlockHolds(CountersOf(k), x) else PovmHolds(CountersOf(k - 16), x)
  {
    if k < 16 {
      ZeroConstraintMeaning(k, x);
    } else {
      PovmConstraintMeaning(k, x);
    }
  }

  lemma ZeroConstraintMeaning(k: nat, x: Matrix)
    requires k < 16 && Symmetric(x, Dim)
    ensures Trace(TraceMatrices()[k], x, Dim) == TraceValues()[k] <==> ZeroBlockHolds(CountersOf(k), x)
  {
    TraceListsAt(k);
    ZeroBlockMeaning(k, x);
  }

  lemma PovmConstraintMeaning(k: nat, x: Matrix)
    requires 16 <= k < 32
    ensures Trace(TraceMatrices()[k], x, Dim) == TraceValues()[k] <==> PovmHolds(CountersOf(k - 16), x)
  {
    TraceListsAt(k);
    PovmMeaning(k - 16, x);
  }

  /** Every zero-block entry vanishes and every POVM condition holds. */
  predicate DiscriminationHolds(x: Matrix)
  {
    forall r :: 0 <= r < 16 ==> ZeroBlockHolds(CountersOf(r), x) && PovmHolds(CountersOf(r), x)
  }

  /** A symmetric X is feasible for the discrimination program exactly when
      every zero-block entry vanishes and every POVM condition holds. */
  lemma DiscriminationFeasible(q1: CMatrix, q2: CMatrix, x: Matrix)
    requires IsShape(q1, 2, 2) && IsShape(q2, 2, 2)
    ensures Feasible(DiscriminationProblem(q1, q2), x) <==> Symmetric(x, Dim) && DiscriminationHolds(x)
  {
    var prob := DiscriminationProblem(q1, q2);
    assert prob.matrices == TraceMatrices() && prob.values == TraceValues();
    if Symmetric(x, Dim) && DiscriminationHolds(x) {
      forall k | 0 <= k < 32
        ensures Trace(TraceMatrices()[k], x, Dim) == TraceValues()[k]
      {
        ConstraintMeaning(k, x);
        if k >= 16 {
          assert PovmHolds(CountersOf(k - 16), x);
        }
      }
    }
    if Feasible(prob, x) {
      forall r | 0 <= r < 16
        ensures ZeroBlockHolds(CountersOf(r), x) && PovmHolds(CountersOf(r), x)
      {
        ConstraintMeaning(r, x);
        ConstraintMeaning(r + 16, x);
      }
    }
  }

  /** For Hermitian states the objective is a symmetric 8×8 matrix, like X. */
  lemma WeightedCostSymmetric(w1: real, w2: real, q1: CMatrix, q2: CMatrix)
    requires Hermitian(q1, 2) && Hermitian(q2, 2)
    ensures Symmetric(WeightedCost(w1, w2, q1, q2), Dim)
  {
    ScaledHermitian(w1, q1, 2);
    ScaledHermitian(w2, q2, 2);
    BlockDiagonalHermitian(Scaled(w1, q1), Scaled(w2, q2), 2);
    RealEmbeddingSymmetric(BlockDiagonal(Scaled(w1, q1), Scaled(w2, q2), 2), 4);
  }
}
