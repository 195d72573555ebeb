/** What the rows of polytope_extrema.py mean. A point q satisfies a system
    when every positivity row is >= 0 and every other row is = 0 at q; the
    lemmas here show that for every topology this is exactly "q is a
    no-signalling conditional distribution": non-negative, normalised for
    every input tuple, and with every player's input invisible in the other
    players' marginals. Deterministic classical strategies are such points. */
module PolytopeProps {
  import opened Sums
  import opened Index
  import opened Rows
  import opened Polytope

  // ---------------------------------------------------------------------
  // Satisfying a system.

  predicate NonNegativeRows(rows: seq<seq<int>>, q: seq<real>)
  {
    forall k :: 0 <= k < |rows| ==> |rows[k]| == |q| + 1 && Value(rows[k], q) >= 0.0
  }

  predicate ZeroRows(rows: seq<seq<int>>, q: seq<real>)
  {
    forall k :: 0 <= k < |rows| ==> |rows[k]| == |q| + 1 && Value(rows[k], q) == 0.0
  }

  /** q lies in the polyhedron cdd is given: the initial rows as inequalities
      and the rows added with linear=True as equalities. */
  predicate Feasible(sys: System, q: seq<real>)
  {
    |q| == sys.n && NonNegativeRows(sys.positivity, q)
    && ZeroRows(sys.nosignalling, q) && ZeroRows(sys.distribution, q)
  }

  lemma ZeroRowAt(rows: seq<seq<int>>, q: seq<real>, r: nat)
    requires ZeroRows(rows, q) && r < |rows|
    ensures |rows[r]| == |q| + 1 && Value(rows[r], q) == 0.0
  {
  }

  lemma ZeroRowsAppend(rows: seq<seq<int>>, more: seq<seq<int>>, q: seq<real>)
    ensures ZeroRows(rows + more, q) <==> ZeroRows(rows, q) && ZeroRows(more, q)
  {
    if ZeroRows(rows, q) && ZeroRows(more, q) {
      forall k | 0 <= k < |rows + more|
        ensures |(rows + more)[k]| == |q| + 1 && Value((rows + more)[k], q) == 0.0
      {
        if k >= |rows| {
          assert (rows + more)[k] == more[k - |rows|];
        }
      }
    }
    if ZeroRows(rows + more, q) {
      forall k | 0 <= k < |rows|
        ensures |rows[k]| == |q| + 1 && Value(rows[k], q) == 0.0
      {
        assert (rows + more)[k] == rows[k];
      }
      forall k | 0 <= k < |more|
        ensures |more[k]| == |q| + 1 && Value(more[k], q) == 0.0
      {
        assert (rows + more)[|rows| + k] == more[k];
      }
    }
  }

  /** A positivity row reads one variable. */
  lemma PositivityValue(n: nat, i: nat, q: seq<real>)
    requires i < n == |q|
    ensures Value(PositivityRow(n, i), q) == q[i]
  {
    ValueOfRule(0, [Write(i + 1, 1)], q);
    assert [Write(i + 1, 1)][..0] == [];
  }

  /** The positivity rows hold exactly at the non-negative points. */
  lemma PositivityRowsMeaning(n: nat, q: seq<real>)
    requires |q| == n
    ensures NonNegativeRows(PositivityRows(n), q) <==> NonNegative(q)
  {
    forall i | 0 <= i < n
      ensures Value(PositivityRows(n)[i], q) == q[i]
    {
      PositivityValue(n, i, q);
    }
  }

  /** Every assignment of a distribution row targets a column of the n = O·K variables. */
  lemma DistributionWritesIn(K: nat, O: nat, i: nat)
    requires i < K
    ensures WritesIn(O * K, DistributionWrites(K, O, i))
  {
    var ws := DistributionWrites(K, O, i);
    forall j | 0 <= j < O
      ensures 1 <= ws[j].pos <= O * K
    {
      MulMonoLe(j + 1, O, K);
    }
  }

  /** The O cells of one input tuple are different columns. */
  lemma DistributionWritesDistinct(K: nat, O: nat, i: nat)
    requires i < K
    ensures DistinctPositions(DistributionWrites(K, O, i))
  {
    var ws := DistributionWrites(K, O, i);
    forall k, l | 0 <= k < l < |ws|
      ensures ws[k].pos != ws[l].pos
    {
      DivMod(k, i, K);
      DivMod(l, i, K);
    }
  }

  /** A distribution row is 1 minus the sum of q over the O outputs of input tuple i. */
  lemma DistributionValue(n: nat, K: nat, O: nat, i: nat, q: seq<real>)
    requires n == O * K == |q| && i < K
    ensures Value(DistributionRow(n, K, O, i), q) == 1.0 - SumOf(O, (j: nat) => At(q, j * K + i))
  {
    var ws := DistributionWrites(K, O, i);
    DistributionWritesIn(K, O, i);
    DistributionWritesDistinct(K, O, i);
    var g := (j: nat) => At(q, j * K + i);
    WritesValueSameCoef(ws, -1, q, g);
    ValueOfRule(1, ws, q);
  }

  // ---------------------------------------------------------------------
  // Two players, for a layout L.

  /** q(xa, xb | a, b). */
  function Cell(L: Layout2, q: seq<real>, t: Quad): real
  {
    At(q, Flat2(L, t))
  }

  /** B's marginal: the sum over xa of q(xa, xb | a, b). */
  function MarginalB(L: Layout2, q: seq<real>, xb: int, a: int, b: int): real
  {
    SumOf(L.nxa, (xa: nat) => Cell(L, q, Quad(xa, xb, a, b)))
  }

  /** A's marginal: the sum over xb of q(xa, xb | a, b). */
  function MarginalA(L: Layout2, q: seq<real>, xa: int, a: int, b: int): real
  {
    SumOf(L.nxb, (xb: nat) => Cell(L, q, Quad(xa, xb, a, b)))
  }

  /** The total probability of input pair (a, b). */
  function Total(L: Layout2, q: seq<real>, a: int, b: int): real
  {
    SumOf(L.nxa, (xa: nat) => MarginalA(L, q, xa, a, b))
  }

  /** A's input is invisible in B's marginal. */
  predicate AHidden(L: Layout2, q: seq<real>)
  {
    forall xb, b, a, a' :: 0 <= xb < L.nxb && 0 <= b < L.nb && 0 <= a < L.na && 0 <= a' < L.na ==>
      MarginalB(L, q, xb, a, b) == MarginalB(L, q, xb, a', b)
  }

  /** B's input is invisible in A's marginal. */
  predicate BHidden(L: Layout2, q: seq<real>)
  {
    forall xa, a, b, b' :: 0 <= xa < L.nxa && 0 <= a < L.na && 0 <= b < L.nb && 0 <= b' < L.nb ==>
      MarginalA(L, q, xa, a, b) == MarginalA(L, q, xa, a, b')
  }

  predicate Normalised(L: Layout2, q: seq<real>)
  {
    forall a, b :: 0 <= a < L.na && 0 <= b < L.nb ==> Total(L, q, a, b) == 1.0
  }

  /** A no-signalling conditional distribution q(xa, xb | a, b) in layout L. */
  predicate NoSignallingPoint(L: Layout2, q: seq<real>)
  {
    |q| == L.Size() && NonNegative(q) && Normalised(L, q) && AHidden(L, q) && BHidden(L, q)
  }

  /** The assignments of m cells ts(0), ..., ts(m-1) with the same coefficient c
      contribute c times the sum of q over those cells. */
  lemma CellsValue(L: Layout2, q: seq<real>, m: nat, ts: nat -> Quad, c: int)
    requires L.Valid() && |q| == L.Size()
    requires forall i: nat :: i < m ==> InRange(L, ts(i))
    ensures WritesIn(|q|, seq(m, (i: int) requires 0 <= i < m => Write(Flat2(L, ts(i)) + 1, c)))
    ensures WritesValue(seq(m, (i: int) requires 0 <= i < m => Write(Flat2(L, ts(i)) + 1, c)), q)
         == c as real * SumOf(m, (i: nat) => Cell(L, q, ts(i)))
  {
    var f := (i: nat) => Flat2(L, ts(i));
    forall i: nat | i < m
      ensures 0 <= f(i) < |q|
    {
      Flat2Bijection(L, ts(i));
    }
    assert seq(m, (i: int) requires 0 <= i < m => Write(Flat2(L, ts(i)) + 1, c))
        == seq(m, (i: int) requires 0 <= i < m => Write(f(i) + 1, c));
    WritesValueUniform(m, f, c, q);
    SumOfCongruent(m, (i: nat) => if i < m then q[f(i)] else 0.0, (i: nat) => Cell(L, q, ts(i)));
  }

  /** The cells of the A-side row (xb, b, k): all xa at A's inputs k and k + 1. */
  function CellsA(xb: int, b: int, a: int): nat -> Quad
  {
    (xa: nat) => Quad(xa, xb, a, b)
  }

  function CellsB(xa: int, a: int, b: int): nat -> Quad
  {
    (xb: nat) => Quad(xa, xb, a, b)
  }

  lemma NsWritesADistinct(L: Layout2, xb: nat, b: nat, k: nat)
    requires NsLayout(L) && xb < L.nxb && b < L.nb && k < L.na - 1
    ensures DistinctPositions(NsWritesA(L, xb, b, k))
  {
    var ws, m := NsWritesA(L, xb, b, k), L.nxa;
    forall u, v | 0 <= u < v < |ws|
      ensures ws[u].pos != ws[v].pos
    {
      var s := if u < m then Quad(u, xb, k, b) else Quad(u - m, xb, k + 1, b);
      var t := if v < m then Quad(v, xb, k, b) else Quad(v - m, xb, k + 1, b);
      Flat2Distinct(L, s, t);
    }
  }

  lemma NsWritesBDistinct(L: Layout2, xa: nat, a: nat, k: nat)
    requires NsLayout(L) && xa < L.nxa && a < L.na && k < L.nb - 1
    ensures DistinctPositions(NsWritesB(L, xa, a, k))
  {
    var ws, m := NsWritesB(L, xa, a, k), L.nxb;
    forall u, v | 0 <= u < v < |ws|
      ensures ws[u].pos != ws[v].pos
    {
      var s := if u < m then Quad(xa, u, a, k) else Quad(xa, u - m, a, k + 1);
      var t := if v < m then Quad(xa, v, a, k) else Quad(xa, v - m, a, k + 1);
      Flat2Distinct(L, s, t);
    }
  }

  /** A-side row (xb, b, k) is B's marginal at A's input k minus that at k + 1. */
  lemma NsRowAValue(L: Layout2, xb: nat, b: nat, k: nat, q: seq<real>)
    requires NsLayout(L) && xb < L.nxb && b < L.nb && k < L.na - 1 && |q| == L.Size()
    ensures Value(NsRowA(L, xb, b, k), q) == MarginalB(L, q, xb, k, b) - MarginalB(L, q, xb, k + 1, b)
  {
    var m := L.nxa;
    var lo, hi := CellsA(xb, b, k), CellsA(xb, b, k + 1);
    var plus := seq(m, (i: int) requires 0 <= i < m => Write(Flat2(L, lo(i)) + 1, 1));
    var minus := seq(m, (i: int) requires 0 <= i < m => Write(Flat2(L, hi(i)) + 1, -1));
    assert NsWritesA(L, xb, b, k) == plus + minus;
    CellsValue(L, q, m, lo, 1);
    CellsValue(L, q, m, hi, -1);
    WritesValueAppend(plus, minus, q);
    NsWritesADistinct(L, xb, b, k);
    SumOfCongruent(m, (i: nat) => Cell(L, q, lo(i)), (xa: nat) => Cell(L, q, Quad(xa, xb, k, b)));
    SumOfCongruent(m, (i: nat) => Cell(L, q, hi(i)), (xa: nat) => Cell(L, q, Quad(xa, xb, k + 1, b)));
    ValueOfRule(0, plus + minus, q);
  }

  /** B-side row (xa, a, k) is A's marginal at B's input k minus that at k + 1. */
  lemma NsRowBValue(L: Layout2, xa: nat, a: nat, k: nat, q: seq<real>)
    requires NsLayout(L) && xa < L.nxa && a < L.na && k < L.nb - 1 && |q| == L.Size()
    ensures Value(NsRowB(L, xa, a, k), q) == MarginalA(L, q, xa, a, k) - MarginalA(L, q, xa, a, k + 1)
  {
    var m := L.nxb;
    var lo, hi := CellsB(xa, a, k), CellsB(xa, a, k + 1);
    var plus := seq(m, (i: int) requires 0 <= i < m => Write(Flat2(L, lo(i)) + 1, 1));
    var minus := seq(m, (i: int) requires 0 <= i < m => Write(Flat2(L, hi(i)) + 1, -1));
    assert NsWritesB(L, xa, a, k) == plus + minus;
    CellsValue(L, q, m, lo, 1);
    CellsValue(L, q, m, hi, -1);
    WritesValueAppend(plus, minus, q);
    NsWritesBDistinct(L, xa, a, k);
    SumOfCongruent(m, (i: nat) => Cell(L, q, lo(i)), (xb: nat) => Cell(L, q, Quad(xa, xb, a, k)));
    SumOfCongruent(m, (i: nat) => Cell(L, q, hi(i)), (xb: nat) => Cell(L, q, Quad(xa, xb, a, k + 1)));
    ValueOfRule(0, plus + minus, q);
  }

  /** When every step g(j) = g(j + 1) below m holds, g is constant below m. */
  lemma {:induction false} ChainEqual(m: nat, g: nat -> real, k: nat)
    requires forall j: nat :: j + 1 < m ==> g(j) == g(j + 1)
    requires k < m
    ensures g(k) == g(0)
  {
    if k > 0 {
      ChainEqual(m, g, k - 1);
    }
  }

  /** A-side row number r compares B's marginals at A's inputs k and k + 1,
      for the (xb, b, k) that r encodes. */
  lemma NsRowsAAt(L: Layout2, q: seq<real>, r: nat) returns (xb: nat, b: nat, k: nat)
    requires NsLayout(L) && |q| == L.Size() && r < NsCountA(L)
    ensures xb < L.nxb && b < L.nb && k + 1 < L.na
    ensures |NsRowsA(L)[r]| == |q| + 1
    ensures Value(NsRowsA(L)[r], q) == MarginalB(L, q, xb, k, b) - MarginalB(L, q, xb, k + 1, b)
  {
    xb, b, k := NsEntryA(L, r);
    NsRowAValue(L, xb, b, k, q);
  }

  lemma NsRowsAFromHidden(L: Layout2, q: seq<real>)
    requires NsLayout(L) && |q| == L.Size() && AHidden(L, q)
    ensures ZeroRows(NsRowsA(L), q)
  {
    forall r | 0 <= r < |NsRowsA(L)|
      ensures |NsRowsA(L)[r]| == |q| + 1 && Value(NsRowsA(L)[r], q) == 0.0
    {
      var xb, b, k := NsRowsAAt(L, q, r);
      assert MarginalB(L, q, xb, k, b) == MarginalB(L, q, xb, k + 1, b);
    }
  }

  /** A zero A-side row (xb, b, k) equates B's marginals at A's inputs k and k + 1. */
  lemma NsStepA(L: Layout2, q: seq<real>, xb: nat, b: nat, k: nat)
    requires NsLayout(L) && |q| == L.Size() && ZeroRows(NsRowsA(L), q)
    requires xb < L.nxb && b < L.nb && k + 1 < L.na
    ensures MarginalB(L, q, xb, k, b) == MarginalB(L, q, xb, k + 1, b)
  {
    var r := NsIndexA(L, xb, b, k);
    ZeroRowAt(NsRowsA(L), q, r);
    NsRowAValue(L, xb, b, k, q);
  }

  /** Consecutive equal marginals make all of them equal. */
  lemma NsRowsAGiveHidden(L: Layout2, q: seq<real>)
    requires NsLayout(L) && |q| == L.Size() && ZeroRows(NsRowsA(L), q)
    ensures AHidden(L, q)
  {
    forall xb, b, a, a' | 0 <= xb < L.nxb && 0 <= b < L.nb && 0 <= a < L.na && 0 <= a' < L.na
      ensures MarginalB(L, q, xb, a, b) == MarginalB(L, q, xb, a', b)
    {
      var g := (k: nat) => MarginalB(L, q, xb, k, b);
      forall k: nat | k + 1 < L.na
        ensures g(k) == g(k + 1)
      {
        NsStepA(L, q, xb, b, k);
      }
      ChainEqual(L.na, g, a);
      ChainEqual(L.na, g, a');
    }
  }

  /** The A-side rows hold exactly when A's input is invisible to B. The rows
      only compare consecutive inputs k and k + 1; equality chains along them. */
  lemma NsRowsAMeaning(L: Layout2, q: seq<real>)
    requires NsLayout(L) && |q| == L.Size()
    ensures ZeroRows(NsRowsA(L), q) <==> AHidden(L, q)
  {
    if AHidden(L, q) {
      NsRowsAFromHidden(L, q);
    }
    if ZeroRows(NsRowsA(L), q) {
      NsRowsAGiveHidden(L, q);
    }
  }

  /** B-side row number r compares A's marginals at B's inputs k and k + 1. */
  lemma NsRowsBAt(L: Layout2, q: seq<real>, r: nat) returns (xa: nat, a: nat, k: nat)
    requires NsLayout(L) && |q| == L.Size() && r < NsCountB(L)
    ensures xa < L.nxa && a < L.na && k + 1 < L.nb
    ensures |NsRowsB(L)[r]| == |q| + 1
    ensures Value(NsRowsB(L)[r], q) == MarginalA(L, q, xa, a, k) - MarginalA(L, q, xa, a, k + 1)
  {
    xa, a, k := NsEntryB(L, r);
    NsRowBValue(L, xa, a, k, q);
  }

  lemma NsRowsBFromHidden(L: Layout2, q: seq<real>)
    requires NsLayout(L) && |q| == L.Size() && BHidden(L, q)
    ensures ZeroRows(NsRowsB(L), q)
  {
    forall r | 0 <= r < |NsRowsB(L)|
      ensures |NsRowsB(L)[r]| == |q| + 1 && Value(NsRowsB(L)[r], q) == 0.0
    {
      var xa, a, k := NsRowsBAt(L, q, r);
      assert MarginalA(L, q, xa, a, k) == MarginalA(L, q, xa, a, k + 1);
    }
  }

  /** A zero B-side row (xa, a, k) equates A's marginals at B's inputs k and k + 1. */
  lemma NsStepB(L: Layout2, q: seq<real>, xa: nat, a: nat, k: nat)
    requires NsLayout(L) && |q| == L.Size() && ZeroRows(NsRowsB(L), q)
    requires xa < L.nxa && a < L.na && k + 1 < L.nb
    ensures MarginalA(L, q, xa, a, k) == MarginalA(L, q, xa, a, k + 1)
  {
    var r := NsIndexB(L, xa, a, k);
    ZeroRowAt(NsRowsB(L), q, r);
    NsRowBValue(L, xa, a, k, q);
  }

  lemma NsRowsBGiveHidden(L: Layout2, q: seq<real>)
    requires NsLayout(L) && |q| == L.Size() && ZeroRows(NsRowsB(L), q)
    ensures BHidden(L, q)
  {
    forall xa, a, b, b' | 0 <= xa < L.nxa && 0 <= a < L.na && 0 <= b < L.nb && 0 <= b' < L.nb
      ensures MarginalA(L, q, xa, a, b) == MarginalA(L, q, xa, a, b')
    {
      var g := (k: nat) => MarginalA(L, q, xa, a, k);
      forall k: nat | k + 1 < L.nb
        ensures g(k) == g(k + 1)
      {
        NsStepB(L, q, xa, a, k);
      }
      ChainEqual(L.nb, g, b);
      ChainEqual(L.nb, g, b');
    }
  }

  /** The B-side rows hold exactly when B's input is invisible to A. */
  lemma NsRowsBMeaning(L: Layout2, q: seq<real>)
    requires NsLayout(L) && |q| == L.Size()
    ensures ZeroRows(NsRowsB(L), q) <==> BHidden(L, q)
  {
    if BHidden(L, q) {
      NsRowsBFromHidden(L, q);
    }
    if ZeroRows(NsRowsB(L), q) {
      NsRowsBGiveHidden(L, q);
    }
  }

  /** The total of input pair (a, b) is the sum over the output pairs j of
      q at j * Conditions() + i, for i = a * nb + b. */
  lemma TotalAsBlockSum(L: Layout2, q: seq<real>, a: nat, b: nat, i: nat)
    requires L.Valid() && a < L.na && b < L.nb && i == a * L.nb + b
    ensures Total(L, q, a, b) == SumOf(L.Outcomes(), (j: nat) => At(q, j * L.Conditions() + i))
  {
    var K := L.Conditions();
    var h := (j: nat) => At(q, j * K + i);
    SumOfNested(L.nxa, L.nxb, h);
    forall xa: nat | xa < L.nxa
      ensures MarginalA(L, q, xa, a, b) == SumOf(L.nxb, (xb: nat) => h(xa * L.nxb + xb))
    {
      forall xb: nat | xb < L.nxb
        ensures Cell(L, q, Quad(xa, xb, a, b)) == h(xa * L.nxb + xb)
      {
        Flat2Blocks(L, Quad(xa, xb, a, b));
      }
      SumOfCongruent(L.nxb, (xb: nat) => Cell(L, q, Quad(xa, xb, a, b)), (xb: nat) => h(xa * L.nxb + xb));
    }
    SumOfCongruent(L.nxa, (xa: nat) => MarginalA(L, q, xa, a, b),
                   (xa: nat) => SumOf(L.nxb, (xb: nat) => h(xa * L.nxb + xb)));
  }

  /** Distribution row i of a two-player layout is 1 minus the total of the
      input pair (a, b) that i encodes. */
  lemma DistributionRowAt(L: Layout2, q: seq<real>, a: nat, b: nat)
    requires L.Valid() && |q| == L.Size() && a < L.na && b < L.nb
    ensures a * L.nb + b < L.Conditions()
    ensures Value(DistributionRow(L.Size(), L.Conditions(), L.Outcomes(), a * L.nb + b), q)
         == 1.0 - Total(L, q, a, b)
  {
    var i := a * L.nb + b;
    MulMonoLe(a + 1, L.na, L.nb);
    assert L.Size() == L.Outcomes() * L.Conditions();
    DistributionValue(L.Size(), L.Conditions(), L.Outcomes(), i, q);
    TotalAsBlockSum(L, q, a, b, i);
  }

  /** Distribution row number i is 1 minus the total of the input pair it encodes. */
  lemma DistributionRowNumber(L: Layout2, q: seq<real>, i: nat) returns (a: nat, b: nat)
    requires L.Valid() && |q| == L.Size() && i < L.Conditions()
    ensures a < L.na && b < L.nb
    ensures Value(DistributionRows(L.Size(), L.Conditions(), L.Outcomes())[i], q) == 1.0 - Total(L, q, a, b)
  {
    DivBound(i, L.na, L.nb);
    a, b := i / L.nb, i % L.nb;
    assert a * L.nb + b == i;
    DistributionRowAt(L, q, a, b);
    assert DistributionRows(L.Size(), L.Conditions(), L.Outcomes())[i]
        == DistributionRow(L.Size(), L.Conditions(), L.Outcomes(), a * L.nb + b);
  }

  lemma DistributionRowsFromNormalised(L: Layout2, q: seq<real>)
    requires L.Valid() && |q| == L.Size() && Normalised(L, q)
    ensures ZeroRows(DistributionRows(L.Size(), L.Conditions(), L.Outcomes()), q)
  {
    var rows := DistributionRows(L.Size(), L.Conditions(), L.Outcomes());
    forall i | 0 <= i < L.Conditions()
      ensures |rows[i]| == |q| + 1 && Value(rows[i], q) == 0.0
    {
      var a, b := DistributionRowNumber(L, q, i);
      assert Total(L, q, a, b) == 1.0;
    }
  }

  lemma DistributionRowsGiveNormalised(L: Layout2, q: seq<real>)
    requires L.Valid() && |q| == L.Size()
    requires ZeroRows(DistributionRows(L.Size(), L.Conditions(), L.Outcomes()), q)
    ensures Normalised(L, q)
  {
    forall a, b | 0 <= a < L.na && 0 <= b < L.nb
      ensures Total(L, q, a, b) == 1.0
    {
      DistributionRowAt(L, q, a, b);
      ZeroRowAt(DistributionRows(L.Size(), L.Conditions(), L.Outcomes()), q, a * L.nb + b);
    }
  }

  /** The distribution rows hold exactly when every input pair has total 1. */
  lemma DistributionRowsMeaning(L: Layout2, q: seq<real>)
    requires L.Valid() && |q| == L.Size()
    ensures ZeroRows(DistributionRows(L.Size(), L.Conditions(), L.Outcomes()), q) <==> Normalised(L, q)
  {
    if Normalised(L, q) {
      DistributionRowsFromNormalised(L, q);
    }
    if ZeroRows(DistributionRows(L.Size(), L.Conditions(), L.Outcomes()), q) {
      DistributionRowsGiveNormalised(L, q);
    }
  }

  /** A point satisfies the system of a two-player builder exactly when it is
      a no-signalling conditional distribution of that topology. */
  lemma TwoPlayerFeasible(L: Layout2, q: seq<real>)
    requires NsLayout(L)
    ensures Feasible(TwoPlayerSystem(L), q) <==> NoSignallingPoint(L, q)
  {
    if |q| == L.Size() {
      PositivityRowsMeaning(L.Size(), q);
      ZeroRowsAppend(NsRowsA(L), NsRowsB(L), q);
      NsRowsAMeaning(L, q);
      NsRowsBMeaning(L, q);
      DistributionRowsMeaning(L, q);
    }
  }

  /** The point of a deterministic strategy: A answers fa(a) and B answers
      fb(b), so q(xa, xb | a, b) is 1 on those answers and 0 elsewhere. */
  function DeterministicPoint(L: Layout2, fa: int -> int, fb: int -> int): (q: seq<real>)
    requires L.Valid()
    ensures |q| == L.Size()
  {
    seq(L.Size(), (p: int) requires 0 <= p < L.Size() =>
      var t := Unflat2(L, p);
      if t.xa == fa(t.a) && t.xb == fb(t.b) then 1.0 else 0.0)
  }

  predicate Answers(L: Layout2, fa: int -> int, fb: int -> int)
  {
    && (forall a :: 0 <= a < L.na ==> 0 <= fa(a) < L.nxa)
    && (forall b :: 0 <= b < L.nb ==> 0 <= fb(b) < L.nxb)
  }

  lemma DeterministicCell(L: Layout2, fa: int -> int, fb: int -> int, t: Quad)
    requires L.Valid() && InRange(L, t)
    ensures Cell(L, DeterministicPoint(L, fa, fb), t) == if t.xa == fa(t.a) && t.xb == fb(t.b) then 1.0 else 0.0
  {
    Flat2Bijection(L, t);
  }

  /** Summing an indicator of one value over a range that contains it gives 1. */
  lemma SumOfOneHot(n: nat, v: int, f: nat -> real)
    requires 0 <= v < n
    requires forall i: nat :: i < n ==> f(i) == if i == v then 1.0 else 0.0
    ensures SumOf(n, f) == 1.0
  {
    SumOfCongruent(n, f, (i: nat) => if i == v then 1.0 else 0.0);
    SumOfIndicator(n, v, 1.0);
  }

  lemma SumOfZero(n: nat, f: nat -> real)
    requires forall i: nat :: i < n ==> f(i) == 0.0
    ensures SumOf(n, f) == 0.0
  {
    SumOfCongruent(n, f, _ => 0.0);
    SumOfConstant(n, 0.0);
  }

  /** B's marginal of a deterministic point is 1 on B's answer, whatever A's input. */
  lemma DeterministicMarginalB(L: Layout2, fa: int -> int, fb: int -> int, xb: int, a: int, b: int)
    requires L.Valid() && Answers(L, fa, fb)
    requires 0 <= xb < L.nxb && 0 <= a < L.na && 0 <= b < L.nb
    ensures MarginalB(L, DeterministicPoint(L, fa, fb), xb, a, b) == if xb == fb(b) then 1.0 else 0.0
  {
    var q := DeterministicPoint(L, fa, fb);
    var f := (xa: nat) => Cell(L, q, Quad(xa, xb, a, b));
    forall xa: nat | xa < L.nxa
      ensures f(xa) == if xb == fb(b) && xa == fa(a) then 1.0 else 0.0
    {
      DeterministicCell(L, fa, fb, Quad(xa, xb, a, b));
    }
    if xb == fb(b) {
      SumOfOneHot(L.nxa, fa(a), f);
    } else {
      SumOfZero(L.nxa, f);
    }
  }

  /** A's marginal of a deterministic point is 1 on A's answer, whatever B's input. */
  lemma DeterministicMarginalA(L: Layout2, fa: int -> int, fb: int -> int, xa: int, a: int, b: int)
    requires L.Valid() && Answers(L, fa, fb)
    requires 0 <= xa < L.nxa && 0 <= a < L.na && 0 <= b < L.nb
    ensures MarginalA(L, DeterministicPoint(L, fa, fb), xa, a, b) == if xa == fa(a) then 1.0 else 0.0
  {
    var q := DeterministicPoint(L, fa, fb);
    var f := (xb: nat) => Cell(L, q, Quad(xa, xb, a, b));
    forall xb: nat | xb < L.nxb
      ensures f(xb) == if xa == fa(a) && xb == fb(b) then 1.0 else 0.0
    {
      DeterministicCell(L, fa, fb, Quad(xa, xb, a, b));
    }
    if xa == fa(a) {
      SumOfOneHot(L.nxb, fb(b), f);
    } else {
      SumOfZero(L.nxb, f);
    }
  }

  /** Deterministic strategies are no-signalling points, so they satisfy every
      row of every two-player builder. */
  lemma DeterministicIsFeasible(L: Layout2, fa: int -> int, fb: int -> int)
    requires NsLayout(L) && Answers(L, fa, fb)
    ensures NoSignallingPoint(L, DeterministicPoint(L, fa, fb))
    ensures Feasible(TwoPlayerSystem(L), DeterministicPoint(L, fa, fb))
  {
    var q := DeterministicPoint(L, fa, fb);
    forall xb, b, a, a' | 0 <= xb < L.nxb && 0 <= b < L.nb && 0 <= a < L.na && 0 <= a' < L.na
      ensures MarginalB(L, q, xb, a, b) == MarginalB(L, q, xb, a', b)
    {
      DeterministicMarginalB(L, fa, fb, xb, a, b);
      DeterministicMarginalB(L, fa, fb, xb, a', b);
    }
    forall xa, a, b, b' | 0 <= xa < L.nxa && 0 <= a < L.na && 0 <= b < L.nb && 0 <= b' < L.nb
      ensures MarginalA(L, q, xa, a, b) == MarginalA(L, q, xa, a, b')
    {
      DeterministicMarginalA(L, fa, fb, xa, a, b);
      DeterministicMarginalA(L, fa, fb, xa, a, b');
    }
    forall a, b | 0 <= a < L.na && 0 <= b < L.nb
      ensures Total(L, q, a, b) == 1.0
    {
      var f := (xa: nat) => MarginalA(L, q, xa, a, b);
      forall xa: nat | xa < L.nxa
        ensures f(xa) == if xa == fa(a) then 1.0 else 0.0
      {
        DeterministicMarginalA(L, fa, fb, xa, a, b);
      }
      SumOfOneHot(L.nxa, fa(a), f);
    }
    TwoPlayerFeasible(L, q);
  }
}
