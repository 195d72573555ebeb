/** The constraint builders of polytope_extrema.py. Each describes a
    no-signalling polytope to cdd as three lists of [b | -A] rows: one
    positivity row per variable, the no-signalling equalities and one
    normalisation equality per input tuple. The model states, for every
    topology, the rows as functions of the layout (the specification) and
    builds them the way the source does, with its literal index formulas. */
module Polytope {
  import opened Index
  import opened Rows

  /** What a builder hands to cdd: n variables, the positivity rows (the
      initial matrix), then the no-signalling and the distribution rows (each
      added with linear=True). */
  datatype System = System(n: nat, positivity: seq<seq<int>>, nosignalling: seq<seq<int>>, distribution: seq<seq<int>>)

  // ---------------------------------------------------------------------
  // Rows shared by every topology.

  /** Positivity row i: q[i] >= 0, i.e. rule[i+1] = 1. */
  function PositivityRow(n: nat, i: nat): seq<int>
  {
    Rule(n, 0, [Write(i + 1, 1)])
  }

  function PositivityRows(n: nat): seq<seq<int>>
  {
    seq(n, (i: int) requires 0 <= i < n => PositivityRow(n, i))
  }

  /** Normalisation for input tuple i of K: 1 - Σ_j q[j*K + i] = 0 over the O output tuples j. */
  function DistributionWrites(K: nat, O: nat, i: nat): seq<Write>
  {
    seq(O, (j: int) requires 0 <= j < O => Write(j * K + i + 1, -1))
  }

  function DistributionRow(n: nat, K: nat, O: nat, i: nat): seq<int>
  {
    Rule(n, 1, DistributionWrites(K, O, i))
  }

  function DistributionRows(n: nat, K: nat, O: nat): seq<seq<int>>
  {
    seq(K, (i: int) requires 0 <= i < K => DistributionRow(n, K, O, i))
  }

  // ---------------------------------------------------------------------
  // Three players, binary.

  /** The cell of party P (0, 1, 2 for A, B, C) with that party's output x and
      input v; the other two outputs and the other two inputs are the bits bs,
      in order. */
  function Cell3(P: nat, bs: seq<int>, x: int, v: int): Six
    requires P < 3 && |bs| == 4
  {
    if P == 0 then Six(x, bs[0], bs[1], v, bs[2], bs[3])
    else if P == 1 then Six(bs[0], x, bs[1], bs[2], v, bs[3])
    else Six(bs[0], bs[1], x, bs[2], bs[3], v)
  }

  /** Party P's marginal of the others' outputs does not depend on P's input:
      +1 on both outputs of P at input 0, -1 on both at input 1. */
  function NsWrites3(P: nat, bs: seq<int>): seq<Write>
    requires P < 3 && |bs| == 4
  {
    [Write(Flat6(Cell3(P, bs, 0, 0)) + 1, 1), Write(Flat6(Cell3(P, bs, 1, 0)) + 1, 1),
     Write(Flat6(Cell3(P, bs, 0, 1)) + 1, -1), Write(Flat6(Cell3(P, bs, 1, 1)) + 1, -1)]
  }

  /** The four assignments of row (P, bs), one by one. */
  lemma NsWrites3Shape(P: nat, bs: seq<int>)
    requires P < 3 && |bs| == 4
    ensures NsWrites3(P, bs)
         == [Write(Flat6(Cell3(P, bs, 0, 0)) + 1, 1), Write(Flat6(Cell3(P, bs, 1, 0)) + 1, 1),
             Write(Flat6(Cell3(P, bs, 0, 1)) + 1, -1), Write(Flat6(Cell3(P, bs, 1, 1)) + 1, -1)]
  {
  }

  function NsRow3(P: nat, bs: seq<int>): seq<int>
    requires P < 3 && |bs| == 4
  {
    Rule(64, 0, NsWrites3(P, bs))
  }

  /** The 48 rows: 16 for A, then 16 for B, then 16 for C, each in the order
      of the 4-bit strings of 0 .. 15. */
  function NsRows3(): seq<seq<int>>
  {
    seq(48, (r: int) requires 0 <= r < 48 => NsRow3(r / 16, ToBits(r % 16, 4)))
  }

  function ThreePlayerSystem(): System
  {
    System(64, PositivityRows(64), NsRows3(), DistributionRows(64, 8, 8))
  }

  // ---------------------------------------------------------------------
  // Two players, for a layout L.

  /** The layouts the builders use: at least two inputs per player, so that
      every player has a pair of inputs to compare. */
  predicate NsLayout(L: Layout2)
  {
    L.Valid() && L.na >= 2 && L.nb >= 2
  }

  /** B's marginal for output xb and input b is the same for A's inputs k and
      k + 1: +1 on q(xa, xb | k, b) and -1 on q(xa, xb | k+1, b) for every xa. */
  function NsWritesA(L: Layout2, xb: int, b: int, k: int): seq<Write>
  {
    seq(L.nxa, (xa: int) requires 0 <= xa < L.nxa => Write(Flat2(L, Quad(xa, xb, k, b)) + 1, 1))
    + seq(L.nxa, (xa: int) requires 0 <= xa < L.nxa => Write(Flat2(L, Quad(xa, xb, k + 1, b)) + 1, -1))
  }

  /** A's marginal for output xa and input a is the same for B's inputs k and k + 1. */
  function NsWritesB(L: Layout2, xa: int, a: int, k: int): seq<Write>
  {
    seq(L.nxb, (xb: int) requires 0 <= xb < L.nxb => Write(Flat2(L, Quad(xa, xb, a, k)) + 1, 1))
    + seq(L.nxb, (xb: int) requires 0 <= xb < L.nxb => Write(Flat2(L, Quad(xa, xb, a, k + 1)) + 1, -1))
  }

  function NsRowA(L: Layout2, xb: int, b: int, k: int): seq<int>
  {
    Rule(L.Size(), 0, NsWritesA(L, xb, b, k))
  }

  function NsRowB(L: Layout2, xa: int, a: int, k: int): seq<int>
  {
    Rule(L.Size(), 0, NsWritesB(L, xa, a, k))
  }

  /** Number of A-side rows: one per (xb, b) and consecutive pair of A's inputs. */
  function NsCountA(L: Layout2): nat
    requires NsLayout(L)
  {
    L.nxb * L.nb * (L.na - 1)
  }

  function NsCountB(L: Layout2): nat
    requires NsLayout(L)
  {
    L.nxa * L.na * (L.nb - 1)
  }

  /** The A-side rows in loop order: xb, then b, then the pair (k, k + 1). */
  function NsRowsA(L: Layout2): seq<seq<int>>
    requires NsLayout(L)
  {
    seq(NsCountA(L), (r: int) requires 0 <= r < NsCountA(L) =>
      var rest := r / (L.na - 1);
      NsRowA(L, rest / L.nb, rest % L.nb, r % (L.na - 1)))
  }

  /** The B-side rows in loop order: xa, then a, then the pair (k, k + 1). */
  function NsRowsB(L: Layout2): seq<seq<int>>
    requires NsLayout(L)
  {
    seq(NsCountB(L), (r: int) requires 0 <= r < NsCountB(L) =>
      var rest := r / (L.nb - 1);
      NsRowB(L, rest / L.na, rest % L.na, r % (L.nb - 1)))
  }

  function TwoPlayerSystem(L: Layout2): System
    requires NsLayout(L)
  {
    System(L.Size(), PositivityRows(L.Size()), NsRowsA(L) + NsRowsB(L),
           DistributionRows(L.Size(), L.Conditions(), L.Outcomes()))
  }

  /** Row (xb, b, k) sits at position (xb*nb + b)*(na - 1) + k of the A-side rows. */
  lemma NsIndexA(L: Layout2, xb: nat, b: nat, k: nat) returns (r: nat)
    requires NsLayout(L) && xb < L.nxb && b < L.nb && k < L.na - 1
    ensures r == (xb * L.nb + b) * (L.na - 1) + k && r < NsCountA(L)
    ensures NsRowsA(L)[r] == NsRowA(L, xb, b, k)
  {
    var d := L.na - 1;
    var rest := xb * L.nb + b;
    PairBound(xb, b, L.nxb, L.nb);
    PairBound(rest, k, L.nxb * L.nb, d);
    r := rest * d + k;
    DivMod(rest, k, d);
    DivMod(xb, b, L.nb);
  }

  /** Row (xa, a, k) sits at position (xa*na + a)*(nb - 1) + k of the B-side rows. */
  lemma NsIndexB(L: Layout2, xa: nat, a: nat, k: nat) returns (r: nat)
    requires NsLayout(L) && xa < L.nxa && a < L.na && k < L.nb - 1
    ensures r == (xa * L.na + a) * (L.nb - 1) + k && r < NsCountB(L)
    ensures NsRowsB(L)[r] == NsRowB(L, xa, a, k)
  {
    var d := L.nb - 1;
    var rest := xa * L.na + a;
    PairBound(xa, a, L.nxa, L.na);
    PairBound(rest, k, L.nxa * L.na, d);
    r := rest * d + k;
    DivMod(rest, k, d);
    DivMod(xa, a, L.na);
  }

  /** A-side row number r is row (xb, b, k) for the (xb, b, k) it encodes. */
  lemma NsEntryA(L: Layout2, r: nat) returns (xb: nat, b: nat, k: nat)
    requires NsLayout(L) && r < NsCountA(L)
    ensures xb < L.nxb && b < L.nb && k + 1 < L.na
    ensures NsRowsA(L)[r] == NsRowA(L, xb, b, k)
  {
    var rest := r / (L.na - 1);
    DivBound(r, L.nxb * L.nb, L.na - 1);
    DivBound(rest, L.nxb, L.nb);
    xb, b, k := rest / L.nb, rest % L.nb, r % (L.na - 1);
  }

  /** B-side row number r is row (xa, a, k) for the (xa, a, k) it encodes. */
  lemma NsEntryB(L: Layout2, r: nat) returns (xa: nat, a: nat, k: nat)
    requires NsLayout(L) && r < NsCountB(L)
    ensures xa < L.nxa && a < L.na && k + 1 < L.nb
    ensures NsRowsB(L)[r] == NsRowB(L, xa, a, k)
  {
    var rest := r / (L.nb - 1);
    DivBound(r, L.nxa * L.na, L.nb - 1);
    DivBound(rest, L.nxa, L.na);
    xa, a, k := rest / L.na, rest % L.na, r % (L.nb - 1);
  }

  /** Appending row (P, i) to the rows before it. */
  lemma NsRows3Snoc(rows: seq<seq<int>>, P: nat, i: nat)
    requires P < 3 && i < 16 && rows == NsRows3()[..16 * P + i]
    ensures rows + [NsRow3(P, ToBits(i, 4))] == NsRows3()[..16 * P + i + 1]
  {
    var all, r := NsRows3(), 16 * P + i;
    DivMod(P, i, 16);
    assert r / 16 == P && r % 16 == i;
    assert all[r] == NsRow3(P, ToBits(i, 4));
    PrefixSnoc(all, r);
  }

  // ---------------------------------------------------------------------
  // The builders.

  /** The positivity loop every builder starts with. */
  method Positivity(n: nat) returns (positivity: seq<seq<int>>)
    ensures positivity == PositivityRows(n)
  {
    positivity := [];
    for i := 0 to n
      invariant positivity == PositivityRows(n)[..i]
    {
      var rule := MakeRule(n, 0, [Write(i + 1, 1)]);
      positivity := positivity + [rule];
    }
  }

  /** The distribution loop of the topologies that index by j*K + i. */
  method Distribution(n: nat, K: nat, O: nat) returns (distribution: seq<seq<int>>)
    requires n == O * K
    ensures distribution == DistributionRows(n, K, O)
  {
    distribution := [];
    for i := 0 to K
      invariant distribution == DistributionRows(n, K, O)[..i]
    {
      forall j | 0 <= j < O
        ensures j * K + i + 1 <= n
      {
        MulMonoLe(j + 1, O, K);
      }
      var rule := MakeRule(n, 1, DistributionWrites(K, O, i));
      distribution := distribution + [rule];
    }
  }

  /** `int(outcome + condition, 2)` for w-bit strings is outcome * 2^w + condition. */
  lemma ConcatIndex(j: nat, i: nat, w: nat)
    requires j < Pow2(w) && i < Pow2(w)
    ensures BitsValue(ToBits(j, w) + ToBits(i, w)) == j * Pow2(w) + i
  {
    BitsValueAppend(ToBits(j, w), ToBits(i, w));
    BitsValueOfToBits(j, w);
    BitsValueOfToBits(i, w);
  }

  /** Every cell of a three-player row is one of the 64 variables. */
  lemma NsWrites3In(P: nat, bs: seq<int>)
    requires P < 3 && |bs| == 4 && AllBits(bs)
    ensures WritesIn(64, NsWrites3(P, bs))
  {
    Cell3In(P, bs, 0, 0);
    Cell3In(P, bs, 1, 0);
    Cell3In(P, bs, 0, 1);
    Cell3In(P, bs, 1, 1);
    NsWrites3Shape(P, bs);
  }

  /** A cell with binary outputs and inputs is one of the 64 variables. */
  lemma Cell3In(P: nat, bs: seq<int>, x: int, v: int)
    requires P < 3 && |bs| == 4 && AllBits(bs) && IsBit(x) && IsBit(v)
    ensures 0 <= Flat6(Cell3(P, bs, x, v)) < 64
  {
    assert IsBit(bs[0]) && IsBit(bs[1]) && IsBit(bs[2]) && IsBit(bs[3]);
    if P == 0 {
    } else if P == 1 {
    } else {
    }
  }

  /** The assignments of party A's loop body, as the source spells them out
      with `int(..., 2) + 1`. */
  function LiteralWritesA(bitstring: seq<int>): seq<Write>
    requires |bitstring| == 4
  {
    [Write(BitsValue([0, bitstring[0], bitstring[1], 0, bitstring[2], bitstring[3]]) + 1, 1),
     Write(BitsValue([1, bitstring[0], bitstring[1], 0, bitstring[2], bitstring[3]]) + 1, 1),
     Write(BitsValue([0, bitstring[0], bitstring[1], 1, bitstring[2], bitstring[3]]) + 1, -1),
     Write(BitsValue([1, bitstring[0], bitstring[1], 1, bitstring[2], bitstring[3]]) + 1, -1)]
  }

  /** Party A's spelled-out assignments are those of row (0, bitstring). */
  lemma NsWrites3LiteralA(bitstring: seq<int>)
    requires |bitstring| == 4 && AllBits(bitstring)
    ensures LiteralWritesA(bitstring) == NsWrites3(0, bitstring)
  {
    BitsValue6([0, bitstring[0], bitstring[1], 0, bitstring[2], bitstring[3]]);
    BitsValue6([1, bitstring[0], bitstring[1], 0, bitstring[2], bitstring[3]]);
    BitsValue6([0, bitstring[0], bitstring[1], 1, bitstring[2], bitstring[3]]);
    BitsValue6([1, bitstring[0], bitstring[1], 1, bitstring[2], bitstring[3]]);
  }

  /** The assignments of party B's loop body, as the source spells them out
      with `int(..., 2) + 1`. */
  function LiteralWritesB(bitstring: seq<int>): seq<Write>
    requires |bitstring| == 4
  {
    [Write(BitsValue([bitstring[0], 0, bitstring[1], bitstring[2], 0, bitstring[3]]) + 1, 1),
     Write(BitsValue([bitstring[0], 1, bitstring[1], bitstring[2], 0, bitstring[3]]) + 1, 1),
     Write(BitsValue([bitstring[0], 0, bitstring[1], bitstring[2], 1, bitstring[3]]) + 1, -1),
     Write(BitsValue([bitstring[0], 1, bitstring[1], bitstring[2], 1, bitstring[3]]) + 1, -1)]
  }

  /** Party B's spelled-out assignments are those of row (1, bitstring). */
  lemma NsWrites3LiteralB(bitstring: seq<int>)
    requires |bitstring| == 4 && AllBits(bitstring)
    ensures LiteralWritesB(bitstring) == NsWrites3(1, bitstring)
  {
    BitsValue6([bitstring[0], 0, bitstring[1], bitstring[2], 0, bitstring[3]]);
    BitsValue6([bitstring[0], 1, bitstring[1], bitstring[2], 0, bitstring[3]]);
    BitsValue6([bitstring[0], 0, bitstring[1], bitstring[2], 1, bitstring[3]]);
    BitsValue6([bitstring[0], 1, bitstring[1], bitstring[2], 1, bitstring[3]]);
  }

  /** The assignments of party C's loop body, as the source spells them out
      with `int(..., 2) + 1`. */
  function LiteralWritesC(bitstring: seq<int>): seq<Write>
    requires |bitstring| == 4
  {
    [Write(BitsValue([bitstring[0], bitstring[1], 0, bitstring[2], bitstring[3], 0]) + 1, 1),
     Write(BitsValue([bitstring[0], bitstring[1], 1, bitstring[2], bitstring[3], 0]) + 1, 1),
     Write(BitsValue([bitstring[0], bitstring[1], 0, bitstring[2], bitstring[3], 1]) + 1, -1),
     Write(BitsValue([bitstring[0], bitstring[1], 1, bitstring[2], bitstring[3], 1]) + 1, -1)]
  }

  /** Party C's spelled-out assignments are those of row (2, bitstring). */
  lemma NsWrites3LiteralC(bitstring: seq<int>)
    requires |bitstring| == 4 && AllBits(bitstring)
    ensures LiteralWritesC(bitstring) == NsWrites3(2, bitstring)
  {
    BitsValue6([bitstring[0], bitstring[1], 0, bitstring[2], bitstring[3], 0]);
    BitsValue6([bitstring[0], bitstring[1], 1, bitstring[2], bitstring[3], 0]);
    BitsValue6([bitstring[0], bitstring[1], 0, bitstring[2], bitstring[3], 1]);
    BitsValue6([bitstring[0], bitstring[1], 1, bitstring[2], bitstring[3], 1]);
  }

  /** The body of party A's no-signalling loop of three_players: the row for
      the others' bits, with the source's `int(..., 2) + 1` columns. */
  method ThreePlayerRuleA(bitstring: seq<int>) returns (rule: seq<int>)
    requires |bitstring| == 4 && AllBits(bitstring)
    ensures rule == NsRow3(0, bitstring)
  {
    NsWrites3LiteralA(bitstring);
    var ws := LiteralWritesA(bitstring);
    NsWrites3In(0, bitstring);
    rule := MakeRule(64, 0, ws);
  }

  /** The body of party B's no-signalling loop of three_players: the row for
      the others' bits, with the source's `int(..., 2) + 1` columns. */
  method ThreePlayerRuleB(bitstring: seq<int>) returns (rule: seq<int>)
    requires |bitstring| == 4 && AllBits(bitstring)
    ensures rule == NsRow3(1, bitstring)
  {
    NsWrites3LiteralB(bitstring);
    var ws := LiteralWritesB(bitstring);
    NsWrites3In(1, bitstring);
    rule := MakeRule(64, 0, ws);
  }

  /** The body of party C's no-signalling loop of three_players: the row for
      the others' bits, with the source's `int(..., 2) + 1` columns. */
  method ThreePlayerRuleC(bitstring: seq<int>) returns (rule: seq<int>)
    requires |bitstring| == 4 && AllBits(bitstring)
    ensures rule == NsRow3(2, bitstring)
  {
    NsWrites3LiteralC(bitstring);
    var ws := LiteralWritesC(bitstring);
    NsWrites3In(2, bitstring);
    rule := MakeRule(64, 0, ws);
  }

  /** three_players: positivity, no-signalling and distribution rows over
      the layout 32xa + 16xb + 8xc + 4a + 2b + c. */
  method ThreePlayers() returns (sys: System)
    ensures sys == ThreePlayerSystem()
    ensures |sys.positivity| == 64 && |sys.nosignalling| == 48 && |sys.distribution| == 8
  {
    var positivity := Positivity(64);
    var nosignalling := ThreePlayerNoSignalling();
    var distribution := ThreePlayerDistribution();
    sys := System(64, positivity, nosignalling, distribution);
  }

  /** The three no-signalling loops of three_players, one per party. */
  method ThreePlayerNoSignalling() returns (nosignalling: seq<seq<int>>)
    ensures nosignalling == NsRows3()
  {
    nosignalling := [];
    for i := 0 to 16
      invariant nosignalling == NsRows3()[..16 * 0 + i]
    {
      var bitstring := ToBits(i, 4);
      var rule := ThreePlayerRuleA(bitstring);
      NsRows3Snoc(nosignalling, 0, i);
      nosignalling := nosignalling + [rule];
    }
    for i := 0 to 16
      invariant nosignalling == NsRows3()[..16 * 1 + i]
    {
      var bitstring := ToBits(i, 4);
      var rule := ThreePlayerRuleB(bitstring);
      NsRows3Snoc(nosignalling, 1, i);
      nosignalling := nosignalling + [rule];
    }
    for i := 0 to 16
      invariant nosignalling == NsRows3()[..16 * 2 + i]
    {
      var bitstring := ToBits(i, 4);
      var rule := ThreePlayerRuleC(bitstring);
      NsRows3Snoc(nosignalling, 2, i);
      nosignalling := nosignalling + [rule];
    }
    assert NsRows3()[..48] == NsRows3();
  }

  /** The distribution loop of three_players, indexing by int(outcome + condition, 2). */
  method ThreePlayerDistribution() returns (distribution: seq<seq<int>>)
    ensures distribution == DistributionRows(64, 8, 8)
  {
    distribution := [];
    for i := 0 to 8
      invariant distribution == DistributionRows(64, 8, 8)[..i]
    {
      var condition := ToBits(i, 3);
      var ws := seq(8, (j: int) requires 0 <= j < 8 => Write(BitsValue(ToBits(j, 3) + condition) + 1, -1));
      forall j | 0 <= j < 8
        ensures ws[j] == DistributionWrites(8, 8, i)[j]
      {
        ConcatIndex(j, i, 3);
      }
      var rule := MakeRule(64, 1, ws);
      assert ws == DistributionWrites(8, 8, i);
      distribution := distribution + [rule];
    }
    assert DistributionRows(64, 8, 8)[..8] == DistributionRows(64, 8, 8);
  }

  /** Appending A-side row (xb, b, k), number r, to the rows before it. */
  lemma NsRowsASnoc(L: Layout2, rows: seq<seq<int>>, xb: nat, b: nat, k: nat, r: nat)
    requires NsLayout(L) && xb < L.nxb && b < L.nb && k < L.na - 1
    requires r == (xb * L.nb + b) * (L.na - 1) + k && r < NsCountA(L)
    requires rows == NsRowsA(L)[..r]
    ensures rows + [NsRowA(L, xb, b, k)] == NsRowsA(L)[..r + 1]
  {
    var r' := NsIndexA(L, xb, b, k);
    PrefixSnoc(NsRowsA(L), r);
  }

  /** Appending B-side row (xa, a, k), number r, after the rows pre and the
      B-side rows before it. */
  lemma NsRowsBSnoc(L: Layout2, pre: seq<seq<int>>, rows: seq<seq<int>>, xa: nat, a: nat, k: nat, r: nat)
    requires NsLayout(L) && xa < L.nxa && a < L.na && k < L.nb - 1
    requires r == (xa * L.na + a) * (L.nb - 1) + k && r < NsCountB(L)
    requires rows == pre + NsRowsB(L)[..r]
    ensures rows + [NsRowB(L, xa, a, k)] == pre + NsRowsB(L)[..r + 1]
  {
    var r' := NsIndexB(L, xa, a, k);
    PrefixSnoc(NsRowsB(L), r);
  }

  /** The A-side row of two_players for B's output x and input y, cell by cell
      in the layout 8xa + 4xb + 2a + b. */
  lemma BinaryCellsA(x: int, y: int)
    ensures NsWritesA(BinaryLayout, x, y, 0) ==
      [Write(4 * x + y + 1, 1), Write(8 + 4 * x + y + 1, 1), Write(4 * x + 2 + y + 1, -1), Write(8 + 4 * x + 2 + y + 1, -1)]
  {
  }

  /** The B-side row of two_players for A's output x and input y, cell by cell. */
  lemma BinaryCellsB(x: int, y: int)
    ensures NsWritesB(BinaryLayout, x, y, 0) ==
      [Write(8 * x + 2 * y + 1, 1), Write(8 * x + 4 + 2 * y + 1, 1), Write(8 * x + 2 * y + 1 + 1, -1), Write(8 * x + 4 + 2 * y + 1 + 1, -1)]
  {
  }

  /** The assignments the first no-signalling loop of two_players spells out
      with `int(..., 2) + 1` for a 2-bit string. */
  function BinaryLiteralA(bitstring: seq<int>): seq<Write>
    requires |bitstring| == 2
  {
    [Write(BitsValue([0, bitstring[0], 0, bitstring[1]]) + 1, 1),
     Write(BitsValue([1, bitstring[0], 0, bitstring[1]]) + 1, 1),
     Write(BitsValue([0, bitstring[0], 1, bitstring[1]]) + 1, -1),
     Write(BitsValue([1, bitstring[0], 1, bitstring[1]]) + 1, -1)]
  }

  /** The assignments the second no-signalling loop of two_players spells out. */
  function BinaryLiteralB(bitstring: seq<int>): seq<Write>
    requires |bitstring| == 2
  {
    [Write(BitsValue([bitstring[0], 0, bitstring[1], 0]) + 1, 1),
     Write(BitsValue([bitstring[0], 1, bitstring[1], 0]) + 1, 1),
     Write(BitsValue([bitstring[0], 0, bitstring[1], 1]) + 1, -1),
     Write(BitsValue([bitstring[0], 1, bitstring[1], 1]) + 1, -1)]
  }

  /** The spelled-out cells of the bits x, y, as flat indices. */
  lemma BinaryLiteralACells(x: int, y: int)
    requires 0 <= x < 2 && 0 <= y < 2
    ensures WritesIn(16, BinaryLiteralA([x, y]))
    ensures BinaryLiteralA([x, y]) == [Write(4 * x + y + 1, 1), Write(8 + 4 * x + y + 1, 1), Write(4 * x + 2 + y + 1, -1), Write(8 + 4 * x + 2 + y + 1, -1)]
  {
    BitsValue4([0, x, 0, y]);
    BitsValue4([1, x, 0, y]);
    BitsValue4([0, x, 1, y]);
    BitsValue4([1, x, 1, y]);
  }

  /** For the 2-bit string of i, the spelled-out cells are those of A-side row (i / 2, i % 2, 0). */
  lemma BinaryLiteralAIsRow(i: nat)
    requires i < 4
    ensures BinaryLiteralA(ToBits(i, 2)) == NsWritesA(BinaryLayout, i / 2, i % 2, 0)
    ensures WritesIn(16, BinaryLiteralA(ToBits(i, 2)))
  {
    var x, y := i / 2, i % 2;
    assert 0 <= x < 2 && 0 <= y < 2;
    ToBits2(i);
    BinaryLiteralACells(x, y);
    BinaryCellsA(x, y);
  }

  /** The spelled-out cells of the bits x, y, as flat indices. */
  lemma BinaryLiteralBCells(x: int, y: int)
    requires 0 <= x < 2 && 0 <= y < 2
    ensures WritesIn(16, BinaryLiteralB([x, y]))
    ensures BinaryLiteralB([x, y]) == [Write(8 * x + 2 * y + 1, 1), Write(8 * x + 4 + 2 * y + 1, 1), Write(8 * x + 2 * y + 1 + 1, -1), Write(8 * x + 4 + 2 * y + 1 + 1, -1)]
  {
    BitsValue4([x, 0, y, 0]);
    BitsValue4([x, 1, y, 0]);
    BitsValue4([x, 0, y, 1]);
    BitsValue4([x, 1, y, 1]);
  }

  /** For the 2-bit string of i, the spelled-out cells are those of B-side row (i / 2, i % 2, 0). */
  lemma BinaryLiteralBIsRow(i: nat)
    requires i < 4
    ensures BinaryLiteralB(ToBits(i, 2)) == NsWritesB(BinaryLayout, i / 2, i % 2, 0)
    ensures WritesIn(16, BinaryLiteralB(ToBits(i, 2)))
  {
    var x, y := i / 2, i % 2;
    assert 0 <= x < 2 && 0 <= y < 2;
    ToBits2(i);
    BinaryLiteralBCells(x, y);
    BinaryCellsB(x, y);
  }

  /** The body of the first no-signalling loop of two_players. */
  method BinaryRuleA(i: nat) returns (rule: seq<int>)
    requires i < 4
    ensures rule == NsRowA(BinaryLayout, i / 2, i % 2, 0)
  {
    var bitstring := ToBits(i, 2);
    BinaryLiteralAIsRow(i);
    var ws := BinaryLiteralA(bitstring);
    rule := MakeRule(16, 0, ws);
  }

  /** The body of the second no-signalling loop of two_players. */
  method BinaryRuleB(i: nat) returns (rule: seq<int>)
    requires i < 4
    ensures rule == NsRowB(BinaryLayout, i / 2, i % 2, 0)
  {
    var bitstring := ToBits(i, 2);
    BinaryLiteralBIsRow(i);
    var ws := BinaryLiteralB(bitstring);
    rule := MakeRule(16, 0, ws);
  }

  /** two_players: binary inputs and outputs, variable q(xa, xb | a, b) at the
      4-bit string xa xb a b. */
  method TwoPlayers() returns (sys: System)
    ensures sys == TwoPlayerSystem(BinaryLayout)
    ensures sys.n == 16 && |sys.positivity| == 16 && |sys.nosignalling| == 8 && |sys.distribution| == 4
  {
    var positivity := Positivity(16);
    var nosignalling := BinaryNoSignallingA();
    nosignalling := BinaryNoSignallingB(nosignalling);
    var distribution := BinaryDistribution();
    sys := System(16, positivity, nosignalling, distribution);
  }

  /** The first no-signalling loop of two_players, over B's output and input. */
  method BinaryNoSignallingA() returns (nosignalling: seq<seq<int>>)
    ensures nosignalling == NsRowsA(BinaryLayout)
  {
    var L := BinaryLayout;
    nosignalling := [];
    for i := 0 to 4
      invariant nosignalling == NsRowsA(L)[..i]
    {
      var rule := BinaryRuleA(i);
      NsRowsASnoc(L, nosignalling, i / 2, i % 2, 0, i);
      nosignalling := nosignalling + [rule];
    }
    assert NsRowsA(L)[..4] == NsRowsA(L);
  }

  /** The second no-signalling loop of two_players, over A's output and input, appending to rows. */
  method BinaryNoSignallingB(rows: seq<seq<int>>) returns (nosignalling: seq<seq<int>>)
    ensures nosignalling == rows + NsRowsB(BinaryLayout)
  {
    var L := BinaryLayout;
    nosignalling := rows;
    assert rows + NsRowsB(L)[..0] == rows;
    for i := 0 to 4
      invariant nosignalling == rows + NsRowsB(L)[..i]
    {
      var rule := BinaryRuleB(i);
      NsRowsBSnoc(L, rows, nosignalling, i / 2, i % 2, 0, i);
      nosignalling := nosignalling + [rule];
    }
    assert NsRowsB(L)[..4] == NsRowsB(L);
  }

  /** The distribution loop of two_players, indexing by int(outcome + condition, 2). */
  method BinaryDistribution() returns (distribution: seq<seq<int>>)
    ensures distribution == DistributionRows(16, 4, 4)
  {
    distribution := [];
    for i := 0 to 4
      invariant distribution == DistributionRows(16, 4, 4)[..i]
    {
      var condition := ToBits(i, 2);
      var ws := seq(4, (j: int) requires 0 <= j < 4 => Write(BitsValue(ToBits(j, 2) + condition) + 1, -1));
      forall j | 0 <= j < 4
        ensures ws[j] == DistributionWrites(4, 4, i)[j]
      {
        ConcatIndex(j, i, 2);
      }
      var rule := MakeRule(16, 1, ws);
      assert ws == DistributionWrites(4, 4, i);
      distribution := distribution + [rule];
    }
    assert DistributionRows(16, 4, 4)[..4] == DistributionRows(16, 4, 4);
  }

  /** two_players_x3: |X| = 3, variable q(xa, xb | a, b) at (3xa + xb)*4 + 2a + b. */
  method TwoPlayersX3() returns (sys: System)
    ensures sys == TwoPlayerSystem(X3Layout)
    ensures sys.n == 36 && |sys.positivity| == 36 && |sys.nosignalling| == 12 && |sys.distribution| == 4
  {
    var positivity := Positivity(36);
    var nosignalling := X3NoSignallingA();
    nosignalling := X3NoSignallingB(nosignalling);
    var distribution := Distribution(36, 4, 9);
    sys := System(36, positivity, nosignalling, distribution);
  }

  /** The no-signalling rows of two_players_x3 for B's output x_b and input b, as the source spells them out. */
  lemma X3WritesA(x_b: nat, b: nat)
    requires x_b < 3 && b < 2
    ensures NsWritesA(X3Layout, x_b, b, 0) ==
      [Write(x_b * 4 + b + 1, 1), Write((3 + x_b) * 4 + b + 1, 1), Write((6 + x_b) * 4 + b + 1, 1), Write(x_b * 4 + (2 + b) + 1, -1), Write((3 + x_b) * 4 + (2 + b) + 1, -1), Write((6 + x_b) * 4 + (2 + b) + 1, -1)]
  {
  }

  /** The loops of two_players_x3 over B's outputs and inputs. */
  method X3NoSignallingA() returns (nosignalling: seq<seq<int>>)
    ensures nosignalling == NsRowsA(X3Layout)
  {
    var L := X3Layout;
    nosignalling := [];
    for x_b := 0 to 3
      invariant nosignalling == NsRowsA(L)[..2 * x_b]
    {
      for b := 0 to 2
        invariant nosignalling == NsRowsA(L)[..2 * x_b + b]
      {
        X3WritesA(x_b, b);
        var ws0 := [Write(x_b * 4 + b + 1, 1),
                   Write((3 + x_b) * 4 + b + 1, 1),
                   Write((6 + x_b) * 4 + b + 1, 1),
                   Write(x_b * 4 + (2 + b) + 1, -1),
                   Write((3 + x_b) * 4 + (2 + b) + 1, -1),
                   Write((6 + x_b) * 4 + (2 + b) + 1, -1)];
        assert ws0 == NsWritesA(L, x_b, b, 0);
        var rule0 := MakeRule(36, 0, ws0);
        NsRowsASnoc(L, nosignalling, x_b, b, 0, 2 * x_b + b);
        nosignalling := nosignalling + [rule0];
      }
    }
    assert NsRowsA(L)[..NsCountA(L)] == NsRowsA(L);
  }

  /** The no-signalling rows of two_players_x3 for A's output x_a and input a, as the source spells them out. */
  lemma X3WritesB(x_a: nat, a: nat)
    requires x_a < 3 && a < 2
    ensures NsWritesB(X3Layout, x_a, a, 0) ==
      [Write((3 * x_a) * 4 + (2 * a) + 1, 1), Write((3 * x_a + 1) * 4 + (2 * a) + 1, 1), Write((3 * x_a + 2) * 4 + (2 * a) + 1, 1), Write((3 * x_a) * 4 + (2 * a + 1) + 1, -1), Write((3 * x_a + 1) * 4 + (2 * a + 1) + 1, -1), Write((3 * x_a + 2) * 4 + (2 * a + 1) + 1, -1)]
  {
  }

  /** The loops of two_players_x3 over A's outputs and inputs, appending to rows. */
  method X3NoSignallingB(rows: seq<seq<int>>) returns (nosignalling: seq<seq<int>>)
    ensures nosignalling == rows + NsRowsB(X3Layout)
  {
    var L := X3Layout;
    nosignalling := rows;
    assert rows + NsRowsB(L)[..0] == rows;
    for x_a := 0 to 3
      invariant nosignalling == rows + NsRowsB(L)[..2 * x_a]
    {
      for a := 0 to 2
        invariant nosignalling == rows + NsRowsB(L)[..2 * x_a + a]
      {
        X3WritesB(x_a, a);
        var ws0 := [Write((3 * x_a) * 4 + (2 * a) + 1, 1),
                   Write((3 * x_a + 1) * 4 + (2 * a) + 1, 1),
                   Write((3 * x_a + 2) * 4 + (2 * a) + 1, 1),
                   Write((3 * x_a) * 4 + (2 * a + 1) + 1, -1),
                   Write((3 * x_a + 1) * 4 + (2 * a + 1) + 1, -1),
                   Write((3 * x_a + 2) * 4 + (2 * a + 1) + 1, -1)];
        assert ws0 == NsWritesB(L, x_a, a, 0);
        var rule0 := MakeRule(36, 0, ws0);
        NsRowsBSnoc(L, rows, nosignalling, x_a, a, 0, 2 * x_a + a);
        nosignalling := nosignalling + [rule0];
      }
    }
    assert NsRowsB(L)[..NsCountB(L)] == NsRowsB(L);
  }

  /** two_players_a3: |A| = 3, variable q(xa, xb | a, b) at 12xa + 6xb + 2a + b;
      A's three inputs are compared pairwise 0-1 and 1-2. */
  method TwoPlayersA3() returns (sys: System)
    ensures sys == TwoPlayerSystem(A3Layout)
    ensures sys.n == 24 && |sys.positivity| == 24 && |sys.nosignalling| == 14 && |sys.distribution| == 6
  {
    var positivity := Positivity(24);
    var nosignalling := A3NoSignallingA();
    nosignalling := A3NoSignallingB(nosignalling);
    var distribution := Distribution(24, 6, 4);
    sys := System(24, positivity, nosignalling, distribution);
  }

  /** The no-signalling rows of two_players_a3 for B's output x_b and input b, as the source spells them out. */
  lemma A3WritesA(x_b: nat, b: nat)
    requires x_b < 2 && b < 2
    ensures NsWritesA(A3Layout, x_b, b, 0) ==
      [Write(6 * x_b + b + 1, 1), Write(12 + 6 * x_b + b + 1, 1), Write(6 * x_b + 2 + b + 1, -1), Write(12 + 6 * x_b + 2 + b + 1, -1)]
    ensures NsWritesA(A3Layout, x_b, b, 1) ==
      [Write(6 * x_b + 2 + b + 1, 1), Write(12 + 6 * x_b + 2 + b + 1, 1), Write(6 * x_b + 2 * 2 + b + 1, -1), Write(12 + 6 * x_b + 2 * 2 + b + 1, -1)]
  {
  }

  /** The loops of two_players_a3 over B's outputs and inputs. */
  method A3NoSignallingA() returns (nosignalling: seq<seq<int>>)
    ensures nosignalling == NsRowsA(A3Layout)
  {
    var L := A3Layout;
    nosignalling := [];
    for x_b := 0 to 2
      invariant nosignalling == NsRowsA(L)[..(2 * x_b) * 2]
    {
      for b := 0 to 2
        invariant nosignalling == NsRowsA(L)[..(2 * x_b + b) * 2]
      {
        A3WritesA(x_b, b);
        var ws0 := [Write(6 * x_b + b + 1, 1),
                   Write(12 + 6 * x_b + b + 1, 1),
                   Write(6 * x_b + 2 + b + 1, -1),
                   Write(12 + 6 * x_b + 2 + b + 1, -1)];
        assert ws0 == NsWritesA(L, x_b, b, 0);
        var rule0 := MakeRule(24, 0, ws0);
        NsRowsASnoc(L, nosignalling, x_b, b, 0, (2 * x_b + b) * 2);
        nosignalling := nosignalling + [rule0];
        var ws1 := [Write(6 * x_b + 2 + b + 1, 1),
                   Write(12 + 6 * x_b + 2 + b + 1, 1),
                   Write(6 * x_b + 2 * 2 + b + 1, -1),
                   Write(12 + 6 * x_b + 2 * 2 + b + 1, -1)];
        assert ws1 == NsWritesA(L, x_b, b, 1);
        var rule1 := MakeRule(24, 0, ws1);
        NsRowsASnoc(L, nosignalling, x_b, b, 1, (2 * x_b + b) * 2 + 1);
        nosignalling := nosignalling + [rule1];
      }
    }
    assert NsRowsA(L)[..NsCountA(L)] == NsRowsA(L);
  }

  /** The no-signalling rows of two_players_a3 for A's output x_a and input a, as the source spells them out. */
  lemma A3WritesB(x_a: nat, a: nat)
    requires x_a < 2 && a < 3
    ensures NsWritesB(A3Layout, x_a, a, 0) ==
      [Write(12 * x_a + 2 * a + 1, 1), Write(12 * x_a + 6 + 2 * a + 1, 1), Write(12 * x_a + 2 * a + 1 + 1, -1), Write(12 * x_a + 6 + 2 * a + 1 + 1, -1)]
  {
  }

  /** The loops of two_players_a3 over A's outputs and inputs, appending to rows. */
  method A3NoSignallingB(rows: seq<seq<int>>) returns (nosignalling: seq<seq<int>>)
    ensures nosignalling == rows + NsRowsB(A3Layout)
  {
    var L := A3Layout;
    nosignalling := rows;
    assert rows + NsRowsB(L)[..0] == rows;
    for x_a := 0 to 2
      invariant nosignalling == rows + NsRowsB(L)[..3 * x_a]
    {
      for a := 0 to 3
        invariant nosignalling == rows + NsRowsB(L)[..3 * x_a + a]
      {
        A3WritesB(x_a, a);
        var ws0 := [Write(12 * x_a + 2 * a + 1, 1),
                   Write(12 * x_a + 6 + 2 * a + 1, 1),
                   Write(12 * x_a + 2 * a + 1 + 1, -1),
                   Write(12 * x_a + 6 + 2 * a + 1 + 1, -1)];
        assert ws0 == NsWritesB(L, x_a, a, 0);
        var rule0 := MakeRule(24, 0, ws0);
        NsRowsBSnoc(L, rows, nosignalling, x_a, a, 0, 3 * x_a + a);
        nosignalling := nosignalling + [rule0];
      }
    }
    assert NsRowsB(L)[..NsCountB(L)] == NsRowsB(L);
  }

  /** two_players_ab3: |A| = |B| = 3, variable q(xa, xb | a, b) at 18xa + 9xb + 3a + b;
      both players' inputs are compared pairwise 0-1 and 1-2. */
  method TwoPlayersAB3() returns (sys: System)
    ensures sys == TwoPlayerSystem(AB3Layout)
    ensures sys.n == 36 && |sys.positivity| == 36 && |sys.nosignalling| == 24 && |sys.distribution| == 9
  {
    var positivity := Positivity(36);
    var nosignalling := AB3NoSignallingA();
    nosignalling := AB3NoSignallingB(nosignalling);
    var distribution := Distribution(36, 9, 4);
    sys := System(36, positivity, nosignalling, distribution);
  }

  /** The no-signalling rows of two_players_ab3 for B's output x_b and input b, as the source spells them out. */
  lemma AB3WritesA(x_b: nat, b: nat)
    requires x_b < 2 && b < 3
    ensures NsWritesA(AB3Layout, x_b, b, 0) ==
      [Write(9 * x_b + b + 1, 1), Write(18 + 9 * x_b + b + 1, 1), Write(9 * x_b + 3 + b + 1, -1), Write(18 + 9 * x_b + 3 + b + 1, -1)]
    ensures NsWritesA(AB3Layout, x_b, b, 1) ==
      [Write(9 * x_b + 3 + b + 1, 1), Write(18 + 9 * x_b + 3 + b + 1, 1), Write(9 * x_b + 3 * 2 + b + 1, -1), Write(18 + 9 * x_b + 3 * 2 + b + 1, -1)]
  {
  }

  /** The loops of two_players_ab3 over B's outputs and inputs. */
  method AB3NoSignallingA() returns (nosignalling: seq<seq<int>>)
    ensures nosignalling == NsRowsA(AB3Layout)
  {
    var L := AB3Layout;
    nosignalling := [];
    for x_b := 0 to 2
      invariant nosignalling == NsRowsA(L)[..(3 * x_b) * 2]
    {
      for b := 0 to 3
        invariant nosignalling == NsRowsA(L)[..(3 * x_b + b) * 2]
      {
        AB3WritesA(x_b, b);
        var ws0 := [Write(9 * x_b + b + 1, 1),
                   Write(18 + 9 * x_b + b + 1, 1),
                   Write(9 * x_b + 3 + b + 1, -1),
                   Write(18 + 9 * x_b + 3 + b + 1, -1)];
        assert ws0 == NsWritesA(L, x_b, b, 0);
        var rule0 := MakeRule(36, 0, ws0);
        NsRowsASnoc(L, nosignalling, x_b, b, 0, (3 * x_b + b) * 2);
        nosignalling := nosignalling + [rule0];
        var ws1 := [Write(9 * x_b + 3 + b + 1, 1),
                   Write(18 + 9 * x_b + 3 + b + 1, 1),
                   Write(9 * x_b + 3 * 2 + b + 1, -1),
                   Write(18 + 9 * x_b + 3 * 2 + b + 1, -1)];
        assert ws1 == NsWritesA(L, x_b, b, 1);
        var rule1 := MakeRule(36, 0, ws1);
        NsRowsASnoc(L, nosignalling, x_b, b, 1, (3 * x_b + b) * 2 + 1);
        nosignalling := nosignalling + [rule1];
      }
    }
    assert NsRowsA(L)[..NsCountA(L)] == NsRowsA(L);
  }

  /** The no-signalling rows of two_players_ab3 for A's output x_a and input a, as the source spells them out. */
  lemma AB3WritesB(x_a: nat, a: nat)
    requires x_a < 2 && a < 3
    ensures NsWritesB(AB3Layout, x_a, a, 0) ==
      [Write(18 * x_a + 3 * a + 1, 1), Write(18 * x_a + 9 + 3 * a + 1, 1), Write(18 * x_a + 3 * a + 1 + 1, -1), Write(18 * x_a + 9 + 3 * a + 1 + 1, -1)]
    ensures NsWritesB(AB3Layout, x_a, a, 1) ==
      [Write(18 * x_a + 3 * a + 1 + 1, 1), Write(18 * x_a + 9 + 3 * a + 1 + 1, 1), Write(18 * x_a + 3 * a + 2 + 1, -1), Write(18 * x_a + 9 + 3 * a + 2 + 1, -1)]
  {
  }

  /** The loops of two_players_ab3 over A's outputs and inputs, appending to rows. */
  method AB3NoSignallingB(rows: seq<seq<int>>) returns (nosignalling: seq<seq<int>>)
    ensures nosignalling == rows + NsRowsB(AB3Layout)
  {
    var L := AB3Layout;
    nosignalling := rows;
    assert rows + NsRowsB(L)[..0] == rows;
    for x_a := 0 to 2
      invariant nosignalling == rows + NsRowsB(L)[..(3 * x_a) * 2]
    {
      for a := 0 to 3
        invariant nosignalling == rows + NsRowsB(L)[..(3 * x_a + a) * 2]
      {
        AB3WritesB(x_a, a);
        var ws0 := [Write(18 * x_a + 3 * a + 1, 1),
                   Write(18 * x_a + 9 + 3 * a + 1, 1),
                   Write(18 * x_a + 3 * a + 1 + 1, -1),
                   Write(18 * x_a + 9 + 3 * a + 1 + 1, -1)];
        assert ws0 == NsWritesB(L, x_a, a, 0);
        var rule0 := MakeRule(36, 0, ws0);
        NsRowsBSnoc(L, rows, nosignalling, x_a, a, 0, (3 * x_a + a) * 2);
        nosignalling := nosignalling + [rule0];
        var ws1 := [Write(18 * x_a + 3 * a + 1 + 1, 1),
                   Write(18 * x_a + 9 + 3 * a + 1 + 1, 1),
                   Write(18 * x_a + 3 * a + 2 + 1, -1),
                   Write(18 * x_a + 9 + 3 * a + 2 + 1, -1)];
        assert ws1 == NsWritesB(L, x_a, a, 1);
        var rule1 := MakeRule(36, 0, ws1);
        NsRowsBSnoc(L, rows, nosignalling, x_a, a, 1, (3 * x_a + a) * 2 + 1);
        nosignalling := nosignalling + [rule1];
      }
    }
    assert NsRowsB(L)[..NsCountB(L)] == NsRowsB(L);
  }

  /** two_players_xa3: |X| = |A| = 3, variable q(xa, xb | a, b) at 18xa + 6xb + 2a + b;
      A's three inputs are compared pairwise 0-1 and 1-2. */
  method TwoPlayersXA3() returns (sys: System)
    ensures sys == TwoPlayerSystem(XA3Layout)
    ensures sys.n == 54 && |sys.positivity| == 54 && |sys.nosignalling| == 21 && |sys.distribution| == 6
  {
    var positivity := Positivity(54);
    var nosignalling := XA3NoSignallingA();
    nosignalling := XA3NoSignallingB(nosignalling);
    var distribution := Distribution(54, 6, 9);
    sys := System(54, positivity, nosignalling, distribution);
  }

  /** The no-signalling rows of two_players_xa3 for B's output x_b and input b, as the source spells them out. */
  lemma XA3WritesA(x_b: nat, b: nat)
    requires x_b < 3 && b < 2
    ensures NsWritesA(XA3Layout, x_b, b, 0) ==
      [Write(6 * x_b + b + 1, 1), Write(18 + 6 * x_b + b + 1, 1), Write(18 * 2 + 6 * x_b + b + 1, 1), Write(6 * x_b + 2 + b + 1, -1), Write(18 + 6 * x_b + 2 + b + 1, -1), Write(18 * 2 + 6 * x_b + 2 + b + 1, -1)]
    ensures NsWritesA(XA3Layout, x_b, b, 1) ==
      [Write(6 * x_b + 2 + b + 1, 1), Write(18 + 6 * x_b + 2 + b + 1, 1), Write(18 * 2 + 6 * x_b + 2 + b + 1, 1), Write(6 * x_b + 2 * 2 + b + 1, -1), Write(18 + 6 * x_b + 2 * 2 + b + 1, -1), Write(18 * 2 + 6 * x_b + 2 * 2 + b + 1, -1)]
  {
  }

  /** The loops of two_players_xa3 over B's outputs and inputs. */
  method XA3NoSignallingA() returns (nosignalling: seq<seq<int>>)
    ensures nosignalling == NsRowsA(XA3Layout)
  {
    var L := XA3Layout;
    nosignalling := [];
    for x_b := 0 to 3
      invariant nosignalling == NsRowsA(L)[..(2 * x_b) * 2]
    {
      for b := 0 to 2
        invariant nosignalling == NsRowsA(L)[..(2 * x_b + b) * 2]
      {
        XA3WritesA(x_b, b);
        var ws0 := [Write(6 * x_b + b + 1, 1),
                   Write(18 + 6 * x_b + b + 1, 1),
                   Write(18 * 2 + 6 * x_b + b + 1, 1),
                   Write(6 * x_b + 2 + b + 1, -1),
                   Write(18 + 6 * x_b + 2 + b + 1, -1),
                   Write(18 * 2 + 6 * x_b + 2 + b + 1, -1)];
        assert ws0 == NsWritesA(L, x_b, b, 0);
        var rule0 := MakeRule(54, 0, ws0);
        NsRowsASnoc(L, nosignalling, x_b, b, 0, (2 * x_b + b) * 2);
        nosignalling := nosignalling + [rule0];
        var ws1 := [Write(6 * x_b + 2 + b + 1, 1),
                   Write(18 + 6 * x_b + 2 + b + 1, 1),
                   Write(18 * 2 + 6 * x_b + 2 + b + 1, 1),
                   Write(6 * x_b + 2 * 2 + b + 1, -1),
                   Write(18 + 6 * x_b + 2 * 2 + b + 1, -1),
                   Write(18 * 2 + 6 * x_b + 2 * 2 + b + 1, -1)];
        assert ws1 == NsWritesA(L, x_b, b, 1);
        var rule1 := MakeRule(54, 0, ws1);
        NsRowsASnoc(L, nosignalling, x_b, b, 1, (2 * x_b + b) * 2 + 1);
        nosignalling := nosignalling + [rule1];
      }
    }
    assert NsRowsA(L)[..NsCountA(L)] == NsRowsA(L);
  }

  /** The no-signalling rows of two_players_xa3 for A's output x_a and input a, as the source spells them out. */
  lemma XA3WritesB(x_a: nat, a: nat)
    requires x_a < 3 && a < 3
    ensures NsWritesB(XA3Layout, x_a, a, 0) ==
      [Write(18 * x_a + 2 * a + 1, 1), Write(18 * x_a + 6 + 2 * a + 1, 1), Write(18 * x_a + 6 * 2 + 2 * a + 1, 1), Write(18 * x_a + 2 * a + 1 + 1, -1), Write(18 * x_a + 6 + 2 * a + 1 + 1, -1), Write(18 * x_a + 6 * 2 + 2 * a + 1 + 1, -1)]
  {
  }

  /** The loops of two_players_xa3 over A's outputs and inputs, appending to rows. */
  method XA3NoSignallingB(rows: seq<seq<int>>) returns (nosignalling: seq<seq<int>>)
    ensures nosignalling == rows + NsRowsB(XA3Layout)
  {
    var L := XA3Layout;
    nosignalling := rows;
    assert rows + NsRowsB(L)[..0] == rows;
    for x_a := 0 to 3
      invariant nosignalling == rows + NsRowsB(L)[..3 * x_a]
    {
      for a := 0 to 3
        invariant nosignalling == rows + NsRowsB(L)[..3 * x_a + a]
      {
        XA3WritesB(x_a, a);
        var ws0 := [Write(18 * x_a + 2 * a + 1, 1),
                   Write(18 * x_a + 6 + 2 * a + 1, 1),
                   Write(18 * x_a + 6 * 2 + 2 * a + 1, 1),
                   Write(18 * x_a + 2 * a + 1 + 1, -1),
                   Write(18 * x_a + 6 + 2 * a + 1 + 1, -1),
                   Write(18 * x_a + 6 * 2 + 2 * a + 1 + 1, -1)];
        assert ws0 == NsWritesB(L, x_a, a, 0);
        var rule0 := MakeRule(54, 0, ws0);
        NsRowsBSnoc(L, rows, nosignalling, x_a, a, 0, 3 * x_a + a);
        nosignalling := nosignalling + [rule0];
      }
    }
    assert NsRowsB(L)[..NsCountB(L)] == NsRowsB(L);
  }

  /** two_players_x4: |X| = 4, variable q(xa, xb | a, b) at (4xa + xb)*4 + 2a + b. */
  method TwoPlayersX4() returns (sys: System)
    ensures sys == TwoPlayerSystem(X4Layout)
    ensures sys.n == 64 && |sys.positivity| == 64 && |sys.nosignalling| == 16 && |sys.distribution| == 4
  {
    var positivity := Positivity(64);
    var nosignalling := X4NoSignallingA();
    nosignalling := X4NoSignallingB(nosignalling);
    var distribution := Distribution(64, 4, 16);
    sys := System(64, positivity, nosignalling, distribution);
  }

  /** With four outputs for A, an A-side row assigns the four cells at input k, then the four at k + 1. */
  lemma NsWritesAOfFour(L: Layout2, xb: int, b: int, k: int)
    requires L.nxa == 4
    ensures NsWritesA(L, xb, b, k) ==
      [Write(Flat2(L, Quad(0, xb, k, b)) + 1, 1), Write(Flat2(L, Quad(1, xb, k, b)) + 1, 1),
       Write(Flat2(L, Quad(2, xb, k, b)) + 1, 1), Write(Flat2(L, Quad(3, xb, k, b)) + 1, 1),
       Write(Flat2(L, Quad(0, xb, k + 1, b)) + 1, -1), Write(Flat2(L, Quad(1, xb, k + 1, b)) + 1, -1),
       Write(Flat2(L, Quad(2, xb, k + 1, b)) + 1, -1), Write(Flat2(L, Quad(3, xb, k + 1, b)) + 1, -1)]
  {
  }

  /** With four outputs for B, a B-side row assigns the four cells at input k, then the four at k + 1. */
  lemma NsWritesBOfFour(L: Layout2, xa: int, a: int, k: int)
    requires L.nxb == 4
    ensures NsWritesB(L, xa, a, k) ==
      [Write(Flat2(L, Quad(xa, 0, a, k)) + 1, 1), Write(Flat2(L, Quad(xa, 1, a, k)) + 1, 1),
       Write(Flat2(L, Quad(xa, 2, a, k)) + 1, 1), Write(Flat2(L, Quad(xa, 3, a, k)) + 1, 1),
       Write(Flat2(L, Quad(xa, 0, a, k + 1)) + 1, -1), Write(Flat2(L, Quad(xa, 1, a, k + 1)) + 1, -1),
       Write(Flat2(L, Quad(xa, 2, a, k + 1)) + 1, -1), Write(Flat2(L, Quad(xa, 3, a, k + 1)) + 1, -1)]
  {
  }

  /** The no-signalling rows of two_players_x4 for B's output x_b and input b, as the source spells them out. */
  lemma X4WritesA(x_b: nat, b: nat)
    requires x_b < 4 && b < 2
    ensures NsWritesA(X4Layout, x_b, b, 0) ==
      [Write(x_b * 4 + b + 1, 1), Write((4 + x_b) * 4 + b + 1, 1), Write((8 + x_b) * 4 + b + 1, 1), Write((12 + x_b) * 4 + b + 1, 1), Write(x_b * 4 + (2 + b) + 1, -1), Write((4 + x_b) * 4 + (2 + b) + 1, -1), Write((8 + x_b) * 4 + (2 + b) + 1, -1), Write((12 + x_b) * 4 + (2 + b) + 1, -1)]
  {
    NsWritesAOfFour(X4Layout, x_b, b, 0);
  }

  method X4NoSignallingA() returns (nosignalling: seq<seq<int>>)
    ensures nosignalling == NsRowsA(X4Layout)
  {
    var L := X4Layout;
    nosignalling := [];
    for x_b := 0 to 4
      invariant nosignalling == NsRowsA(L)[..2 * x_b]
    {
      for b := 0 to 2
        invariant nosignalling == NsRowsA(L)[..2 * x_b + b]
      {
        X4WritesA(x_b, b);
        var ws0 := [Write(x_b * 4 + b + 1, 1),
                   Write((4 + x_b) * 4 + b + 1, 1),
                   Write((8 + x_b) * 4 + b + 1, 1),
                   Write((12 + x_b) * 4 + b + 1, 1),
                   Write(x_b * 4 + (2 + b) + 1, -1),
                   Write((4 + x_b) * 4 + (2 + b) + 1, -1),
                   Write((8 + x_b) * 4 + (2 + b) + 1, -1),
                   Write((12 + x_b) * 4 + (2 + b) + 1, -1)];
        assert ws0 == NsWritesA(L, x_b, b, 0);
        var rule0 := MakeRule(64, 0, ws0);
        NsRowsASnoc(L, nosignalling, x_b, b, 0, 2 * x_b + b);
        nosignalling := nosignalling + [rule0];
      }
    }
    assert NsRowsA(L)[..NsCountA(L)] == NsRowsA(L);
  }

  /** The no-signalling rows of two_players_x4 for A's output x_a and input a, as the source spells them out. */
  lemma X4WritesB(x_a: nat, a: nat)
    requires x_a < 4 && a < 2
    ensures NsWritesB(X4Layout, x_a, a, 0) ==
      [Write((4 * x_a) * 4 + (2 * a) + 1, 1), Write((4 * x_a + 1) * 4 + (2 * a) + 1, 1), Write((4 * x_a + 2) * 4 + (2 * a) + 1, 1), Write((4 * x_a + 3) * 4 + (2 * a) + 1, 1), Write((4 * x_a) * 4 + (2 * a + 1) + 1, -1), Write((4 * x_a + 1) * 4 + (2 * a + 1) + 1, -1), Write((4 * x_a + 2) * 4 + (2 * a + 1) + 1, -1), Write((4 * x_a + 3) * 4 + (2 * a + 1) + 1, -1)]
  {
    NsWritesBOfFour(X4Layout, x_a, a, 0);
  }

  method X4NoSignallingB(rows: seq<seq<int>>) returns (nosignalling: seq<seq<int>>)
    ensures nosignalling == rows + NsRowsB(X4Layout)
  {
    var L := X4Layout;
    nosignalling := rows;
    assert rows + NsRowsB(L)[..0] == rows;
    for x_a := 0 to 4
      invariant nosignalling == rows + NsRowsB(L)[..2 * x_a]
    {
      for a := 0 to 2
        invariant nosignalling == rows + NsRowsB(L)[..2 * x_a + a]
      {
        X4WritesB(x_a, a);
        var ws0 := [Write((4 * x_a) * 4 + (2 * a) + 1, 1),
                   Write((4 * x_a + 1) * 4 + (2 * a) + 1, 1),
                   Write((4 * x_a + 2) * 4 + (2 * a) + 1, 1),
                   Write((4 * x_a + 3) * 4 + (2 * a) + 1, 1),
                   Write((4 * x_a) * 4 + (2 * a + 1) + 1, -1),
                   Write((4 * x_a + 1) * 4 + (2 * a + 1) + 1, -1),
                   Write((4 * x_a + 2) * 4 + (2 * a + 1) + 1, -1),
                   Write((4 * x_a + 3) * 4 + (2 * a + 1) + 1, -1)];
        assert ws0 == NsWritesB(L, x_a, a, 0);
        var rule0 := MakeRule(64, 0, ws0);
        NsRowsBSnoc(L, rows, nosignalling, x_a, a, 0, 2 * x_a + a);
        nosignalling := nosignalling + [rule0];
      }
    }
    assert NsRowsB(L)[..NsCountB(L)] == NsRowsB(L);
  }
}
