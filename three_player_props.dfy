/** What the rows of three_players mean: a point satisfies them exactly when
    it is a no-signalling conditional distribution q(xa, xb, xc | a, b, c)
    of three binary players, and the product point of every deterministic
    classical strategy is one. */
module ThreePlayerProps {
  import opened Sums
  import opened Index
  import opened Rows
  import opened Polytope
  import opened PolytopeProps
  import opened Classical

  /** q(xa, xb, xc | a, b, c). */
  function Cell6(q: seq<real>, t: Six): real
  {
    At(q, Flat6(t))
  }

  /** The marginal of the other two players at bs (their outputs, then their
      inputs) when party P has input v: the sum over P's two outputs. */
  function Marginal3(q: seq<real>, P: nat, bs: seq<int>, v: int): real
    requires P < 3 && |bs| == 4
  {
    Cell6(q, Cell3(P, bs, 0, v)) + Cell6(q, Cell3(P, bs, 1, v))
  }

  /** No party's input is visible in the other two parties' marginal. */
  ghost predicate Hidden3(q: seq<real>)
  {
    forall P: nat, bs: seq<int> :: P < 3 && |bs| == 4 && AllBits(bs) ==>
      Marginal3(q, P, bs, 0) == Marginal3(q, P, bs, 1)
  }

  /** Output triple number j (xa xb xc read as a 3-bit number) at inputs (a, b, c). */
  function OutputTriple(j: nat, a: int, b: int, c: int): Six
  {
    Six(j / 4, (j / 2) % 2, j % 2, a, b, c)
  }

  /** The sum of q over the eight output triples of input triple (a, b, c). */
  function Total3(q: seq<real>, a: int, b: int, c: int): real
  {
    SumOf(8, (j: nat) => Cell6(q, OutputTriple(j, a, b, c)))
  }

  ghost predicate Normalised3(q: seq<real>)
  {
    forall a, b, c :: IsBit(a) && IsBit(b) && IsBit(c) ==> Total3(q, a, b, c) == 1.0
  }

  /** A no-signalling conditional distribution of three binary players. */
  ghost predicate NoSignallingPoint3(q: seq<real>)
  {
    |q| == 64 && NonNegative(q) && Normalised3(q) && Hidden3(q)
  }

  // ---------------------------------------------------------------------
  // The no-signalling rows.

  /** The weights 32, 16, 8 of party P's output and 4, 2, 1 of its input in the flat index. */
  function OutputWeight(P: nat): int
  {
    if P == 0 then 32 else if P == 1 then 16 else 8
  }

  function InputWeight(P: nat): int
  {
    if P == 0 then 4 else if P == 1 then 2 else 1
  }

  /** The four cells of a row sit at base, base + W, base + w and base + W + w
      for the weights W, w of party P. */
  lemma Cell3Position(P: nat, bs: seq<int>, x: int, v: int)
    requires P < 3 && |bs| == 4 && AllBits(bs) && IsBit(x) && IsBit(v)
    ensures 0 <= Flat6(Cell3(P, bs, x, v)) < 64
    ensures Flat6(Cell3(P, bs, x, v)) == Flat6(Cell3(P, bs, 0, 0)) + OutputWeight(P) * x + InputWeight(P) * v
  {
    assert IsBit(bs[0]) && IsBit(bs[1]) && IsBit(bs[2]) && IsBit(bs[3]);
    if P == 0 {
    } else if P == 1 {
    } else {
    }
  }

  lemma Cell3Binary(P: nat, bs: seq<int>, x: int, v: int)
    requires P < 3 && |bs| == 4 && AllBits(bs) && IsBit(x) && IsBit(v)
    ensures IsBinary(Cell3(P, bs, x, v))
  {
    assert IsBit(bs[0]) && IsBit(bs[1]) && IsBit(bs[2]) && IsBit(bs[3]);
    if P == 0 {
    } else if P == 1 {
    } else {
    }
  }

  /** The four cells of a row are variables of the 64. */
  lemma NsCellsInRange(P: nat, bs: seq<int>)
    requires P < 3 && |bs| == 4 && AllBits(bs)
    ensures forall x, v :: IsBit(x) && IsBit(v) ==> 0 <= Flat6(Cell3(P, bs, x, v)) < 64
  {
    forall x, v | IsBit(x) && IsBit(v)
      ensures 0 <= Flat6(Cell3(P, bs, x, v)) < 64
    {
      Cell3Position(P, bs, x, v);
    }
  }

  /** The four cells of a row are distinct variables. */
  lemma NsWrites3Distinct(P: nat, bs: seq<int>)
    requires P < 3 && |bs| == 4 && AllBits(bs)
    ensures DistinctPositions(NsWrites3(P, bs))
  {
    Cell3Position(P, bs, 1, 0);
    Cell3Position(P, bs, 0, 1);
    Cell3Position(P, bs, 1, 1);
    var base, W, w := Flat6(Cell3(P, bs, 0, 0)), OutputWeight(P), InputWeight(P);
    assert W > w > 0;
    var ws := NsWrites3(P, bs);
    assert ws[0].pos == base + 1 && ws[1].pos == base + W + 1;
    assert ws[2].pos == base + w + 1 && ws[3].pos == base + W + w + 1;
    DistinctPositions4(ws[0], ws[1], ws[2], ws[3]);
    assert ws == [ws[0], ws[1], ws[2], ws[3]];
  }

  /** A row with +1 at the columns of p0, p1 and -1 at those of m0, m1 (four
      distinct variables) adds q at p0, p1 and subtracts it at m0, m1. */
  lemma SignedRowValue(p0: int, p1: int, m0: int, m1: int, q: seq<real>)
    requires 0 <= p0 < |q| && 0 <= p1 < |q| && 0 <= m0 < |q| && 0 <= m1 < |q|
    requires p0 != p1 && p0 != m0 && p0 != m1 && p1 != m0 && p1 != m1 && m0 != m1
    ensures Value(Rule(|q|, 0, [Write(p0 + 1, 1), Write(p1 + 1, 1), Write(m0 + 1, -1), Write(m1 + 1, -1)]), q)
         == At(q, p0) + At(q, p1) - At(q, m0) - At(q, m1)
  {
    var ws := [Write(p0 + 1, 1), Write(p1 + 1, 1), Write(m0 + 1, -1), Write(m1 + 1, -1)];
    DistinctPositions4(ws[0], ws[1], ws[2], ws[3]);
    assert WritesIn(|q|, ws);
    ValueOfRule(0, ws, q);
    WritesValueOf4(ws, q);
  }

  /** Row (P, bs) adds q at the two cells of input 0 and subtracts it at the two of input 1. */
  lemma NsRow3Cells(P: nat, bs: seq<int>, q: seq<real>)
    requires P < 3 && |bs| == 4 && AllBits(bs) && |q| == 64
    ensures Value(NsRow3(P, bs), q)
         == Cell6(q, Cell3(P, bs, 0, 0)) + Cell6(q, Cell3(P, bs, 1, 0)) - Cell6(q, Cell3(P, bs, 0, 1)) - Cell6(q, Cell3(P, bs, 1, 1))
  {
    var p00, p10 := Flat6(Cell3(P, bs, 0, 0)), Flat6(Cell3(P, bs, 1, 0));
    var p01, p11 := Flat6(Cell3(P, bs, 0, 1)), Flat6(Cell3(P, bs, 1, 1));
    Cell3Position(P, bs, 0, 0);
    Cell3Position(P, bs, 1, 0);
    Cell3Position(P, bs, 0, 1);
    Cell3Position(P, bs, 1, 1);
    assert p00 != p10 && p00 != p01 && p00 != p11 && p10 != p01 && p10 != p11 && p01 != p11;
    assert NsRow3(P, bs) == Rule(|q|, 0, [Write(p00 + 1, 1), Write(p10 + 1, 1), Write(p01 + 1, -1), Write(p11 + 1, -1)]);
    SignedRowValue(p00, p10, p01, p11, q);
  }

  /** Row (P, bs) is the marginal at input 0 minus the marginal at input 1. */
  lemma NsRow3Value(P: nat, bs: seq<int>, q: seq<real>)
    requires P < 3 && |bs| == 4 && AllBits(bs) && |q| == 64
    ensures Value(NsRow3(P, bs), q) == Marginal3(q, P, bs, 0) - Marginal3(q, P, bs, 1)
  {
    NsRow3Cells(P, bs, q);
    assert IsBit(0) && IsBit(1);
  }

  /** Row number r of the 48 is the row of party r / 16 at the 4-bit string of r % 16. */
  lemma NsRows3At(r: nat) returns (P: nat, bs: seq<int>)
    requires r < 48
    ensures P < 3 && |bs| == 4 && AllBits(bs)
    ensures NsRows3()[r] == NsRow3(P, bs)
  {
    P, bs := r / 16, ToBits(r % 16, 4);
  }

  /** Row (P, bs) is one of the 48. */
  lemma NsRows3Has(P: nat, bs: seq<int>) returns (r: nat)
    requires P < 3 && |bs| == 4 && AllBits(bs)
    ensures r < 48 && NsRows3()[r] == NsRow3(P, bs)
  {
    var i := BitsValue(bs);
    ToBitsOfBitsValue(bs);
    r := 16 * P + i;
    DivMod(P, i, 16);
  }

  lemma NsRows3FromHidden(q: seq<real>)
    requires |q| == 64 && Hidden3(q)
    ensures ZeroRows(NsRows3(), q)
  {
    forall r | 0 <= r < 48
      ensures |NsRows3()[r]| == |q| + 1 && Value(NsRows3()[r], q) == 0.0
    {
      var P, bs := NsRows3At(r);
      NsRow3Value(P, bs, q);
      assert Marginal3(q, P, bs, 0) == Marginal3(q, P, bs, 1);
    }
  }

  lemma NsRows3GiveHidden(q: seq<real>)
    requires |q| == 64 && ZeroRows(NsRows3(), q)
    ensures Hidden3(q)
  {
    forall P: nat, bs: seq<int> | P < 3 && |bs| == 4 && AllBits(bs)
      ensures Marginal3(q, P, bs, 0) == Marginal3(q, P, bs, 1)
    {
      var r := NsRows3Has(P, bs);
      ZeroRowAt(NsRows3(), q, r);
      NsRow3Value(P, bs, q);
    }
  }

  /** The 48 no-signalling rows hold exactly when no input is visible. */
  lemma NsRows3Meaning(q: seq<real>)
    requires |q| == 64
    ensures ZeroRows(NsRows3(), q) <==> Hidden3(q)
  {
    if Hidden3(q) {
      NsRows3FromHidden(q);
    }
    if ZeroRows(NsRows3(), q) {
      NsRows3GiveHidden(q);
    }
  }

  // ---------------------------------------------------------------------
  // The distribution rows.

  /** Output triple j of input triple i = 4a + 2b + c sits at 8j + i. */
  lemma OutputTripleFlat(j: nat, a: int, b: int, c: int)
    requires j < 8
    ensures Flat6(OutputTriple(j, a, b, c)) == j * 8 + (4 * a + 2 * b + c)
  {
    assert j == 4 * (j / 4) + 2 * ((j / 2) % 2) + j % 2;
  }

  /** The total of (a, b, c) is the sum of q at 8j + i over the output triples j,
      for i = 4a + 2b + c. */
  lemma Total3AsBlockSum(q: seq<real>, a: int, b: int, c: int)
    ensures Total3(q, a, b, c) == SumOf(8, (j: nat) => At(q, j * 8 + (4 * a + 2 * b + c)))
  {
    forall j: nat | j < 8
      ensures Cell6(q, OutputTriple(j, a, b, c)) == At(q, j * 8 + (4 * a + 2 * b + c))
    {
      OutputTripleFlat(j, a, b, c);
    }
    SumOfCongruent(8, (j: nat) => Cell6(q, OutputTriple(j, a, b, c)),
                   (j: nat) => At(q, j * 8 + (4 * a + 2 * b + c)));
  }

  /** Input triple number i < 8. */
  lemma InputTriple(i: nat) returns (a: int, b: int, c: int)
    requires i < 8
    ensures IsBit(a) && IsBit(b) && IsBit(c) && 4 * a + 2 * b + c == i
  {
    a, b, c := i / 4, (i / 2) % 2, i % 2;
  }

  /** Distribution row 4a + 2b + c is 1 minus the total of (a, b, c). */
  lemma DistributionRow3At(q: seq<real>, a: int, b: int, c: int)
    requires |q| == 64 && IsBit(a) && IsBit(b) && IsBit(c)
    ensures 4 * a + 2 * b + c < 8
    ensures Value(DistributionRows(64, 8, 8)[4 * a + 2 * b + c], q) == 1.0 - Total3(q, a, b, c)
  {
    var i := 4 * a + 2 * b + c;
    DistributionValue(64, 8, 8, i, q);
    Total3AsBlockSum(q, a, b, c);
  }

  lemma DistributionRows3FromNormalised(q: seq<real>)
    requires |q| == 64 && Normalised3(q)
    ensures ZeroRows(DistributionRows(64, 8, 8), q)
  {
    forall i | 0 <= i < 8
      ensures |DistributionRows(64, 8, 8)[i]| == |q| + 1 && Value(DistributionRows(64, 8, 8)[i], q) == 0.0
    {
      var a, b, c := InputTriple(i);
      DistributionRow3At(q, a, b, c);
      assert Total3(q, a, b, c) == 1.0;
    }
  }

  lemma DistributionRows3GiveNormalised(q: seq<real>)
    requires |q| == 64 && ZeroRows(DistributionRows(64, 8, 8), q)
    ensures Normalised3(q)
  {
    forall a, b, c | IsBit(a) && IsBit(b) && IsBit(c)
      ensures Total3(q, a, b, c) == 1.0
    {
      DistributionRow3At(q, a, b, c);
      ZeroRowAt(DistributionRows(64, 8, 8), q, 4 * a + 2 * b + c);
    }
  }

  /** A point satisfies the system of three_players exactly when it is a
      no-signalling conditional distribution of three binary players. */
  lemma ThreePlayerFeasible(q: seq<real>)
    ensures Feasible(ThreePlayerSystem(), q) <==> NoSignallingPoint3(q)
  {
    if |q| == 64 {
      PositivityRowsMeaning(64, q);
      NsRows3Meaning(q);
      if Normalised3(q) {
        DistributionRows3FromNormalised(q);
      }
      if ZeroRows(DistributionRows(64, 8, 8), q) {
        DistributionRows3GiveNormalised(q);
      }
    }
  }

  // ---------------------------------------------------------------------
  // Deterministic strategies.

  /** The 64-vector of the product point of (fa, fb, fc). */
  function ProductPoint(fa: BinFunc, fb: BinFunc, fc: BinFunc): (q: seq<real>)
    ensures |q| == 64
  {
    seq(64, (p: int) requires 0 <= p < 64 => ProductStrategy(fa, fb, fc, Unflat6(p)))
  }

  lemma ProductCell(fa: BinFunc, fb: BinFunc, fc: BinFunc, t: Six)
    requires IsBinary(t)
    ensures Cell6(ProductPoint(fa, fb, fc), t) == ProductStrategy(fa, fb, fc, t)
  {
    Flat6Bijection(t);
  }

  /** q holds the product strategy of (fa, fb, fc) in every binary cell. */
  ghost predicate IsProduct(q: seq<real>, fa: BinFunc, fb: BinFunc, fc: BinFunc)
  {
    forall t :: IsBinary(t) ==> Cell6(q, t) == ProductStrategy(fa, fb, fc, t)
  }

  lemma ProductPointIsProduct(fa: BinFunc, fb: BinFunc, fc: BinFunc)
    ensures IsProduct(ProductPoint(fa, fb, fc), fa, fb, fc)
  {
    forall t | IsBinary(t)
      ensures Cell6(ProductPoint(fa, fb, fc), t) == ProductStrategy(fa, fb, fc, t)
    {
      ProductCell(fa, fb, fc, t);
    }
  }

  /** The product strategy of the two parties other than P at their outputs
      and inputs bs: 1 when both answer as their functions say. */
  function OthersAnswer(fa: BinFunc, fb: BinFunc, fc: BinFunc, P: nat, bs: seq<int>): real
    requires |bs| == 4
  {
    var f1 := if P == 0 then fb else fa;
    var f2 := if P == 2 then fb else fc;
    if bs[0] == Apply(f1, bs[2]) && bs[1] == Apply(f2, bs[3]) then 1.0 else 0.0
  }

  lemma ProductCell3(fa: BinFunc, fb: BinFunc, fc: BinFunc, P: nat, bs: seq<int>, x: int, v: int)
    requires P < 3 && |bs| == 4
    ensures ProductStrategy(fa, fb, fc, Cell3(P, bs, x, v))
         == if x == Apply(if P == 0 then fa else if P == 1 then fb else fc, v) && OthersAnswer(fa, fb, fc, P, bs) == 1.0
            then 1.0 else 0.0
  {
  }

  /** Of party P's two outputs exactly one is P's answer. */
  lemma AnswerSplit(fa: BinFunc, fb: BinFunc, fc: BinFunc, P: nat, bs: seq<int>, v: int)
    requires P < 3 && |bs| == 4 && IsBit(v)
    ensures ProductStrategy(fa, fb, fc, Cell3(P, bs, 0, v)) + ProductStrategy(fa, fb, fc, Cell3(P, bs, 1, v))
         == OthersAnswer(fa, fb, fc, P, bs)
  {
    ProductCell3(fa, fb, fc, P, bs, 0, v);
    ProductCell3(fa, fb, fc, P, bs, 1, v);
    ApplyIsBit(if P == 0 then fa else if P == 1 then fb else fc, v);
  }

  /** So the others' marginal of a product point is their own product
      strategy, whatever P's input. */
  lemma ProductMarginal(q: seq<real>, fa: BinFunc, fb: BinFunc, fc: BinFunc, P: nat, bs: seq<int>, v: int)
    requires IsProduct(q, fa, fb, fc)
    requires P < 3 && |bs| == 4 && AllBits(bs) && IsBit(v)
    ensures Marginal3(q, P, bs, v) == OthersAnswer(fa, fb, fc, P, bs)
  {
    Cell3Binary(P, bs, 0, v);
    Cell3Binary(P, bs, 1, v);
    AnswerSplit(fa, fb, fc, P, bs, v);
  }

  /** j == 4u + 2v + w exactly when u, v, w are the three bits of j. */
  lemma TripleBits(j: nat, u: int, v: int, w: int)
    requires j < 8 && IsBit(u) && IsBit(v) && IsBit(w)
    ensures (j == 4 * u + 2 * v + w) == (j / 4 == u && (j / 2) % 2 == v && j % 2 == w)
  {
    assert j == 4 * (j / 4) + 2 * ((j / 2) % 2) + j % 2;
  }

  /** Output triple j of a product point carries 1 exactly when j spells the three answers. */
  lemma ProductOutputTriple(q: seq<real>, fa: BinFunc, fb: BinFunc, fc: BinFunc, j: nat, a: int, b: int, c: int)
    requires IsProduct(q, fa, fb, fc)
    requires j < 8 && IsBit(a) && IsBit(b) && IsBit(c)
    ensures Cell6(q, OutputTriple(j, a, b, c))
         == if j == 4 * Apply(fa, a) + 2 * Apply(fb, b) + Apply(fc, c) then 1.0 else 0.0
  {
    ApplyIsBit(fa, a);
    ApplyIsBit(fb, b);
    ApplyIsBit(fc, c);
    assert IsBinary(OutputTriple(j, a, b, c));
    TripleBits(j, Apply(fa, a), Apply(fb, b), Apply(fc, c));
  }

  lemma ProductTotal(q: seq<real>, fa: BinFunc, fb: BinFunc, fc: BinFunc, a: int, b: int, c: int)
    requires IsProduct(q, fa, fb, fc)
    requires IsBit(a) && IsBit(b) && IsBit(c)
    ensures Total3(q, a, b, c) == 1.0
  {
    var hit := 4 * Apply(fa, a) + 2 * Apply(fb, b) + Apply(fc, c);
    ApplyIsBit(fa, a);
    ApplyIsBit(fb, b);
    ApplyIsBit(fc, c);
    var f := (j: nat) => Cell6(q, OutputTriple(j, a, b, c));
    forall j: nat | j < 8
      ensures f(j) == if j == hit then 1.0 else 0.0
    {
      ProductOutputTriple(q, fa, fb, fc, j, a, b, c);
    }
    SumOfOneHot(8, hit, f);
  }

  /** Deterministic classical strategies are no-signalling points, so they
      satisfy every row of three_players. */
  lemma ProductIsFeasible(fa: BinFunc, fb: BinFunc, fc: BinFunc)
    ensures NoSignallingPoint3(ProductPoint(fa, fb, fc))
    ensures Feasible(ThreePlayerSystem(), ProductPoint(fa, fb, fc))
  {
    var q := ProductPoint(fa, fb, fc);
    ProductPointIsProduct(fa, fb, fc);
    forall p | 0 <= p < 64
      ensures q[p] >= 0.0
    {
    }
    forall P: nat, bs: seq<int> | P < 3 && |bs| == 4 && AllBits(bs)
      ensures Marginal3(q, P, bs, 0) == Marginal3(q, P, bs, 1)
    {
      ProductMarginal(q, fa, fb, fc, P, bs, 0);
      ProductMarginal(q, fa, fb, fc, P, bs, 1);
    }
    forall a, b, c | IsBit(a) && IsBit(b) && IsBit(c)
      ensures Total3(q, a, b, c) == 1.0
    {
      ProductTotal(q, fa, fb, fc, a, b, c);
    }
    ThreePlayerFeasible(q);
  }
}
