/** The linear program of find_max_win_prob in no-signalling.py: the best
    winning probability of a uniform game over any no-signalling strategy of
    three binary players, and the sweep in its main block. The program is
    data; the solver is a parameter. */
module NoSignallingLp {
  import opened Sums
  import opened Index
  import opened Rows
  import opened Polytope
  import opened PolytopeProps
  import opened ThreePlayerProps
  import opened Games
  import opened Classical
  import opened Lp

  // ---------------------------------------------------------------------
  // The program.

  /** The no-signalling equality of party P at the others' bits bs: the two
      cells of P's outputs at input 0, minus the two at input 1, is 0. */
  function NsConstraint(P: nat, bs: seq<int>): Constraint
    requires P < 3 && |bs| == 4
  {
    Constraint([Term(Flat6(Cell3(P, bs, 0, 0)), 1.0), Term(Flat6(Cell3(P, bs, 1, 0)), 1.0),
                Term(Flat6(Cell3(P, bs, 0, 1)), -1.0), Term(Flat6(Cell3(P, bs, 1, 1)), -1.0)],
               0.0, Equal)
  }

  /** The 48 equalities of the three loops: A, then B, then C, each over the
      4-bit strings of 0 .. 15. */
  function NsConstraints(): seq<Constraint>
  {
    seq(48, (r: int) requires 0 <= r < 48 => NsConstraint(r / 16, ToBits(r % 16, 4)))
  }

  /** For input triple i: the sum of q(j | i) over the eight output triples j is 1. */
  function NormConstraint(i: nat): Constraint
  {
    Constraint(seq(8, (j: int) requires 0 <= j < 8 => Term(8 * j + i, 1.0)), -1.0, Equal)
  }

  function NormConstraints(): seq<Constraint>
  {
    seq(8, (i: int) requires 0 <= i < 8 => NormConstraint(i))
  }

  /** The variable of q(x, x, x | a, b, c) for a binary combination:
      `int(3*str(x) + str(a) + str(b) + str(c), 2)`. */
  function DiagonalIndex(e: Combo): int
  {
    BitsValue([e.x, e.x, e.x, e.a, e.b, e.c])
  }

  /** One term per element of the subset, each with the given multiplier. */
  function ObjectiveTerms(s: seq<Combo>, m: real): (r: seq<Term>)
    ensures |r| == |s|
  {
    seq(|s|, (k: int) requires 0 <= k < |s| => Term(DiagonalIndex(s[k]), m))
  }

  /** Σ_comb 1/len(subset) · q(x, x, x | a, b, c). */
  function Objective(subset: seq<Combo>): seq<Term>
    requires |subset| > 0
  {
    ObjectiveTerms(subset, 1.0 / |subset| as real)
  }

  /** The program find_max_win_prob builds, for a non-empty subset of binary
      combinations. */
  function NsProgram(subset: seq<Combo>): Program
    requires |subset| > 0 && AllBinary(subset)
  {
    Program(64, NsConstraints() + NormConstraints(), Objective(subset))
  }

  /** Row i of the source's first loop body, built from the strings it formats. */
  method NsConstraintOf(P: nat, i: nat) returns (c: Constraint)
    requires P < 3 && i < 16
    ensures c == NsConstraint(P, ToBits(i, 4))
  {
    var bitstring := ToBits(i, 4);
    var b0, b1, b2, b3 := bitstring[0], bitstring[1], bitstring[2], bitstring[3];
    if P == 0 {
      NsWrites3LiteralA(bitstring);
      c := Constraint([Term(BitsValue([0, b0, b1, 0, b2, b3]), 1.0), Term(BitsValue([1, b0, b1, 0, b2, b3]), 1.0),
                       Term(BitsValue([0, b0, b1, 1, b2, b3]), -1.0), Term(BitsValue([1, b0, b1, 1, b2, b3]), -1.0)],
                      0.0, Equal);
    } else if P == 1 {
      NsWrites3LiteralB(bitstring);
      c := Constraint([Term(BitsValue([b0, 0, b1, b2, 0, b3]), 1.0), Term(BitsValue([b0, 1, b1, b2, 0, b3]), 1.0),
                       Term(BitsValue([b0, 0, b1, b2, 1, b3]), -1.0), Term(BitsValue([b0, 1, b1, b2, 1, b3]), -1.0)],
                      0.0, Equal);
    } else {
      NsWrites3LiteralC(bitstring);
      c := Constraint([Term(BitsValue([b0, b1, 0, b2, b3, 0]), 1.0), Term(BitsValue([b0, b1, 1, b2, b3, 0]), 1.0),
                       Term(BitsValue([b0, b1, 0, b2, b3, 1]), -1.0), Term(BitsValue([b0, b1, 1, b2, b3, 1]), -1.0)],
                      0.0, Equal);
    }
  }

  lemma NsConstraintsSnoc(constraints: seq<Constraint>, P: nat, i: nat, c: Constraint)
    requires P < 3 && i < 16 && constraints == NsConstraints()[..16 * P + i]
    requires c == NsConstraint(P, ToBits(i, 4))
    ensures constraints + [c] == NsConstraints()[..16 * P + i + 1]
  {
    var r := 16 * P + i;
    DivMod(P, i, 16);
    assert NsConstraints()[r] == c;
    PrefixSnoc(NsConstraints(), r);
  }

  /** The normalisation constraint of condition i, with the variable
      `int('{0:03b}'.format(j) + bitstring, 2)` for output triple j. */
  method NormConstraintOf(i: nat) returns (c: Constraint)
    requires i < 8
    ensures c == NormConstraint(i)
  {
    var terms := seq(8, (j: int) requires 0 <= j < 8 => Term(BitsValue(ToBits(j, 3) + ToBits(i, 3)), 1.0));
    forall j | 0 <= j < 8
      ensures terms[j] == Term(8 * j + i, 1.0)
    {
      ConcatIndex(j, i, 3);
    }
    c := Constraint(terms, -1.0, Equal);
  }

  /** find_max_win_prob: build the 64 variables' constraints and the objective
      as the source does, then hand the model to the solver. */
  method FindMaxWinProb(subset: seq<Combo>, solve: Program -> real) returns (value: real)
    requires |subset| > 0 && AllBinary(subset)
    ensures value == solve(NsProgram(subset))
  {
    var constraints: seq<Constraint> := [];
    for P := 0 to 3
      invariant constraints == NsConstraints()[..16 * P]
    {
      for i := 0 to 16
        invariant constraints == NsConstraints()[..16 * P + i]
      {
        var c := NsConstraintOf(P, i);
        NsConstraintsSnoc(constraints, P, i, c);
        constraints := constraints + [c];
      }
    }
    assert NsConstraints()[..48] == NsConstraints();
    for i := 0 to 8
      invariant constraints == NsConstraints() + NormConstraints()[..i]
    {
      var c := NormConstraintOf(i);
      assert NormConstraints()[..i + 1] == NormConstraints()[..i] + [c];
      constraints := constraints + [c];
    }
    assert NormConstraints()[..8] == NormConstraints();
    var multiplier := 1.0 / |subset| as real;
    var objFunc := seq(|subset|, (k: int) requires 0 <= k < |subset| => Term(DiagonalIndex(subset[k]), multiplier));
    var model := Program(64, constraints, objFunc);
    value := solve(model);
  }

  // ---------------------------------------------------------------------
  // What the program means.

  /** q(x, x, x | a, b, c) sits at 56x + 4a + 2b + c. */
  lemma DiagonalIndexIsFlat(e: Combo)
    ensures DiagonalIndex(e) == Flat6(Six(e.x, e.x, e.x, e.a, e.b, e.c)) == 56 * e.x + 4 * e.a + 2 * e.b + e.c
  {
    BitsValue6([e.x, e.x, e.x, e.a, e.b, e.c]);
  }

  /** Each no-signalling equality uses the four variables and signs of the
      matching row of three_players, whose columns are shifted by one, and
      has the same value at every point. */
  lemma NsConstraintIsRow(P: nat, bs: seq<int>, q: seq<real>)
    requires P < 3 && |bs| == 4 && AllBits(bs) && |q| == 64
    ensures |NsConstraint(P, bs).terms| == |NsWrites3(P, bs)| == 4
    ensures forall k :: 0 <= k < 4 ==>
      NsConstraint(P, bs).terms[k].v + 1 == NsWrites3(P, bs)[k].pos
      && NsConstraint(P, bs).terms[k].coef == NsWrites3(P, bs)[k].coef as real
    ensures Eval(NsConstraint(P, bs).terms, q) == Value(NsRow3(P, bs), q)
  {
    var p00, p10 := Flat6(Cell3(P, bs, 0, 0)), Flat6(Cell3(P, bs, 1, 0));
    var p01, p11 := Flat6(Cell3(P, bs, 0, 1)), Flat6(Cell3(P, bs, 1, 1));
    var t00, t10, t01, t11 := Term(p00, 1.0), Term(p10, 1.0), Term(p01, -1.0), Term(p11, -1.0);
    assert NsConstraint(P, bs).terms == [t00, t10, t01, t11];
    NsWrites3Shape(P, bs);
    Eval4(t00, t10, t01, t11, q);
    NsRow3Cells(P, bs, q);
  }

  /** The normalisation of condition i holds exactly where distribution row i of
      three_players is 0. */
  lemma NormConstraintIsRow(i: nat, q: seq<real>)
    requires i < 8 && |q| == 64
    ensures Holds(NormConstraint(i), q) <==> Value(DistributionRow(64, 8, 8, i), q) == 0.0
  {
    var g := (j: nat) => At(q, j * 8 + i);
    var f := (j: nat) => 8 * j + i;
    EvalUniform(8, f, 1.0, q, g);
    assert NormConstraint(i).terms == seq(8, (j: int) requires 0 <= j < 8 => Term(f(j), 1.0));
    DistributionValue(64, 8, 8, i, q);
    SumOfCongruent(8, g, (j: nat) => At(q, j * 8 + i));
  }

  lemma NsConstraintsMeaning(q: seq<real>)
    requires |q| == 64
    ensures (forall k :: 0 <= k < 48 ==> Holds(NsConstraints()[k], q)) <==> ZeroRows(NsRows3(), q)
  {
    forall r | 0 <= r < 48
      ensures Holds(NsConstraints()[r], q) <==> Value(NsRows3()[r], q) == 0.0
    {
      NsConstraintIsRow(r / 16, ToBits(r % 16, 4), q);
    }
  }

  lemma NormConstraintsMeaning(q: seq<real>)
    requires |q| == 64
    ensures (forall k :: 0 <= k < 8 ==> Holds(NormConstraints()[k], q)) <==> ZeroRows(DistributionRows(64, 8, 8), q)
  {
    forall i | 0 <= i < 8
      ensures Holds(NormConstraints()[i], q) <==> Value(DistributionRows(64, 8, 8)[i], q) == 0.0
    {
      NormConstraintIsRow(i, q);
    }
  }

  /** The feasible region of the program is the no-signalling polytope that
      three_players describes to cdd: the no-signalling conditional
      distributions of three binary players. */
  lemma NsProgramFeasible(subset: seq<Combo>, q: seq<real>)
    requires |subset| > 0 && AllBinary(subset)
    ensures Satisfies(NsProgram(subset), q) <==> Feasible(ThreePlayerSystem(), q)
    ensures Satisfies(NsProgram(subset), q) <==> NoSignallingPoint3(q)
  {
    ThreePlayerFeasible(q);
    var obj := Objective(subset);
    SatisfiesAppend(64, NsConstraints(), NormConstraints(), obj, q);
    if |q| == 64 {
      NsConstraintsMeaning(q);
      NormConstraintsMeaning(q);
      PositivityRowsMeaning(64, q);
    }
  }

  /** At the product point of (f, g, h), the diagonal cell of a binary
      combination is 1 exactly when the triple wins it. */
  lemma ProductAtDiagonal(f: BinFunc, g: BinFunc, h: BinFunc, e: Combo)
    requires IsBinaryCombo(e)
    ensures At(ProductPoint(f, g, h), DiagonalIndex(e)) == if Wins(f, g, h, e) then 1.0 else 0.0
  {
    DiagonalIndexIsFlat(e);
    ProductCell(f, g, h, Six(e.x, e.x, e.x, e.a, e.b, e.c));
  }

  /** The indicator of the wins of (f, g, h) along s. */
  function WinMarks(f: BinFunc, g: BinFunc, h: BinFunc, s: seq<Combo>): nat -> real
  {
    (k: nat) => if k < |s| && Wins(f, g, h, s[k]) then 1.0 else 0.0
  }

  /** The diagonal cells of q carry the win marks of (f, g, h) along s. */
  predicate DiagonalMarks(q: seq<real>, f: BinFunc, g: BinFunc, h: BinFunc, s: seq<Combo>)
  {
    forall i: nat :: i < |s| ==> WinMarks(f, g, h, s)(i) == At(q, DiagonalIndex(s[i]))
  }

  /** The number of wins is the sum of their indicator. */
  lemma {:induction false} WinCountIsSum(f: BinFunc, g: BinFunc, h: BinFunc, s: seq<Combo>)
    ensures WinCount(f, g, h, s) as real == SumOf(|s|, WinMarks(f, g, h, s))
  {
    var n := |s|;
    if n > 0 {
      var init := s[..n - 1];
      WinCountIsSum(f, g, h, init);
      SumOfCongruent(n - 1, WinMarks(f, g, h, s), WinMarks(f, g, h, init));
    }
  }

  /** At the product point of (f, g, h), the diagonal cells carry the win marks
      of every sequence of binary combinations. */
  lemma ProductMarks(f: BinFunc, g: BinFunc, h: BinFunc, s: seq<Combo>)
    requires AllBinary(s)
    ensures DiagonalMarks(ProductPoint(f, g, h), f, g, h, s)
  {
    forall i: nat | i < |s|
      ensures WinMarks(f, g, h, s)(i) == At(ProductPoint(f, g, h), DiagonalIndex(s[i]))
    {
      ProductAtDiagonal(f, g, h, s[i]);
    }
  }

  /** Where the diagonal cells mark the wins of (f, g, h), terms with coefficient m
      on the diagonal cells of s are worth m times the number of wins on s. */
  lemma ObjectiveTermsAt(f: BinFunc, g: BinFunc, h: BinFunc, s: seq<Combo>, m: real, q: seq<real>)
    requires DiagonalMarks(q, f, g, h, s)
    ensures Eval(ObjectiveTerms(s, m), q) == m * WinCount(f, g, h, s) as real
  {
    var ts, marks := ObjectiveTerms(s, m), WinMarks(f, g, h, s);
    EvalSameCoef(ts, m, q, marks);
    WinCountIsSum(f, g, h, s);
    assert |ts| == |s|;
    ScaleEqual(m, SumOf(|ts|, marks), WinCount(f, g, h, s) as real);
  }

  lemma ScaleEqual(m: real, a: real, b: real)
    requires a == b
    ensures m * a == m * b
  {
  }

  lemma Distribute(m: real, c: real, w: real, c': real)
    requires c' == c + w
    ensures m * c' == m * c + m * w
  {
  }

  /** 1/len(s) times the number of wins is the winning probability. */
  lemma ScaledWinProb(f: BinFunc, g: BinFunc, h: BinFunc, s: seq<Combo>, e: real)
    requires |s| > 0 && e == 1.0 / |s| as real * WinCount(f, g, h, s) as real
    ensures e == WinProb(f, g, h, s)
  {
    var n, c := |s| as real, WinCount(f, g, h, s) as real;
    assert e == c / n by {
      Reciprocal(c, n);
    }
  }

  lemma Reciprocal(a: real, n: real)
    requires n > 0.0
    ensures 1.0 / n * a == a / n
  {
  }

  /** Where the diagonal cells mark the wins of (f, g, h), the objective is
      1/len(subset) times the number of wins. */
  lemma ObjectiveScaledWins(f: BinFunc, g: BinFunc, h: BinFunc, subset: seq<Combo>, q: seq<real>)
    requires |subset| > 0 && DiagonalMarks(q, f, g, h, subset)
    ensures Eval(Objective(subset), q) == 1.0 / |subset| as real * WinCount(f, g, h, subset) as real
  {
    ObjectiveTermsAt(f, g, h, subset, 1.0 / |subset| as real, q);
  }

  /** Where the diagonal cells mark the wins of (f, g, h), the objective is
      that triple's winning probability. */
  lemma ObjectiveAtWins(f: BinFunc, g: BinFunc, h: BinFunc, subset: seq<Combo>, q: seq<real>)
    requires |subset| > 0 && DiagonalMarks(q, f, g, h, subset)
    ensures Eval(Objective(subset), q) == WinProb(f, g, h, subset)
  {
    ObjectiveScaledWins(f, g, h, subset, q);
    ScaledWinProb(f, g, h, subset, Eval(Objective(subset), q));
  }

  /** The objective at the product point of a classical strategy is that
      strategy's winning probability, as Classical.find_win_prob computes it. */
  lemma ObjectiveAtProduct(f: BinFunc, g: BinFunc, h: BinFunc, subset: seq<Combo>)
    requires |subset| > 0 && AllBinary(subset)
    ensures Eval(Objective(subset), ProductPoint(f, g, h)) == WinProb(f, g, h, subset)
  {
    ProductMarks(f, g, h, subset);
    ObjectiveAtWins(f, g, h, subset, ProductPoint(f, g, h));
  }

  /** Number of elements of s whose diagonal variable is v. */
  function Occurrences(s: seq<Combo>, v: int): nat
  {
    if |s| == 0 then 0 else Occurrences(s[..|s| - 1], v) + (if DiagonalIndex(s[|s| - 1]) == v then 1 else 0)
  }

  lemma {:induction false} ObjectiveTermsCoefficient(s: seq<Combo>, m: real, v: int)
    ensures CoefficientOf(ObjectiveTerms(s, m), v) == m * Occurrences(s, v) as real
  {
    var ts := ObjectiveTerms(s, m);
    if |s| == 0 {
      assert CoefficientOf(ts, v) == 0.0;
    } else {
      var init := s[..|s| - 1];
      ObjectiveTermsCoefficient(init, m, v);
      assert ts[..|s| - 1] == ObjectiveTerms(init, m);
      assert ts[|s| - 1] == Term(DiagonalIndex(s[|s| - 1]), m);
      var o := if DiagonalIndex(s[|s| - 1]) == v then 1.0 else 0.0;
      assert CoefficientOf(ts, v) == CoefficientOf(ObjectiveTerms(init, m), v) + m * o;
      Distribute(m, Occurrences(init, v) as real, o, Occurrences(s, v) as real);
    }
  }

  lemma {:induction false} ObjectiveTermsCoefSum(s: seq<Combo>, m: real)
    ensures CoefSum(ObjectiveTerms(s, m)) == m * |s| as real
  {
    var ts := ObjectiveTerms(s, m);
    if |s| == 0 {
      assert CoefSum(ts) == 0.0;
    } else {
      var init := s[..|s| - 1];
      ObjectiveTermsCoefSum(init, m);
      assert ts[..|s| - 1] == ObjectiveTerms(init, m);
      assert ts[|s| - 1].coef == m;
      assert CoefSum(ts) == CoefSum(ObjectiveTerms(init, m)) + m;
      Distribute(m, |init| as real, 1.0, |s| as real);
    }
  }

  /** Every element adds 1/len(subset) to the coefficient of its diagonal
      variable, duplicates accumulating, and the coefficients sum to 1. */
  lemma ObjectiveCoefficients(subset: seq<Combo>, v: int)
    requires |subset| > 0
    ensures CoefficientOf(Objective(subset), v) == Occurrences(subset, v) as real / |subset| as real
    ensures CoefSum(Objective(subset)) == 1.0
  {
    var n := |subset| as real;
    var o := Occurrences(subset, v) as real;
    ObjectiveTermsCoefficient(subset, 1.0 / n, v);
    ObjectiveTermsCoefSum(subset, 1.0 / n);
    Reciprocal(o, n);
    Reciprocal(n, n);
    assert CoefficientOf(Objective(subset), v) == 1.0 / n * o;
    assert CoefSum(Objective(subset)) == 1.0 / n * n;
  }

  /** Every classical strategy is no-signalling, so any bound the solver
      reports is at least the classical optimum of Classical.py. */
  lemma NoSignallingAtLeastClassical(subset: seq<Combo>, v: real)
    requires |subset| > 0 && AllBinary(subset)
    requires UpperBound(NsProgram(subset), v)
    ensures v >= OptimalValue(subset)
  {
    OptimalIsBestTriple(subset);
    var f, g, h :| OptimalValue(subset) == WinProb(f, g, h, subset);
    var q := ProductPoint(f, g, h);
    ProductIsFeasible(f, g, h);
    NsProgramFeasible(subset, q);
    ObjectiveAtProduct(f, g, h, subset);
  }

  // ---------------------------------------------------------------------
  // The sweep in the main block.

  /** A printed line: both values and the subset. */
  datatype Report = Report(ns: real, classical: real, subset: seq<Combo>)

  /** The solver returns a bound on the objective of every program it is given. */
  ghost predicate SolverSound(solve: Program -> real)
  {
    forall s: seq<Combo> :: |s| > 0 && AllBinary(s) ==> UpperBound(NsProgram(s), solve(NsProgram(s)))
  }

  /** What the sweep prints for mask i: one report when the two values differ. */
  function SweepLine(solve: Program -> real, i: nat): seq<Report>
    requires 1 <= i < Pow2(16)
  {
    MaskSubsetNonEmpty(i);
    var subset := MaskSubset(i);
    var prob1, prob2 := solve(NsProgram(subset)), OptimalValue(subset);
    if prob1 != prob2 then [Report(prob1, prob2, subset)] else []
  }

  /** The lines printed for masks 1 .. n-1. */
  function SweepReports(solve: Program -> real, n: nat): seq<Report>
    requires n <= Pow2(16)
  {
    if n <= 1 then [] else SweepReports(solve, n - 1) + SweepLine(solve, n - 1)
  }

  lemma {:induction false} SweepReportsFacts(solve: Program -> real, n: nat)
    requires n <= Pow2(16)
    ensures forall k :: 0 <= k < |SweepReports(solve, n)| ==> ReportFacts(solve, SweepReports(solve, n)[k])
  {
    if n > 1 {
      SweepReportsFacts(solve, n - 1);
      var prev, line := SweepReports(solve, n - 1), SweepLine(solve, n - 1);
      SweepLineFacts(solve, n - 1);
      forall k | 0 <= k < |prev + line|
        ensures ReportFacts(solve, (prev + line)[k])
      {
        if k < |prev| {
          assert (prev + line)[k] == prev[k];
        } else {
          assert (prev + line)[k] == line[0];
        }
      }
    }
  }

  /** What each report records. */
  ghost predicate ReportFacts(solve: Program -> real, r: Report)
  {
    |r.subset| > 0 && AllBinary(r.subset) && r.classical == OptimalValue(r.subset)
    && r.ns == solve(NsProgram(r.subset)) && r.ns != r.classical
  }

  lemma SweepLineFacts(solve: Program -> real, i: nat)
    requires 1 <= i < Pow2(16)
    ensures |SweepLine(solve, i)| <= 1
    ensures |SweepLine(solve, i)| == 1 ==> ReportFacts(solve, SweepLine(solve, i)[0])
  {
    MaskSubsetNonEmpty(i);
    var subset := MaskSubset(i);
    var prob1, prob2 := solve(NsProgram(subset)), OptimalValue(subset);
    if prob1 != prob2 {
      assert SweepLine(solve, i) == [Report(prob1, prob2, subset)];
      assert ReportFacts(solve, Report(prob1, prob2, subset));
    } else {
      assert SweepLine(solve, i) == [];
    }
  }

  /** The body of the sweep for mask i. */
  method MaskReport(solve: Program -> real, i: nat) returns (line: seq<Report>)
    requires 1 <= i < Pow2(16)
    ensures line == SweepLine(solve, i)
  {
    var subset := SubsetOfMask(i);
    MaskSubsetNonEmpty(i);
    var prob1 := FindMaxWinProb(subset, solve);
    var prob2 := FindOptimalStrategy(subset);
    if prob1 != prob2 {
      line := [Report(prob1, prob2, subset)];
    } else {
      line := [];
    }
  }

  /** Every printed line shows two different values, and with a sound solver
      the no-signalling one is the larger. */
  lemma ReportsOutcome(solve: Program -> real, reports: seq<Report>)
    requires forall k :: 0 <= k < |reports| ==> ReportFacts(solve, reports[k])
    ensures forall k :: 0 <= k < |reports| ==> reports[k].ns != reports[k].classical
    ensures SolverSound(solve) ==> forall k :: 0 <= k < |reports| ==> reports[k].ns > reports[k].classical
  {
    if SolverSound(solve) {
      forall k | 0 <= k < |reports|
        ensures reports[k].ns > reports[k].classical
      {
        ReportGain(solve, reports[k]);
      }
    }
  }

  lemma ReportGain(solve: Program -> real, r: Report)
    requires SolverSound(solve) && ReportFacts(solve, r)
    ensures r.ns > r.classical
  {
    assert UpperBound(NsProgram(r.subset), solve(NsProgram(r.subset)));
    NoSignallingAtLeastClassical(r.subset, r.ns);
  }

  /** Every line the sweep prints shows two different values, and with a
      sound solver the no-signalling one is the larger. */
  lemma SweepOutcome(solve: Program -> real, n: nat)
    requires n <= Pow2(16)
    ensures forall k :: 0 <= k < |SweepReports(solve, n)| ==>
      SweepReports(solve, n)[k].ns != SweepReports(solve, n)[k].classical
    ensures SolverSound(solve) ==> forall k :: 0 <= k < |SweepReports(solve, n)| ==>
      SweepReports(solve, n)[k].ns > SweepReports(solve, n)[k].classical
  {
    SweepReportsFacts(solve, n);
    ReportsOutcome(solve, SweepReports(solve, n));
  }

  /** The main block of no-signalling.py: for every mask compare the
      no-signalling value with the classical one and report the masks where
      they differ. With a sound solver every report is a strict gain. */
  method NoSignallingSweep(solve: Program -> real) returns (printed: seq<Report>)
    ensures printed == SweepReports(solve, Pow2(16))
  {
    printed := [];
    for i := 1 to Pow2(16)
      invariant printed == SweepReports(solve, i)
    {
      var line := MaskReport(solve, i);
      printed := printed + line;
    }
  }
}
