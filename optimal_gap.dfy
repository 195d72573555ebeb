/** The gap programs of optimal_gap.py: for a list of deterministic and a
    list of no-signalling strategies and one no-signalling strategy singled
    out, find a distribution P over the diagonal inputs under which that
    strategy beats every deterministic one by the largest margin. Each
    strategy is a flattened vector q(xa, xb [, xc] | a, b [, c]); only its
    diagonal entries q(x, x [, x] | inputs) enter the winning probability
    Σ P(x, inputs) · q(x, x [, x] | inputs). The programs are data and the
    solver is a parameter. */
module OptimalGap {
  import opened Sums
  import opened Index
  import opened Lp
  import opened Folds

  // ---------------------------------------------------------------------
  // The three topologies and their diagonal maps.

  /** two_player_binary_LP_pulp, three_player_binary_LP_pulp, two_player_x3_LP_pulp. */
  datatype Topology = TwoBinary | ThreeBinary | TwoX3

  /** The number of distribution variables P(x, inputs): 2·4, 2·8 and 3·4. */
  function Vars(g: Topology): nat
  {
    match g
    case TwoBinary => 8
    case ThreeBinary => 16
    case TwoX3 => 12
  }

  /** The number of input combinations per output x. */
  function Inputs(g: Topology): nat
  {
    match g
    case TwoBinary => 4
    case ThreeBinary => 8
    case TwoX3 => 4
  }

  /** The length of a strategy vector: 16, 64 and 36 entries. */
  function Width(g: Topology): nat
  {
    match g
    case TwoBinary => 16
    case ThreeBinary => 64
    case TwoX3 => 36
  }

  /** The strategy entry variable i = x · Inputs(g) + inputs is multiplied by:
      12x + 2a + b, 56x + 4a + 2b + c and 16x + ab. */
  function Slot(g: Topology, i: nat): nat
  {
    match g
    case TwoBinary => 12 * (i / 4) + i % 4
    case ThreeBinary => 56 * (i / 8) + i % 8
    case TwoX3 => 16 * (i / 4) + i % 4
  }

  /** The variable of max_det, after the distribution variables. */
  function MaxDet(g: Topology): nat { Vars(g) }

  /** The variable of max_ns. */
  function MaxNs(g: Topology): nat { Vars(g) + 1 }

  /** The first bit of a bitstring written r times, then the rest:
      `'{0:0wb}'.format(i)[0]*r + '{0:0wb}'.format(i)[1] + ...`. */
  function FirstRepeated(bits: seq<int>, r: nat): seq<int>
    requires |bits| > 0
  {
    seq(r, _ => bits[0]) + bits[1..]
  }

  lemma ToBits3(i: nat)
    requires i < 8
    ensures ToBits(i, 3) == [i / 4, (i / 2) % 2, i % 2]
  {
    ToBits2(i / 2);
    DivDiv(i, 2, 2);
  }

  lemma ToBits4(i: nat)
    requires i < 16
    ensures ToBits(i, 4) == [i / 8, (i / 4) % 2, (i / 2) % 2, i % 2]
  {
    ToBits3(i / 2);
    DivDiv(i, 2, 4);
    DivDiv(i, 2, 2);
  }

  /** Two players: the bitstring xab names variable 4x + 2a + b, and xxab
      names its strategy entry. */
  lemma TwoBinaryIndex(i: nat)
    requires i < 8
    ensures BitsValue(ToBits(i, 3)) == i
    ensures BitsValue(FirstRepeated(ToBits(i, 3), 2)) == Slot(TwoBinary, i)
  {
    BitsValueOfToBits(i, 3);
    ToBits3(i);
    var s := FirstRepeated(ToBits(i, 3), 2);
    assert s == [i / 4, i / 4, (i / 2) % 2, i % 2];
    BitsValue4(s);
    ThreeBits(i);
  }

  /** Three players: the bitstring xabc names variable 8x + 4a + 2b + c, and
      xxxabc names its strategy entry. */
  lemma ThreeBinaryIndex(i: nat)
    requires i < 16
    ensures BitsValue(ToBits(i, 4)) == i
    ensures BitsValue(FirstRepeated(ToBits(i, 4), 3)) == Slot(ThreeBinary, i)
  {
    BitsValueOfToBits(i, 4);
    ToBits4(i);
    var s := FirstRepeated(ToBits(i, 4), 3);
    assert s == [i / 8, i / 8, i / 8, (i / 4) % 2, (i / 2) % 2, i % 2];
    BitsValue6(s);
    BitsValue4(ToBits(i, 4));
  }

  /** Each variable's strategy entry lies inside the strategy vector. */
  lemma SlotInRange(g: Topology, i: nat)
    requires i < Vars(g)
    ensures Slot(g, i) < Width(g)
  {
  }

  /** Two players, binary: the entry of P(x, a, b) is q(x, x | a, b) of the
      two_players layout, ((2x + x)·2 + a)·2 + b. */
  lemma TwoBinarySlotIsDiagonal(x: int, a: int, b: int)
    requires IsBit(x) && IsBit(a) && IsBit(b)
    ensures 4 * x + 2 * a + b < Vars(TwoBinary)
    ensures Slot(TwoBinary, 4 * x + 2 * a + b) == Flat2(BinaryLayout, Quad(x, x, a, b)) == 12 * x + 2 * a + b
  {
    DivMod(x, 2 * a + b, 4);
    assert Flat2(BinaryLayout, Quad(x, x, a, b)) == ((x * 2 + x) * 2 + a) * 2 + b;
  }

  /** Three players, binary: the entry of P(x, a, b, c) is q(x, x, x | a, b, c)
      of the three_players layout. */
  lemma ThreeBinarySlotIsDiagonal(x: int, a: int, b: int, c: int)
    requires IsBit(x) && IsBit(a) && IsBit(b) && IsBit(c)
    ensures 8 * x + 4 * a + 2 * b + c < Vars(ThreeBinary)
    ensures Slot(ThreeBinary, 8 * x + 4 * a + 2 * b + c) == Flat6(Six(x, x, x, a, b, c)) == 56 * x + 4 * a + 2 * b + c
  {
    DivMod(x, 4 * a + 2 * b + c, 8);
  }

  /** Two players with |X| = 3: the entry 16x + ab of P(x, ab) is
      q(x, x | a, b) of the two_players_x3 layout, (3x + x)·4 + (2a + b). */
  lemma TwoX3SlotIsDiagonal(x: int, ab: int)
    requires 0 <= x < 3 && 0 <= ab < 4
    ensures 4 * x + ab < Vars(TwoX3)
    ensures Slot(TwoX3, 4 * x + ab) == 16 * x + ab == Flat2(X3Layout, Quad(x, x, ab / 2, ab % 2))
  {
    DivMod(x, ab, 4);
    assert Flat2(X3Layout, Quad(x, x, ab / 2, ab % 2)) == ((x * 3 + x) * 2 + ab / 2) * 2 + ab % 2;
  }

  // ---------------------------------------------------------------------
  // The programs.

  /** Every strategy vector is long enough for the entries the program reads. */
  predicate Sized(strats: seq<seq<real>>, w: nat)
  {
    forall k :: 0 <= k < |strats| ==> |strats[k]| >= w
  }

  /** The constraint added after the strategy constraints: `max_ns - max_det >= 0`
      for "gap", `max_ns - ratio·max_det >= 0` for "ratio",
      `3·max_ns - 3·bias·max_det + (bias - 1) >= 0` for "bias", and none for
      any other value of maximize. The caller passes ratio and bias; the
      defaults of ratio_value and bias_value, 0.5/0.4 and 0.5/0.2, are the
      doubles 1.25 and 2.5 exactly. */
  datatype Maximize = Gap | Ratio(ratio: real) | Bias(bias: real) | Other

  /** -strategy[Slot(g, i)] · variables[i] for every distribution variable:
      the sum the source subtracts from max_det or max_ns. */
  function PayoffTerms(g: Topology, s: seq<real>): (r: seq<Term>)
    ensures |r| == Vars(g)
  {
    seq(Vars(g), (i: int) requires 0 <= i < Vars(g) => Term(i, -At(s, Slot(g, i))))
  }

  /** Σ_i variables[i] = 1. */
  function NormRow(g: Topology): Constraint
  {
    Constraint(seq(Vars(g), (i: int) requires 0 <= i < Vars(g) => Term(i, 1.0)), -1.0, Equal)
  }

  /** variables[v] - Σ_i strategy[Slot(g, i)] · variables[i], compared with 0 by rel. */
  function StrategyRow(g: Topology, v: nat, s: seq<real>, rel: Relation): Constraint
  {
    Constraint([Term(v, 1.0)] + PayoffTerms(g, s), 0.0, rel)
  }

  /** max_det dominates every deterministic strategy. */
  function DetRows(g: Topology, det: seq<seq<real>>): (r: seq<Constraint>)
    ensures |r| == |det|
  {
    seq(|det|, (k: int) requires 0 <= k < |det| => StrategyRow(g, MaxDet(g), det[k], AtLeast))
  }

  /** max_ns equals strategy eq and dominates every other no-signalling strategy. */
  function NsRows(g: Topology, ns: seq<seq<real>>, eq: int): (r: seq<Constraint>)
    ensures |r| == |ns|
  {
    seq(|ns|, (j: int) requires 0 <= j < |ns| => StrategyRow(g, MaxNs(g), ns[j], if j == eq then Equal else AtLeast))
  }

  function ModeRows(g: Topology, m: Maximize): seq<Constraint>
  {
    match m
    case Gap => [Constraint([Term(MaxNs(g), 1.0), Term(MaxDet(g), -1.0)], 0.0, AtLeast)]
    case Ratio(ratio) => [Constraint([Term(MaxNs(g), 1.0), Term(MaxDet(g), -ratio)], 0.0, AtLeast)]
    case Bias(bias) => [Constraint([Term(MaxNs(g), 3.0), Term(MaxDet(g), -(bias * 3.0))], bias - 1.0, AtLeast)]
    case Other => []
  }

  /** max_ns - max_det. */
  function GapObjective(g: Topology): seq<Term>
  {
    [Term(MaxNs(g), 1.0), Term(MaxDet(g), -1.0)]
  }

  /** The whole model, constraints in the order the source adds them. */
  function GapProgram(g: Topology, det: seq<seq<real>>, ns: seq<seq<real>>, eq: int, m: Maximize): Program
  {
    Program(Vars(g) + 2, [NormRow(g)] + DetRows(g, det) + NsRows(g, ns, eq) + ModeRows(g, m), GapObjective(g))
  }

  // ---------------------------------------------------------------------
  // Building the programs as the source does.

  /** The comprehension inside each strategy constraint, with the index
      formulas of the source: bitstrings for the binary topologies, 16x + ab
      over `for x in range(3) for ab in range(4)` for |X| = 3. */
  method StrategyTerms(g: Topology, s: seq<real>) returns (ts: seq<Term>)
    requires |s| >= Width(g)
    ensures ts == PayoffTerms(g, s)
  {
    match g
    case TwoBinary =>
      forall i | 0 <= i < 8
        ensures BitsValue(ToBits(i, 3)) == i && BitsValue(FirstRepeated(ToBits(i, 3), 2)) == Slot(g, i)
      {
        TwoBinaryIndex(i);
      }
      ts := seq(8, (i: int) requires 0 <= i < 8 =>
                   Term(BitsValue(ToBits(i, 3)), -s[BitsValue(FirstRepeated(ToBits(i, 3), 2))]));
    case ThreeBinary =>
      forall i | 0 <= i < 16
        ensures BitsValue(ToBits(i, 4)) == i && BitsValue(FirstRepeated(ToBits(i, 4), 3)) == Slot(g, i)
      {
        ThreeBinaryIndex(i);
      }
      ts := seq(16, (i: int) requires 0 <= i < 16 =>
                    Term(BitsValue(ToBits(i, 4)), -s[BitsValue(FirstRepeated(ToBits(i, 4), 3))]));
    case TwoX3 =>
      ts := seq(12, (t: int) requires 0 <= t < 12 => var x, ab := t / 4, t % 4; Term(4 * x + ab, -s[16 * x + ab]));
  }

  /** The normalisation, the deterministic and the no-signalling constraints,
      accumulated with `model +=` in the source's order. */
  method StrategyConstraints(g: Topology, det: seq<seq<real>>, ns: seq<seq<real>>, eq: int)
    returns (constraints: seq<Constraint>)
    requires Sized(det, Width(g)) && Sized(ns, Width(g))
    ensures constraints == [NormRow(g)] + DetRows(g, det) + NsRows(g, ns, eq)
  {
    var variables := seq(Vars(g), (i: int) requires 0 <= i < Vars(g) => Term(i, 1.0));
    constraints := [Constraint(variables, -1.0, Equal)];
    for k := 0 to |det|
      invariant constraints == [NormRow(g)] + DetRows(g, det)[..k]
    {
      var ts := StrategyTerms(g, det[k]);
      PrefixSnoc(DetRows(g, det), k);
      constraints := constraints + [Constraint([Term(MaxDet(g), 1.0)] + ts, 0.0, AtLeast)];
    }
    assert DetRows(g, det)[..|det|] == DetRows(g, det);
    for j := 0 to |ns|
      invariant constraints == [NormRow(g)] + DetRows(g, det) + NsRows(g, ns, eq)[..j]
    {
      var ts := StrategyTerms(g, ns[j]);
      PrefixSnoc(NsRows(g, ns, eq), j);
      if j == eq {
        constraints := constraints + [Constraint([Term(MaxNs(g), 1.0)] + ts, 0.0, Equal)];
      } else {
        constraints := constraints + [Constraint([Term(MaxNs(g), 1.0)] + ts, 0.0, AtLeast)];
      }
    }
    assert NsRows(g, ns, eq)[..|ns|] == NsRows(g, ns, eq);
  }

  /** What the solver reports: model.status (1 is "Optimal") and
      model.objective.value(). */
  datatype Outcome = Outcome(status: int, objective: real)

  const Optimal := 1

  /** two_player_binary_LP_pulp: the model handed to the solver, whose
      objective value is returned whatever the status. */
  method TwoPlayerBinaryLp(det: seq<seq<real>>, ns: seq<seq<real>>, setToEquality: int, solve: Program -> Outcome)
    returns (value: real)
    requires Sized(det, 16) && Sized(ns, 16)
    ensures value == solve(GapProgram(TwoBinary, det, ns, setToEquality, Gap)).objective
  {
    var constraints := StrategyConstraints(TwoBinary, det, ns, setToEquality);
    constraints := constraints + [Constraint([Term(9, 1.0), Term(8, -1.0)], 0.0, AtLeast)];
    var model := Program(10, constraints, [Term(9, 1.0), Term(8, -1.0)]);
    var outcome := solve(model);
    value := outcome.objective;
  }

  /** three_player_binary_LP_pulp. */
  method ThreePlayerBinaryLp(det: seq<seq<real>>, ns: seq<seq<real>>, setToEquality: int, solve: Program -> Outcome)
    returns (value: real)
    requires Sized(det, 64) && Sized(ns, 64)
    ensures value == solve(GapProgram(ThreeBinary, det, ns, setToEquality, Gap)).objective
  {
    var constraints := StrategyConstraints(ThreeBinary, det, ns, setToEquality);
    constraints := constraints + [Constraint([Term(17, 1.0), Term(16, -1.0)], 0.0, AtLeast)];
    var model := Program(18, constraints, [Term(17, 1.0), Term(16, -1.0)]);
    var outcome := solve(model);
    value := outcome.objective;
  }

  /** two_player_x3_LP_pulp: (objective, count) when the solver reports
      Optimal, with count raised by one exactly when show is set, the
      objective is positive and maximize is "gap"; (0, count) otherwise. */
  method TwoPlayerX3Lp(det: seq<seq<real>>, ns: seq<seq<real>>, setToEquality: int, show: bool, count: int,
                       maximize: Maximize, solve: Program -> Outcome)
    returns (value: real, count': int)
    requires Sized(det, 36) && Sized(ns, 36)
    ensures var o := solve(GapProgram(TwoX3, det, ns, setToEquality, maximize));
            if o.status == Optimal then
              value == o.objective && count' == (if show && o.objective > 0.0 && maximize == Gap then count + 1 else count)
            else
              value == 0.0 && count' == count
  {
    var constraints := StrategyConstraints(TwoX3, det, ns, setToEquality);
    match maximize {
      case Gap =>
        constraints := constraints + [Constraint([Term(13, 1.0), Term(12, -1.0)], 0.0, AtLeast)];
      case Ratio(ratioValue) =>
        constraints := constraints + [Constraint([Term(13, 1.0), Term(12, -ratioValue)], 0.0, AtLeast)];
      case Bias(biasValue) =>
        constraints := constraints + [Constraint([Term(13, 3.0), Term(12, -(biasValue * 3.0))], biasValue - 1.0, AtLeast)];
      case Other =>
        assert constraints + ModeRows(TwoX3, Other) == constraints;
    }
    var model := Program(14, constraints, [Term(13, 1.0), Term(12, -1.0)]);
    var outcome := solve(model);
    count' := count;
    if outcome.status == 1 {
      if show && outcome.objective > 0.0 {
        if maximize == Gap {
          count' := count' + 1;
        }
      }
      value := outcome.objective;
    } else {
      value := 0.0;
    }
  }

  // ---------------------------------------------------------------------
  // What a feasible point is.

  /** The entries of q, as summands. */
  function Entries(q: seq<real>): nat -> real
  {
    (i: nat) => At(q, i)
  }

  /** The summands P(i) · strategy[Slot(g, i)]. */
  function PayoffMarks(g: Topology, s: seq<real>, q: seq<real>): nat -> real
  {
    (i: nat) => At(s, Slot(g, i)) * At(q, i)
  }

  /** The total mass Σ_i P(i) of the distribution part of q. */
  function Total(g: Topology, q: seq<real>): real
  {
    SumOf(Vars(g), Entries(q))
  }

  /** The winning probability of strategy s under the distribution part of q:
      Σ P(x, inputs) · q(x, x [, x] | inputs). */
  function Payoff(g: Topology, s: seq<real>, q: seq<real>): real
  {
    SumOf(Vars(g), PayoffMarks(g, s, q))
  }

  /** The meaning of the last constraint: max_ns at least max_det, at least
      ratio times max_det, or max_ns's excess over the 1/3 of guessing among
      three outputs at least bias times max_det's; no condition otherwise. */
  predicate ModeHolds(m: Maximize, maxNs: real, maxDet: real)
  {
    match m
    case Gap => maxNs >= maxDet
    case Ratio(ratio) => maxNs >= ratio * maxDet
    case Bias(bias) => 3.0 * maxNs - 1.0 >= bias * (3.0 * maxDet - 1.0)
    case Other => true
  }

  /** A feasible point: P is a distribution, max_det bounds every
      deterministic payoff, max_ns is the payoff of strategy eq and bounds
      every other no-signalling payoff, and the mode condition holds. */
  predicate GapFeasible(g: Topology, det: seq<seq<real>>, ns: seq<seq<real>>, eq: int, m: Maximize, q: seq<real>)
  {
    && |q| == Vars(g) + 2 && NonNegative(q)
    && Total(g, q) == 1.0
    && (forall k :: 0 <= k < |det| ==> At(q, MaxDet(g)) >= Payoff(g, det[k], q))
    && (forall j :: 0 <= j < |ns| ==>
          if j == eq then At(q, MaxNs(g)) == Payoff(g, ns[j], q) else At(q, MaxNs(g)) >= Payoff(g, ns[j], q))
    && ModeHolds(m, At(q, MaxNs(g)), At(q, MaxDet(g)))
  }

  /** Terms whose negated coefficients weigh the entries of q give minus the weighted sum. */
  lemma {:induction false} EvalNegated(ts: seq<Term>, q: seq<real>, f: nat -> real)
    requires forall i: nat :: i < |ts| ==> f(i) == -ts[i].coef * At(q, ts[i].v)
    ensures Eval(ts, q) == -SumOf(|ts|, f)
  {
    var n := |ts|;
    if n > 0 {
      var init := ts[..n - 1];
      EvalNegated(init, q, f);
    }
  }

  lemma PayoffTermsValue(g: Topology, s: seq<real>, q: seq<real>)
    ensures Eval(PayoffTerms(g, s), q) == -Payoff(g, s, q)
  {
    EvalNegated(PayoffTerms(g, s), q, PayoffMarks(g, s, q));
  }

  lemma EvalOne(t: Term, q: seq<real>)
    ensures Eval([t], q) == t.coef * At(q, t.v)
  {
    assert [t][..0] == [];
  }

  lemma Eval2(t0: Term, t1: Term, q: seq<real>)
    ensures Eval([t0, t1], q) == t0.coef * At(q, t0.v) + t1.coef * At(q, t1.v)
  {
    assert [t0, t1][..1] == [t0];
    EvalOne(t0, q);
  }

  /** A strategy constraint says variables[v] compares with the payoff by rel. */
  lemma StrategyRowHolds(g: Topology, v: nat, s: seq<real>, rel: Relation, q: seq<real>)
    ensures Holds(StrategyRow(g, v, s, rel), q)
        <==> if rel == Equal then At(q, v) == Payoff(g, s, q) else At(q, v) >= Payoff(g, s, q)
  {
    EvalAppend([Term(v, 1.0)], PayoffTerms(g, s), q);
    EvalOne(Term(v, 1.0), q);
    PayoffTermsValue(g, s, q);
  }

  lemma NormRowHolds(g: Topology, q: seq<real>)
    ensures Holds(NormRow(g), q) <==> Total(g, q) == 1.0
  {
    EvalSameCoef(NormRow(g).terms, 1.0, q, Entries(q));
  }

  lemma ModeRowsHold(g: Topology, m: Maximize, q: seq<real>, obj: seq<Term>)
    ensures Satisfies(Program(Vars(g) + 2, ModeRows(g, m), obj), q)
        <==> |q| == Vars(g) + 2 && NonNegative(q) && ModeHolds(m, At(q, MaxNs(g)), At(q, MaxDet(g)))
  {
    var ns, dt := At(q, MaxNs(g)), At(q, MaxDet(g));
    if m != Other {
      var c := ModeRows(g, m)[0];
      SatisfiesOne(Vars(g) + 2, c, obj, q);
      match m
      case Gap =>
        Eval2(Term(MaxNs(g), 1.0), Term(MaxDet(g), -1.0), q);
      case Ratio(ratio) =>
        Eval2(Term(MaxNs(g), 1.0), Term(MaxDet(g), -ratio), q);
        assert -ratio * dt == -(ratio * dt);
      case Bias(bias) =>
        Eval2(Term(MaxNs(g), 3.0), Term(MaxDet(g), -(bias * 3.0)), q);
        BiasForm(bias, ns, dt, Eval(c.terms, q) + c.constant);
    }
  }

  lemma SatisfiesOne(n: nat, c: Constraint, obj: seq<Term>, q: seq<real>)
    ensures Satisfies(Program(n, [c], obj), q) <==> |q| == n && NonNegative(q) && Holds(c, q)
  {
    assert [c][0] == c;
  }

  lemma BiasForm(bias: real, ns: real, dt: real, lhs: real)
    requires lhs == 3.0 * ns + (-(bias * 3.0)) * dt + (bias - 1.0)
    ensures lhs >= 0.0 <==> ModeHolds(Bias(bias), ns, dt)
  {
    var p := bias * dt;
    assert (-(bias * 3.0)) * dt == -3.0 * p;
    assert bias * (3.0 * dt - 1.0) == 3.0 * p - bias;
    assert lhs == 3.0 * ns - 3.0 * p + bias - 1.0;
    assert ModeHolds(Bias(bias), ns, dt) <==> 3.0 * ns - 1.0 >= 3.0 * p - bias;
  }

  lemma DetRowsHold(g: Topology, det: seq<seq<real>>, q: seq<real>, obj: seq<Term>)
    ensures Satisfies(Program(Vars(g) + 2, DetRows(g, det), obj), q)
        <==> |q| == Vars(g) + 2 && NonNegative(q) && forall k :: 0 <= k < |det| ==> At(q, MaxDet(g)) >= Payoff(g, det[k], q)
  {
    forall k | 0 <= k < |det|
      ensures Holds(DetRows(g, det)[k], q) <==> At(q, MaxDet(g)) >= Payoff(g, det[k], q)
    {
      StrategyRowHolds(g, MaxDet(g), det[k], AtLeast, q);
    }
  }

  lemma NsRowsHold(g: Topology, ns: seq<seq<real>>, eq: int, q: seq<real>, obj: seq<Term>)
    ensures Satisfies(Program(Vars(g) + 2, NsRows(g, ns, eq), obj), q)
        <==> |q| == Vars(g) + 2 && NonNegative(q) && forall j :: 0 <= j < |ns| ==>
               if j == eq then At(q, MaxNs(g)) == Payoff(g, ns[j], q) else At(q, MaxNs(g)) >= Payoff(g, ns[j], q)
  {
    forall j | 0 <= j < |ns|
      ensures Holds(NsRows(g, ns, eq)[j], q)
          <==> if j == eq then At(q, MaxNs(g)) == Payoff(g, ns[j], q) else At(q, MaxNs(g)) >= Payoff(g, ns[j], q)
    {
      StrategyRowHolds(g, MaxNs(g), ns[j], if j == eq then Equal else AtLeast, q);
    }
  }

  /** A point satisfies the model exactly when it is feasible in the sense above. */
  lemma FeasibleIff(g: Topology, det: seq<seq<real>>, ns: seq<seq<real>>, eq: int, m: Maximize, q: seq<real>)
    ensures Satisfies(GapProgram(g, det, ns, eq, m), q) <==> GapFeasible(g, det, ns, eq, m, q)
  {
    var n, obj := Vars(g) + 2, GapObjective(g);
    var norm, dets, nss, modes := [NormRow(g)], DetRows(g, det), NsRows(g, ns, eq), ModeRows(g, m);
    SatisfiesAppend(n, norm + dets + nss, modes, obj, q);
    SatisfiesAppend(n, norm + dets, nss, obj, q);
    SatisfiesAppend(n, norm, dets, obj, q);
    NormRowHolds(g, q);
    DetRowsHold(g, det, q, obj);
    NsRowsHold(g, ns, eq, q, obj);
    ModeRowsHold(g, m, q, obj);
    assert Satisfies(Program(n, norm, obj), q) <==> |q| == n && NonNegative(q) && Total(g, q) == 1.0 by {
      assert norm[0] == NormRow(g);
    }
  }

  /** In "gap" mode the objective of a feasible point is at least 0, and at
      most the payoff of strategy eq minus that of any deterministic strategy. */
  lemma GapObjectiveBounds(g: Topology, det: seq<seq<real>>, ns: seq<seq<real>>, eq: nat, q: seq<real>)
    requires eq < |ns| && Satisfies(GapProgram(g, det, ns, eq, Gap), q)
    ensures Eval(GapObjective(g), q) >= 0.0
    ensures forall k :: 0 <= k < |det| ==> Eval(GapObjective(g), q) <= Payoff(g, ns[eq], q) - Payoff(g, det[k], q)
  {
    FeasibleIff(g, det, ns, eq, Gap, q);
    Eval2(Term(MaxNs(g), 1.0), Term(MaxDet(g), -1.0), q);
  }

  // ---------------------------------------------------------------------
  // The drivers.

  /** The gaps the binary drivers compare, one per choice of set_to_equality. */
  function Gaps(g: Topology, det: seq<seq<real>>, ns: seq<seq<real>>, solve: Program -> Outcome): (r: seq<real>)
    ensures |r| == |ns|
  {
    seq(|ns|, (i: int) requires 0 <= i < |ns| => solve(GapProgram(g, det, ns, i, Gap)).objective)
  }

  /** max_gap_two_player_binary, with the strategies already read: the
      largest of 0 and the gaps. */
  method MaxGapTwoPlayerBinary(det: seq<seq<real>>, ns: seq<seq<real>>, solve: Program -> Outcome)
    returns (maxGap: real)
    requires Sized(det, 16) && Sized(ns, 16)
    ensures maxGap == RunningMax(0.0, Gaps(TwoBinary, det, ns, solve), true)
    ensures IsMaxOf(maxGap, 0.0, Gaps(TwoBinary, det, ns, solve))
  {
    ghost var gaps := Gaps(TwoBinary, det, ns, solve);
    maxGap := 0.0;
    for i := 0 to |ns|
      invariant maxGap == RunningMax(0.0, gaps[..i], true)
    {
      var gap := TwoPlayerBinaryLp(det, ns, i, solve);
      RunningMaxPrefix(0.0, gaps, i, true);
      if gap > maxGap {
        maxGap := gap;
      }
    }
    assert gaps[..|ns|] == gaps;
    RunningMaxIsMax(0.0, gaps, true);
  }

  /** max_gap_three_player_binary. */
  method MaxGapThreePlayerBinary(det: seq<seq<real>>, ns: seq<seq<real>>, solve: Program -> Outcome)
    returns (maxGap: real)
    requires Sized(det, 64) && Sized(ns, 64)
    ensures maxGap == RunningMax(0.0, Gaps(ThreeBinary, det, ns, solve), true)
    ensures IsMaxOf(maxGap, 0.0, Gaps(ThreeBinary, det, ns, solve))
  {
    ghost var gaps := Gaps(ThreeBinary, det, ns, solve);
    maxGap := 0.0;
    for i := 0 to |ns|
      invariant maxGap == RunningMax(0.0, gaps[..i], true)
    {
      var gap := ThreePlayerBinaryLp(det, ns, i, solve);
      RunningMaxPrefix(0.0, gaps, i, true);
      if gap > maxGap {
        maxGap := gap;
      }
    }
    assert gaps[..|ns|] == gaps;
    RunningMaxIsMax(0.0, gaps, true);
  }

  /** The no-signalling strategies max_gap_two_player_x3 examines. */
  const GapStrategies: seq<int> := [2, 12, 34, 36, 41, 45, 133, 135, 137, 139, 279, 289, 303, 308, 319, 323,
                                    328, 329, 334, 335, 463, 474, 497, 517]

  /** The bias the driver passes: (0.5/0.2)·100. */
  const DriverBias: real := 250.0

  /** The first component two_player_x3_LP_pulp returns in "bias" mode. */
  function X3Gap(det: seq<seq<real>>, ns: seq<seq<real>>, i: int, solve: Program -> Outcome): real
  {
    var o := solve(GapProgram(TwoX3, det, ns, i, Bias(DriverBias)));
    if o.status == Optimal then o.objective else 0.0
  }

  function X3Gaps(det: seq<seq<real>>, ns: seq<seq<real>>, solve: Program -> Outcome): (r: seq<real>)
    ensures |r| == |GapStrategies|
  {
    seq(|GapStrategies|, (k: int) requires 0 <= k < |GapStrategies| => X3Gap(det, ns, GapStrategies[k], solve))
  }

  /** max_gap_two_player_x3: the largest of 0 and the gaps of the listed
      strategies. The count stays 0: the driver asks for "bias", and only
      "gap" counts. */
  method MaxGapTwoPlayerX3(det: seq<seq<real>>, ns: seq<seq<real>>, solve: Program -> Outcome)
    returns (maxGap: real, count: int)
    requires Sized(det, 36) && Sized(ns, 36)
    ensures maxGap == RunningMax(0.0, X3Gaps(det, ns, solve), true)
    ensures IsMaxOf(maxGap, 0.0, X3Gaps(det, ns, solve))
    ensures count == 0
  {
    ghost var gaps := X3Gaps(det, ns, solve);
    maxGap, count := 0.0, 0;
    for k := 0 to |GapStrategies|
      invariant maxGap == RunningMax(0.0, gaps[..k], true)
      invariant count == 0
    {
      var i := GapStrategies[k];
      var gap;
      gap, count := TwoPlayerX3Lp(det, ns, i, true, count, Bias((0.5 / 0.2) * 100.0), solve);
      RunningMaxPrefix(0.0, gaps, k, true);
      if gap > maxGap {
        maxGap := gap;
      }
    }
    assert gaps[..|GapStrategies|] == gaps;
    RunningMaxIsMax(0.0, gaps, true);
  }
}
