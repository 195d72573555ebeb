/** clas_strat_one_party_quantum.py: the win probability of a game where
    player 1 measures one of two quantum states and player 2 answers with a
    fixed classical strategy f : {0,1} -> {0,1}. The question pairs (x, b)
    are drawn uniformly from `subset`; the weight of state x is the share
    of pairs (x, b) for which f(b) = x. The semidefinite program is data,
    its optimum is the abstract `solve`. */
module OneParty {
  import opened Sdp
  import opened Folds

  /** One question pair (x, b). */
  type Pair = (int, int)

  /** The probability of m of n equally likely pairs (none when there are no pairs). */
  function Portion(m: nat, n: nat): real
  {
    if n == 0 then 0.0 else m as real / n as real
  }

  /** One more of n pairs adds 1/n. */
  lemma PortionStep(m: nat, n: nat)
    requires n > 0
    ensures Portion(m, n) + 1.0 / n as real == Portion(m + 1, n)
  {
  }

  /** Portions of disjoint parts add up. */
  lemma PortionsAdd(m0: nat, m1: nat, n: nat)
    ensures Portion(m0, n) + Portion(m1, n) == Portion(m0 + m1, n)
  {
  }

  /** m of n pairs carry a probability between 0 and 1. */
  lemma PortionBounds(m: nat, n: nat)
    requires m <= n
    ensures 0.0 <= Portion(m, n) <= 1.0
  {
  }

  /** How many pairs of subset equal p. */
  function Occurrences(subset: seq<Pair>, p: Pair): nat
  {
    if |subset| == 0 then 0
    else Occurrences(subset[..|subset| - 1], p) + (if subset[|subset| - 1] == p then 1 else 0)
  }

  /** Whether pair e is one where player 2's answer f(b) equals x, for the x asked about. */
  predicate Matching(e: Pair, f: seq<int>, x: int)
    requires |f| >= 2
  {
    e.0 == x && 0 <= e.1 < 2 && f[e.1] == x
  }

  /** How many pairs (x, b) of subset have f(b) = x. */
  function Matches(subset: seq<Pair>, f: seq<int>, x: int): (n: nat)
    requires |f| >= 2
    ensures n <= |subset|
  {
    if |subset| == 0 then 0
    else Matches(subset[..|subset| - 1], f, x) + (if Matching(subset[|subset| - 1], f, x) then 1 else 0)
  }

  /** Σ_b P(x, b)·[f(b) = x]: the probability under the uniform distribution
      over subset that the pair asks about x and f answers x. */
  function Weight(subset: seq<Pair>, f: seq<int>, x: int): real
    requires |f| >= 2
  {
    Portion(Matches(subset, f, x), |subset|)
  }

  /** The part of the count the outer loop has seen after b = 0 .. last - 1. */
  function MatchesBelow(subset: seq<Pair>, f: seq<int>, x: int, last: nat): nat
    requires |f| >= 2 && last <= 2
  {
    if last == 0 then 0
    else MatchesBelow(subset, f, x, last - 1) + (if f[last - 1] == x then Occurrences(subset, (x, last - 1)) else 0)
  }

  /** Summing over b first and over the pairs second counts the same pairs. */
  lemma {:induction false} MatchesBelowIsMatches(subset: seq<Pair>, f: seq<int>, x: int)
    requires |f| >= 2
    ensures MatchesBelow(subset, f, x, 2) == Matches(subset, f, x)
  {
    if |subset| > 0 {
      var init, e := subset[..|subset| - 1], subset[|subset| - 1];
      MatchesBelowIsMatches(init, f, x);
      assert Occurrences(subset, (x, 0)) == Occurrences(init, (x, 0)) + (if e == (x, 0) then 1 else 0);
      assert Occurrences(subset, (x, 1)) == Occurrences(init, (x, 1)) + (if e == (x, 1) then 1 else 0);
      assert Matches(subset, f, x) == Matches(init, f, x) + (if Matching(e, f, x) then 1 else 0);
      assert Matching(e, f, x) <==> (e == (x, 0) && f[0] == x) || (e == (x, 1) && f[1] == x);
      assert MatchesBelow(subset, f, x, 1) == if f[0] == x then Occurrences(subset, (x, 0)) else 0;
      assert MatchesBelow(init, f, x, 1) == if f[0] == x then Occurrences(init, (x, 0)) else 0;
      assert MatchesBelow(subset, f, x, 2)
          == (if f[0] == x then Occurrences(subset, (x, 0)) else 0) + (if f[1] == x then Occurrences(subset, (x, 1)) else 0);
      assert MatchesBelow(init, f, x, 2)
          == (if f[0] == x then Occurrences(init, (x, 0)) else 0) + (if f[1] == x then Occurrences(init, (x, 1)) else 0);
    } else {
      assert MatchesBelow(subset, f, x, 1) == 0;
    }
  }

  /** calc_constant: for each b with f[b] == x, add 1/len(subset) for every
      pair (x, b) of subset. */
  method CalcConstant(subset: seq<Pair>, f: seq<int>, x: int) returns (constant: real)
    requires |f| >= 2
    ensures constant == Weight(subset, f, x)
  {
    ghost var counted: nat := 0;
    constant := 0.0;
    for b := 0 to 2
      invariant counted == MatchesBelow(subset, f, x, b)
      invariant constant == Portion(counted, |subset|)
    {
      if f[b] == x {
        for k := 0 to |subset|
          invariant counted == MatchesBelow(subset, f, x, b) + Occurrences(subset[..k], (x, b))
          invariant constant == Portion(counted, |subset|)
        {
          assert subset[..k + 1][..k] == subset[..k];
          if subset[k].0 == x && subset[k].1 == b {
            PortionStep(counted, |subset|);
            constant := constant + 1.0 / |subset| as real;
            counted := counted + 1;
          }
        }
        assert subset[..|subset|] == subset;
      }
    }
    MatchesBelowIsMatches(subset, f, x);
    assert counted == Matches(subset, f, x);
  }

  /** A probability: between 0 and 1. */
  lemma WeightBounds(subset: seq<Pair>, f: seq<int>, x: int)
    requires |f| >= 2
    ensures 0.0 <= Weight(subset, f, x) <= 1.0
  {
    PortionBounds(Matches(subset, f, x), |subset|);
  }

  /** The pairs (x, b) with b and x bits and f(b) = x. */
  function Agreements(subset: seq<Pair>, f: seq<int>): nat
    requires |f| >= 2
  {
    if |subset| == 0 then 0
    else
      var e := subset[|subset| - 1];
      Agreements(subset[..|subset| - 1], f) + (if 0 <= e.0 < 2 && 0 <= e.1 < 2 && f[e.1] == e.0 then 1 else 0)
  }

  /** The two weights count disjoint pairs, those where f answers the x
      asked; so they add up to the classical win probability of f, at most 1. */
  lemma {:induction false} MatchesAddUp(subset: seq<Pair>, f: seq<int>)
    requires |f| >= 2
    ensures Matches(subset, f, 0) + Matches(subset, f, 1) == Agreements(subset, f) <= |subset|
  {
    if |subset| > 0 {
      MatchesAddUp(subset[..|subset| - 1], f);
    }
  }

  /** The two weights add up to the classical win probability of f, at most 1. */
  lemma WeightsAddUp(subset: seq<Pair>, f: seq<int>)
    requires |f| >= 2
    ensures Weight(subset, f, 0) + Weight(subset, f, 1) == Portion(Agreements(subset, f), |subset|) <= 1.0
  {
    MatchesAddUp(subset, f);
    PortionsAdd(Matches(subset, f, 0), Matches(subset, f, 1), |subset|);
    PortionBounds(Agreements(subset, f), |subset|);
  }

  /** The program SDP hands to the solver for strategy f: the objective changes,
      the 32 constraints are those of the discrimination program. */
  function StrategyProblem(q0: CMatrix, q1: CMatrix, subset: seq<Pair>, f: seq<int>): Problem
    requires IsShape(q0, 2, 2) && IsShape(q1, 2, 2) && |f| >= 2
  {
    Problem(WeightedCost(0.5 * Weight(subset, f, 0), 0.5 * Weight(subset, f, 1), q0, q1), TraceMatrices(), TraceValues())
  }

  /** SDP(q0, q1, subset, f): build the program and return the solver's optimum. */
  method StrategySdp(q0: CMatrix, q1: CMatrix, subset: seq<Pair>, f: seq<int>, solve: Problem -> real)
    returns (value: real)
    requires IsShape(q0, 2, 2) && IsShape(q1, 2, 2) && |f| >= 2
    ensures value == solve(StrategyProblem(q0, q1, subset, f))
  {
    var As, bs := TraceConstraints();
    var c0 := CalcConstant(subset, f, 0);
    var c1 := CalcConstant(subset, f, 1);
    var combined := Combine(Scaled(0.5 * c0, q0), Scaled(0.5 * c1, q1), 2);
    var C := ComplexToReal(combined, 4);
    value := solve(Problem(C, As, bs));
  }

  /** For Hermitian states the objective is symmetric, whatever f. */
  lemma StrategyObjectiveSymmetric(q0: CMatrix, q1: CMatrix, subset: seq<Pair>, f: seq<int>)
    requires Hermitian(q0, 2) && Hermitian(q1, 2) && |f| >= 2
    ensures Symmetric(StrategyProblem(q0, q1, subset, f).objective, Dim)
  {
    WeightedCostSymmetric(0.5 * Weight(subset, f, 0), 0.5 * Weight(subset, f, 1), q0, q1);
  }

  /** With the pairs (0,0) and (1,1) and the identity strategy both weights
      are 1/2, and the program is the one that discriminates the two states. */
  lemma IdentityStrategyDiscriminates(q0: CMatrix, q1: CMatrix)
    requires IsShape(q0, 2, 2) && IsShape(q1, 2, 2)
    ensures StrategyProblem(q0, q1, [(0, 0), (1, 1)], [0, 1]) == DiscriminationProblem(q0, q1)
  {
    var subset: seq<Pair> := [(0, 0), (1, 1)];
    assert subset[..1] == [(0, 0)] && subset[..1][..0] == [];
    assert Matches(subset, [0, 1], 0) == 1 && Matches(subset, [0, 1], 1) == 1;
    assert 0.5 * Weight(subset, [0, 1], 0) == 0.25 && 0.5 * Weight(subset, [0, 1], 1) == 0.25;
  }

  /** The strategies [b0, b1] of player 2 in the order the two loops try them. */
  function Strategy(k: nat): seq<int>
  {
    [k / 2, k % 2]
  }

  /** The SDP values of the four strategies. */
  function StrategyValues(q0: CMatrix, q1: CMatrix, subset: seq<Pair>, solve: Problem -> real): (v: seq<real>)
    requires IsShape(q0, 2, 2) && IsShape(q1, 2, 2)
    ensures |v| == 4
  {
    seq(4, (k: int) requires 0 <= k < 4 => solve(StrategyProblem(q0, q1, subset, Strategy(k))))
  }

  /** max_class_win_prob: the best of 0 and the SDP values of the four
      classical strategies of player 2, keeping the first on ties. */
  method MaxClassWinProb(q0: CMatrix, q1: CMatrix, subset: seq<Pair>, solve: Problem -> real)
    returns (maxProb: real)
    requires IsShape(q0, 2, 2) && IsShape(q1, 2, 2)
    ensures maxProb == RunningMax(0.0, StrategyValues(q0, q1, subset, solve), true)
    ensures IsMaxOf(maxProb, 0.0, StrategyValues(q0, q1, subset, solve))
  {
    ghost var values := StrategyValues(q0, q1, subset, solve);
    maxProb := 0.0;
    for b0 := 0 to 2
      invariant maxProb == RunningMax(0.0, values[..2 * b0], true)
    {
      for b1 := 0 to 2
        invariant maxProb == RunningMax(0.0, values[..2 * b0 + b1], true)
      {
        assert Strategy(2 * b0 + b1) == [b0, b1];
        var prob := StrategySdp(q0, q1, subset, [b0, b1], solve);
        RunningMaxPrefix(0.0, values, 2 * b0 + b1, true);
        if prob > maxProb {
          maxProb := prob;
        }
      }
    }
    assert values[..4] == values;
    RunningMaxIsMax(0.0, values, true);
  }
}
