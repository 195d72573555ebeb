/** The classical evaluator of Classical.py: every player answers with one of
    the four binary functions of its input, the game is won on a combination
    when all three answers equal x, and the best deterministic strategy is
    found by trying all 4^3 triples. */
module Classical {
  import opened Index
  import opened Games
  import opened Folds

  /** id_func, not_func, bot and top. */
  datatype BinFunc = Id | Not | Bot | Top

  function Apply(f: BinFunc, bit: int): int
  {
    match f
    case Id => bit
    case Not => (bit + 1) % 2
    case Bot => 0
    case Top => 1
  }

  lemma ApplyIsBit(f: BinFunc, bit: int)
    requires IsBit(bit)
    ensures IsBit(Apply(f, bit))
  {
  }

  /** The point of a deterministic classical strategy: player i answers
      fi(input), and q(xa, xb, xc | a, b, c) is 1 exactly on those answers. */
  function ProductStrategy(fa: BinFunc, fb: BinFunc, fc: BinFunc, t: Six): real
  {
    if t.xa == Apply(fa, t.a) && t.xb == Apply(fb, t.b) && t.xc == Apply(fc, t.c) then 1.0 else 0.0
  }

  /** bin_funcs, in the order the search enumerates them. */
  const BinFuncs: seq<BinFunc> := [Id, Not, Bot, Top]

  /** The four functions are exactly the functions from bits to bits: each
      maps bits to bits, and every table (v0, v1) is the table of exactly one
      of them; in particular not_func swaps 0 and 1. */
  lemma BinFuncsAreAllBinaryFunctions(v0: int, v1: int)
    requires IsBit(v0) && IsBit(v1)
    ensures forall f: BinFunc, bit :: IsBit(bit) ==> IsBit(Apply(f, bit))
    ensures Apply(Not, 0) == 1 && Apply(Not, 1) == 0
    ensures exists f: BinFunc :: Apply(f, 0) == v0 && Apply(f, 1) == v1
    ensures forall f: BinFunc, g: BinFunc :: Apply(f, 0) == Apply(g, 0) && Apply(f, 1) == Apply(g, 1) ==> f == g
  {
    var f := if v0 == v1 then (if v0 == 0 then Bot else Top) else (if v0 == 0 then Id else Not);
    assert Apply(f, 0) == v0 && Apply(f, 1) == v1;
  }

  /** The game is won on e when x == f(a) == g(b) == h(c). */
  predicate Wins(f: BinFunc, g: BinFunc, h: BinFunc, e: Combo)
  {
    e.x == Apply(f, e.a) && Apply(f, e.a) == Apply(g, e.b) && Apply(g, e.b) == Apply(h, e.c)
  }

  /** Number of elements of s, with multiplicity, on which (f, g, h) wins. */
  function WinCount(f: BinFunc, g: BinFunc, h: BinFunc, s: seq<Combo>): (n: nat)
    ensures n <= |s|
  {
    if |s| == 0 then 0
    else WinCount(f, g, h, s[..|s| - 1]) + (if Wins(f, g, h, s[|s| - 1]) then 1 else 0)
  }

  /** Winning probability of (f, g, h) under the uniform distribution on s. */
  function WinProb(f: BinFunc, g: BinFunc, h: BinFunc, s: seq<Combo>): real
    requires |s| > 0
  {
    WinCount(f, g, h, s) as real / |s| as real
  }

  /** A winning probability is a probability. */
  lemma WinProbIsProbability(f: BinFunc, g: BinFunc, h: BinFunc, s: seq<Combo>)
    requires |s| > 0
    ensures 0.0 <= WinProb(f, g, h, s) <= 1.0
  {
    RatioAtMostOne(WinCount(f, g, h, s) as real, |s| as real);
  }

  lemma RatioAtMostOne(c: real, n: real)
    requires 0.0 <= c <= n && n > 0.0
    ensures 0.0 <= c / n <= 1.0
  {
    assert c / n * n == c;
  }

  /** Counting the first k+1 elements adds the k-th to the count of the first k. */
  lemma WinCountPrefix(f: BinFunc, g: BinFunc, h: BinFunc, s: seq<Combo>, k: nat)
    requires k < |s|
    ensures WinCount(f, g, h, s[..k + 1]) == WinCount(f, g, h, s[..k]) + (if Wins(f, g, h, s[k]) then 1 else 0)
  {
    assert s[..k + 1][..k] == s[..k];
  }

  /** find_win_prob: count the won combinations and divide by len(subset). */
  method FindWinProb(f: BinFunc, g: BinFunc, h: BinFunc, subset: seq<Combo>) returns (p: real)
    requires |subset| > 0
    ensures p == WinProb(f, g, h, subset)
    ensures 0.0 <= p <= 1.0
  {
    var winCount := 0;
    for k := 0 to |subset|
      invariant winCount == WinCount(f, g, h, subset[..k])
    {
      var element := subset[k];
      WinCountPrefix(f, g, h, subset, k);
      if element.x == Apply(f, element.a) == Apply(g, element.b) == Apply(h, element.c) {
        winCount := winCount + 1;
      }
    }
    assert subset[..|subset|] == subset;
    p := winCount as real / |subset| as real;
    WinProbIsProbability(f, g, h, subset);
  }

  /** Triple number e of the nested enumeration f, g, h over bin_funcs. */
  function Triple(e: nat): (BinFunc, BinFunc, BinFunc)
    requires e < 64
  {
    (BinFuncs[e / 16], BinFuncs[(e / 4) % 4], BinFuncs[e % 4])
  }

  /** Triple number 16*fi + 4*gi + hi is (bin_funcs[fi], bin_funcs[gi], bin_funcs[hi]). */
  lemma TripleAt(fi: nat, gi: nat, hi: nat)
    requires fi < 4 && gi < 4 && hi < 4
    ensures 16 * fi + 4 * gi + hi < 64
    ensures Triple(16 * fi + 4 * gi + hi) == (BinFuncs[fi], BinFuncs[gi], BinFuncs[hi])
  {
    var e := 16 * fi + 4 * gi + hi;
    DivMod(fi, 4 * gi + hi, 16);
    DivMod(4 * fi + gi, hi, 4);
    DivMod(fi, gi, 4);
    assert e / 16 == fi;
    assert e / 4 == 4 * fi + gi;
  }

  /** Position of a function in bin_funcs. */
  function Position(f: BinFunc): (k: nat)
    ensures k < 4 && BinFuncs[k] == f
  {
    match f
    case Id => 0
    case Not => 1
    case Bot => 2
    case Top => 3
  }

  /** The winning probabilities of all 64 triples, in enumeration order. */
  function AllWinProbs(s: seq<Combo>): (r: seq<real>)
    requires |s| > 0
    ensures |r| == 64
  {
    seq(64, (e: int) requires 0 <= e < 64 =>
      var t := Triple(e); WinProb(t.0, t.1, t.2, s))
  }

  /** Entry 16*fi + 4*gi + hi of the enumeration is the probability of
      (bin_funcs[fi], bin_funcs[gi], bin_funcs[hi]). */
  lemma AllWinProbsAt(s: seq<Combo>, fi: nat, gi: nat, hi: nat)
    requires |s| > 0 && fi < 4 && gi < 4 && hi < 4
    ensures 16 * fi + 4 * gi + hi < 64
    ensures AllWinProbs(s)[16 * fi + 4 * gi + hi] == WinProb(BinFuncs[fi], BinFuncs[gi], BinFuncs[hi], s)
  {
    TripleAt(fi, gi, hi);
  }

  /** find_optimal_strategy: the running maximum, from 0, of the 64 winning probabilities. */
  function OptimalValue(s: seq<Combo>): real
    requires |s| > 0
  {
    RunningMax(0.0, AllWinProbs(s), true)
  }

  /** Every triple is enumerated, so the optimum bounds every triple and is attained by one. */
  lemma OptimalIsBestTriple(s: seq<Combo>)
    requires |s| > 0
    ensures forall f, g, h :: OptimalValue(s) >= WinProb(f, g, h, s)
    ensures exists f, g, h :: OptimalValue(s) == WinProb(f, g, h, s)
    ensures OptimalValue(s) == RunningMax(0.0, AllWinProbs(s), false)
  {
    var probs := AllWinProbs(s);
    RunningMaxIsMax(0.0, probs, true);
    StrictIsNonStrict(0.0, probs);
    forall f, g, h
      ensures OptimalValue(s) >= WinProb(f, g, h, s)
    {
      var e := 16 * Position(f) + 4 * Position(g) + Position(h);
      TripleAt(Position(f), Position(g), Position(h));
      assert probs[e] == WinProb(f, g, h, s);
    }
    var r := OptimalValue(s);
    if r == 0.0 {
      WinProbIsProbability(Id, Id, Id, s);
      assert Triple(0) == (Id, Id, Id);
      assert probs[0] == WinProb(Id, Id, Id, s);
    } else {
      var e :| 0 <= e < 64 && r == probs[e];
      var t := Triple(e);
      assert r == WinProb(t.0, t.1, t.2, s);
    }
  }

  /** find_optimal_strategy loops over f, g and h in bin_funcs and keeps the
      strictly larger winning probability. */
  method FindOptimalStrategy(subset: seq<Combo>) returns (maxWinProb: real)
    requires |subset| > 0
    ensures maxWinProb == OptimalValue(subset)
    ensures forall f, g, h :: maxWinProb >= WinProb(f, g, h, subset)
    ensures exists f, g, h :: maxWinProb == WinProb(f, g, h, subset)
  {
    ghost var probs := AllWinProbs(subset);
    maxWinProb := 0.0;
    for fi := 0 to 4
      invariant maxWinProb == RunningMax(0.0, probs[..16 * fi], true)
    {
      for gi := 0 to 4
        invariant maxWinProb == RunningMax(0.0, probs[..16 * fi + 4 * gi], true)
      {
        for hi := 0 to 4
          invariant maxWinProb == RunningMax(0.0, probs[..16 * fi + 4 * gi + hi], true)
        {
          var winProb := FindWinProb(BinFuncs[fi], BinFuncs[gi], BinFuncs[hi], subset);
          AllWinProbsAt(subset, fi, gi, hi);
          RunningMaxPrefix(0.0, probs, 16 * fi + 4 * gi + hi, true);
          if winProb > maxWinProb {
            maxWinProb := winProb;
          }
        }
      }
    }
    assert probs[..64] == probs;
    OptimalIsBestTriple(subset);
  }

  /** The all-bot triple wins exactly the elements with x == 0 and the all-top
      triple those with x == 1, so on a binary subset together they win every element. */
  lemma {:induction false} BotTopCover(s: seq<Combo>)
    requires forall k :: 0 <= k < |s| ==> IsBit(s[k].x)
    ensures WinCount(Bot, Bot, Bot, s) + WinCount(Top, Top, Top, s) == |s|
  {
    if |s| > 0 {
      BotTopCover(s[..|s| - 1]);
    }
  }

  /** Every non-empty binary game is won with probability at least 1/2 by a
      constant strategy. */
  lemma OptimalAtLeastHalf(s: seq<Combo>)
    requires |s| > 0 && forall k :: 0 <= k < |s| ==> IsBit(s[k].x)
    ensures OptimalValue(s) >= 0.5
  {
    BotTopCover(s);
    OptimalIsBestTriple(s);
    var v := OptimalValue(s);
    assert v >= WinProb(Bot, Bot, Bot, s) && v >= WinProb(Top, Top, Top, s);
    RatiosSumToOne(WinCount(Bot, Bot, Bot, s) as real, WinCount(Top, Top, Top, s) as real, |s| as real);
  }

  lemma RatiosSumToOne(c: real, d: real, n: real)
    requires c + d == n && n > 0.0
    ensures c / n + d / n == 1.0
  {
    assert c / n + d / n == (c + d) / n;
  }

  /** A one-element binary game is won with certainty. */
  lemma OptimalOfSingleton(e: Combo)
    requires IsBit(e.x)
    ensures OptimalValue([e]) == 1.0
  {
    var s := [e];
    OptimalIsBestTriple(s);
    var c := if e.x == 0 then Bot else Top;
    assert s[..0] == [];
    assert WinProb(c, c, c, s) == 1.0;
    var f, g, h :| OptimalValue(s) == WinProb(f, g, h, s);
    assert WinCount(f, g, h, s) <= 1;
  }

  /** The sweep in the main block of Classical.py: for every mask from 1 to
      2^16 - 1, compute the best classical value and print it when below 1/2.
      The printed values are collected instead; none ever is. */
  method ClassicalSweep() returns (printed: seq<real>)
    ensures printed == []
  {
    printed := [];
    for i := 1 to Pow2(16)
      invariant printed == []
    {
      var subset := SubsetOfMask(i);
      MaskSubsetNonEmpty(i);
      var maxWinProb := FindOptimalStrategy(subset);
      OptimalAtLeastHalf(subset);
      if maxWinProb < 0.5 {
        printed := printed + [maxWinProb];
      }
    }
  }
}
