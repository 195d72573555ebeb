/** filter_strategies.py: the vertices of the three-player binary
    no-signalling polytope are read as lines of cdd output, each line becomes
    a list of 64 number strings, the strategies useful for the game are kept
    and sorted into deterministic and non-deterministic ones, and each group
    is written out as text.

    A strategy is indexed like the polytope's variables: entry
    32xa + 16xb + 8xc + 4a + 2b + c holds q(xa, xb, xc | a, b, c). Reading an
    entry past the end of the list raises IndexError in Python, which aborts
    the whole filter; the model carries it as the IndexError result. */
module Filter {
  import opened Index
  import opened Text
  import opened Classical

  datatype Result<T> = Success(value: T) | IndexError

  /** Number strings are turned into exact rationals by `Fraction(...)`; the
      conversion is a parameter, in the reals. */
  type Parse = string -> real

  // ---------------------------------------------------------------------
  // is_relevant_three_player

  /** The scan over bitstrings j, j + 1, ..., 7 (of abc): relevant as soon as
      q(000|abc) or q(111|abc) exceeds 1/2. */
  function RelevantFrom(s: seq<string>, parse: Parse, j: nat): Result<bool>
    requires j <= 8
    decreases 8 - j
  {
    if j == 8 then Success(false)
    else if 56 + j >= |s| then IndexError
    else if parse(s[j]) > 0.5 || parse(s[56 + j]) > 0.5 then Success(true)
    else RelevantFrom(s, parse, j + 1)
  }

  function Relevant(s: seq<string>, parse: Parse): Result<bool>
  {
    RelevantFrom(s, parse, 0)
  }

  /** Entry (x, x, x | a, b, c) of the strategy exceeds 1/2. */
  predicate HighDiagonal(s: seq<string>, parse: Parse, x: int, a: int, b: int, c: int)
    requires |s| >= 64 && IsBit(x) && IsBit(a) && IsBit(b) && IsBit(c)
  {
    parse(s[Flat6(Six(x, x, x, a, b, c))]) > 0.5
  }

  /** The string '000' + bitstring (or '111' + bitstring) read in base 2. */
  lemma DiagonalIndex(j: nat, x: int)
    requires j < 8 && IsBit(x)
    ensures BitsValue([x, x, x] + ToBits(j, 3)) == 56 * x + j
  {
    BitsValueAppend([x, x, x], ToBits(j, 3));
    BitsValueOfToBits(j, 3);
    BitsValueSnoc([], x);
    BitsValueSnoc([x], x);
    BitsValueSnoc([x, x], x);
    assert [x] == [] + [x];
    assert [x, x] == [x] + [x];
    assert [x, x, x] == [x, x] + [x];
  }

  /** is_relevant_three_player: for every 3-bit string, read the entries of
      '000' + bitstring and '111' + bitstring and report True when either is
      above 1/2. */
  method IsRelevant(strategy: seq<string>, parse: Parse) returns (r: Result<bool>)
    ensures r == Relevant(strategy, parse)
  {
    for j := 0 to 8
      invariant RelevantFrom(strategy, parse, j) == Relevant(strategy, parse)
    {
      var bitstring := ToBits(j, 3);
      var low := BitsValue([0, 0, 0] + bitstring);
      var high := BitsValue([1, 1, 1] + bitstring);
      DiagonalIndex(j, 0);
      DiagonalIndex(j, 1);
      if low >= |strategy| || high >= |strategy| {
        return IndexError;
      }
      var value1 := parse(strategy[low]);
      var value2 := parse(strategy[high]);
      if value1 > 0.5 || value2 > 0.5 {
        return Success(true);
      }
    }
    return Success(false);
  }

  /** Entry k or entry 56 + k exceeds 1/2. */
  predicate HighAt(s: seq<string>, parse: Parse, k: nat)
    requires 56 + k < |s|
  {
    parse(s[k]) > 0.5 || parse(s[56 + k]) > 0.5
  }

  lemma {:induction false} RelevantFromMeaning(s: seq<string>, parse: Parse, j: nat)
    requires |s| >= 64 && j <= 8
    ensures RelevantFrom(s, parse, j) == Success(exists k :: j <= k < 8 && HighAt(s, parse, k))
    decreases 8 - j
  {
    if j < 8 {
      RelevantFromMeaning(s, parse, j + 1);
      if HighAt(s, parse, j) {
        assert j <= j < 8 && HighAt(s, parse, j);
      } else if exists k :: j <= k < 8 && HighAt(s, parse, k) {
        var k :| j <= k < 8 && HighAt(s, parse, k);
        assert j + 1 <= k < 8 && HighAt(s, parse, k);
      }
    }
  }

  /** The diagonal entry q(xxx|abc) is entry 56x + k of the strategy, for k = 4a+2b+c. */
  lemma DiagonalEntry(s: seq<string>, parse: Parse, x: int, a: int, b: int, c: int, k: int)
    requires |s| >= 64 && IsBit(x) && IsBit(a) && IsBit(b) && IsBit(c) && k == 4 * a + 2 * b + c
    ensures 0 <= k < 8
    ensures parse(s[Flat6(Six(x, x, x, a, b, c))]) == parse(s[56 * x + k])
  {
    assert Flat6(Six(x, x, x, a, b, c)) == 56 * x + k;
  }

  /** A full-length strategy is relevant exactly when some diagonal entry
      q(xxx | abc) with x = 0 or x = 1 exceeds 1/2; one of at most 56 entries
      cannot be read at all. */
  lemma RelevantMeaning(s: seq<string>, parse: Parse)
    ensures |s| >= 64 ==>
      Relevant(s, parse) == Success(exists x, a, b, c :: IsBit(x) && IsBit(a) && IsBit(b) && IsBit(c) && HighDiagonal(s, parse, x, a, b, c))
    ensures |s| <= 56 ==> Relevant(s, parse) == IndexError
  {
    if |s| >= 64 {
      RelevantFromMeaning(s, parse, 0);
      HighAtIffDiagonal(s, parse);
    }
  }

  /** Some flat entry k or 56 + k is high exactly when some diagonal entry is. */
  lemma HighAtIffDiagonal(s: seq<string>, parse: Parse)
    requires |s| >= 64
    ensures (exists k :: 0 <= k < 8 && HighAt(s, parse, k))
        <==> (exists x, a, b, c :: IsBit(x) && IsBit(a) && IsBit(b) && IsBit(c) && HighDiagonal(s, parse, x, a, b, c))
  {
    if exists k :: 0 <= k < 8 && HighAt(s, parse, k) {
      var k :| 0 <= k < 8 && HighAt(s, parse, k);
      HighAtGivesDiagonal(s, parse, k);
    }
    if exists x, a, b, c :: IsBit(x) && IsBit(a) && IsBit(b) && IsBit(c) && HighDiagonal(s, parse, x, a, b, c) {
      var x, a, b, c :| IsBit(x) && IsBit(a) && IsBit(b) && IsBit(c) && HighDiagonal(s, parse, x, a, b, c);
      DiagonalGivesHighAt(s, parse, x, a, b, c);
    }
  }

  lemma HighAtGivesDiagonal(s: seq<string>, parse: Parse, k: nat)
    requires |s| >= 64 && k < 8 && HighAt(s, parse, k)
    ensures exists x, a, b, c :: IsBit(x) && IsBit(a) && IsBit(b) && IsBit(c) && HighDiagonal(s, parse, x, a, b, c)
  {
    var a, b, c := k / 4, (k / 2) % 2, k % 2;
    ThreeBits(k);
    var x := if parse(s[k]) > 0.5 then 0 else 1;
    DiagonalEntry(s, parse, x, a, b, c, k);
    assert IsBit(x) && IsBit(a) && IsBit(b) && IsBit(c) && HighDiagonal(s, parse, x, a, b, c);
  }

  lemma DiagonalGivesHighAt(s: seq<string>, parse: Parse, x: int, a: int, b: int, c: int)
    requires |s| >= 64 && IsBit(x) && IsBit(a) && IsBit(b) && IsBit(c) && HighDiagonal(s, parse, x, a, b, c)
    ensures exists k :: 0 <= k < 8 && HighAt(s, parse, k)
  {
    var k := 4 * a + 2 * b + c;
    DiagonalEntry(s, parse, x, a, b, c, k);
    assert 0 <= k < 8 && HighAt(s, parse, k);
  }

  // ---------------------------------------------------------------------
  // is_deterministic_three_player

  /** The entry read for player p (0, 1, 2), own output t0 and own input t1,
      while the other players' outputs are s0, s1 and their inputs 0. */
  function MarginalCell(p: nat, t0: int, t1: int, s0: int, s1: int): Six
    requires p < 3
  {
    if p == 0 then Six(t0, s0, s1, t1, 0, 0)
    else if p == 1 then Six(s0, t0, s1, 0, t1, 0)
    else Six(s0, s1, t0, 0, 0, t1)
  }

  /** Flat index of term k (0..3) of the sum for player p and target j (0..3). */
  function TermIndex(p: nat, j: nat, k: nat): (i: int)
    requires p < 3 && j < 4 && k < 4
    ensures 0 <= i < 64
  {
    Flat6(MarginalCell(p, j / 2, j % 2, k / 2, k % 2))
  }

  predicate GroupInRange(s: seq<string>, p: nat, j: nat)
    requires p < 3 && j < 4
  {
    forall k :: 0 <= k < 4 ==> TermIndex(p, j, k) < |s|
  }

  /** The first n terms of the marginal Q(t0 | t1) of player p, for target j = 2*t0 + t1. */
  function MarginalSum(s: seq<string>, parse: Parse, p: nat, j: nat, n: nat): real
    requires p < 3 && j < 4 && n <= 4
    requires forall k :: 0 <= k < n ==> TermIndex(p, j, k) < |s|
  {
    if n == 0 then 0.0 else MarginalSum(s, parse, p, j, n - 1) + parse(s[TermIndex(p, j, n - 1)])
  }

  /** The checks of players p, p + 1, ... from target j on. */
  function DeterministicFrom(s: seq<string>, parse: Parse, p: nat, j: nat): Result<bool>
    requires p <= 3 && j <= 4
    decreases 3 - p, 4 - j
  {
    if p == 3 then Success(true)
    else if j == 4 then DeterministicFrom(s, parse, p + 1, 0)
    else if !GroupInRange(s, p, j) then IndexError
    else
      var m := MarginalSum(s, parse, p, j, 4);
      if m != 0.0 && m != 1.0 then Success(false)
      else DeterministicFrom(s, parse, p, j + 1)
  }

  function Deterministic(s: seq<string>, parse: Parse): Result<bool>
  {
    DeterministicFrom(s, parse, 0, 0)
  }

  lemma TwoBits(j: nat)
    requires j < 4
    ensures ToBits(j, 2) == [j / 2, j % 2]
  {
    assert ToBits(j / 2, 1) == ToBits(j / 4, 0) + [(j / 2) % 2];
  }

  /** The strings the source assembles, read in base 2, are the marginal's entries. */
  lemma TermIndexIsSourceIndex(p: nat, j: nat, k: nat)
    requires p < 3 && j < 4 && k < 4
    ensures var t, v := ToBits(j, 2), ToBits(k, 2);
      TermIndex(p, j, k) == BitsValue(
        if p == 0 then [t[0], v[0], v[1], t[1], 0, 0]
        else if p == 1 then [v[0], t[0], v[1], 0, t[1], 0]
        else [v[0], v[1], t[0], 0, 0, t[1]])
  {
    TwoBits(j);
    TwoBits(k);
    Flat6IsBitsValue(MarginalCell(p, j / 2, j % 2, k / 2, k % 2));
  }

  /** The index of term k of the marginal for player p and target j, from the
      strings the source assembles: target = '{0:02b}'.format(j) and
      sum_variables = '{0:02b}'.format(k), placed at player p's columns. */
  method SourceIndex(p: nat, j: nat, k: nat) returns (index: int)
    requires p < 3 && j < 4 && k < 4
    ensures index == TermIndex(p, j, k)
  {
    var target := ToBits(j, 2);
    var sumVariables := ToBits(k, 2);
    var bits := if p == 0 then [target[0], sumVariables[0], sumVariables[1], target[1], 0, 0]
      else if p == 1 then [sumVariables[0], target[0], sumVariables[1], 0, target[1], 0]
      else [sumVariables[0], sumVariables[1], target[0], 0, 0, target[1]];
    index := BitsValue(bits);
    TermIndexIsSourceIndex(p, j, k);
  }

  /** One more term of the marginal. */
  lemma MarginalSumStep(s: seq<string>, parse: Parse, p: nat, j: nat, n: nat)
    requires p < 3 && j < 4 && n < 4
    requires forall k :: 0 <= k <= n ==> TermIndex(p, j, k) < |s|
    ensures MarginalSum(s, parse, p, j, n + 1) == MarginalSum(s, parse, p, j, n) + parse(s[TermIndex(p, j, n)])
  {
  }

  /** One marginal: the four entries for player p and target j, summed in
      order, or IndexError at the first entry past the end. */
  method ConditionalProb(strategy: seq<string>, parse: Parse, p: nat, j: nat) returns (r: Result<real>)
    requires p < 3 && j < 4
    ensures r == if GroupInRange(strategy, p, j) then Success(MarginalSum(strategy, parse, p, j, 4)) else IndexError
  {
    var conditionalProb := 0.0;
    for k := 0 to 4
      invariant forall k' :: 0 <= k' < k ==> TermIndex(p, j, k') < |strategy|
      invariant conditionalProb == MarginalSum(strategy, parse, p, j, k)
    {
      var index := SourceIndex(p, j, k);
      if index >= |strategy| {
        assert !GroupInRange(strategy, p, j) by {
          assert TermIndex(p, j, k) >= |strategy|;
        }
        return IndexError;
      }
      MarginalSumStep(strategy, parse, p, j, k);
      conditionalProb := conditionalProb + parse(strategy[index]);
    }
    assert GroupInRange(strategy, p, j);
    return Success(conditionalProb);
  }

  /** is_deterministic_three_player: for each player and each pair of its
      output and input, sum the four entries over the other players' outputs
      (their inputs at 0) and report False if the sum is neither 0 nor 1.
      The three copies of the loop in the source differ only in the player. */
  method IsDeterministic(strategy: seq<string>, parse: Parse) returns (r: Result<bool>)
    ensures r == Deterministic(strategy, parse)
  {
    for p := 0 to 3
      invariant DeterministicFrom(strategy, parse, p, 0) == Deterministic(strategy, parse)
    {
      for j := 0 to 4
        invariant DeterministicFrom(strategy, parse, p, j) == Deterministic(strategy, parse)
      {
        var conditionalProb := ConditionalProb(strategy, parse, p, j);
        if conditionalProb == IndexError {
          return IndexError;
        }
        if conditionalProb.value != 0.0 && conditionalProb.value != 1.0 {
          return Success(false);
        }
      }
    }
    return Success(true);
  }

  /** The marginal Q(t0 | t1) of player p, j = 2*t0 + t1, is 0 or 1. */
  predicate MarginalIsBit(s: seq<string>, parse: Parse, p: nat, j: nat)
    requires |s| >= 64 && p < 3 && j < 4
  {
    MarginalSum(s, parse, p, j, 4) == 0.0 || MarginalSum(s, parse, p, j, 4) == 1.0
  }

  /** Every marginal from player p, target j on, is 0 or 1. */
  predicate MarginalsBitsFrom(s: seq<string>, parse: Parse, p: nat, j: nat)
    requires |s| >= 64
  {
    forall p', j' :: p <= p' < 3 && 0 <= j' < 4 && (p' > p || j' >= j) ==> MarginalIsBit(s, parse, p', j')
  }

  /** Every one of the twelve marginals is 0 or 1. */
  predicate MarginalsAreBits(s: seq<string>, parse: Parse)
    requires |s| >= 64
  {
    forall p, j :: 0 <= p < 3 && 0 <= j < 4 ==> MarginalIsBit(s, parse, p, j)
  }

  lemma {:induction false} DeterministicFromMeaning(s: seq<string>, parse: Parse, p: nat, j: nat)
    requires |s| >= 64 && p <= 3 && j <= 4
    ensures DeterministicFrom(s, parse, p, j) == Success(MarginalsBitsFrom(s, parse, p, j))
    decreases 3 - p, 4 - j
  {
    if p < 3 {
      if j == 4 {
        DeterministicFromMeaning(s, parse, p + 1, 0);
        assert MarginalsBitsFrom(s, parse, p, j) == MarginalsBitsFrom(s, parse, p + 1, 0);
      } else {
        DeterministicFromMeaning(s, parse, p, j + 1);
        assert MarginalsBitsFrom(s, parse, p, j) == (MarginalIsBit(s, parse, p, j) && MarginalsBitsFrom(s, parse, p, j + 1));
      }
    }
  }

  /** A full-length strategy is deterministic exactly when each of the twelve
      marginals Q(x|a) of the three players is 0 or 1. */
  lemma DeterministicMeaning(s: seq<string>, parse: Parse)
    requires |s| >= 64
    ensures Deterministic(s, parse) == Success(MarginalsAreBits(s, parse))
  {
    DeterministicFromMeaning(s, parse, 0, 0);
    assert MarginalsBitsFrom(s, parse, 0, 0) == MarginalsAreBits(s, parse);
  }

  /** The strategy s holds the product point of (fa, fb, fc). */
  ghost predicate HoldsProduct(s: seq<string>, parse: Parse, fa: BinFunc, fb: BinFunc, fc: BinFunc)
  {
    && |s| >= 64
    && forall t :: IsBinary(t) ==> 0 <= Flat6(t) < |s| && parse(s[Flat6(t)]) == ProductStrategy(fa, fb, fc, t)
  }

  /** The function player p applies, and the index 2*u + v of the other two
      players' answers u, v at input 0. */
  function OwnFunc(fa: BinFunc, fb: BinFunc, fc: BinFunc, p: nat): BinFunc
  {
    if p == 0 then fa else if p == 1 then fb else fc
  }

  function OthersHit(fa: BinFunc, fb: BinFunc, fc: BinFunc, p: nat): int
  {
    var o1 := if p == 0 then fb else fa;
    var o2 := if p == 2 then fb else fc;
    2 * Apply(o1, 0) + Apply(o2, 0)
  }

  /** Term k of marginal (p, j) of a product point: 1 when player p's own
      answer is right and k names the other two players' answers at input 0. */
  lemma ProductTerm(s: seq<string>, parse: Parse, fa: BinFunc, fb: BinFunc, fc: BinFunc, p: nat, j: nat, k: nat)
    requires HoldsProduct(s, parse, fa, fb, fc) && p < 3 && j < 4 && k < 4
    ensures parse(s[TermIndex(p, j, k)])
         == if j / 2 == Apply(OwnFunc(fa, fb, fc, p), j % 2) && k == OthersHit(fa, fb, fc, p) then 1.0 else 0.0
  {
    var cell := MarginalCell(p, j / 2, j % 2, k / 2, k % 2);
    assert parse(s[TermIndex(p, j, k)]) == ProductStrategy(fa, fb, fc, cell) by {
      BitPair(j);
      BitPair(k);
      assert IsBinary(cell);
    }
    assert 2 * (k / 2) + k % 2 == k by {
      BitPair(k);
    }
    BitPair(j);
    BitPair(k);
    CellProduct(fa, fb, fc, p, j / 2, j % 2, k / 2, k % 2);
  }

  lemma CellProduct(fa: BinFunc, fb: BinFunc, fc: BinFunc, p: nat, t0: int, t1: int, s0: int, s1: int)
    requires p < 3 && IsBit(t0) && IsBit(t1) && IsBit(s0) && IsBit(s1)
    ensures ProductStrategy(fa, fb, fc, MarginalCell(p, t0, t1, s0, s1))
         == if t0 == Apply(OwnFunc(fa, fb, fc, p), t1) && 2 * s0 + s1 == OthersHit(fa, fb, fc, p) then 1.0 else 0.0
  {
    if p == 0 {
      CellProductA(fa, fb, fc, t0, t1, s0, s1);
    } else if p == 1 {
      CellProductB(fa, fb, fc, t0, t1, s0, s1);
    } else {
      CellProductC(fa, fb, fc, t0, t1, s0, s1);
    }
  }

  /** CellProduct for A's marginal. */
  lemma CellProductA(fa: BinFunc, fb: BinFunc, fc: BinFunc, t0: int, t1: int, s0: int, s1: int)
    requires IsBit(t0) && IsBit(t1) && IsBit(s0) && IsBit(s1)
    ensures ProductStrategy(fa, fb, fc, MarginalCell(0, t0, t1, s0, s1))
         == if t0 == Apply(OwnFunc(fa, fb, fc, 0), t1) && 2 * s0 + s1 == OthersHit(fa, fb, fc, 0) then 1.0 else 0.0
  {
    assert MarginalCell(0, t0, t1, s0, s1) == Six(t0, s0, s1, t1, 0, 0);
    CellProductOf(fa, fb, fc, t0, t1, s0, s1);
    assert ProductStrategy(fa, fb, fc, Six(t0, s0, s1, t1, 0, 0))
        == if t0 == Apply(fa, t1) && s0 == Apply(fb, 0) && s1 == Apply(fc, 0) then 1.0 else 0.0;
  }

  /** CellProduct for B's marginal. */
  lemma CellProductB(fa: BinFunc, fb: BinFunc, fc: BinFunc, t0: int, t1: int, s0: int, s1: int)
    requires IsBit(t0) && IsBit(t1) && IsBit(s0) && IsBit(s1)
    ensures ProductStrategy(fa, fb, fc, MarginalCell(1, t0, t1, s0, s1))
         == if t0 == Apply(OwnFunc(fa, fb, fc, 1), t1) && 2 * s0 + s1 == OthersHit(fa, fb, fc, 1) then 1.0 else 0.0
  {
    assert MarginalCell(1, t0, t1, s0, s1) == Six(s0, t0, s1, 0, t1, 0);
    CellProductOf(fb, fa, fc, t0, t1, s0, s1);
    assert ProductStrategy(fa, fb, fc, Six(s0, t0, s1, 0, t1, 0))
        == if t0 == Apply(fb, t1) && s0 == Apply(fa, 0) && s1 == Apply(fc, 0) then 1.0 else 0.0;
  }

  /** CellProduct for C's marginal. */
  lemma CellProductC(fa: BinFunc, fb: BinFunc, fc: BinFunc, t0: int, t1: int, s0: int, s1: int)
    requires IsBit(t0) && IsBit(t1) && IsBit(s0) && IsBit(s1)
    ensures ProductStrategy(fa, fb, fc, MarginalCell(2, t0, t1, s0, s1))
         == if t0 == Apply(OwnFunc(fa, fb, fc, 2), t1) && 2 * s0 + s1 == OthersHit(fa, fb, fc, 2) then 1.0 else 0.0
  {
    assert MarginalCell(2, t0, t1, s0, s1) == Six(s0, s1, t0, 0, 0, t1);
    CellProductOf(fc, fa, fb, t0, t1, s0, s1);
    assert ProductStrategy(fa, fb, fc, Six(s0, s1, t0, 0, 0, t1))
        == if t0 == Apply(fc, t1) && s0 == Apply(fa, 0) && s1 == Apply(fb, 0) then 1.0 else 0.0;
  }

  /** The cell of one player's marginal in a product point, with own the
      player's function and o1, o2 the other two players' functions in
      order: 1 exactly when own answers t1 with t0 and the others answer
      input 0 with s0 and s1, which together read 2*s0 + s1. */
  lemma CellProductOf(own: BinFunc, o1: BinFunc, o2: BinFunc, t0: int, t1: int, s0: int, s1: int)
    requires IsBit(t0) && IsBit(t1) && IsBit(s0) && IsBit(s1)
    ensures (t0 == Apply(own, t1) && s0 == Apply(o1, 0) && s1 == Apply(o2, 0))
        == (t0 == Apply(own, t1) && 2 * s0 + s1 == 2 * Apply(o1, 0) + Apply(o2, 0))
  {
    ApplyIsBit(o1, 0);
    ApplyIsBit(o2, 0);
    HitIsPair(2 * s0 + s1, Apply(o1, 0), Apply(o2, 0));
    PairBits(s0, s1);
  }

  /** The two bits of 2u + v are u and v. */
  lemma PairBits(u: int, v: int)
    requires IsBit(u) && IsBit(v)
    ensures (2 * u + v) / 2 == u && (2 * u + v) % 2 == v
  {
  }

  /** k = 2u + v exactly when u and v are the two bits of k. */
  lemma HitIsPair(k: nat, u: int, v: int)
    requires k < 4 && IsBit(u) && IsBit(v)
    ensures (k == 2 * u + v) == (k / 2 == u && k % 2 == v)
  {
  }

  /** A number below 4 is the pair of its two bits. */
  lemma BitPair(k: nat)
    requires k < 4
    ensures IsBit(k / 2) && IsBit(k % 2) && k == 2 * (k / 2) + k % 2
  {
  }

  lemma ProductMarginal(s: seq<string>, parse: Parse, fa: BinFunc, fb: BinFunc, fc: BinFunc, p: nat, j: nat)
    requires HoldsProduct(s, parse, fa, fb, fc) && p < 3 && j < 4
    ensures MarginalIsBit(s, parse, p, j)
  {
    var own := j / 2 == Apply(OwnFunc(fa, fb, fc, p), j % 2);
    var hit := OthersHit(fa, fb, fc, p);
    assert 0 <= hit < 4;
    ProductTerm(s, parse, fa, fb, fc, p, j, 0);
    ProductTerm(s, parse, fa, fb, fc, p, j, 1);
    ProductTerm(s, parse, fa, fb, fc, p, j, 2);
    ProductTerm(s, parse, fa, fb, fc, p, j, 3);
    var t := (k: nat) requires k < 4 => parse(s[TermIndex(p, j, k)]);
    assert MarginalSum(s, parse, p, j, 4) == t(0) + t(1) + t(2) + t(3) by {
      assert MarginalSum(s, parse, p, j, 1) == t(0);
      assert MarginalSum(s, parse, p, j, 2) == t(0) + t(1);
      assert MarginalSum(s, parse, p, j, 3) == t(0) + t(1) + t(2);
    }
    assert t(0) + t(1) + t(2) + t(3) == if own then 1.0 else 0.0;
  }

  /** Deterministic classical strategies are recognised as deterministic. */
  lemma ProductIsDeterministic(s: seq<string>, parse: Parse, fa: BinFunc, fb: BinFunc, fc: BinFunc)
    requires HoldsProduct(s, parse, fa, fb, fc)
    ensures Deterministic(s, parse) == Success(true)
  {
    forall p, j | 0 <= p < 3 && 0 <= j < 4
      ensures MarginalIsBit(s, parse, p, j)
    {
      ProductMarginal(s, parse, fa, fb, fc, p, j);
    }
    DeterministicMeaning(s, parse);
  }

  // ---------------------------------------------------------------------
  // filter_three_players and write_to_file

  /** Line i of the vertex file is a vertex when i >= 3 and it is not "end". */
  predicate Kept(lines: seq<string>, i: nat)
    requires i < |lines|
  {
    i >= 3 && lines[i] != "end"
  }

  /** `line[3:len(line) - 1].split(" ")` */
  function Tokens(line: string): seq<string>
  {
    Split(Trimmed(line), ' ')
  }

  /** The strategies of the vertex lines among the first n lines, in file order. */
  function Candidates(lines: seq<string>, n: nat): seq<seq<string>>
    requires n <= |lines|
  {
    if n == 0 then []
    else Candidates(lines, n - 1) + (if Kept(lines, n - 1) then [Tokens(lines[n - 1])] else [])
  }

  /** A test on a strategy; the filter is stated for any pair of tests, and
      used with relevance and determinism under one parse. */
  type Test = seq<string> -> Result<bool>

  function RelevanceTest(parse: Parse): Test
  {
    t => Relevant(t, parse)
  }

  function DeterminismTest(parse: Parse): Test
  {
    t => Deterministic(t, parse)
  }

  /** The candidates that pass rel and on which det answers want, in order. */
  function Select(cands: seq<seq<string>>, rel: Test, det: Test, want: bool): seq<seq<string>>
  {
    if |cands| == 0 then []
    else
      var t := cands[|cands| - 1];
      Select(cands[..|cands| - 1], rel, det, want)
        + (if rel(t) == Success(true) && det(t) == Success(want) then [t] else [])
  }

  /** The candidates that pass rel, in order. */
  function RelevantOnes(cands: seq<seq<string>>, rel: Test): seq<seq<string>>
  {
    if |cands| == 0 then []
    else
      var t := cands[|cands| - 1];
      RelevantOnes(cands[..|cands| - 1], rel) + (if rel(t) == Success(true) then [t] else [])
  }

  /** Processing candidate t raises IndexError. */
  predicate Crashes(t: seq<string>, rel: Test, det: Test)
  {
    rel(t) == IndexError || (rel(t) == Success(true) && det(t) == IndexError)
  }

  /** Some candidate crashes a test. */
  predicate AnyCrashes(cands: seq<seq<string>>, rel: Test, det: Test)
  {
    exists k :: 0 <= k < |cands| && Crashes(cands[k], rel, det)
  }

  type Lists = (seq<seq<string>>, seq<seq<string>>)

  /** Sorting one vertex t into the lists: skipped when irrelevant, appended
      to the deterministic or the other list, or IndexError. */
  function SortStep(lists: Lists, t: seq<string>, rel: Test, det: Test): Result<Lists>
  {
    match rel(t)
    case IndexError => IndexError
    case Success(relevant) =>
      if !relevant then Success(lists)
      else
        match det(t)
        case IndexError => IndexError
        case Success(d) =>
          if d then Success((lists.0 + [t], lists.1)) else Success((lists.0, lists.1 + [t]))
  }

  /** The two lists after the first n lines: deterministic, then relevant non-deterministic. */
  function Sorted(lines: seq<string>, rel: Test, det: Test, n: nat): Result<Lists>
    requires n <= |lines|
  {
    if n == 0 then Success(([], []))
    else
      match Sorted(lines, rel, det, n - 1)
      case IndexError => IndexError
      case Success(lists) =>
        if Kept(lines, n - 1) then SortStep(lists, Tokens(lines[n - 1]), rel, det) else Success(lists)
  }

  /** The file write_to_file produces: each strategy joined by spaces, the
      strategies joined by newlines. */
  function FileText(strategies: seq<seq<string>>): string
  {
    Join(seq(|strategies|, (k: int) requires 0 <= k < |strategies| => Join(strategies[k], ' ')), '\n')
  }

  /** The two file contents filter_three_players writes. */
  function FilterOutput(lines: seq<string>, parse: Parse): Result<(string, string)>
  {
    match Sorted(lines, RelevanceTest(parse), DeterminismTest(parse), |lines|)
    case IndexError => IndexError
    case Success(lists) => Success((FileText(lists.0), FileText(lists.1)))
  }

  /** write_to_file without the file: first join every strategy with spaces, then the lines with newlines. */
  method WriteToFile(strategyList: seq<seq<string>>) returns (toFile: string)
    ensures toFile == FileText(strategyList)
  {
    var joined: seq<string> := [];
    for i := 0 to |strategyList|
      invariant |joined| == i && forall k :: 0 <= k < i ==> joined[k] == Join(strategyList[k], ' ')
    {
      joined := joined + [Join(strategyList[i], ' ')];
    }
    toFile := Join(joined, '\n');
    assert joined == seq(|strategyList|, (k: int) requires 0 <= k < |strategyList| => Join(strategyList[k], ' '));
  }

  /** filter_three_players over the lines of the vertex file; the two results
      are the texts written to the deterministic and the non-deterministic file. */
  method FilterThreePlayers(lines: seq<string>, parse: Parse) returns (r: Result<(string, string)>)
    ensures r == FilterOutput(lines, parse)
  {
    ghost var rel, det := RelevanceTest(parse), DeterminismTest(parse);
    var deterministicStrategies: seq<seq<string>> := [];
    var relevantNsStrategies: seq<seq<string>> := [];
    for i := 0 to |lines|
      invariant Sorted(lines, rel, det, i) == Success((deterministicStrategies, relevantNsStrategies))
    {
      var line := lines[i];
      if i >= 3 && line != "end" {
        var lineSplit := Split(Trimmed(line), ' ');
        var relevant := IsRelevant(lineSplit, parse);
        assert relevant == rel(lineSplit);
        if relevant == IndexError {
          FilterStopsAtError(lines, rel, det, i + 1);
          return IndexError;
        }
        if relevant.value {
          var deterministic := IsDeterministic(lineSplit, parse);
          assert deterministic == det(lineSplit);
          if deterministic == IndexError {
            FilterStopsAtError(lines, rel, det, i + 1);
            return IndexError;
          }
          if deterministic.value {
            deterministicStrategies := deterministicStrategies + [lineSplit];
          } else {
            relevantNsStrategies := relevantNsStrategies + [lineSplit];
          }
        }
      }
    }
    var detText := WriteToFile(deterministicStrategies);
    var nsText := WriteToFile(relevantNsStrategies);
    r := Success((detText, nsText));
  }

  /** Once an IndexError is raised, the filter ends with it. */
  lemma {:induction false} FilterStopsAtError(lines: seq<string>, rel: Test, det: Test, n: nat)
    requires n <= |lines| && Sorted(lines, rel, det, n) == IndexError
    ensures Sorted(lines, rel, det, |lines|) == IndexError
    decreases |lines| - n
  {
    if n < |lines| {
      FilterStopsAtError(lines, rel, det, n + 1);
    }
  }

  lemma AnyCrashesSnoc(cands: seq<seq<string>>, t: seq<string>, rel: Test, det: Test)
    ensures AnyCrashes(cands + [t], rel, det) == (AnyCrashes(cands, rel, det) || Crashes(t, rel, det))
  {
    var c := cands + [t];
    if AnyCrashes(cands, rel, det) {
      var k :| 0 <= k < |cands| && Crashes(cands[k], rel, det);
      assert c[k] == cands[k];
    }
    if Crashes(t, rel, det) {
      assert c[|cands|] == t;
    }
    if AnyCrashes(c, rel, det) {
      var k :| 0 <= k < |c| && Crashes(c[k], rel, det);
      if k < |cands| {
        assert cands[k] == c[k];
      }
    }
  }

  lemma SelectSnoc(cands: seq<seq<string>>, t: seq<string>, rel: Test, det: Test, want: bool)
    ensures Select(cands + [t], rel, det, want)
         == Select(cands, rel, det, want) + (if rel(t) == Success(true) && det(t) == Success(want) then [t] else [])
  {
    assert (cands + [t])[..|cands|] == cands;
  }

  lemma SortStepMeaning(lists: Lists, t: seq<string>, rel: Test, det: Test)
    ensures SortStep(lists, t, rel, det)
         == if Crashes(t, rel, det) then IndexError
            else Success((lists.0 + (if rel(t) == Success(true) && det(t) == Success(true) then [t] else []),
                          lists.1 + (if rel(t) == Success(true) && det(t) == Success(false) then [t] else [])))
  {
    assert lists.0 + [] == lists.0 && lists.1 + [] == lists.1;
  }

  /** The filter raises exactly when some vertex line crashes a test, and
      otherwise sorts the vertex lines into the relevant deterministic and the
      relevant non-deterministic strategies, in file order. */
  lemma {:induction false} SortedMeaning(lines: seq<string>, rel: Test, det: Test, n: nat)
    requires n <= |lines|
    ensures var c := Candidates(lines, n);
      Sorted(lines, rel, det, n) == if AnyCrashes(c, rel, det) then IndexError
        else Success((Select(c, rel, det, true), Select(c, rel, det, false)))
  {
    if n > 0 {
      SortedMeaning(lines, rel, det, n - 1);
      var c' := Candidates(lines, n - 1);
      if Kept(lines, n - 1) {
        var t := Tokens(lines[n - 1]);
        assert Candidates(lines, n) == c' + [t];
        AnyCrashesSnoc(c', t, rel, det);
        SelectSnoc(c', t, rel, det, true);
        SelectSnoc(c', t, rel, det, false);
        if !AnyCrashes(c', rel, det) {
          SortStepMeaning((Select(c', rel, det, true), Select(c', rel, det, false)), t, rel, det);
        }
      } else {
        assert Candidates(lines, n) == c' + [];
        assert c' + [] == c';
      }
    }
  }

  /** A relevant candidate on which det answers want is selected for want. */
  lemma {:induction false} SelectComplete(cands: seq<seq<string>>, rel: Test, det: Test, want: bool)
    ensures forall t :: t in cands && rel(t) == Success(true) && det(t) == Success(want) ==> t in Select(cands, rel, det, want)
  {
    if |cands| > 0 {
      var c', t := cands[..|cands| - 1], cands[|cands| - 1];
      SelectComplete(c', rel, det, want);
      assert cands == c' + [t];
    }
  }

  /** AnyCrashesSnoc, read off a non-empty list. */
  lemma AnyCrashesLast(cands: seq<seq<string>>, rel: Test, det: Test)
    requires |cands| > 0
    ensures AnyCrashes(cands, rel, det)
         == (AnyCrashes(cands[..|cands| - 1], rel, det) || Crashes(cands[|cands| - 1], rel, det))
  {
    assert cands == cands[..|cands| - 1] + [cands[|cands| - 1]];
    AnyCrashesSnoc(cands[..|cands| - 1], cands[|cands| - 1], rel, det);
  }

  /** Without a crash, every relevant candidate goes to exactly one list, as
      often as it occurs. */
  lemma {:induction false} SelectCounts(cands: seq<seq<string>>, rel: Test, det: Test)
    requires !AnyCrashes(cands, rel, det)
    ensures multiset(Select(cands, rel, det, true)) + multiset(Select(cands, rel, det, false))
         == multiset(RelevantOnes(cands, rel))
  {
    if |cands| > 0 {
      var c', t := cands[..|cands| - 1], cands[|cands| - 1];
      AnyCrashesLast(cands, rel, det);
      SelectCounts(c', rel, det);
      var d, n, r := Select(c', rel, det, true), Select(c', rel, det, false), RelevantOnes(c', rel);
      var answer := det(t);
      if rel(t) != Success(true) {
        assert Select(cands, rel, det, true) == d;
        assert Select(cands, rel, det, false) == n;
        assert RelevantOnes(cands, rel) == r;
      } else {
        assert answer.Success?;
        assert answer == Success(answer.value);
        assert RelevantOnes(cands, rel) == r + [t];
        if answer.value {
          assert Select(cands, rel, det, true) == d + [t];
          assert Select(cands, rel, det, false) == n;
        } else {
          assert Select(cands, rel, det, true) == d;
          assert Select(cands, rel, det, false) == n + [t];
        }
      }
    }
  }

  /** Without a crash, det answers on every relevant candidate. */
  lemma NoCrashAt(cands: seq<seq<string>>, rel: Test, det: Test, t: seq<string>)
    requires !AnyCrashes(cands, rel, det) && t in cands && rel(t) == Success(true)
    ensures det(t) == Success(true) || det(t) == Success(false)
  {
    var k :| 0 <= k < |cands| && cands[k] == t;
    assert !Crashes(cands[k], rel, det);
    var answer := det(t);
    assert answer.Success?;
    assert answer == Success(answer.value);
    assert answer.value == true || answer.value == false;
  }

  /** The deterministic list holds exactly the relevant deterministic
      candidates and the other list exactly the relevant non-deterministic
      ones; without a crash each relevant candidate lands in exactly one list,
      as often as it occurs. */
  lemma {:induction false} SelectMeaning(cands: seq<seq<string>>, rel: Test, det: Test)
    ensures forall t :: t in Select(cands, rel, det, true) ==> rel(t) == Success(true) && det(t) == Success(true)
    ensures forall t :: t in Select(cands, rel, det, false) ==> rel(t) == Success(true) && det(t) == Success(false)
    ensures |Select(cands, rel, det, true)| + |Select(cands, rel, det, false)| <= |cands|
    ensures !AnyCrashes(cands, rel, det) ==>
      forall t :: t in cands && rel(t) == Success(true) ==>
        && (t in Select(cands, rel, det, true) <==> det(t) == Success(true))
        && (t in Select(cands, rel, det, false) <==> det(t) == Success(false))
    ensures !AnyCrashes(cands, rel, det) ==>
      multiset(Select(cands, rel, det, true)) + multiset(Select(cands, rel, det, false)) == multiset(RelevantOnes(cands, rel))
  {
    SelectSound(cands, rel, det);
    SelectComplete(cands, rel, det, true);
    SelectComplete(cands, rel, det, false);
    if !AnyCrashes(cands, rel, det) {
      SelectCounts(cands, rel, det);
      forall t | t in cands && rel(t) == Success(true)
        ensures (t in Select(cands, rel, det, true) <==> det(t) == Success(true))
             && (t in Select(cands, rel, det, false) <==> det(t) == Success(false))
      {
        NoCrashAt(cands, rel, det, t);
      }
    }
  }

  /** Only relevant candidates with the matching answer are selected. */
  lemma {:induction false} SelectSound(cands: seq<seq<string>>, rel: Test, det: Test)
    ensures forall t :: t in Select(cands, rel, det, true) ==> rel(t) == Success(true) && det(t) == Success(true)
    ensures forall t :: t in Select(cands, rel, det, false) ==> rel(t) == Success(true) && det(t) == Success(false)
    ensures |Select(cands, rel, det, true)| + |Select(cands, rel, det, false)| <= |cands|
  {
    if |cands| > 0 {
      SelectSound(cands[..|cands| - 1], rel, det);
    }
  }

  /** Each list keeps the order of the candidates: entry k is candidate
      idx[k], for strictly increasing positions idx. */
  lemma {:induction false} SelectInOrder(cands: seq<seq<string>>, rel: Test, det: Test, want: bool) returns (idx: seq<nat>)
    ensures |idx| == |Select(cands, rel, det, want)|
    ensures forall k :: 0 <= k < |idx| ==> idx[k] < |cands| && Select(cands, rel, det, want)[k] == cands[idx[k]]
    ensures forall k, l :: 0 <= k < l < |idx| ==> idx[k] < idx[l]
  {
    if |cands| == 0 {
      idx := [];
    } else {
      var c', t := cands[..|cands| - 1], cands[|cands| - 1];
      var idx' := SelectInOrder(c', rel, det, want);
      var prev := Select(c', rel, det, want);
      if rel(t) == Success(true) && det(t) == Success(want) {
        assert Select(cands, rel, det, want) == prev + [t];
        idx := idx' + [|cands| - 1];
      } else {
        assert Select(cands, rel, det, want) == prev;
        idx := idx';
      }
    }
  }

  /** The filter fails exactly when some vertex line makes a test raise
      IndexError. Otherwise the deterministic file holds the relevant
      deterministic vertex lines and the other file the relevant
      non-deterministic ones, both in file order; each relevant vertex line is
      written to exactly one of them, as often as it occurs. */
  lemma FilterPartition(lines: seq<string>, parse: Parse)
    ensures var rel, det := RelevanceTest(parse), DeterminismTest(parse);
      var c := Candidates(lines, |lines|);
      var r := Sorted(lines, rel, det, |lines|);
      && (r == IndexError <==> AnyCrashes(c, rel, det))
      && (r.Success? ==>
        && r.value == (Select(c, rel, det, true), Select(c, rel, det, false))
        && (forall t :: t in r.value.0 ==> Relevant(t, parse) == Success(true) && Deterministic(t, parse) == Success(true))
        && (forall t :: t in r.value.1 ==> Relevant(t, parse) == Success(true) && Deterministic(t, parse) == Success(false))
        && (forall t :: t in c && Relevant(t, parse) == Success(true) ==>
              && (t in r.value.0 <==> Deterministic(t, parse) == Success(true))
              && (t in r.value.1 <==> Deterministic(t, parse) == Success(false)))
        && multiset(r.value.0) + multiset(r.value.1) == multiset(RelevantOnes(c, rel))
        && |r.value.0| + |r.value.1| <= |c|)
  {
    var rel, det := RelevanceTest(parse), DeterminismTest(parse);
    SortedMeaning(lines, rel, det, |lines|);
    SelectMeaning(Candidates(lines, |lines|), rel, det);
  }

  /** The joined lines of a list of space-free, newline-free tokens carry no newline. */
  lemma {:induction false} JoinAvoids(ts: seq<string>, sep: char, c: char)
    requires c != sep && forall k :: 0 <= k < |ts| ==> c !in ts[k]
    ensures c !in Join(ts, sep)
  {
    if |ts| > 1 {
      JoinAvoids(ts[1..], sep, c);
    }
  }

  /** Reading a written file back, by splitting at newlines and then at
      spaces, gives the strategies, when there is at least one and no token
      holds a space or a newline. */
  lemma FileTextRoundTrip(strategies: seq<seq<string>>)
    requires |strategies| > 0
    requires forall k :: 0 <= k < |strategies| ==> |strategies[k]| > 0
    requires forall k, m :: 0 <= k < |strategies| && 0 <= m < |strategies[k]| ==> ' ' !in strategies[k][m] && '\n' !in strategies[k][m]
    ensures var rows := Split(FileText(strategies), '\n');
      |rows| == |strategies| && forall k :: 0 <= k < |rows| ==> Split(rows[k], ' ') == strategies[k]
  {
    var joined := seq(|strategies|, (k: int) requires 0 <= k < |strategies| => Join(strategies[k], ' '));
    forall k | 0 <= k < |joined|
      ensures '\n' !in joined[k] && Split(joined[k], ' ') == strategies[k]
    {
      JoinAvoids(strategies[k], ' ', '\n');
      SplitOfJoin(strategies[k], ' ');
    }
    SplitOfJoin(joined, '\n');
  }
}
