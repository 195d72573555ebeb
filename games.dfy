/** Games of the binary three-player search: a game is a list of
    combinations (x, a, b, c) with the uniform distribution over it, and the
    sweeps of Classical.py and no-signalling.py select each non-empty subset
    of the 16 combinations by a 16-bit mask. */
module Games {
  import opened Index

  /** One combination: referee value x and the players' inputs a, b, c. */
  datatype Combo = Combo(x: int, a: int, b: int, c: int)

  predicate IsBinaryCombo(e: Combo)
  {
    IsBit(e.x) && IsBit(e.a) && IsBit(e.b) && IsBit(e.c)
  }

  predicate AllBinary(s: seq<Combo>)
  {
    forall k :: 0 <= k < |s| ==> IsBinaryCombo(s[k])
  }

  /** possible_combinations: all sixteen binary combinations in lexicographic order. */
  const Universe: seq<Combo> :=
    [Combo(0, 0, 0, 0), Combo(0, 0, 0, 1), Combo(0, 0, 1, 0), Combo(0, 0, 1, 1),
     Combo(0, 1, 0, 0), Combo(0, 1, 0, 1), Combo(0, 1, 1, 0), Combo(0, 1, 1, 1),
     Combo(1, 0, 0, 0), Combo(1, 0, 0, 1), Combo(1, 0, 1, 0), Combo(1, 0, 1, 1),
     Combo(1, 1, 0, 0), Combo(1, 1, 0, 1), Combo(1, 1, 1, 0), Combo(1, 1, 1, 1)]

  /** Entry j of the universe is the 4-bit string of j. */
  lemma UniverseAt(j: nat)
    requires j < 16
    ensures Universe[j] == Combo(j / 8, (j / 4) % 2, (j / 2) % 2, j % 2)
    ensures IsBinaryCombo(Universe[j])
  {
  }

  lemma UniverseDistinct(j: nat, k: nat)
    requires j < 16 && k < 16 && j != k
    ensures Universe[j] != Universe[k]
  {
    UniverseAt(j);
    UniverseAt(k);
  }

  /** The universe lists every binary combination exactly once. */
  lemma UniverseIsAllCombos(e: Combo)
    requires IsBinaryCombo(e)
    ensures 0 <= 8 * e.x + 4 * e.a + 2 * e.b + e.c < 16
    ensures Universe[8 * e.x + 4 * e.a + 2 * e.b + e.c] == e
    ensures forall j :: 0 <= j < 16 && Universe[j] == e ==> j == 8 * e.x + 4 * e.a + 2 * e.b + e.c
  {
    forall j | 0 <= j < 16 && Universe[j] == e
      ensures j == 8 * e.x + 4 * e.a + 2 * e.b + e.c
    {
      UniverseAt(j);
    }
    UniverseAt(8 * e.x + 4 * e.a + 2 * e.b + e.c);
  }

  /** The combinations of the universe among its first n entries whose
      character of the 16-bit mask string is '1', in universe order. */
  function Chosen(i: nat, n: nat): seq<Combo>
    requires i < Pow2(16) && n <= 16
  {
    if n == 0 then []
    else Chosen(i, n - 1) + (if ToBits(i, 16)[n - 1] == 1 then [Universe[n - 1]] else [])
  }

  /** The subset a sweep uses for mask i. */
  function MaskSubset(i: nat): seq<Combo>
    requires i < Pow2(16)
  {
    Chosen(i, 16)
  }

  /** The sweeps' subset construction: format i as 16 bits and append
      possible_combinations[j] whenever character j is '1'. */
  method SubsetOfMask(i: nat) returns (subset: seq<Combo>)
    requires i < Pow2(16)
    ensures subset == MaskSubset(i)
    ensures forall j :: 0 <= j < 16 ==> (Universe[j] in subset <==> Bit(i, 15 - j) == 1)
  {
    var subsetString := ToBits(i, 16);
    subset := [];
    for j := 0 to 16
      invariant subset == Chosen(i, j)
    {
      if subsetString[j] == 1 {
        subset := subset + [Universe[j]];
      }
    }
    forall j | 0 <= j < 16
      ensures Universe[j] in subset <==> Bit(i, 15 - j) == 1
    {
      MaskSubsetMembers(i, j);
    }
  }

  lemma {:induction false} ChosenMembers(i: nat, n: nat, j: nat)
    requires i < Pow2(16) && n <= 16 && j < 16
    ensures Universe[j] in Chosen(i, n) <==> j < n && ToBits(i, 16)[j] == 1
  {
    if n > 0 {
      ChosenMembers(i, n - 1, j);
      var last := if ToBits(i, 16)[n - 1] == 1 then [Universe[n - 1]] else [];
      assert Chosen(i, n) == Chosen(i, n - 1) + last;
      if j != n - 1 {
        UniverseDistinct(j, n - 1);
      }
    }
  }

  /** Combination j is in the subset exactly when bit 15 - j of the mask is set. */
  lemma MaskSubsetMembers(i: nat, j: nat)
    requires i < Pow2(16) && j < 16
    ensures Universe[j] in MaskSubset(i) <==> Bit(i, 15 - j) == 1
  {
    ChosenMembers(i, 16, j);
    ToBitsAt(i, 16, j);
  }

  lemma {:induction false} ChosenBinary(i: nat, n: nat)
    requires i < Pow2(16) && n <= 16
    ensures AllBinary(Chosen(i, n))
  {
    if n > 0 {
      ChosenBinary(i, n - 1);
      UniverseAt(n - 1);
    }
  }

  /** Every subset is binary, and no mask from 1 up gives the empty subset,
      so the sweeps never divide by zero. */
  lemma MaskSubsetNonEmpty(i: nat)
    requires 1 <= i < Pow2(16)
    ensures |MaskSubset(i)| > 0 && AllBinary(MaskSubset(i))
  {
    ChosenBinary(i, 16);
    var s := ToBits(i, 16);
    if forall j :: 0 <= j < 16 ==> s[j] == 0 {
      AllZeroBits(s);
      BitsValueOfToBits(i, 16);
      assert false;
    }
    var j :| 0 <= j < 16 && s[j] != 0;
    ChosenMembers(i, 16, j);
  }

  lemma {:induction false} AllZeroBits(s: seq<int>)
    requires forall j :: 0 <= j < |s| ==> s[j] == 0
    ensures BitsValue(s) == 0
  {
    if |s| > 0 {
      AllZeroBits(s[..|s| - 1]);
    }
  }

  /** Distinct masks select distinct subsets. */
  lemma MaskSubsetInjective(i: nat, i': nat)
    requires i < Pow2(16) && i' < Pow2(16) && MaskSubset(i) == MaskSubset(i')
    ensures i == i'
  {
    var s, s' := ToBits(i, 16), ToBits(i', 16);
    forall j | 0 <= j < 16
      ensures s[j] == s'[j]
    {
      ChosenMembers(i, 16, j);
      ChosenMembers(i', 16, j);
    }
    assert s == s';
    BitsValueOfToBits(i, 16);
    BitsValueOfToBits(i', 16);
  }
}
