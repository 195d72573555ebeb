/** Finite sums of reals indexed by 0..n-1, with the handful of facts the
    constraint and objective lemmas need: splitting, reindexing a flat range
    as a nested one, pointwise equality and indicator sums. */
module Sums {

  /** Entry p of a vector q, read as 0 outside the vector. */
  function At(q: seq<real>, p: int): real
  {
    if 0 <= p < |q| then q[p] else 0.0
  }

  predicate NonNegative(q: seq<real>)
  {
    forall p :: 0 <= p < |q| ==> q[p] >= 0.0
  }

  /** SumOf(n, f) = f(0) + f(1) + ... + f(n-1), added left to right. */
  function SumOf(n: nat, f: nat -> real): real
  {
    if n == 0 then 0.0 else SumOf(n - 1, f) + f(n - 1)
  }

  /** Functions that agree below n have the same sum below n. */
  lemma {:induction false} SumOfCongruent(n: nat, f: nat -> real, g: nat -> real)
    requires forall i: nat :: i < n ==> f(i) == g(i)
    ensures SumOf(n, f) == SumOf(n, g)
  {
    if n > 0 {
      SumOfCongruent(n - 1, f, g);
    }
  }

  /** A sum of non-negative terms is non-negative. */
  lemma {:induction false} SumOfNonNegative(n: nat, f: nat -> real)
    requires forall i: nat :: i < n ==> f(i) >= 0.0
    ensures SumOf(n, f) >= 0.0
  {
    if n > 0 {
      SumOfNonNegative(n - 1, f);
    }
  }

  /** Summing a constant n times. */
  lemma {:induction false} SumOfConstant(n: nat, c: real)
    ensures SumOf(n, _ => c) == n as real * c
  {
    if n > 0 {
      SumOfConstant(n - 1, c);
      assert SumOf(n, _ => c) == SumOf(n - 1, _ => c) + c;
      assert n as real * c == (n - 1) as real * c + c;
    }
  }

  /** A range of length a + k splits into its first a terms and the k after. */
  lemma {:induction false} SumOfSplit(a: nat, k: nat, f: nat -> real)
    ensures SumOf(a + k, f) == SumOf(a, f) + SumOf(k, (j: nat) => f(a + j))
  {
    if k > 0 {
      SumOfSplit(a, k - 1, f);
    }
  }

  /** A flat range of m*k indices, read as m blocks of k consecutive ones. */
  lemma {:induction false} SumOfNested(m: nat, k: nat, f: nat -> real)
    ensures SumOf(m * k, f) == SumOf(m, (i: nat) => SumOf(k, (j: nat) => f(i * k + j)))
  {
    if m > 0 {
      SumOfNested(m - 1, k, f);
      calc {
        SumOf(m * k, f);
        { assert m * k == (m - 1) * k + k; }
        SumOf((m - 1) * k + k, f);
        { SumOfSplit((m - 1) * k, k, f); }
        SumOf((m - 1) * k, f) + SumOf(k, (j: nat) => f((m - 1) * k + j));
      }
    }
  }

  /** The sum of c at the single index v (and 0 elsewhere) is c when v is in range, 0 otherwise. */
  lemma {:induction false} SumOfIndicator(n: nat, v: int, c: real)
    ensures SumOf(n, (i: nat) => if i == v then c else 0.0) == if 0 <= v < n then c else 0.0
  {
    if n > 0 {
      SumOfIndicator(n - 1, v, c);
    }
  }

  /** A sum of a difference is the difference of the sums. */
  lemma {:induction false} SumOfMinus(n: nat, f: nat -> real, g: nat -> real)
    ensures SumOf(n, (i: nat) => f(i) - g(i)) == SumOf(n, f) - SumOf(n, g)
  {
    if n > 0 {
      SumOfMinus(n - 1, f, g);
    }
  }

  /** A sum of a sum is the sum of the sums. */
  lemma {:induction false} SumOfPlus(n: nat, f: nat -> real, g: nat -> real)
    ensures SumOf(n, (i: nat) => f(i) + g(i)) == SumOf(n, f) + SumOf(n, g)
  {
    if n > 0 {
      SumOfPlus(n - 1, f, g);
    }
  }

  /** A constant factor comes out of a sum. */
  lemma {:induction false} SumOfScale(n: nat, c: real, f: nat -> real)
    ensures SumOf(n, (i: nat) => c * f(i)) == c * SumOf(n, f)
  {
    if n > 0 {
      SumOfScale(n - 1, c, f);
      assert c * SumOf(n, f) == c * SumOf(n - 1, f) + c * f(n - 1);
    }
  }
}
