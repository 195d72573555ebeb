/** Linear programs as PuLP holds them: non-negative variables numbered
    0 .. nvars-1, constraints kept as "affine expression (== | >=) 0", and an
    objective to maximise. The solver itself is not modelled; a program is
    data, and a point is feasible when it satisfies every constraint. */
module Lp {
  import opened Sums

  /** coef · variables[v]. */
  datatype Term = Term(v: int, coef: real)

  datatype Relation = Equal | AtLeast

  /** Σ coef · variables[v] + constant, compared with 0. */
  datatype Constraint = Constraint(terms: seq<Term>, constant: real, rel: Relation)

  /** Maximise the objective over variables with lowBound = 0 that satisfy
      every constraint. */
  datatype Program = Program(nvars: nat, constraints: seq<Constraint>, objective: seq<Term>)

  /** The value of a sum of terms at the point q. */
  function Eval(terms: seq<Term>, q: seq<real>): real
  {
    if |terms| == 0 then 0.0
    else Eval(terms[..|terms| - 1], q) + terms[|terms| - 1].coef * At(q, terms[|terms| - 1].v)
  }

  predicate Holds(c: Constraint, q: seq<real>)
  {
    var lhs := Eval(c.terms, q) + c.constant;
    if c.rel == Equal then lhs == 0.0 else lhs >= 0.0
  }

  predicate Satisfies(p: Program, q: seq<real>)
  {
    |q| == p.nvars && NonNegative(q) && forall k :: 0 <= k < |p.constraints| ==> Holds(p.constraints[k], q)
  }

  /** v bounds the objective on the feasible region: what an optimum the
      solver reports must satisfy. */
  ghost predicate UpperBound(p: Program, v: real)
  {
    forall q :: Satisfies(p, q) ==> Eval(p.objective, q) <= v
  }

  /** The sum of the coefficients of a list of terms. */
  function CoefSum(terms: seq<Term>): real
  {
    if |terms| == 0 then 0.0 else CoefSum(terms[..|terms| - 1]) + terms[|terms| - 1].coef
  }

  /** The coefficient a list of terms gives variable v: duplicates accumulate. */
  function CoefficientOf(terms: seq<Term>, v: int): real
  {
    if |terms| == 0 then 0.0
    else CoefficientOf(terms[..|terms| - 1], v) + (if terms[|terms| - 1].v == v then terms[|terms| - 1].coef else 0.0)
  }

  /** A sum of two lists of terms. */
  lemma {:induction false} EvalAppend(ts: seq<Term>, us: seq<Term>, q: seq<real>)
    ensures Eval(ts + us, q) == Eval(ts, q) + Eval(us, q)
  {
    if |us| == 0 {
      assert ts + us == ts;
    } else {
      EvalAppend(ts, us[..|us| - 1], q);
      assert (ts + us)[..|ts + us| - 1] == ts + us[..|us| - 1];
    }
  }

  /** m terms with coefficient c on the variables f(0) .. f(m-1) are worth c
      times the sum of q over those variables (g reads q at f). */
  lemma {:induction false} EvalUniform(m: nat, f: nat -> int, c: real, q: seq<real>, g: nat -> real)
    requires forall i: nat :: i < m ==> g(i) == At(q, f(i))
    ensures Eval(seq(m, (i: int) requires 0 <= i < m => Term(f(i), c)), q) == c * SumOf(m, g)
  {
    var ts := seq(m, (i: int) requires 0 <= i < m => Term(f(i), c));
    if m > 0 {
      var ts' := seq(m - 1, (i: int) requires 0 <= i < m - 1 => Term(f(i), c));
      EvalUniform(m - 1, f, c, q, g);
      assert ts[..m - 1] == ts';
      assert Eval(ts, q) == Eval(ts', q) + c * g(m - 1);
      assert c * SumOf(m, g) == c * SumOf(m - 1, g) + c * g(m - 1);
    }
  }

  /** Terms that all carry the coefficient c are worth c times the sum of q
      over their variables (g reads q at the variable of term i). */
  lemma {:induction false} EvalSameCoef(ts: seq<Term>, c: real, q: seq<real>, g: nat -> real)
    requires forall k :: 0 <= k < |ts| ==> ts[k].coef == c
    requires forall i: nat :: i < |ts| ==> g(i) == At(q, ts[i].v)
    ensures Eval(ts, q) == c * SumOf(|ts|, g)
  {
    var n := |ts|;
    if n > 0 {
      var init := ts[..n - 1];
      EvalSameCoef(init, c, q, g);
      assert Eval(ts, q) == Eval(init, q) + c * g(n - 1);
      assert c * SumOf(n, g) == c * SumOf(n - 1, g) + c * g(n - 1);
    }
  }

  /** The value of four terms. */
  lemma Eval4(t0: Term, t1: Term, t2: Term, t3: Term, q: seq<real>)
    ensures Eval([t0, t1, t2, t3], q)
         == t0.coef * At(q, t0.v) + t1.coef * At(q, t1.v) + t2.coef * At(q, t2.v) + t3.coef * At(q, t3.v)
  {
    var ts := [t0, t1, t2, t3];
    assert ts[..3] == [t0, t1, t2] && [t0, t1, t2][..2] == [t0, t1] && [t0, t1][..1] == [t0] && [t0][..0] == [];
    assert Eval([t0], q) == t0.coef * At(q, t0.v);
    assert Eval([t0, t1], q) == Eval([t0], q) + t1.coef * At(q, t1.v);
    assert Eval([t0, t1, t2], q) == Eval([t0, t1], q) + t2.coef * At(q, t2.v);
  }

  lemma SatisfiesAppend(n: nat, cs: seq<Constraint>, ds: seq<Constraint>, obj: seq<Term>, q: seq<real>)
    ensures Satisfies(Program(n, cs + ds, obj), q)
        <==> Satisfies(Program(n, cs, obj), q) && Satisfies(Program(n, ds, obj), q)
  {
    var all := cs + ds;
    if Satisfies(Program(n, cs, obj), q) && Satisfies(Program(n, ds, obj), q) {
      forall k | 0 <= k < |all|
        ensures Holds(all[k], q)
      {
        if k >= |cs| {
          assert all[k] == ds[k - |cs|];
        } else {
          assert all[k] == cs[k];
        }
      }
    }
    if Satisfies(Program(n, all, obj), q) {
      forall k | 0 <= k < |ds|
        ensures Holds(ds[k], q)
      {
        assert all[|cs| + k] == ds[k];
      }
      forall k | 0 <= k < |cs|
        ensures Holds(cs[k], q)
      {
        assert all[k] == cs[k];
      }
    }
  }
}
