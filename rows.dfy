/** Rows of a cdd matrix [b | -A]: each row is built by the polytope
    builders as `rule = [0]*(n+1)` followed by assignments `rule[pos] = coef`,
    and stands for the constraint b - A·q >= 0 (or = 0 when it is added
    with linear=True). This module gives the row a builder produces from
    its list of assignments, and the value b - A·q it takes at a point q. */
module Rows {
  import opened Sums

  /** One assignment `rule[pos] = coef`. */
  datatype Write = Write(pos: int, coef: int)

  /** Every assignment targets a variable column 1..n (never the b column). */
  predicate WritesIn(n: nat, ws: seq<Write>)
  {
    forall k :: 0 <= k < |ws| ==> 1 <= ws[k].pos <= n
  }

  /** No two assignments target the same column. */
  predicate DistinctPositions(ws: seq<Write>)
  {
    forall k, l :: 0 <= k < l < |ws| ==> ws[k].pos != ws[l].pos
  }

  /** Four assignments to pairwise different columns. */
  lemma DistinctPositions4(w0: Write, w1: Write, w2: Write, w3: Write)
    requires w0.pos != w1.pos && w0.pos != w2.pos && w0.pos != w3.pos
    requires w1.pos != w2.pos && w1.pos != w3.pos && w2.pos != w3.pos
    ensures DistinctPositions([w0, w1, w2, w3])
  {
  }

  /** The value the assignments leave at column p: the last one to p wins,
      and a column nobody assigns keeps its 0. */
  function Coef(ws: seq<Write>, p: nat): int
  {
    if |ws| == 0 then 0
    else if ws[|ws| - 1].pos == p then ws[|ws| - 1].coef
    else Coef(ws[..|ws| - 1], p)
  }

  /** The row of length n+1 with b in column 0 and the assignments ws applied in order. */
  function Rule(n: nat, b: int, ws: seq<Write>): (r: seq<int>)
    ensures |r| == n + 1
  {
    seq(n + 1, (p: int) requires 0 <= p <= n => if p == 0 then b else Coef(ws, p))
  }

  /** Building a row: allocate the zero row, set column 0 to b and apply the
      assignments one after the other. */
  method MakeRule(n: nat, b: int, ws: seq<Write>) returns (rule: seq<int>)
    requires WritesIn(n, ws)
    ensures rule == Rule(n, b, ws)
    ensures |rule| == n + 1 && rule[0] == b
  {
    var a := new int[n + 1](_ => 0);
    a[0] := b;
    assert a[..] == Rule(n, b, []);
    for k := 0 to |ws|
      invariant a[..] == Rule(n, b, ws[..k])
    {
      assert ws[..k + 1][..k] == ws[..k];
      a[ws[k].pos] := ws[k].coef;
    }
    assert ws[..|ws|] == ws;
    rule := a[..];
  }

  /** The summands rule[k+1]·q[k] of A·q. */
  function Terms(row: seq<int>, q: seq<real>): nat -> real
  {
    (k: nat) => if k < |q| && k + 1 < |row| then row[k + 1] as real * q[k] else 0.0
  }

  /** b - A·q for the row [b | -A], written as rule[0] + Σ_k rule[k+1]·q[k]:
      a positivity row holds at q when this is >= 0, an equality row when it is 0. */
  function Value(row: seq<int>, q: seq<real>): real
    requires |row| == |q| + 1
  {
    row[0] as real + SumOf(|q|, Terms(row, q))
  }

  /** The contribution Σ coef·q[pos-1] of a list of assignments. */
  function WritesValue(ws: seq<Write>, q: seq<real>): real
    requires WritesIn(|q|, ws)
  {
    if |ws| == 0 then 0.0
    else WritesValue(ws[..|ws| - 1], q) + ws[|ws| - 1].coef as real * q[ws[|ws| - 1].pos - 1]
  }

  /** One more assignment adds its coefficient times q at its column. */
  lemma WritesValueSnoc(ws: seq<Write>, q: seq<real>)
    requires WritesIn(|q|, ws) && |ws| > 0
    ensures WritesIn(|q|, ws[..|ws| - 1])
    ensures WritesValue(ws, q) == WritesValue(ws[..|ws| - 1], q) + ws[|ws| - 1].coef as real * q[ws[|ws| - 1].pos - 1]
  {
  }

  /** The contribution of four assignments. */
  lemma WritesValueOf4(ws: seq<Write>, q: seq<real>)
    requires |ws| == 4 && WritesIn(|q|, ws)
    ensures WritesValue(ws, q) == ws[0].coef as real * q[ws[0].pos - 1] + ws[1].coef as real * q[ws[1].pos - 1]
                                + ws[2].coef as real * q[ws[2].pos - 1] + ws[3].coef as real * q[ws[3].pos - 1]
  {
    var w3, w2, w1 := ws[..3], ws[..2], ws[..1];
    WritesValueSnoc(ws, q);
    assert w3[..2] == w2 && w2[..1] == w1 && w1[..0] == [];
    WritesValueSnoc(w3, q);
    WritesValueSnoc(w2, q);
    WritesValueSnoc(w1, q);
  }

  /** A column no assignment targets stays 0; with distinct targets, the column
      of assignment j holds that assignment's coefficient. */
  lemma {:induction false} CoefAt(ws: seq<Write>, p: nat)
    requires DistinctPositions(ws)
    ensures (forall k :: 0 <= k < |ws| ==> ws[k].pos != p) ==> Coef(ws, p) == 0
    ensures forall k :: 0 <= k < |ws| && ws[k].pos == p ==> Coef(ws, p) == ws[k].coef
  {
    if |ws| > 0 {
      var init := ws[..|ws| - 1];
      CoefAt(init, p);
      assert forall k :: 0 <= k < |init| ==> init[k] == ws[k];
    }
  }

  /** Appending an assignment updates one column of the row. */
  lemma RuleSnoc(n: nat, b: int, ws: seq<Write>, w: Write)
    requires 1 <= w.pos <= n
    ensures Rule(n, b, ws + [w]) == Rule(n, b, ws)[w.pos := w.coef]
  {
    var ws' := ws + [w];
    assert ws'[..|ws'| - 1] == ws;
  }

  /** Changing column p moves the value by the change times q[p-1]. */
  lemma ValueUpdate(row: seq<int>, q: seq<real>, p: nat, c: int)
    requires |row| == |q| + 1 && 1 <= p <= |q|
    ensures Value(row[p := c], q) == Value(row, q) + (c - row[p]) as real * q[p - 1]
  {
    var row' := row[p := c];
    var d := (c - row[p]) as real * q[p - 1];
    var f := Terms(row, q);
    var delta := (i: nat) => if i == p - 1 then d else 0.0;
    forall k: nat | k < |q|
      ensures Terms(row', q)(k) == f(k) + delta(k)
    {
      if k == p - 1 {
        assert row'[k + 1] as real * q[k] == row[k + 1] as real * q[k] + d;
      }
    }
    SumOfCongruent(|q|, Terms(row', q), (i: nat) => f(i) + delta(i));
    SumOfPlus(|q|, f, delta);
    SumOfIndicator(|q|, p - 1, d);
  }

  /** A row with no assignments is worth its b column. */
  lemma ValueOfEmptyRule(b: int, q: seq<real>)
    ensures Value(Rule(|q|, b, []), q) == b as real
  {
    var n, row := |q|, Rule(|q|, b, []);
    forall k: nat | k < n
      ensures Terms(row, q)(k) == (_ => 0.0)(k)
    {
      assert row[k + 1] == 0;
    }
    SumOfCongruent(n, Terms(row, q), _ => 0.0);
    SumOfConstant(n, 0.0);
  }

  /** The value of a built row with distinct targets is b plus the contribution
      of its assignments. */
  lemma {:induction false} ValueOfRule(b: int, ws: seq<Write>, q: seq<real>)
    requires WritesIn(|q|, ws) && DistinctPositions(ws)
    ensures Value(Rule(|q|, b, ws), q) == b as real + WritesValue(ws, q)
  {
    var n := |q|;
    if |ws| == 0 {
      ValueOfEmptyRule(b, q);
    } else {
      var init, w := ws[..|ws| - 1], ws[|ws| - 1];
      assert ws == init + [w];
      WritesValueSnoc(ws, q);
      ValueOfRule(b, init, q);
      RuleSnoc(n, b, init, w);
      CoefAt(init, w.pos);
      ValueUpdate(Rule(n, b, init), q, w.pos, w.coef);
    }
  }

  /** The contribution of two lists of assignments, one after the other. */
  lemma {:induction false} WritesValueAppend(ws: seq<Write>, vs: seq<Write>, q: seq<real>)
    requires WritesIn(|q|, ws) && WritesIn(|q|, vs)
    ensures WritesIn(|q|, ws + vs)
    ensures WritesValue(ws + vs, q) == WritesValue(ws, q) + WritesValue(vs, q)
  {
    if |vs| > 0 {
      var init := vs[..|vs| - 1];
      WritesValueAppend(ws, init, q);
      assert (ws + vs)[..|ws + vs| - 1] == ws + init;
    } else {
      assert ws + vs == ws;
    }
  }

  /** Assignments that all carry the coefficient c contribute c times the
      sum of q over their columns (g reads q at the column of assignment i). */
  lemma {:induction false} WritesValueSameCoef(ws: seq<Write>, c: int, q: seq<real>, g: nat -> real)
    requires WritesIn(|q|, ws)
    requires forall k :: 0 <= k < |ws| ==> ws[k].coef == c
    requires forall i: nat :: i < |ws| ==> g(i) == q[ws[i].pos - 1]
    ensures WritesValue(ws, q) == c as real * SumOf(|ws|, g)
  {
    var n := |ws|;
    if n > 0 {
      var init := ws[..n - 1];
      WritesValueSameCoef(init, c, q, g);
      assert WritesValue(ws, q) == WritesValue(init, q) + c as real * g(n - 1);
      assert c as real * SumOf(n, g) == c as real * SumOf(n - 1, g) + c as real * g(n - 1);
    }
  }

  /** m assignments of the same coefficient c to the columns f(0)+1 .. f(m-1)+1
      contribute c times the sum of q over f(0) .. f(m-1). */
  lemma {:induction false} WritesValueUniform(m: nat, f: nat -> int, c: int, q: seq<real>)
    requires forall i: nat :: i < m ==> 0 <= f(i) < |q|
    ensures WritesIn(|q|, seq(m, (i: int) requires 0 <= i < m => Write(f(i) + 1, c)))
    ensures WritesValue(seq(m, (i: int) requires 0 <= i < m => Write(f(i) + 1, c)), q)
         == c as real * SumOf(m, (i: nat) => if i < m then q[f(i)] else 0.0)
  {
    var ws := seq(m, (i: int) requires 0 <= i < m => Write(f(i) + 1, c));
    var g := (i: nat) => if i < m then q[f(i)] else 0.0;
    if m > 0 {
      var ws' := seq(m - 1, (i: int) requires 0 <= i < m - 1 => Write(f(i) + 1, c));
      var g' := (i: nat) => if i < m - 1 then q[f(i)] else 0.0;
      WritesValueUniform(m - 1, f, c, q);
      assert ws[..m - 1] == ws';
      SumOfCongruent(m - 1, g, g');
    }
  }
}
