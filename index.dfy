/** The flat-index layouts every routine uses to address a probability vector
    q(outputs | inputs): binary strings read as integers (the three-player
    binary layout), and the mixed-radix layouts of the two-player topologies.
    Each comes with its inverse and the bijection lemmas. */
module Index {

  function Pow2(w: nat): (r: nat)
    ensures r >= 1
  {
    if w == 0 then 1 else 2 * Pow2(w - 1)
  }

  predicate IsBit(v: int) { v == 0 || v == 1 }

  predicate AllBits(s: seq<int>) { forall i :: 0 <= i < |s| ==> IsBit(s[i]) }

  /** Value of a bitstring, most significant bit first (Python's int(s, 2)). */
  function BitsValue(s: seq<int>): int
  {
    if |s| == 0 then 0 else 2 * BitsValue(s[..|s| - 1]) + s[|s| - 1]
  }

  /** The w-bit binary representation of i, most significant bit first
      (Python's '{0:0wb}'.format(i) for i < 2^w). */
  function ToBits(i: nat, w: nat): (r: seq<int>)
    requires i < Pow2(w)
    ensures |r| == w && AllBits(r)
  {
    if w == 0 then [] else ToBits(i / 2, w - 1) + [i % 2]
  }

  /** Bit k of i, counting from the least significant bit. */
  function Bit(i: nat, k: nat): int
  {
    (i / Pow2(k)) % 2
  }

  lemma {:induction false} BitsValueOfToBits(i: nat, w: nat)
    requires i < Pow2(w)
    ensures BitsValue(ToBits(i, w)) == i
  {
    if w > 0 {
      BitsValueOfToBits(i / 2, w - 1);
      assert ToBits(i, w)[..w - 1] == ToBits(i / 2, w - 1);
    }
  }

  lemma {:induction false} ToBitsOfBitsValue(s: seq<int>)
    requires AllBits(s)
    ensures 0 <= BitsValue(s) < Pow2(|s|)
    ensures ToBits(BitsValue(s), |s|) == s
  {
    if |s| > 0 {
      var p := s[..|s| - 1];
      ToBitsOfBitsValue(p);
      assert BitsValue(s) / 2 == BitsValue(p);
      assert s == p + [s[|s| - 1]];
    }
  }

  /** Appending one bit doubles the value and adds the bit. */
  lemma BitsValueSnoc(s: seq<int>, v: int)
    ensures BitsValue(s + [v]) == 2 * BitsValue(s) + v
  {
    assert (s + [v])[..|s|] == s;
  }

  /** Reading a concatenated bitstring: the left part is shifted by the length of the right part. */
  lemma {:induction false} BitsValueAppend(s: seq<int>, t: seq<int>)
    ensures BitsValue(s + t) == BitsValue(s) * Pow2(|t|) + BitsValue(t)
  {
    if |t| == 0 {
      assert s + t == s;
    } else {
      var t' := t[..|t| - 1];
      var v := t[|t| - 1];
      assert t == t' + [v];
      assert s + t == (s + t') + [v];
      BitsValueAppend(s, t');
      BitsValueSnoc(s + t', v);
      BitsValueSnoc(t', v);
      assert Pow2(|t|) == 2 * Pow2(|t'|);
      calc {
        BitsValue(s + t);
        2 * (BitsValue(s) * Pow2(|t'|) + BitsValue(t')) + v;
        { MulAssoc2(BitsValue(s), Pow2(|t'|)); }
        BitsValue(s) * Pow2(|t|) + BitsValue(t);
      }
    }
  }

  lemma MulAssoc2(x: int, y: int)
    ensures 2 * (x * y) == x * (2 * y)
  {
  }

  /** Character j of the w-bit string of i is bit w-1-j of i. */
  lemma {:induction false} ToBitsAt(i: nat, w: nat, j: nat)
    requires i < Pow2(w) && j < w
    ensures ToBits(i, w)[j] == Bit(i, w - 1 - j)
  {
    if j < w - 1 {
      ToBitsAt(i / 2, w - 1, j);
      DivDiv(i, 2, Pow2(w - 2 - j));
    }
  }

  lemma DivDiv(i: nat, d: nat, e: nat)
    requires d > 0 && e > 0
    ensures i / d / e == i / (d * e)
  {
    var q, r := i / d, i % d;
    var q', r' := q / e, q % e;
    assert i == (q' * e + r') * d + r;
    assert i == q' * (d * e) + (r' * d + r);
    MulMonoLe(r', e - 1, d);
    assert (e - 1) * d == d * e - d;
    DivMod(q', r' * d + r, d * e);
  }

  lemma {:induction false} MulNonNeg(a: int, b: int)
    requires a >= 0 && b >= 0
    ensures a * b >= 0
  {
    if a > 0 {
      MulNonNeg(a - 1, b);
      assert a * b == (a - 1) * b + b;
    }
  }

  lemma MulMonoLe(a: int, b: int, d: int)
    requires a <= b && d >= 0
    ensures a * d <= b * d
  {
    MulNonNeg(b - a, d);
    assert b * d - a * d == (b - a) * d;
  }

  /** Euclidean division is unique. */
  lemma DivMod(q: int, r: int, d: int)
    requires d > 0 && 0 <= r < d
    ensures (q * d + r) / d == q && (q * d + r) % d == r
  {
    var n := q * d + r;
    var q', r' := n / d, n % d;
    assert n == q' * d + r';
    assert (q - q') * d == r' - r;
    if q > q' {
      MulMonoLe(1, q - q', d);
      assert false;
    } else if q < q' {
      assert (q' - q) * d == r - r';
      MulMonoLe(1, q' - q, d);
      assert false;
    }
  }

  lemma DivBound(p: nat, m: nat, d: nat)
    requires d > 0 && p < m * d
    ensures p / d < m
  {
    var k := p / d;
    assert k * d + p % d == p;
    if k >= m {
      MulMonoLe(m, k, d);
      assert false;
    }
  }

  // ---------------------------------------------------------------------
  // Three players, binary: q(xa, xb, xc | a, b, c) at the value of the
  // bitstring xa xb xc a b c.

  /** One joint assignment of outputs (xa, xb, xc) and inputs (a, b, c). */
  datatype Six = Six(xa: int, xb: int, xc: int, a: int, b: int, c: int)

  predicate IsBinary(t: Six)
  {
    IsBit(t.xa) && IsBit(t.xb) && IsBit(t.xc) && IsBit(t.a) && IsBit(t.b) && IsBit(t.c)
  }

  function SixBits(t: Six): seq<int>
  {
    [t.xa, t.xb, t.xc, t.a, t.b, t.c]
  }

  /** The flat index 32xa + 16xb + 8xc + 4a + 2b + c. */
  function Flat6(t: Six): int
  {
    32 * t.xa + 16 * t.xb + 8 * t.xc + 4 * t.a + 2 * t.b + t.c
  }

  /** The assignment stored at flat index p < 64. */
  function Unflat6(p: nat): (t: Six)
    requires p < 64
    ensures IsBinary(t)
  {
    var s := ToBits(p, 6);
    Six(s[0], s[1], s[2], s[3], s[4], s[5])
  }

  /** The flat index is the bitstring's value. */
  lemma Flat6IsBitsValue(t: Six)
    ensures Flat6(t) == BitsValue(SixBits(t))
  {
    BitsValueSnoc([], t.xa);
    BitsValueSnoc([t.xa], t.xb);
    BitsValueSnoc([t.xa, t.xb], t.xc);
    BitsValueSnoc([t.xa, t.xb, t.xc], t.a);
    BitsValueSnoc([t.xa, t.xb, t.xc, t.a], t.b);
    BitsValueSnoc([t.xa, t.xb, t.xc, t.a, t.b], t.c);
    assert [t.xa] == [] + [t.xa];
    assert [t.xa, t.xb] == [t.xa] + [t.xb];
    assert [t.xa, t.xb, t.xc] == [t.xa, t.xb] + [t.xc];
    assert [t.xa, t.xb, t.xc, t.a] == [t.xa, t.xb, t.xc] + [t.a];
    assert [t.xa, t.xb, t.xc, t.a, t.b] == [t.xa, t.xb, t.xc, t.a] + [t.b];
    assert SixBits(t) == [t.xa, t.xb, t.xc, t.a, t.b] + [t.c];
  }

  /** The value of any six-element string, bit by bit. */
  lemma BitsValue6(s: seq<int>)
    requires |s| == 6
    ensures BitsValue(s) == 32 * s[0] + 16 * s[1] + 8 * s[2] + 4 * s[3] + 2 * s[4] + s[5]
  {
    var t := Six(s[0], s[1], s[2], s[3], s[4], s[5]);
    Flat6IsBitsValue(t);
    assert SixBits(t) == s;
  }

  /** The value of any four-element string, bit by bit. */
  lemma BitsValue4(s: seq<int>)
    requires |s| == 4
    ensures BitsValue(s) == 8 * s[0] + 4 * s[1] + 2 * s[2] + s[3]
  {
    BitsValueSnoc([], s[0]);
    BitsValueSnoc([s[0]], s[1]);
    BitsValueSnoc([s[0], s[1]], s[2]);
    BitsValueSnoc([s[0], s[1], s[2]], s[3]);
    assert [s[0]] == [] + [s[0]];
    assert [s[0], s[1]] == [s[0]] + [s[1]];
    assert [s[0], s[1], s[2]] == [s[0], s[1]] + [s[2]];
    assert s == [s[0], s[1], s[2]] + [s[3]];
  }

  /** '{0:02b}'.format(i) for i < 4. */
  lemma ToBits2(i: nat)
    requires i < 4
    ensures ToBits(i, 2) == [i / 2, i % 2]
  {
    assert ToBits(i / 2, 1) == ToBits(i / 4, 0) + [(i / 2) % 2];
  }

  lemma Flat6Bijection(t: Six)
    requires IsBinary(t)
    ensures 0 <= Flat6(t) < 64 && Unflat6(Flat6(t)) == t
  {
    Flat6IsBitsValue(t);
    ToBitsOfBitsValue(SixBits(t));
  }

  lemma Unflat6Bijection(p: nat)
    requires p < 64
    ensures Flat6(Unflat6(p)) == p
  {
    var t := Unflat6(p);
    Flat6IsBitsValue(t);
    assert SixBits(t) == ToBits(p, 6);
    BitsValueOfToBits(p, 6);
  }

  // ---------------------------------------------------------------------
  // Two players: q(xa, xb | a, b) at ((xa * nxb + xb) * na + a) * nb + b
  // for output alphabets of sizes nxa, nxb and input alphabets na, nb.

  datatype Layout2 = Layout2(nxa: nat, nxb: nat, na: nat, nb: nat)
  {
    predicate Valid() { nxa > 0 && nxb > 0 && na > 0 && nb > 0 }

    /** Number of variables q(xa, xb | a, b). */
    function Size(): nat { nxa * nxb * na * nb }

    /** Number of input pairs (a, b): the block length of one output pair. */
    function Conditions(): nat { na * nb }

    /** Number of output pairs (xa, xb). */
    function Outcomes(): nat { nxa * nxb }
  }

  /** The two-player topologies: binary; |X| = 3; |A| = 3; |A| = |B| = 3;
      |X| = |A| = 3; |X| = 4. */
  const BinaryLayout := Layout2(2, 2, 2, 2)
  const X3Layout := Layout2(3, 3, 2, 2)
  const A3Layout := Layout2(2, 2, 3, 2)
  const AB3Layout := Layout2(2, 2, 3, 3)
  const XA3Layout := Layout2(3, 3, 3, 2)
  const X4Layout := Layout2(4, 4, 2, 2)

  /** One joint assignment: outputs xa, xb to inputs a, b. */
  datatype Quad = Quad(xa: int, xb: int, a: int, b: int)

  predicate InRange(L: Layout2, t: Quad)
  {
    0 <= t.xa < L.nxa && 0 <= t.xb < L.nxb && 0 <= t.a < L.na && 0 <= t.b < L.nb
  }

  function Flat2(L: Layout2, t: Quad): int
  {
    ((t.xa * L.nxb + t.xb) * L.na + t.a) * L.nb + t.b
  }

  /** The assignment stored at flat index p, peeling b, a, xb and xa off in turn. */
  function Unflat2(L: Layout2, p: nat): Quad
    requires L.Valid()
  {
    var p1 := p / L.nb;
    var p2 := p1 / L.na;
    Quad(p2 / L.nxb, p2 % L.nxb, p1 % L.na, p % L.nb)
  }

  /** The flat index is in range and Unflat2 recovers the assignment. */
  lemma Flat2Bijection(L: Layout2, t: Quad)
    requires L.Valid() && InRange(L, t)
    ensures 0 <= Flat2(L, t) < L.Size() && Unflat2(L, Flat2(L, t)) == t
  {
    var p2 := t.xa * L.nxb + t.xb;
    var p1 := p2 * L.na + t.a;
    var p := p1 * L.nb + t.b;
    DivMod(p1, t.b, L.nb);
    DivMod(p2, t.a, L.na);
    DivMod(t.xa, t.xb, L.nxb);
    PairBound(t.xa, t.xb, L.nxa, L.nxb);
    PairBound(p2, t.a, L.nxa * L.nxb, L.na);
    PairBound(p1, t.b, L.nxa * L.nxb * L.na, L.nb);
  }

  /** A digit pair (x, y) in base m, with x < n, is a number below n·m. */
  lemma PairBound(x: int, y: int, n: int, m: int)
    requires 0 <= x < n && 0 <= y < m
    ensures 0 <= x * m + y < n * m
  {
    MulNonNeg(x, m);
    MulMonoLe(x, n - 1, m);
    assert (n - 1) * m == n * m - m;
  }

  /** Every index below the layout's size holds an in-range assignment. */
  lemma Unflat2Bijection(L: Layout2, p: nat)
    requires L.Valid() && p < L.Size()
    ensures InRange(L, Unflat2(L, p)) && Flat2(L, Unflat2(L, p)) == p
  {
    var p1 := p / L.nb;
    var p2 := p1 / L.na;
    DivBound(p, L.nxa * L.nxb * L.na, L.nb);
    DivBound(p1, L.nxa * L.nxb, L.na);
    DivBound(p2, L.nxa, L.nxb);
  }

  /** Flat2 is injective on in-range assignments. */
  lemma Flat2Injective(L: Layout2, s: Quad, t: Quad)
    requires L.Valid() && InRange(L, s) && InRange(L, t) && Flat2(L, s) == Flat2(L, t)
    ensures s == t
  {
    Flat2Bijection(L, s);
    Flat2Bijection(L, t);
  }

  /** Distinct in-range assignments have distinct flat indices. */
  lemma Flat2Distinct(L: Layout2, s: Quad, t: Quad)
    requires L.Valid() && InRange(L, s) && InRange(L, t) && s != t
    ensures Flat2(L, s) != Flat2(L, t)
  {
    Flat2Bijection(L, s);
    Flat2Bijection(L, t);
  }

  /** A flat index splits as (output pair) * Conditions() + (input pair). */
  lemma Flat2Blocks(L: Layout2, t: Quad)
    ensures Flat2(L, t) == (t.xa * L.nxb + t.xb) * L.Conditions() + (t.a * L.nb + t.b)
  {
    var o := t.xa * L.nxb + t.xb;
    assert (o * L.na + t.a) * L.nb == o * (L.na * L.nb) + t.a * L.nb;
  }

  /** The three bits of k < 8, most significant first. */
  lemma ThreeBits(k: nat)
    requires k < 8
    ensures IsBit(k / 4) && IsBit((k / 2) % 2) && IsBit(k % 2)
    ensures k == 4 * (k / 4) + 2 * ((k / 2) % 2) + k % 2
  {
    assert 0 <= k / 4 < 2;
    assert k == 4 * (k / 4) + 2 * ((k / 2) % 2) + k % 2;
  }

  /** The prefix of length r + 1 is the prefix of length r followed by entry r. */
  lemma PrefixSnoc<T>(s: seq<T>, r: nat)
    requires r < |s|
    ensures s[..r + 1] == s[..r] + [s[r]]
  {
  }
}
