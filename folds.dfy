/** The running-maximum loops of the drivers (`if v > best: best = v`),
    as a left fold, with the facts that make it a maximum. */
module Folds {

  /** The value a loop `best := init; for v in s: if v > best (or v >= best): best := v` ends with. */
  function RunningMax(init: real, s: seq<real>, strict: bool): real
  {
    if |s| == 0 then init
    else
      var best := RunningMax(init, s[..|s| - 1], strict);
      var v := s[|s| - 1];
      if (if strict then v > best else v >= best) then v else best
  }

  /** r is the largest of init and the elements of s. */
  ghost predicate IsMaxOf(r: real, init: real, s: seq<real>)
  {
    && r >= init
    && (forall i :: 0 <= i < |s| ==> r >= s[i])
    && (r == init || exists i :: 0 <= i < |s| && r == s[i])
  }

  /** The fold computes the maximum of init and s, whichever comparison updates it. */
  lemma {:induction false} RunningMaxIsMax(init: real, s: seq<real>, strict: bool)
    ensures IsMaxOf(RunningMax(init, s, strict), init, s)
  {
    if |s| > 0 {
      var p := s[..|s| - 1];
      RunningMaxIsMax(init, p, strict);
      var best := RunningMax(init, p, strict);
      var r := RunningMax(init, s, strict);
      forall i | 0 <= i < |s|
        ensures r >= s[i]
      {
        if i < |s| - 1 {
          assert s[i] == p[i];
        }
      }
      if r != init && r != s[|s| - 1] {
        assert r == best;
        var i :| 0 <= i < |p| && best == p[i];
        assert r == s[i];
      }
    }
  }

  /** Updating on `>` instead of `>=` only changes which tied element is kept, never the value. */
  lemma {:induction false} StrictIsNonStrict(init: real, s: seq<real>)
    ensures RunningMax(init, s, true) == RunningMax(init, s, false)
  {
    if |s| > 0 {
      StrictIsNonStrict(init, s[..|s| - 1]);
    }
  }

  /** Each next element can be appended to the folded prefix. */
  lemma RunningMaxSnoc(init: real, s: seq<real>, v: real, strict: bool)
    ensures RunningMax(init, s + [v], strict)
         == (var best := RunningMax(init, s, strict); if (if strict then v > best else v >= best) then v else best)
  {
    assert (s + [v])[..|s|] == s;
  }

  /** The fold over the first k+1 elements is one more step after the fold over the first k. */
  lemma RunningMaxPrefix(init: real, s: seq<real>, k: nat, strict: bool)
    requires k < |s|
    ensures RunningMax(init, s[..k + 1], strict)
         == (var best := RunningMax(init, s[..k], strict); if (if strict then s[k] > best else s[k] >= best) then s[k] else best)
  {
    assert s[..k + 1][..k] == s[..k];
  }
}
