/** The few Python string operations the vertex filter relies on:
    `s.split(sep)` with an explicit separator, `sep.join(ts)` and the slice
    `line[3:len(line) - 1]`, with the round trips between split and join. */
module Text {

  /** Python's `s.split(sep)`: cut at every occurrence of sep, keeping empty
      pieces, so the result always has one more piece than s has separators. */
  function Split(s: string, sep: char): (r: seq<string>)
    ensures |r| >= 1
    ensures forall k :: 0 <= k < |r| ==> sep !in r[k]
  {
    if |s| == 0 then [[]]
    else
      var rest := Split(s[1..], sep);
      if s[0] == sep then [[]] + rest
      else [[s[0]] + rest[0]] + rest[1..]
  }

  /** Python's `sep.join(ts)`. */
  function Join(ts: seq<string>, sep: char): string
  {
    if |ts| == 0 then []
    else if |ts| == 1 then ts[0]
    else ts[0] + [sep] + Join(ts[1..], sep)
  }

  /** Joining the pieces of a split gives back the string. */
  lemma {:induction false} JoinOfSplit(s: string, sep: char)
    ensures Join(Split(s, sep), sep) == s
  {
    if |s| > 0 {
      var rest := Split(s[1..], sep);
      JoinOfSplit(s[1..], sep);
      if s[0] == sep {
        assert ([[]] + rest)[1..] == rest;
        assert s == [sep] + s[1..];
      } else {
        var r := [[s[0]] + rest[0]] + rest[1..];
        assert r[1..] == rest[1..];
        if |rest| == 1 {
          assert Join(rest, sep) == rest[0];
        } else {
          assert Join(rest, sep) == rest[0] + [sep] + Join(rest[1..], sep);
        }
        assert s == [s[0]] + s[1..];
      }
    }
  }

  /** A separator-free prefix is glued onto the first piece of what follows. */
  lemma {:induction false} SplitOfPrefix(t: string, u: string, sep: char)
    requires sep !in t
    ensures Split(t + u, sep) == [t + Split(u, sep)[0]] + Split(u, sep)[1..]
  {
    if |t| > 0 {
      SplitOfPrefix(t[1..], u, sep);
      assert (t + u)[1..] == t[1..] + u;
      assert (t + u)[0] == t[0];
      assert [t[0]] + (t[1..] + Split(u, sep)[0]) == t + Split(u, sep)[0];
    } else {
      var r := Split(u, sep);
      assert t + u == u;
      assert t + r[0] == r[0];
      assert [r[0]] + r[1..] == r;
    }
  }

  /** Splitting a join of separator-free pieces gives back the pieces. */
  lemma {:induction false} SplitOfJoin(ts: seq<string>, sep: char)
    requires |ts| > 0
    requires forall k :: 0 <= k < |ts| ==> sep !in ts[k]
    ensures Split(Join(ts, sep), sep) == ts
  {
    if |ts| == 1 {
      SplitOfPrefix(ts[0], [], sep);
      assert ts[0] + [] == ts[0];
    } else {
      var rest := Join(ts[1..], sep);
      SplitOfJoin(ts[1..], sep);
      SplitOfPrefix(ts[0], [sep] + rest, sep);
      assert ts[0] + [sep] + rest == ts[0] + ([sep] + rest);
      assert ([sep] + rest)[1..] == rest;
      assert Split([sep] + rest, sep) == [[]] + ts[1..];
      assert ts[0] + [] == ts[0];
    }
  }

  /** Python's `line[3:len(line) - 1]`: drop the first three characters and
      the last one; lines of four characters or fewer give the empty string. */
  function Trimmed(line: string): (r: string)
    ensures |r| == if |line| >= 4 then |line| - 4 else 0
    ensures forall k :: 0 <= k < |r| ==> r[k] == line[k + 3]
  {
    if |line| >= 4 then line[3..|line| - 1] else []
  }
}
