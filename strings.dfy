/** The few `str` operations the client relies on: `startswith`, `find` and
    `split` with a non-empty separator, and the `join` that undoes `split`. */
module Strings {
  import opened Wrappers

  predicate StartsWith(s: string, prefix: string) {
    |prefix| <= |s| && s[..|prefix|] == prefix
  }

  /** `pat` occurs in `s` starting at index `j`. */
  predicate OccursAt(s: string, pat: string, j: int) {
    0 <= j && j + |pat| <= |s| && s[j..j + |pat|] == pat
  }

  predicate Contains(s: string, pat: string) {
    exists j | 0 <= j <= |s| :: OccursAt(s, pat, j)
  }

  /** `s.find(pat)`: the index of the leftmost occurrence, None for -1. */
  function Find(s: string, pat: string): (r: Option<nat>)
    requires pat != []
    ensures r.Some? ==> OccursAt(s, pat, r.value)
    ensures r.Some? ==> forall j :: 0 <= j < r.value ==> !OccursAt(s, pat, j)
    ensures r.None? <==> !Contains(s, pat)
    decreases |s|
  {
    if |s| < |pat| then
      assert forall j :: !OccursAt(s, pat, j);
      None
    else if s[..|pat|] == pat then
      assert OccursAt(s, pat, 0);
      Some(0)
    else
      var rest := Find(s[1..], pat);
      assert forall j :: 1 <= j ==> (OccursAt(s, pat, j) <==> OccursAt(s[1..], pat, j - 1)) by {
        forall j | 1 <= j ensures OccursAt(s, pat, j) <==> OccursAt(s[1..], pat, j - 1) {
          if j + |pat| <= |s| {
            var x, y := s[j..j + |pat|], s[1..][j - 1..j - 1 + |pat|];
            assert forall k :: 0 <= k < |x| ==> x[k] == y[k];
            assert x == y;
          }
        }
      }
      assert !OccursAt(s, pat, 0);
      if rest.None? then
        assert forall j :: !OccursAt(s, pat, j) by {
          forall j ensures !OccursAt(s, pat, j) {
            if 1 <= j { assert !OccursAt(s[1..], pat, j - 1); }
          }
        }
        None
      else
        Some(rest.value + 1)
  }

  /** `s.split(sep)` for a non-empty separator: the pieces between the
      successive leftmost occurrences of `sep`. */
  function Split(s: string, sep: string): (r: seq<string>)
    requires sep != []
    ensures |r| >= 1
    decreases |s|
  {
    match Find(s, sep)
    case None => [s]
    case Some(i) => [s[..i]] + Split(s[i + |sep|..], sep)
  }

  /** `sep.join(parts)`. */
  function Join(parts: seq<string>, sep: string): string {
    if |parts| == 0 then ""
    else if |parts| == 1 then parts[0]
    else parts[0] + sep + Join(parts[1..], sep)
  }

  /** Splitting loses nothing: joining the pieces gives the text back. */
  lemma {:induction false} JoinSplit(s: string, sep: string)
    requires sep != []
    ensures Join(Split(s, sep), sep) == s
    decreases |s|
  {
    if Find(s, sep).Some? {
      var i := Find(s, sep).value;
      SplitFound(s, sep, i);
      var head, rest := s[..i], s[i + |sep|..];
      JoinSplit(rest, sep);
      JoinCons(head, Split(rest, sep), sep);
    }
  }

  /** The first piece ends at the leftmost separator, which the text holds. */
  lemma SplitFound(s: string, sep: string, i: nat)
    requires sep != [] && Find(s, sep) == Some(i)
    ensures i + |sep| <= |s|
    ensures Split(s, sep) == [s[..i]] + Split(s[i + |sep|..], sep)
    ensures s == s[..i] + sep + s[i + |sep|..]
  {
    assert OccursAt(s, sep, i);
    Slices(s, i, i + |sep|);
  }

  /** Joining a piece in front of at least one other adds one separator. */
  lemma JoinCons(head: string, tail: seq<string>, sep: string)
    requires tail != []
    ensures Join([head] + tail, sep) == head + sep + Join(tail, sep)
  {
    assert ([head] + tail)[1..] == tail;
  }

  lemma Slices(s: string, i: nat, k: nat)
    requires i <= k <= |s|
    ensures s[..i] + s[i..k] + s[k..] == s
  {
    assert s[i..] == s[i..k] + s[k..];
  }

  /** No piece of a split contains the separator. */
  lemma {:induction false} SplitPiecesFree(s: string, sep: string)
    requires sep != []
    ensures forall p :: p in Split(s, sep) ==> !Contains(p, sep)
    decreases |s|
  {
    if Find(s, sep).Some? {
      var i := Find(s, sep).value;
      SplitFound(s, sep, i);
      SplitPiecesFree(s[i + |sep|..], sep);
      var head := s[..i];
      forall j | 0 <= j <= |head| ensures !OccursAt(head, sep, j) {
        if j + |sep| <= i {
          assert !OccursAt(s, sep, j);
          assert head[j..j + |sep|] == s[j..j + |sep|];
        }
      }
    }
  }

  /** A leading piece that does not hold the separator's first character
      splits off on its own; this is what lets the pieces of a concrete text
      be computed one at a time. */
  lemma SplitCons(a: string, sep: string, b: string)
    requires sep != [] && sep[0] !in a
    ensures Split(a + sep + b, sep) == [a] + Split(b, sep)
  {
    var s := a + sep + b;
    assert OccursAt(s, sep, |a|) by {
      assert s[|a|..|a| + |sep|] == sep;
    }
    var i := Find(s, sep).value;
    assert i == |a|;
    assert s[..i] == a;
    assert s[i + |sep|..] == b;
  }

  /** A text without the separator's first character is a single piece. */
  lemma SplitSingle(a: string, sep: string)
    requires sep != [] && sep[0] !in a
    ensures Split(a, sep) == [a]
  {
  }
}
