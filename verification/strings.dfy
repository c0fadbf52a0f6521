/**
 The string operations the library takes from Python's `str`: `sep.join`,
 `s.split(c)` for a one-character separator, and the `in` substring test.
 */
module Strings {

  /** `sep.join(parts)`: the parts with `sep` between neighbours. */
  function Join(parts: seq<string>, sep: string): string
    decreases |parts|
  {
    if |parts| == 0 then ""
    else if |parts| == 1 then parts[0]
    else parts[0] + sep + Join(parts[1..], sep)
  }

  /** Position of the first `c` in `s`. */
  function IndexOf(s: string, c: char): (i: nat)
    requires c in s
    ensures i < |s| && s[i] == c
    ensures c !in s[..i]
  {
    if s[0] == c then 0
    else
      assert c in s[1..] by {
        var k :| 0 <= k < |s| && s[k] == c;
        assert s[1..][k - 1] == c;
      }
      var i := 1 + IndexOf(s[1..], c);
      assert s[..i] == [s[0]] + s[1..][..i - 1];
      i
  }

  /** `s.split(c)`: the maximal pieces of `s` free of `c`, in order. */
  function Split(s: string, c: char): (parts: seq<string>)
    ensures |parts| >= 1
    ensures forall k | 0 <= k < |parts| :: c !in parts[k]
    decreases |s|
  {
    if c !in s then [s]
    else
      var i := IndexOf(s, c);
      [s[..i]] + Split(s[i + 1..], c)
  }

  lemma IndexOfAfterPrefix(a: string, c: char, b: string)
    requires c !in a
    ensures c in a + [c] + b
    ensures IndexOf(a + [c] + b, c) == |a|
  {
    var s := a + [c] + b;
    assert s[|a|] == c;
    var i := IndexOf(s, c);
    assert s[..|a|] == a;
  }

  /** Splitting a join on a separator that no part contains gives the parts back. */
  lemma {:induction false} SplitJoin(parts: seq<string>, c: char)
    requires |parts| >= 1
    requires forall k | 0 <= k < |parts| :: c !in parts[k]
    ensures Split(Join(parts, [c]), c) == parts
    decreases |parts|
  {
    if |parts| > 1 {
      var rest := Join(parts[1..], [c]);
      var s := parts[0] + [c] + rest;
      assert Join(parts, [c]) == s;
      IndexOfAfterPrefix(parts[0], c, rest);
      assert s[..|parts[0]|] == parts[0];
      assert s[|parts[0]| + 1..] == rest;
      assert Split(s, c) == [parts[0]] + Split(rest, c);
      SplitJoin(parts[1..], c);
      assert parts == [parts[0]] + parts[1..];
    }
  }

  /** Joining the pieces of a split restores the string. */
  lemma {:induction false} JoinSplit(s: string, c: char)
    ensures Join(Split(s, c), [c]) == s
    decreases |s|
  {
    if c in s {
      var i := IndexOf(s, c);
      var head, tail := s[..i], s[i + 1..];
      var rest := Split(tail, c);
      var parts := [head] + rest;
      assert Split(s, c) == parts;
      assert parts[0] == head && parts[1..] == rest;
      assert Join(parts, [c]) == head + [c] + Join(rest, [c]);
      JoinSplit(tail, c);
      assert s == head + [c] + tail;
    }
  }

  /** `pat` occurs in `s` starting at position `i`. */
  predicate OccursAt(s: string, pat: string, i: int) {
    0 <= i && i + |pat| <= |s| && s[i..i + |pat|] == pat
  }

  /** Python's `pat in s` on strings. */
  predicate Contains(s: string, pat: string) {
    exists i | 0 <= i <= |s| - |pat| :: OccursAt(s, pat, i)
  }

  lemma ContainsInfix(a: string, pat: string, b: string)
    ensures Contains(a + pat + b, pat)
  {
    var s := a + pat + b;
    assert s[|a|..|a| + |pat|] == pat;
    assert OccursAt(s, pat, |a|);
  }

  /** What a suffix contains, the whole string contains. */
  lemma ContainsSuffix(s: string, k: nat, pat: string)
    requires k <= |s| && Contains(s[k..], pat)
    ensures Contains(s, pat)
  {
    var i :| 0 <= i <= |s[k..]| - |pat| && OccursAt(s[k..], pat, i);
    assert s[k + i..k + i + |pat|] == s[k..][i..i + |pat|];
    assert OccursAt(s, pat, k + i);
  }

  lemma ShortNotContains(s: string, pat: string)
    requires |s| < |pat|
    ensures !Contains(s, pat)
  {
  }
}
