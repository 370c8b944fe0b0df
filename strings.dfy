/**
 * The JavaScript string operations the plugin uses, `String.prototype.includes`
 * and `split(sep)[0]`, plus `LastIndexOf`, a helper the path model uses to
 * find the last `/` and the last `.` of a path.
 */
module Strings {

  /** `t` occurs in `s` starting at index `i`. */
  ghost predicate OccursAt(s: string, t: string, i: int)
  {
    0 <= i && i + |t| <= |s| && s[i..i + |t|] == t
  }

  /** `t` occurs somewhere in `s`: the reference meaning of a substring test. */
  ghost predicate Occurs(s: string, t: string)
  {
    exists i :: OccursAt(s, t, i)
  }

  /** An occurrence is either at the front or, shifted one place left, in the tail. */
  lemma OccursCons(s: string, t: string)
    requires |s| > 0
    ensures Occurs(s, t) <==> OccursAt(s, t, 0) || Occurs(s[1..], t)
  {
    if Occurs(s, t) && !OccursAt(s, t, 0) {
      var i :| OccursAt(s, t, i);
      assert s[1..][i - 1..i - 1 + |t|] == s[i..i + |t|];
      assert OccursAt(s[1..], t, i - 1);
    }
    if Occurs(s[1..], t) {
      var j :| OccursAt(s[1..], t, j);
      assert s[1..][j..j + |t|] == s[j + 1..j + 1 + |t|];
      assert OccursAt(s, t, j + 1);
    }
  }

  /** `s` begins with `t`. */
  predicate StartsWith(s: string, t: string)
  {
    |t| <= |s| && s[..|t|] == t
  }

  /** `s.includes(t)`: true exactly when `t` occurs in `s`. */
  function Includes(s: string, t: string): (r: bool)
    ensures r <==> Occurs(s, t)
    decreases |s|
  {
    if |t| > |s| then
      false
    else if s[..|t|] == t then
      assert OccursAt(s, t, 0);
      true
    else
      OccursCons(s, t);
      Includes(s[1..], t)
  }

  /**
   * `s.split(sep)[0]` for a one-character separator: the longest prefix of
   * `s` without `sep`, which is all of `s` when `sep` does not occur.
   */
  function BeforeFirst(s: string, sep: char): (r: string)
    ensures |r| <= |s| && r == s[..|r|]
    ensures sep !in r
    ensures |r| < |s| ==> s[|r|] == sep
  {
    if s == [] then []
    else if s[0] == sep then []
    else [s[0]] + BeforeFirst(s[1..], sep)
  }

  /** `s.lastIndexOf(c)`: the index of the last `c` in `s`, or -1. */
  function LastIndexOf(s: string, c: char): (r: int)
    ensures -1 <= r < |s|
    ensures r >= 0 ==> s[r] == c
    ensures forall k :: r < k < |s| ==> s[k] != c
  {
    if s == [] then -1
    else if s[|s| - 1] == c then |s| - 1
    else LastIndexOf(s[..|s| - 1], c)
  }

  /** A `t` containing a character absent from `s` cannot occur in `s`. */
  lemma NoOccurrenceWithout(s: string, t: string, c: char)
    requires c in t && c !in s
    ensures !Occurs(s, t)
  {
  }

  /** `split(sep)[0]` of `a + sep + b` is `a` when `a` holds no `sep`. */
  lemma {:induction false} BeforeFirstSplit(a: string, sep: char, b: string)
    requires sep !in a
    ensures BeforeFirst(a + [sep] + b, sep) == a
  {
    if a != [] {
      assert (a + [sep] + b)[1..] == a[1..] + [sep] + b;
      BeforeFirstSplit(a[1..], sep, b);
    }
  }

  /** The last `c` is at `k` when `s[k] == c` and no `c` follows it. */
  lemma LastIndexOfIs(s: string, c: char, k: int)
    requires 0 <= k < |s| && s[k] == c
    requires forall j :: k < j < |s| ==> s[j] != c
    ensures LastIndexOf(s, c) == k
  {
  }
}
