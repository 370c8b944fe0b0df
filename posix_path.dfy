/**
 * Node's `path.posix.extname` and `path.posix.basename(p, path.posix.extname(p))`,
 * the two path operations the plugin applies to an input reference.
 * Both work on the last segment of a path: trailing `/` are ignored and the
 * segment is what follows the last remaining `/`.
 */
module PosixPath {
  import opened Strings

  /** `p` without its trailing run of `/`. */
  function TrimTrailingSlashes(p: string): (r: string)
    ensures |r| <= |p| && r == p[..|r|]
    ensures r == [] || r[|r| - 1] != '/'
    ensures forall k :: |r| <= k < |p| ==> p[k] == '/'
  {
    if p == [] || p[|p| - 1] != '/' then p
    else TrimTrailingSlashes(p[..|p| - 1])
  }

  /** The last path segment: what follows the last `/` once trailing `/` are dropped. */
  function LastSegment(p: string): (r: string)
    ensures '/' !in r
  {
    var q := TrimTrailingSlashes(p);
    var i := LastIndexOf(q, '/');
    q[i + 1..]
  }

  /**
   * The last segment is the end of the trimmed path, and it is either all of
   * it or preceded there by a `/`.
   */
  lemma LastSegmentIsLast(p: string)
    ensures var q, r := TrimTrailingSlashes(p), LastSegment(p);
            && |r| <= |q| && r == q[|q| - |r|..]
            && (|r| == |q| || q[|q| - |r| - 1] == '/')
  {
  }

  /**
   * `path.posix.extname(p)`: from the last `.` of the last segment to its end,
   * or empty when the segment has no `.`, when its only candidate `.` is its
   * first character (`.bashrc`), or when the segment is `..`.
   */
  function ExtName(p: string): (r: string)
    ensures r == [] || (r[0] == '.' && '.' !in r[1..] && |r| < |LastSegment(p)|)
    ensures r == LastSegment(p)[|LastSegment(p)| - |r|..]
  {
    var c := LastSegment(p);
    var d := LastIndexOf(c, '.');
    if d <= 0 || c == ".." then
      []
    else
      assert forall k :: 0 <= k < |c| - d - 1 ==> c[d..][1..][k] == c[d + 1 + k];
      c[d..]
  }

  /**
   * There is no extension exactly when the last segment has no `.` after its
   * first character, or is `..`.
   */
  lemma NoExtension(p: string)
    ensures var c := LastSegment(p);
            ExtName(p) == [] <==> (forall k :: 0 < k < |c| ==> c[k] != '.') || c == ".."
  {
  }

  /**
   * `path.posix.basename(p, path.posix.extname(p))`: the last segment with
   * its own extension cut off. (With that suffix, Node's basename always
   * finds it at the end of the segment and never equal to the whole segment.)
   */
  function Stem(p: string): (r: string)
    ensures r + ExtName(p) == LastSegment(p)
    ensures '/' !in r
    ensures LastSegment(p) != [] ==> r != []
  {
    var c := LastSegment(p);
    var e := ExtName(p);
    assert e == c[|c| - |e|..] && (e == [] || |e| < |c|);
    var r := c[..|c| - |e|];
    assert c == r + e;
    assert forall ch :: ch in r ==> ch in c;
    r
  }

  /** A character absent from `p` is absent from its last segment. */
  lemma LastSegmentAvoids(p: string, ch: char)
    requires ch !in p
    ensures ch !in LastSegment(p)
  {
    LastSegmentIsLast(p);
  }

  /** A character absent from `p` is absent from its stem. */
  lemma StemAvoids(p: string, ch: char)
    requires ch !in p
    ensures ch !in Stem(p)
  {
    LastSegmentAvoids(p, ch);
  }
}
