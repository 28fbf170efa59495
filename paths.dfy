/**
 * The two POSIX path operations the data store relies on: the last component
 * of a path (`os.path.split(p)[1]`, which is also `os.path.basename(p)`), and
 * the `str.startswith` test used to select parallel data files.
 */
module Paths {

  const Separator: char := '/'

  /** `s` begins with `prefix`, as Python's `s.startswith(prefix)`. */
  predicate StartsWith(s: string, prefix: string)
    ensures StartsWith(s, prefix) <==> |prefix| <= |s| && s[..|prefix|] == prefix
  {
    prefix <= s
  }

  /** What follows the last separator of `p`, or all of `p` when it has none. */
  function PathTail(p: string): (r: string)
    ensures |r| <= |p|
    decreases |p|
  {
    if p == [] then []
    else if p[|p| - 1] == Separator then []
    else PathTail(p[..|p| - 1]) + [p[|p| - 1]]
  }

  /**
   * The tail is the last component of the path: a suffix of `p` without a
   * separator, preceded in `p` by a separator unless it is the whole of `p`.
   */
  lemma {:induction false} PathTailIsLastComponent(p: string)
    ensures |PathTail(p)| <= |p| && PathTail(p) == p[|p| - |PathTail(p)|..]
    ensures Separator !in PathTail(p)
    ensures |PathTail(p)| < |p| ==> p[|p| - |PathTail(p)| - 1] == Separator
    decreases |p|
  {
    if p != [] && p[|p| - 1] != Separator {
      var q := p[..|p| - 1];
      PathTailIsLastComponent(q);
      var k := |PathTail(q)|;
      assert |PathTail(p)| == k + 1;
      assert p == q + [p[|p| - 1]];
      assert p[|p| - (k + 1)..] == q[|q| - k..] + [p[|p| - 1]];
    }
  }

  /**
   * Appending a suffix without a separator extends the last component, so a
   * suffixed data file's name starts with the unsuffixed one's.
   */
  lemma {:induction false} PathTailAppend(p: string, suffix: string)
    requires Separator !in suffix
    ensures PathTail(p + suffix) == PathTail(p) + suffix
    ensures StartsWith(PathTail(p + suffix), PathTail(p))
  {
    PathTailExtends(p, suffix);
    assert PathTail(p) <= PathTail(p) + suffix;
  }

  lemma {:induction false} PathTailExtends(p: string, suffix: string)
    requires Separator !in suffix
    ensures PathTail(p + suffix) == PathTail(p) + suffix
    decreases |suffix|
  {
    if suffix == [] {
      assert p + suffix == p;
    } else {
      var init, c := suffix[..|suffix| - 1], suffix[|suffix| - 1];
      assert suffix == init + [c];
      assert Separator !in init;
      PathTailExtends(p, init);
      var q := p + init;
      assert p + suffix == q + [c];
      assert (q + [c])[..|q + [c]| - 1] == q;
      assert PathTail(q + [c]) == PathTail(q) + [c];
    }
  }
}
