/** The parts of os.path (POSIX flavour) that the recorders and the scheduler use. */
module Paths {

  /** str.rfind for one character: the last index of `c` in `s`, or -1. */
  function RFind(s: string, c: char): (r: int)
    ensures -1 <= r < |s|
    ensures r >= 0 ==> s[r] == c
    ensures forall k :: r < k < |s| ==> s[k] != c
    decreases |s|
  {
    if s == [] then -1
    else if s[|s| - 1] == c then |s| - 1
    else RFind(s[..|s| - 1], c)
  }

  /** Some character of s[i..j] is not a dot. */
  predicate HasNonDot(s: string, i: int, j: int)
  {
    exists k :: 0 <= i <= k < j <= |s| && s[k] != '.'
  }

  /**
   * os.path.splitext: the extension runs from the last dot of the last path component to the
   * end, unless every character before that dot in the component is a dot (".bashrc").
   */
  function SplitExt(p: string): (r: (string, string))
    ensures r.0 + r.1 == p
    ensures r.1 != [] ==> r.1[0] == '.'
    ensures forall k :: 1 <= k < |r.1| ==> r.1[k] != '.' && r.1[k] != '/'
    ensures r.1 != [] ==> HasNonDot(p, RFind(p, '/') + 1, |r.0|)
  {
    var sep := RFind(p, '/');
    var dot := RFind(p, '.');
    if dot > sep && HasNonDot(p, sep + 1, dot) then (p[..dot], p[dot..]) else (p, [])
  }

  /** os.path.basename: what follows the last '/'. */
  function Basename(p: string): (r: string)
    ensures forall k :: 0 <= k < |r| ==> r[k] != '/'
    ensures |r| <= |p| && p[|p| - |r|..] == r
  {
    p[RFind(p, '/') + 1..]
  }

  /** os.path.join of two components. */
  function Join(a: string, b: string): (r: string)
    ensures |b| > 0 && b[0] == '/' ==> r == b
    ensures |b| <= |r| && r[|r| - |b|..] == b
    ensures !(|b| > 0 && b[0] == '/') ==> |a| <= |r| && r[..|a|] == a
  {
    if |b| > 0 && b[0] == '/' then b
    else if a == [] || a[|a| - 1] == '/' then a + b
    else a + "/" + b
  }

  /** The base name of a path joined from a directory and a file name is that file name. */
  lemma BasenameOfJoin(dir: string, name: string)
    requires forall k :: 0 <= k < |name| ==> name[k] != '/'
    ensures Basename(Join(dir, name)) == name
  {
    var r := Join(dir, name);
    var i := RFind(r, '/');
    assert r[|r| - |name|..] == name;
    forall k | |r| - |name| <= k < |r| ensures r[k] != '/' {
      assert r[k] == name[k - (|r| - |name|)];
    }
    if dir != [] {
      assert r[|r| - |name| - 1] == '/';
    }
    assert i == |r| - |name| - 1;
  }
}
