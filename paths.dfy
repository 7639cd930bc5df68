/**
 * The two slash-separated path operations the thumbnail handlers use:
 * Go's `filepath.Join` of a directory and a file name, and `filepath.Base`.
 */
module Paths {

  const Separator: char := '/'

  /**
   * A single path element that `filepath.Join` keeps as it is: non-empty,
   * free of separators, and neither `.` nor `..`, which `Clean` would
   * collapse.
   */
  predicate IsElement(name: string) {
    name != "" && Separator !in name && name != "." && name != ".."
  }

  /** `p` with every trailing separator removed. */
  function TrimTrailingSeparators(p: string): (r: string)
    ensures |r| <= |p| && r == p[..|r|]
    ensures r == "" || r[|r| - 1] != Separator
    ensures forall i :: |r| <= i < |p| ==> p[i] == Separator
    decreases |p|
  {
    if p != "" && p[|p| - 1] == Separator then TrimTrailingSeparators(p[..|p| - 1]) else p
  }

  /** The characters after the last separator of `p`. */
  function LastElement(p: string): (r: string)
    ensures |r| <= |p| && r == p[|p| - |r|..]
    ensures Separator !in r
    ensures |r| == |p| || p[|p| - |r| - 1] == Separator
    decreases |p|
  {
    if p == "" || p[|p| - 1] == Separator then "" else LastElement(p[..|p| - 1]) + [p[|p| - 1]]
  }

  /**
   * `filepath.Join(root, name)`: the empty root is ignored; otherwise the
   * root, without its trailing separators, and the name with one separator
   * between them.
   */
  function Join(root: string, name: string): (p: string)
    ensures root == "" ==> p == name
    ensures root != "" ==>
              && |p| > |name| && p[|p| - |name|..] == name
              && p[|p| - |name| - 1] == Separator
              && p[..|p| - |name| - 1] == TrimTrailingSeparators(root)
  {
    if root == "" then name
    else
      var dir := TrimTrailingSeparators(root);
      (if dir == "" then [Separator] else dir + [Separator]) + name
  }

  /**
   * `filepath.Base(p)`: "." for the empty path, "/" for a path of
   * separators only, and otherwise the last element once trailing
   * separators are removed.
   */
  function Base(p: string): (b: string)
    ensures b != ""
  {
    if p == "" then "."
    else
      var t := TrimTrailingSeparators(p);
      if t == "" then [Separator]
      else
        var last := LastElement(t);
        if last == "" then [Separator] else last
  }

  /** A character other than the separator extends the last element. */
  lemma LastElementSnoc(p: string, c: char)
    requires c != Separator
    ensures LastElement(p + [c]) == LastElement(p) + [c]
  {
    assert (p + [c])[..|p|] == p;
  }

  lemma {:induction false} LastElementAfterSeparator(dir: string, name: string)
    requires dir == "" || dir[|dir| - 1] == Separator
    requires Separator !in name
    ensures LastElement(dir + name) == name
    decreases |name|
  {
    if name == "" {
      assert dir + name == dir;
    } else {
      var n := |name| - 1;
      assert name[n] in name;
      assert name == name[..n] + [name[n]];
      assert dir + name == (dir + name[..n]) + [name[n]];
      LastElementSnoc(dir + name[..n], name[n]);
      LastElementAfterSeparator(dir, name[..n]);
    }
  }

  /** A name joined under any root is the base of the joined path. */
  lemma BaseOfJoin(root: string, name: string)
    requires IsElement(name)
    ensures Base(Join(root, name)) == name
  {
    var p := Join(root, name);
    var dir := if root == "" then "" else
      var d := TrimTrailingSeparators(root); if d == "" then [Separator] else d + [Separator];
    assert p == dir + name;
    assert name[|name| - 1] in name;
    assert TrimTrailingSeparators(p) == p;
    LastElementAfterSeparator(dir, name);
  }
}
