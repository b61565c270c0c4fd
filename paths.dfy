/** Unix paths as strings, as far as `std::path` is used by the tasks:
    absoluteness, `join`, the last component and `parent`. */
module Paths {

  /** `Path::is_absolute` on Unix: the path starts at the root. */
  predicate IsAbsolutePath(p: string) {
    |p| > 0 && p[0] == '/'
  }

  /** `PathBuf::join`: an absolute path replaces the base; otherwise a
      separator is inserted unless the base is empty or already ends in
      one. */
  function Join(base: string, p: string): (r: string)
    ensures IsAbsolutePath(p) ==> r == p
    ensures !IsAbsolutePath(p) ==> |r| >= |base| + |p| && r[..|base|] == base && r[|r| - |p|..] == p
    ensures !IsAbsolutePath(p) ==>
      |r| == |base| + |p| + (if base == [] || base[|base| - 1] == '/' then 0 else 1)
    ensures !IsAbsolutePath(p) && |r| > |base| + |p| ==> r[|base|] == '/'
  {
    if IsAbsolutePath(p) then p
    else if base == [] || base[|base| - 1] == '/' then base + p
    else base + "/" + p
  }

  /** The text after the last `/` (all of it when there is none), as
      `split("/").last()` gives it. */
  function LastSegment(path: string): (name: string)
    ensures '/' !in name
    ensures |name| <= |path| && name == path[|path| - |name|..]
    ensures |name| < |path| ==> path[|path| - |name| - 1] == '/'
  {
    if path == [] || path[|path| - 1] == '/' then []
    else LastSegment(path[..|path| - 1]) + [path[|path| - 1]]
  }

  /** The segment after a final `/` is the file name, and a path with no
      `/` is its own name. */
  lemma {:induction false} LastSegmentOfJoin(dir: string, name: string)
    requires '/' !in name
    ensures LastSegment(dir + "/" + name) == name
    ensures LastSegment(name) == name
    decreases |name|
  {
    if name != [] {
      var last := |name| - 1;
      assert (dir + "/" + name)[..|dir + "/" + name| - 1] == dir + "/" + name[..last];
      assert name[..last] + [name[last]] == name;
      LastSegmentOfJoin(dir, name[..last]);
    } else {
      assert (dir + "/" + name)[|dir + "/" + name| - 1] == '/';
    }
  }

  /** The last segment of `a/b` lies within `b`. */
  lemma {:induction false} LastSegmentAfterSeparator(a: string, b: string)
    ensures |LastSegment(a + "/" + b)| <= |b|
    decreases |b|
  {
    var p := a + "/" + b;
    if b == [] {
      assert p[|p| - 1] == '/';
    } else if b[|b| - 1] != '/' {
      assert p[..|p| - 1] == a + "/" + b[..|b| - 1];
      LastSegmentAfterSeparator(a, b[..|b| - 1]);
    }
  }

  /** `Path::parent` of a path with a `/`: everything before the last one. A
      path without `/` has the empty parent. Normalisation of `.` and of
      repeated or trailing separators is not modelled. */
  function Parent(path: string): (dir: string)
    ensures |dir| <= |path| && dir == path[..|dir|]
    ensures '/' !in path ==> dir == []
    ensures '/' in path ==> |dir| < |path| && path[|dir|] == '/' && '/' !in path[|dir| + 1..]
  {
    var name := LastSegment(path);
    if |name| < |path| then path[..|path| - |name| - 1] else []
  }

  /** The parent of `dir/name` is `dir` when `name` has no `/`. */
  lemma ParentOfJoin(dir: string, name: string)
    requires '/' !in name
    ensures Parent(dir + "/" + name) == dir
  {
    LastSegmentOfJoin(dir, name);
  }
}
