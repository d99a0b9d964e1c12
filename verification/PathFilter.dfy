/**
 Path filters on an executor: a path is blocked when it, or a directory above it other than the root,
 matches a filter.
 */
module PathFilters {
  import opened Wrappers
  import R = Re2
  import G = Glob
  import GlobFilters

  /** Compiled filters. When one fails to compile, everything is blocked. */
  datatype Matcher = Unusable | Compiled(finds: seq<string -> bool>)

  /** `path[..k]` is the path itself or a directory above it other than the root, which is looked at only
      when it is the path itself. */
  predicate Covers(path: string, k: nat) {
    k == |path| || (0 < k < |path| && path[k] == '/')
  }

  ghost predicate Hits(finds: seq<string -> bool>, p: string) {
    exists i :: 0 <= i < |finds| && finds[i](p)
  }

  /** The path itself or a directory above it other than the root matches a filter. */
  ghost predicate Blocked(m: Matcher, path: string) {
    m.Unusable? || exists k :: 0 <= k <= |path| && Covers(path, k) && Hits(m.finds, path[..k])
  }

  /** What is written below a blocked path, after a slash of its own, is blocked. */
  lemma BlockedIsInherited(m: Matcher, path: string, below: string)
    requires path != "" && Blocked(m, path)
    ensures Blocked(m, path + "/" + below)
  {
    var longer := path + "/" + below;
    if m.Compiled? {
      var k :| 0 <= k <= |path| && Covers(path, k) && Hits(m.finds, path[..k]);
      assert Covers(longer, k) && longer[..k] == path[..k];
    }
  }

  method LastIndexOf(s: string, c: char) returns (k: int)
    ensures -1 <= k < |s|
    ensures k >= 0 ==> s[k] == c
    ensures forall m :: k < m < |s| ==> s[m] != c
  {
    k := |s| - 1;
    while k >= 0 && s[k] != c
      invariant -1 <= k < |s|
      invariant forall m :: k < m < |s| ==> s[m] != c
    {
      k := k - 1;
    }
  }

  method Blocks(m: Matcher, path: string) returns (blocked: bool)
    ensures blocked <==> Blocked(m, path)
  {
    if m.Unusable? { return true; }
    if m.finds == [] { return false; }
    var p := path;
    assert path[..|path|] == path;
    while true
      invariant |p| <= |path| && p == path[..|p|] && Covers(path, |p|)
      invariant forall k :: |p| < k <= |path| && Covers(path, k) ==> !Hits(m.finds, path[..k])
      decreases |p|
    {
      var i := 0;
      while i < |m.finds|
        invariant 0 <= i <= |m.finds|
        invariant forall j :: 0 <= j < i ==> !m.finds[j](p)
      {
        if m.finds[i](p) {
          assert Hits(m.finds, path[..|p|]);
          return true;
        }
        i := i + 1;
      }
      var cut := LastIndexOf(p, '/');
      assert forall k :: cut < k < |p| ==> path[k] == p[k];
      if cut <= 0 { return false; }
      p := p[..cut];
    }
  }

  /** Compiles the filter sources of a request. */
  method CreatePathFilter(sources: seq<string>, compile: string -> Option<string -> bool>) returns (m: Matcher)
    ensures m.Unusable? <==> exists i :: 0 <= i < |sources| && compile(sources[i]).None?
    ensures m.Compiled? ==>
              && |m.finds| == |sources|
              && forall i :: 0 <= i < |sources| ==> compile(sources[i]) == Some(m.finds[i])
  {
    m := Compiled([]);
    for n := 0 to |sources|
      invariant m.Compiled? && |m.finds| == n
      invariant forall i :: 0 <= i < n ==> compile(sources[i]) == Some(m.finds[i])
    {
      var re := compile(sources[n]);
      if re.None? { return Unusable; }
      m := Compiled(m.finds + [re.value]);
    }
  }

  /** RE2, as far as globs need it. */
  function CompileRe2(source: string): Option<string -> bool> {
    var branches := R.Compile(source);
    if branches.None? then None else Some((s: string) => R.Find(branches.value, s))
  }

  /** Filters made from globs block exactly the paths for which one is for the path itself or for a directory
      above it other than the root. */
  lemma GlobFiltersBlock(patterns: seq<string>, m: Matcher, path: string)
    requires forall i :: 0 <= i < |patterns| ==>
               GlobFilters.FilterSource(patterns[i]).Ok? && G.ClassesPlain(patterns[i])
    requires m.Compiled? && |m.finds| == |patterns|
    requires forall i :: 0 <= i < |patterns| ==>
               CompileRe2(GlobFilters.FilterSource(patterns[i]).value) == Some(m.finds[i])
    requires G.NoNewline(path, 0, |path|)
    ensures Blocked(m, path) <==>
              exists k, i :: 0 <= k <= |path| && Covers(path, k) && 0 <= i < |patterns|
                             && GlobFilters.FilterStands(patterns[i], path[..k], true)
  {
    forall k, i | 0 <= k <= |path| && 0 <= i < |patterns|
      ensures m.finds[i](path[..k]) <==> GlobFilters.FilterStands(patterns[i], path[..k], true)
    {
      GlobFilters.FilterSourceFindsGlob(patterns[i], path[..k]);
      var f := CompileRe2(GlobFilters.FilterSource(patterns[i]).value).value;
      assert f(path[..k]) == m.finds[i](path[..k]);
    }
  }

  lemma RootFilterHitsRoot(m: Matcher, path: string)
    requires m.Compiled? && |m.finds| == 1
    requires GlobFilters.FilterSource("/").Ok? ==> CompileRe2(GlobFilters.FilterSource("/").value) == Some(m.finds[0])
    ensures GlobFilters.FilterSource("/").Ok?
    ensures Hits(m.finds, path) <==> path == "/"
  {
    GlobFilters.RootGlobFindsRoot(path);
    var f := CompileRe2(GlobFilters.FilterSource("/").value).value;
    assert f(path) <==> path == "/";
    assert m.finds[0](path) <==> path == "/";
  }

  /** A filter on the root directory: the glob `/` is accepted, blocks the root and covers nothing in it. */
  lemma RootFilterCoversNothingBelow(m: Matcher, below: string)
    requires m.Compiled? && |m.finds| == 1
    requires GlobFilters.FilterSource("/").Ok? ==> CompileRe2(GlobFilters.FilterSource("/").value) == Some(m.finds[0])
    requires below != "" && below[0] != '/'
    ensures GlobFilters.FilterSource("/").Ok?
    ensures Blocked(m, "/") && !Blocked(m, "/" + below)
  {
    var root, path := "/", "/" + below;
    RootFilterHitsRoot(m, root);
    assert Covers(root, 1) && root[..1] == root;
    forall k | 0 <= k <= |path| && Covers(path, k) ensures !Hits(m.finds, path[..k]) {
      RootFilterHitsRoot(m, path[..k]);
      assert path[1] == below[0];
      assert path[..k] != root;
    }
  }
}
