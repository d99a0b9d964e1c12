/**
 The directory walks of list_directory and find_files.
 */
module TreeWalk {
  import opened Wrappers
  import PathFilters

  /** A symbolic link carries the real path it resolves to, if it does. */
  datatype Entry =
    | File(name: string)
    | Directory(name: string, children: seq<Entry>)
    | Link(name: string, target: Option<string>)

  datatype Node = Node(path: string, kind: NodeKind)

  datatype NodeKind = FileNode | DirectoryNode | LinkNode

  function KindOf(e: Entry): NodeKind {
    match e
    case File(_) => FileNode
    case Directory(_, _) => DirectoryNode
    case Link(_, _) => LinkNode
  }

  predicate ValidName(name: string) { name != "" && '/' !in name }

  predicate ValidTree(entries: seq<Entry>)
    decreases entries
  {
    forall e :: e in entries ==> ValidName(e.name) && (e.Directory? ==> ValidTree(e.children))
  }

  function Join(dir: string, name: string): string {
    if dir != "" && dir[|dir| - 1] == '/' then dir + name else dir + "/" + name
  }

  /** Every child of a blocked path is blocked, under every matcher, exactly when the path does not end in
      a slash. Of the absolute paths without a trailing slash, that is every one but the root. */
  lemma ChildrenInheritExactlyBelowRoot(p: string)
    ensures (forall m: PathFilters.Matcher, name ::
               ValidName(name) && PathFilters.Blocked(m, p) ==> PathFilters.Blocked(m, Join(p, name)))
            <==> p != "" && p[|p| - 1] != '/'
    ensures IsAbsolute(p) ==> (p != "" && p[|p| - 1] != '/' <==> p != "/")
  {
    if p != "" && p[|p| - 1] != '/' {
      forall m: PathFilters.Matcher, name | ValidName(name) && PathFilters.Blocked(m, p)
        ensures PathFilters.Blocked(m, Join(p, name))
      {
        PathFilters.BlockedIsInherited(m, p, name);
      }
    } else {
      OnlyItselfBlocked(p, "x");
    }
  }

  /** A normalized absolute path: the root, or one that begins with a slash and does not end in one. */
  predicate IsAbsolute(p: string) { p != "" && p[0] == '/' && (p == "/" || p[|p| - 1] != '/') }

  /** A filter that finds one path ending in a slash alone, or the empty one, covers nothing below it. */
  lemma OnlyItselfBlocked(p: string, name: string)
    requires ValidName(name) && (p == "" || p[|p| - 1] == '/')
    ensures var m := PathFilters.Compiled([x => x == p]);
            PathFilters.Blocked(m, p) && !PathFilters.Blocked(m, Join(p, name))
  {
    var m := PathFilters.Compiled([x => x == p]);
    assert PathFilters.Covers(p, |p|) && p[..|p|] == p;
    assert m.finds[0](p[..|p|]);
    assert PathFilters.Hits(m.finds, p[..|p|]);
    var child := Join(p, name);
    forall k | 0 <= k <= |child| && PathFilters.Covers(child, k) ensures !PathFilters.Hits(m.finds, child[..k]) {
      assert child[..k] == p ==> k == |p|;
      assert p != "" ==> child[|p|] == name[0];
    }
  }

  /** No filter, or the caller's path filter. */
  type Filter = Option<PathFilters.Matcher>

  ghost predicate EntryHidden(f: Filter, path: string, e: Entry) {
    f.Some? && (PathFilters.Blocked(f.value, path) ||
                (e.Link? && e.target.Some? && PathFilters.Blocked(f.value, e.target.value)))
  }

  method IsEntryHidden(f: Filter, path: string, e: Entry) returns (hidden: bool)
    ensures hidden <==> EntryHidden(f, path, e)
  {
    if f.None? { return false; }
    hidden := PathFilters.Blocks(f.value, path);
    if hidden || !e.Link? || e.target.None? { return; }
    hidden := PathFilters.Blocks(f.value, e.target.value);
  }

  // ---------------------------------------------------------------------------
  // What a walk shows: hidden entries are pruned while walking, and what comes out
  // is the plain walk of the whole tree with hidden entries taken out afterwards
  // ---------------------------------------------------------------------------

  datatype Params = Params(recursive: bool, maxDepth: Option<int>, excluded: string -> bool, filter: Filter)

  predicate Descends(p: Params, depth: nat) {
    p.recursive && (p.maxDepth.Some? ==> depth + 1 <= p.maxDepth.value)
  }

  ghost predicate Skipped(p: Params, dir: string, e: Entry) {
    p.excluded(e.name) || EntryHidden(p.filter, Join(dir, e.name), e)
  }

  /** The pruned walk. */
  ghost function Shown(p: Params, entries: seq<Entry>, dir: string, depth: nat): seq<Node>
    decreases entries
  {
    if entries == [] then []
    else ShownEntry(p, entries[0], dir, depth) + Shown(p, entries[1..], dir, depth)
  }

  ghost function ShownEntry(p: Params, e: Entry, dir: string, depth: nat): seq<Node>
    decreases e
  {
    if Skipped(p, dir, e) then []
    else
      [Node(Join(dir, e.name), KindOf(e))]
      + (if e.Directory? && Descends(p, depth) then Shown(p, e.children, Join(dir, e.name), depth + 1) else [])
  }

  /** Whether the depth limit keeps the walk out of some directory it shows. */
  ghost predicate Cut(p: Params, entries: seq<Entry>, dir: string, depth: nat)
    decreases entries
  {
    entries != [] && (CutEntry(p, entries[0], dir, depth) || Cut(p, entries[1..], dir, depth))
  }

  ghost predicate CutEntry(p: Params, e: Entry, dir: string, depth: nat)
    decreases e
  {
    && !Skipped(p, dir, e) && p.recursive && e.Directory?
    && (if Descends(p, depth) then Cut(p, e.children, Join(dir, e.name), depth + 1) else true)
  }

  // ---------------------------------------------------------------------------
  // The plain walk of the whole tree
  // ---------------------------------------------------------------------------

  /** An entry met on the plain walk, with the names leading to it from the base directory. */
  datatype Met = Met(path: string, entry: Entry, names: seq<string>)

  function Everything(entries: seq<Entry>, dir: string, above: seq<string>): seq<Met>
    decreases entries
  {
    if entries == [] then []
    else EverythingAt(entries[0], dir, above) + Everything(entries[1..], dir, above)
  }

  function EverythingAt(e: Entry, dir: string, above: seq<string>): seq<Met>
    decreases e
  {
    [Met(Join(dir, e.name), e, above + [e.name])]
    + if e.Directory? then Everything(e.children, Join(dir, e.name), above + [e.name]) else []
  }

  /** Whether an entry met at all belongs in the answer: nothing on its way is excluded, it is not
      hidden itself, and it is not too deep. */
  ghost predicate Belongs(p: Params, m: Met) {
    && (forall i :: 0 <= i < |m.names| ==> !p.excluded(m.names[i]))
    && !EntryHidden(p.filter, m.path, m.entry)
    && (if p.recursive then p.maxDepth.Some? && |m.names| > 1 ==> |m.names| - 1 <= p.maxDepth.value
        else |m.names| == 1)
  }

  ghost function Keep(p: Params, all: seq<Met>): seq<Node> {
    if all == [] then []
    else (if Belongs(p, all[0]) then [Node(all[0].path, KindOf(all[0].entry))] else []) + Keep(p, all[1..])
  }

  /** No filter blocks the path, nor what a link there leads to. */
  ghost predicate Visible(f: Filter, m: Met) {
    f.Some? ==>
      && !PathFilters.Blocked(f.value, m.path)
      && (m.entry.Link? && m.entry.target.Some? ==> !PathFilters.Blocked(f.value, m.entry.target.value))
  }

  /** What an answer shows of the plain walk: just the entries that are visible, not excluded and not too deep. */
  lemma {:induction false} KeptExactly(p: Params, all: seq<Met>, n: Node)
    ensures n in Keep(p, all) <==>
              exists m :: m in all && n == Node(m.path, KindOf(m.entry)) && Visible(p.filter, m)
                          && (forall name :: name in m.names ==> !p.excluded(name))
                          && (if p.recursive then p.maxDepth.Some? && |m.names| > 1 ==> |m.names| - 1 <= p.maxDepth.value
                              else |m.names| == 1)
  {
    if all != [] {
      var m := all[0];
      KeptExactly(p, all[1..], n);
      assert all == [m] + all[1..];
      assert (forall i :: 0 <= i < |m.names| ==> !p.excluded(m.names[i])) <==> (forall name :: name in m.names ==> !p.excluded(name));
    }
  }

  lemma {:induction false} KeepConcat(p: Params, a: seq<Met>, b: seq<Met>)
    ensures Keep(p, a + b) == Keep(p, a) + Keep(p, b)
    decreases |a|
  {
    if a == [] {
      assert a + b == b;
    } else {
      assert (a + b)[1..] == a[1..] + b;
      KeepConcat(p, a[1..], b);
    }
  }

  /** Below an entry that does not lead on, nothing belongs. */
  ghost predicate DeadEnd(p: Params, dir: string, above: seq<string>) {
    || (exists i :: 0 <= i < |above| && p.excluded(above[i]))
    || (p.filter.Some? && dir != "" && dir[|dir| - 1] != '/' && PathFilters.Blocked(p.filter.value, dir))
    || (|above| > 0 && !(p.recursive && (p.maxDepth.Some? ==> |above| <= p.maxDepth.value)))
  }

  lemma {:induction false} DeadEndKeepsNothing(p: Params, entries: seq<Entry>, dir: string, above: seq<string>)
    requires ValidTree(entries) && DeadEnd(p, dir, above)
    ensures Keep(p, Everything(entries, dir, above)) == []
    decreases entries
  {
    if entries != [] {
      var e := entries[0];
      var path, names := Join(dir, e.name), above + [e.name];
      DeadEndInherited(p, dir, above, e);
      if e.Directory? { DeadEndKeepsNothing(p, e.children, path, names); }
      var below := if e.Directory? then Everything(e.children, path, names) else [];
      KeepConcat(p, [Met(path, e, names)], below);
      assert Keep(p, [Met(path, e, names)]) == [];
      assert forall x :: x in entries[1..] ==> x in entries;
      DeadEndKeepsNothing(p, entries[1..], dir, above);
      KeepConcat(p, EverythingAt(e, dir, above), Everything(entries[1..], dir, above));
    }
  }

  lemma DeadEndInherited(p: Params, dir: string, above: seq<string>, e: Entry)
    requires DeadEnd(p, dir, above) && ValidName(e.name)
    ensures DeadEnd(p, Join(dir, e.name), above + [e.name])
    ensures !Belongs(p, Met(Join(dir, e.name), e, above + [e.name]))
  {
    var names := above + [e.name];
    if i :| 0 <= i < |above| && p.excluded(above[i]) {
      assert p.excluded(names[i]);
    } else if p.filter.Some? && dir != "" && dir[|dir| - 1] != '/' && PathFilters.Blocked(p.filter.value, dir) {
      PathFilters.BlockedIsInherited(p.filter.value, dir, e.name);
      assert Join(dir, e.name)[|Join(dir, e.name)| - 1] == e.name[|e.name| - 1];
    }
  }

  /** The pruned walk shows the entries of the plain walk that belong, in the same order. */
  lemma {:induction false} PrunedWalkIsFilteredWalk(p: Params, entries: seq<Entry>, dir: string, above: seq<string>)
    requires ValidTree(entries)
    requires forall i :: 0 <= i < |above| ==> !p.excluded(above[i])
    requires |above| > 0 ==> p.recursive && (p.maxDepth.Some? ==> |above| <= p.maxDepth.value)
    ensures Shown(p, entries, dir, |above|) == Keep(p, Everything(entries, dir, above))
    decreases entries
  {
    if entries != [] {
      PrunedWalkAtEntry(p, entries[0], dir, above);
      assert forall x :: x in entries[1..] ==> x in entries;
      PrunedWalkIsFilteredWalk(p, entries[1..], dir, above);
      KeepConcat(p, EverythingAt(entries[0], dir, above), Everything(entries[1..], dir, above));
    }
  }

  lemma KeepOne(p: Params, e: Entry, dir: string, above: seq<string>)
    requires forall i :: 0 <= i < |above| ==> !p.excluded(above[i])
    requires |above| > 0 ==> p.recursive && (p.maxDepth.Some? ==> |above| <= p.maxDepth.value)
    ensures Keep(p, [Met(Join(dir, e.name), e, above + [e.name])])
         == if Skipped(p, dir, e) then [] else [Node(Join(dir, e.name), KindOf(e))]
  {
    var names := above + [e.name];
    assert [Met(Join(dir, e.name), e, names)][1..] == [];
    assert names[|above|] == e.name;
    assert forall i :: 0 <= i < |above| ==> names[i] == above[i];
  }

  lemma {:induction false} PrunedWalkAtEntry(p: Params, e: Entry, dir: string, above: seq<string>)
    requires ValidName(e.name) && (e.Directory? ==> ValidTree(e.children))
    requires forall i :: 0 <= i < |above| ==> !p.excluded(above[i])
    requires |above| > 0 ==> p.recursive && (p.maxDepth.Some? ==> |above| <= p.maxDepth.value)
    ensures ShownEntry(p, e, dir, |above|) == Keep(p, EverythingAt(e, dir, above))
    decreases e
  {
    var path, names := Join(dir, e.name), above + [e.name];
    KeepOne(p, e, dir, above);
    KeepConcat(p, [Met(path, e, names)], if e.Directory? then Everything(e.children, path, names) else []);
    if e.Directory? {
      if Skipped(p, dir, e) || !Descends(p, |above|) {
        assert path[|path| - 1] == e.name[|e.name| - 1];
        assert p.excluded(e.name) ==> p.excluded(names[|above|]);
        DeadEndKeepsNothing(p, e.children, path, names);
      } else {
        PrunedWalkIsFilteredWalk(p, e.children, path, names);
      }
    }
  }

  /** A walk that no depth limit cut shows what it would show without one. */
  lemma {:induction false} UncutWalkIsComplete(p: Params, entries: seq<Entry>, dir: string, depth: nat)
    requires !Cut(p, entries, dir, depth)
    ensures Shown(p, entries, dir, depth) == Shown(p.(maxDepth := None), entries, dir, depth)
    decreases entries
  {
    if entries != [] {
      var e := entries[0];
      assert Skipped(p, dir, e) <==> Skipped(p.(maxDepth := None), dir, e);
      if !Skipped(p, dir, e) && e.Directory? && p.recursive {
        UncutWalkIsComplete(p, e.children, Join(dir, e.name), depth + 1);
      }
      UncutWalkIsComplete(p, entries[1..], dir, depth);
    }
  }

  /** Whether a directory the depth limit keeps the walk out of has something that would be shown. */
  ghost predicate Loses(p: Params, entries: seq<Entry>, dir: string, depth: nat)
    decreases entries
  {
    entries != [] && (LosesEntry(p, entries[0], dir, depth) || Loses(p, entries[1..], dir, depth))
  }

  ghost predicate LosesEntry(p: Params, e: Entry, dir: string, depth: nat)
    decreases e
  {
    && !Skipped(p, dir, e) && p.recursive && e.Directory?
    && (if Descends(p, depth) then Loses(p, e.children, Join(dir, e.name), depth + 1)
        else Shown(p.(maxDepth := None), e.children, Join(dir, e.name), depth + 1) != [])
  }

  /** Exactly then does the walk show less than it would without the limit. */
  lemma {:induction false} ShowsAllExactlyWhenNothingLost(p: Params, entries: seq<Entry>, dir: string, depth: nat)
    ensures var all := Shown(p.(maxDepth := None), entries, dir, depth);
            && (!Loses(p, entries, dir, depth) ==> Shown(p, entries, dir, depth) == all)
            && (Loses(p, entries, dir, depth) ==> |Shown(p, entries, dir, depth)| < |all|)
    decreases entries, 1
  {
    if entries != [] {
      EntryShowsAllExactlyWhenNothingLost(p, entries[0], dir, depth);
      ShowsAllExactlyWhenNothingLost(p, entries[1..], dir, depth);
    }
  }

  lemma {:induction false} EntryShowsAllExactlyWhenNothingLost(p: Params, e: Entry, dir: string, depth: nat)
    ensures var all := ShownEntry(p.(maxDepth := None), e, dir, depth);
            && (!LosesEntry(p, e, dir, depth) ==> ShownEntry(p, e, dir, depth) == all)
            && (LosesEntry(p, e, dir, depth) ==> |ShownEntry(p, e, dir, depth)| < |all|)
    decreases e, 0
  {
    assert Skipped(p, dir, e) <==> Skipped(p.(maxDepth := None), dir, e);
    if !Skipped(p, dir, e) && e.Directory? && Descends(p, depth) {
      ShowsAllExactlyWhenNothingLost(p, e.children, Join(dir, e.name), depth + 1);
    }
  }

  // ---------------------------------------------------------------------------
  // list_directory
  // ---------------------------------------------------------------------------

  datatype TruncatedBy = Limit | MaxDepth

  const HARD_CAP := 10_000
  const DEFAULT_LIMIT := 2_000

  function EffectiveLimit(limit: Option<int>): int {
    if limit == Some(0) then HARD_CAP
    else
      var wanted := if limit.Some? then limit.value else DEFAULT_LIMIT;
      if wanted < HARD_CAP then wanted else HARD_CAP
  }

  /** The length at which a listing stops: one entry is listed before the limit is looked at. */
  function StopAt(limit: int): nat { if limit < 1 then 1 else limit }

  function FirstOf<T>(s: seq<T>, n: nat): seq<T> { if |s| <= n then s else s[..n] }

  class Lister {
    const params: Params
    const limit: int
    var nodes: seq<Node>
    var truncated: bool
    var limitReached: bool
    var truncatedBy: Option<TruncatedBy>

    constructor (params: Params, limit: int)
      ensures this.params == params && this.limit == limit
      ensures nodes == [] && !truncated && !limitReached && truncatedBy == None
    {
      this.params, this.limit := params, limit;
      nodes, truncated, limitReached, truncatedBy := [], false, false, None;
    }

    ghost predicate Open()
      reads this
    {
      !limitReached && |nodes| < StopAt(limit) && (truncatedBy.Some? <==> truncated)
    }

    /** What a stretch of the walk that shows `shown`, and is cut short of depth if `cut`, leaves. */
    twostate predicate Extended(shown: seq<Node>, cut: bool)
      reads this
    {
      var all := old(nodes) + shown;
      && nodes == FirstOf(all, StopAt(limit))
      && limitReached == (|all| >= StopAt(limit))
      && (limitReached ==> truncated && truncatedBy == Some(Limit))
      && (!limitReached ==>
            && truncated == (old(truncated) || cut)
            && truncatedBy == if old(truncatedBy).Some? then old(truncatedBy) else if cut then Some(MaxDepth) else None)
    }

    method Walk(entries: seq<Entry>, dir: string, depth: nat)
      requires Open()
      modifies this
      ensures Extended(Shown(params, entries, dir, depth), Cut(params, entries, dir, depth))
      decreases entries, 1
    {
      ghost var total := nodes + Shown(params, entries, dir, depth);
      ghost var cut := Cut(params, entries, dir, depth);
      var i := 0;
      assert entries[0..] == entries;
      while i < |entries| && !limitReached
        invariant 0 <= i <= |entries|
        invariant !limitReached ==>
                    && Open() && nodes + Shown(params, entries[i..], dir, depth) == total
                    && (truncated || Cut(params, entries[i..], dir, depth)) == (old(truncated) || cut)
                    && (old(truncatedBy).Some? ==> truncatedBy == old(truncatedBy))
                    && (old(truncatedBy).None? && truncatedBy.Some? ==> truncatedBy == Some(MaxDepth))
        invariant limitReached ==>
                    && nodes == FirstOf(total, StopAt(limit)) && |total| >= StopAt(limit)
                    && truncated && truncatedBy == Some(Limit)
        decreases |entries| - i, !limitReached
      {
        ghost var before, first := nodes, ShownEntry(params, entries[i], dir, depth);
        assert entries[i..][1..] == entries[i + 1..] && entries[i..][0] == entries[i];
        assert total == (before + first) + Shown(params, entries[i + 1..], dir, depth);
        WalkEntry(entries[i], dir, depth);
        i := i + 1;
      }
      assert !limitReached ==> i == |entries| && entries[i..] == [] && nodes + [] == nodes;
    }

    method WalkEntry(entry: Entry, dir: string, depth: nat)
      requires Open()
      modifies this
      ensures Extended(ShownEntry(params, entry, dir, depth), CutEntry(params, entry, dir, depth))
      decreases entry, 0
    {
      if params.excluded(entry.name) { return; }
      var fullPath := Join(dir, entry.name);
      var hidden := IsEntryHidden(params.filter, fullPath, entry);
      if hidden { return; }
      var one := Node(fullPath, KindOf(entry));
      nodes := nodes + [one];
      if |nodes| >= limit {
        limitReached, truncated, truncatedBy := true, true, Some(Limit);
        return;
      }
      if params.recursive && entry.Directory? {
        if params.maxDepth.Some? && depth + 1 > params.maxDepth.value {
          truncated := true;
          if truncatedBy.None? { truncatedBy := Some(MaxDepth); }
          return;
        }
        ghost var below := Shown(params, entry.children, fullPath, depth + 1);
        assert old(nodes) + ([one] + below) == nodes + below;
        Walk(entry.children, fullPath, depth + 1);
      }
    }
  }

  /** The most entries a listing has: as many as asked for, 2000 when that is not said and 10000 for 0, but
      no more than 10000, and one for a negative number. */
  ghost function Asked(limit: Option<int>): (most: nat)
    ensures limit.None? ==> most == 2_000
    ensures limit.Some? && 1 <= limit.value <= 10_000 ==> most == limit.value
    ensures limit.Some? && (limit.value == 0 || limit.value > 10_000) ==> most == 10_000
    ensures limit.Some? && limit.value < 0 ==> most == 1
  {
    StopAt(EffectiveLimit(limit))
  }

  datatype Listing = Listing(nodes: seq<Node>, totalNodes: nat, truncated: bool, truncatedBy: Option<TruncatedBy>)

  method ListDirectory(params: Params, limit: Option<int>, entries: seq<Entry>, base: string) returns (r: Listing)
    requires ValidTree(entries)
    ensures var all := Keep(params, Everything(entries, base, []));
            var cut := Cut(params, entries, base, 0);
            var most := Asked(limit);
            var full := |all| >= most;
            && r.nodes == (if full then all[..most] else all)
            && r.totalNodes == |r.nodes|
            && (r.truncated <==> full || cut)
            && r.truncatedBy == (if full then Some(Limit) else if cut then Some(MaxDepth) else None)
    ensures !r.truncated ==> r.nodes == Keep(params.(maxDepth := None), Everything(entries, base, []))
    ensures r.nodes == Keep(params.(maxDepth := None), Everything(entries, base, [])) <==>
              |Keep(params, Everything(entries, base, []))| <= Asked(limit)
              && !Loses(params, entries, base, 0)
  {
    var lister := new Lister(params, EffectiveLimit(limit));
    lister.Walk(entries, base, 0);
    r := Listing(lister.nodes, |lister.nodes|, lister.truncated, lister.truncatedBy);
    PrunedWalkIsFilteredWalk(params, entries, base, []);
    PrunedWalkIsFilteredWalk(params.(maxDepth := None), entries, base, []);
    assert [] + Shown(params, entries, base, 0) == Shown(params, entries, base, 0);
    if !r.truncated { UncutWalkIsComplete(params, entries, base, 0); }
    ShowsAllExactlyWhenNothingLost(params, entries, base, 0);
  }

  // ---------------------------------------------------------------------------
  // find_files
  // ---------------------------------------------------------------------------

  const FIND_CAP := 200

  /** The pruned walk of a find: the paths of the entries whose name matches. */
  ghost function Found(f: Filter, matches: string -> bool, entries: seq<Entry>, dir: string): seq<string>
    decreases entries
  {
    if entries == [] then []
    else FoundAt(f, matches, entries[0], dir) + Found(f, matches, entries[1..], dir)
  }

  ghost function FoundAt(f: Filter, matches: string -> bool, e: Entry, dir: string): seq<string>
    decreases e
  {
    if EntryHidden(f, Join(dir, e.name), e) then []
    else
      (if matches(e.name) then [Join(dir, e.name)] else [])
      + (if e.Directory? then Found(f, matches, e.children, Join(dir, e.name)) else [])
  }

  /** The plain walk, kept to entries that match and are not hidden. */
  ghost function Matching(f: Filter, matches: string -> bool, all: seq<Met>): seq<string> {
    if all == [] then []
    else (if matches(all[0].entry.name) && !EntryHidden(f, all[0].path, all[0].entry) then [all[0].path] else [])
         + Matching(f, matches, all[1..])
  }

  lemma {:induction false} MatchingExactly(f: Filter, matches: string -> bool, all: seq<Met>, path: string)
    ensures path in Matching(f, matches, all) <==> exists m :: m in all && m.path == path && matches(m.entry.name) && Visible(f, m)
  {
    if all != [] {
      MatchingExactly(f, matches, all[1..], path);
      assert all == [all[0]] + all[1..];
    }
  }

  lemma {:induction false} MatchingConcat(f: Filter, matches: string -> bool, a: seq<Met>, b: seq<Met>)
    ensures Matching(f, matches, a + b) == Matching(f, matches, a) + Matching(f, matches, b)
    decreases |a|
  {
    if a == [] {
      assert a + b == b;
    } else {
      assert (a + b)[1..] == a[1..] + b;
      MatchingConcat(f, matches, a[1..], b);
    }
  }

  lemma {:induction false} BlockedMatchesNothing(f: Filter, matches: string -> bool, entries: seq<Entry>,
                                                dir: string, above: seq<string>)
    requires ValidTree(entries) && f.Some? && dir != "" && dir[|dir| - 1] != '/' && PathFilters.Blocked(f.value, dir)
    ensures Matching(f, matches, Everything(entries, dir, above)) == []
    decreases entries
  {
    if entries != [] {
      var e := entries[0];
      var path, names := Join(dir, e.name), above + [e.name];
      PathFilters.BlockedIsInherited(f.value, dir, e.name);
      var below := if e.Directory? then Everything(e.children, path, names) else [];
      assert path[|path| - 1] == e.name[|e.name| - 1];
      if e.Directory? { BlockedMatchesNothing(f, matches, e.children, path, names); }
      MatchingConcat(f, matches, [Met(path, e, names)], below);
      assert forall x :: x in entries[1..] ==> x in entries;
      BlockedMatchesNothing(f, matches, entries[1..], dir, above);
      MatchingConcat(f, matches, EverythingAt(e, dir, above), Everything(entries[1..], dir, above));
    }
  }

  lemma {:induction false} PrunedFindIsFilteredFind(f: Filter, matches: string -> bool, entries: seq<Entry>,
                                                    dir: string, above: seq<string>)
    requires ValidTree(entries)
    ensures Found(f, matches, entries, dir) == Matching(f, matches, Everything(entries, dir, above))
    decreases entries
  {
    if entries != [] {
      var e := entries[0];
      var path, names := Join(dir, e.name), above + [e.name];
      var below := if e.Directory? then Everything(e.children, path, names) else [];
      assert path[|path| - 1] == e.name[|e.name| - 1];
      if e.Directory? {
        if EntryHidden(f, path, e) { BlockedMatchesNothing(f, matches, e.children, path, names); }
        else { PrunedFindIsFilteredFind(f, matches, e.children, path, names); }
      }
      assert [Met(path, e, names)][1..] == [];
      MatchingConcat(f, matches, [Met(path, e, names)], below);
      assert forall x :: x in entries[1..] ==> x in entries;
      PrunedFindIsFilteredFind(f, matches, entries[1..], dir, above);
      MatchingConcat(f, matches, EverythingAt(e, dir, above), Everything(entries[1..], dir, above));
    }
  }

  class Finder {
    const filter: Filter
    const matches: string -> bool
    var found: seq<string>
    var truncated: bool

    constructor (filter: Filter, matches: string -> bool)
      ensures this.filter == filter && this.matches == matches && found == [] && !truncated
    {
      this.filter, this.matches, found, truncated := filter, matches, [], false;
    }

    twostate predicate Extended(more: seq<string>)
      reads this
    {
      var all := old(found) + more;
      found == FirstOf(all, FIND_CAP) && truncated == (|all| >= FIND_CAP)
    }

    method Walk(entries: seq<Entry>, dir: string)
      requires !truncated && |found| < FIND_CAP
      modifies this
      ensures Extended(Found(filter, matches, entries, dir))
      decreases entries, 1
    {
      ghost var total := found + Found(filter, matches, entries, dir);
      var i := 0;
      assert entries[0..] == entries;
      while i < |entries| && !truncated
        invariant 0 <= i <= |entries|
        invariant !truncated ==> |found| < FIND_CAP && found + Found(filter, matches, entries[i..], dir) == total
        invariant truncated ==> found == FirstOf(total, FIND_CAP) && |total| >= FIND_CAP
        decreases |entries| - i, !truncated
      {
        ghost var before, first := found, FoundAt(filter, matches, entries[i], dir);
        assert entries[i..][1..] == entries[i + 1..] && entries[i..][0] == entries[i];
        assert total == (before + first) + Found(filter, matches, entries[i + 1..], dir);
        WalkEntry(entries[i], dir);
        i := i + 1;
      }
      assert !truncated ==> i == |entries| && entries[i..] == [] && found + [] == found;
    }

    method WalkEntry(entry: Entry, dir: string)
      requires !truncated && |found| < FIND_CAP
      modifies this
      ensures Extended(FoundAt(filter, matches, entry, dir))
      decreases entry, 0
    {
      var fullPath := Join(dir, entry.name);
      var hidden := IsEntryHidden(filter, fullPath, entry);
      if hidden { return; }
      ghost var one := if matches(entry.name) then [fullPath] else [];
      ghost var below := if entry.Directory? then Found(filter, matches, entry.children, fullPath) else [];
      assert found + (one + below) == (found + one) + below;
      if matches(entry.name) {
        found := found + [fullPath];
        if |found| >= FIND_CAP {
          truncated := true;
          return;
        }
      }
      if entry.Directory? { Walk(entry.children, fullPath); }
    }
  }

  method FindFiles(filter: Filter, matches: string -> bool, entries: seq<Entry>, base: string)
    returns (found: seq<string>, truncated: bool)
    requires ValidTree(entries)
    ensures var all := Matching(filter, matches, Everything(entries, base, []));
            && found == (if |all| >= 200 then all[..200] else all)
            && (truncated <==> |all| >= 200)
            && (!truncated ==> found == all)
  {
    var finder := new Finder(filter, matches);
    finder.Walk(entries, base);
    PrunedFindIsFilteredFind(filter, matches, entries, base, []);
    found, truncated := finder.found, finder.truncated;
    assert [] + Found(filter, matches, entries, base) == Found(filter, matches, entries, base);
  }
}
