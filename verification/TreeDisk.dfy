/**
 The disk that copies and moves work on, one operation at a time, any of which may fail.
 */
module TreeDisk {
  import opened Wrappers
  import opened TreeCopy

  // ---------------------------------------------------------------------------
  // The disk
  // ---------------------------------------------------------------------------

  class Disk {
    var nodes: Tree
    var budget: nat          // operations left before the disk fails
    ghost var history: set<Tree>

    constructor (nodes: Tree, budget: nat)
      ensures this.nodes == nodes && this.budget == budget && history == {nodes}
    {
      this.nodes, this.budget, history := nodes, budget, {nodes};
    }

    /** Makes one directory in an existing one; an existing directory is left as it is. */
    method MakeDirectory(p: Path) returns (ok: bool)
      modifies this
      ensures history == old(history) + {nodes}
      ensures ok <==> old(budget) > 0 && (p in old(nodes) ==> old(nodes)[p] == Directory)
      ensures ok ==> nodes == old(nodes)[p := Directory] && budget == old(budget) - 1
      ensures !ok ==> nodes == old(nodes)
    {
      ok := budget > 0 && (p in nodes ==> nodes[p] == Directory);
      if ok { nodes := nodes[p := Directory]; }
      budget := if budget > 0 then budget - 1 else 0;
      history := history + {nodes};
    }

    /** Copies a file to where nothing is; a copy that fails midway may leave `partial` behind. */
    method CopyFile(src: Path, dst: Path, partial: Option<string>) returns (ok: bool)
      requires src in nodes
      modifies this
      ensures history == old(history) + {nodes}
      ensures ok <==> dst !in old(nodes) && old(budget) > 0
      ensures ok ==> nodes == old(nodes)[dst := old(nodes)[src]] && budget == old(budget) - 1
      ensures !ok ==> nodes == old(nodes) || (dst !in old(nodes) && partial.Some? && nodes == old(nodes)[dst := File(partial.value)])
    {
      ok := dst !in nodes && budget > 0;
      if ok {
        nodes := nodes[dst := nodes[src]];
      } else if dst !in nodes && partial.Some? {
        nodes := nodes[dst := File(partial.value)];
      }
      budget := if budget > 0 then budget - 1 else 0;
      history := history + {nodes};
    }

    /** Copies what is at `src` to `dst`, symlinks left out. */
    method CopyRecursive(src: Path, dst: Path, partial: Option<string>) returns (ok: bool)
      requires WellFormed(nodes) && Apart(src, dst) && Vacant(nodes, dst)
      requires dst != [] && Init(dst) in nodes && nodes[Init(dst)] == Directory
      modifies this
      ensures WellFormed(nodes) && SameOutside(old(nodes), nodes, dst)
      ensures ok <==> CopyCompletes(old(nodes), src, dst, old(budget))
      ensures ok ==> budget == old(budget) - CopyCost(old(nodes), src, dst)
      ensures ok ==> CopyOutcome(old(nodes), src, dst, nodes)
      ensures OnlyBelow(old(history), history, old(nodes), dst)
      decreases |Below(nodes, src)|, 3
    {
      VacantOrLink(nodes, dst);
      if src in nodes && nodes[src] != Directory { LeafCost(nodes, src); }
      if src !in nodes {
        ok := false;
      } else if nodes[src].Symlink? {
        ok := true;
        if dst !in nodes { CopyOfSymlink(nodes, src, dst); }
      } else if nodes[src].Directory? {
        ok := CopyDirectory(src, dst, partial);
      } else if dst in nodes && nodes[dst].Symlink? {
        ok := true;
      } else {
        CopyOfFile(nodes, src, dst);
        ok := CopyFile(src, dst, partial);
        if nodes != old(nodes) { AddWellFormed(old(nodes), dst, nodes[dst]); }
      }
    }

    method CopyDirectory(src: Path, dst: Path, partial: Option<string>) returns (ok: bool)
      requires WellFormed(nodes) && Apart(src, dst) && Vacant(nodes, dst) && src in nodes && nodes[src] == Directory
      requires dst != [] && Init(dst) in nodes && nodes[Init(dst)] == Directory
      modifies this
      ensures WellFormed(nodes) && SameOutside(old(nodes), nodes, dst)
      ensures ok <==> CopyCompletes(old(nodes), src, dst, old(budget))
      ensures ok ==> budget == old(budget) - CopyCost(old(nodes), src, dst)
      ensures ok ==> CopyOutcome(old(nodes), src, dst, nodes)
      ensures OnlyBelow(old(history), history, old(nodes), dst)
      decreases |Below(nodes, src)|, 2
    {
      ghost var s := nodes;
      ok := MakeDirectory(dst);
      VacantOrLink(s, dst);
      DirectoryCost(s, src);
      if ok {
        DirectoryMade(s, src, dst);
        ghost var seen := history;
        ok := CopyEntries(src, dst, partial);
        HistoryJoins(old(history), seen, history, s, s[dst := Directory], dst, dst);
        DeeperIsOutside(s, s[dst := Directory], nodes, dst, dst);
        if ok { MadeAndCopied(s, src, dst, nodes); }
      }
    }

    /** Copies the entries of a directory into one just made. */
    method CopyEntries(src: Path, dst: Path, partial: Option<string>) returns (ok: bool)
      requires WellFormed(nodes) && Apart(src, dst) && NothingUnder(nodes, dst)
      requires src in nodes && nodes[src] == Directory && dst in nodes && nodes[dst] == Directory
      modifies this
      ensures WellFormed(nodes) && SameOutside(old(nodes), nodes, dst)
      ensures ok <==> old(budget) + 1 >= |Copies(old(nodes), src)|
      ensures ok ==> budget == old(budget) + 1 - |Copies(old(nodes), src)|
      ensures ok ==> PartlyCopied(old(nodes), src, dst, nodes, Names(old(nodes), src))
      ensures OnlyBelow(old(history), history, old(nodes), dst)
      decreases |Below(nodes, src)|, 1
    {
      ok := true;
      var todo := Names(nodes, src);
      ghost var s, names := nodes, todo;
      NothingCopiedYet(nodes, src, dst);
      assert names - todo == {};
      while todo != {}
        invariant ok && todo <= names && WellFormed(nodes)
        invariant PartlyCopied(s, src, dst, nodes, names - todo)
        invariant OnlyBelow(old(history), history, s, dst)
        invariant budget == old(budget) - CopiedSoFar(s, src, names - todo)
        decreases todo
      {
        var name :| name in todo;
        ghost var mid, seen, done := nodes, history, names - todo;
        OneLess(names, todo, name);
        todo := todo - {name};
        OneMoreCost(s, src, done, name);
        ok := CopyEntry(src, dst, name, partial, s, done);
        HistoryJoins(old(history), seen, history, s, mid, dst, dst);
        DeeperIsOutside(s, mid, nodes, dst, dst);
        if !ok { break; }
      }
      assert ok ==> names - todo == names;
    }

    /** Copies one entry of what was `s`, when those called `done` were copied. */
    method CopyEntry(src: Path, dst: Path, name: string, partial: Option<string>, ghost s: Tree, ghost done: set<string>)
      returns (ok: bool)
      requires WellFormed(s) && WellFormed(nodes) && Apart(src, dst) && src in s && s[src] == Directory
      requires PartlyCopied(s, src, dst, nodes, done) && done <= Names(s, src) && name in Names(s, src) && name !in done
      modifies this
      ensures WellFormed(nodes) && SameOutside(old(nodes), nodes, dst)
      ensures ok <==> old(budget) >= |Copies(s, src + [name])|
      ensures ok ==> budget == old(budget) - |Copies(s, src + [name])|
      ensures ok ==> PartlyCopied(s, src, dst, nodes, done + {name})
      ensures OnlyBelow(old(history), history, old(nodes), dst)
      decreases |Below(s, src)|, 0
    {
      EntryReady(s, src, dst, nodes, done, name);
      EntryCost(s, src, dst, nodes, done, name);
      ok := CopyRecursive(src + [name], dst + [name], partial);
      EntryHistory(old(history), old(history), history, old(nodes), old(nodes), nodes, dst, name);
      if ok { OneMoreCopied(s, src, dst, old(nodes), nodes, done, name); }
    }

    method RemoveOne(p: Path) returns (ok: bool)
      modifies this
      ensures history == old(history) + {nodes}
      ensures ok <==> p in old(nodes) && old(budget) > 0
      ensures nodes == if ok then old(nodes) - {p} else old(nodes)
      ensures ok ==> budget == old(budget) - 1
    {
      ok := p in nodes && budget > 0;
      if ok { nodes := nodes - {p}; }
      budget := if budget > 0 then budget - 1 else 0;
      history := history + {nodes};
    }

    /** Removes a node and all below it, deepest first. */
    method RemoveTree(root: Path) returns (ok: bool)
      requires WellFormed(nodes)
      modifies this
      ensures WellFormed(nodes) && Fewer(old(nodes), nodes, root) && OnlyFewer(old(history), history, old(nodes), root)
      ensures ok <==> root in old(nodes) && old(budget) >= |Below(old(nodes), root)|
      ensures ok ==> NothingAt(nodes, root) && budget == old(budget) - |Below(old(nodes), root)|
      decreases |Below(nodes, root)|, 2
    {
      ok := root in nodes;
      if ok {
        BelowItself(nodes, root);
        if nodes[root].Directory? {
          ok := RemoveEntries(root);
        } else {
          LeafOnly(nodes, root);
          LeafCost(nodes, root);
        }
      }
      if ok {
        ghost var mid, seen := nodes, history;
        RemoveWellFormed(nodes, root);
        ok := RemoveOne(root);
        FewerThrough(old(nodes), mid, nodes, root, root);
        FewerJoins(old(history), seen, history, old(nodes), mid, root, root);
      }
    }

    method RemoveEntries(root: Path) returns (ok: bool)
      requires WellFormed(nodes) && root in nodes && nodes[root] == Directory
      modifies this
      ensures WellFormed(nodes) && Fewer(old(nodes), nodes, root) && OnlyFewer(old(history), history, old(nodes), root)
      ensures SameAt(old(nodes), nodes, root)
      ensures ok <==> old(budget) + 1 >= |Below(old(nodes), root)|
      ensures ok ==> NothingUnder(nodes, root) && budget == old(budget) + 1 - |Below(old(nodes), root)|
      decreases |Below(nodes, root)|, 1
    {
      ok := true;
      var todo := Names(nodes, root);
      ghost var s, names := nodes, todo;
      NothingRemovedYet(nodes, root);
      assert names - todo == {};
      while todo != {}
        invariant ok && todo <= names && WellFormed(nodes)
        invariant PartlyRemoved(s, root, nodes, names - todo, todo)
        invariant OnlyFewer(old(history), history, s, root)
        invariant budget == old(budget) - RemovedSoFar(s, root, names - todo)
        decreases todo
      {
        var name :| name in todo;
        ghost var mid, seen, gone := nodes, history, names - todo;
        OneLess(names, todo, name);
        todo := todo - {name};
        OneMoreRemovalCost(s, root, gone, name);
        ok := RemoveEntry(root, name, s, gone, todo);
        FewerJoins(old(history), seen, history, s, mid, root, root);
        if !ok { break; }
      }
      assert ok ==> names - todo == names;
      if ok { NamesGone(s, nodes, root, names); }
    }

    /** Removes one entry of what was `s`, when those called `gone` were removed and `left` remain. */
    method RemoveEntry(root: Path, name: string, ghost s: Tree, ghost gone: set<string>, ghost left: set<string>)
      returns (ok: bool)
      requires WellFormed(s) && WellFormed(nodes) && root in s && name in Names(s, root) && name !in left
      requires PartlyRemoved(s, root, nodes, gone, left + {name})
      modifies this
      ensures WellFormed(nodes) && Fewer(old(nodes), nodes, root) && OnlyFewer(old(history), history, old(nodes), root)
      ensures Fewer(s, nodes, root) && SameAt(s, nodes, root)
      ensures ok <==> old(budget) >= |Below(s, root + [name])|
      ensures ok ==> budget == old(budget) - |Below(s, root + [name])|
      ensures ok ==> PartlyRemoved(s, root, nodes, gone + {name}, left)
      decreases |Below(s, root)|, 0
    {
      ghost var mid, seen := nodes, history;
      ChildIsSmaller(s, root, name);
      RemovalCost(s, nodes, root, name);
      ok := RemoveTree(root + [name]);
      FewerBelow(mid, nodes, root, root + [name]);
      FewerJoins(seen, seen, history, mid, mid, root, root + [name]);
      FewerThrough(s, mid, nodes, root, root + [name]);
      OthersUntouched(s, mid, nodes, root, name, left);
      StillGone(mid, nodes, root, name, gone);
    }

    /** Copies and then removes; each step may fail. */
    method CrossDeviceMove(src: Path, dst: Path, partial: Option<string>) returns (r: MoveResult)
      requires WellFormed(nodes) && Apart(src, dst) && Vacant(nodes, dst)
      requires dst != [] && Init(dst) in nodes && nodes[Init(dst)] == Directory
      modifies this
      ensures r in {Moved, CopyFailed, RemoveFailed}
      ensures r == CopyFailed <==> !CopyCompletes(old(nodes), src, dst, old(budget))
      ensures r == Moved <==> MoveCompletes(old(nodes), src, dst, old(budget))
      ensures MoveOutcome(old(nodes), src, dst, nodes, r)
      ensures dst !in old(nodes) ==> AllIntact(old(history), history, old(nodes), src, dst)
    {
      ghost var s := nodes;
      var ok := CopyRecursive(src, dst, partial);
      if !ok {
        r := CopyFailed;
        CopyingIntact(old(history), history, s, src, dst);
      } else {
        ghost var copied, seen := nodes, history;
        SourceSame(s, copied, dst, src);
        assert SameAt(s, copied, src);
        ok := RemoveTree(src);
        r := if ok then Moved else RemoveFailed;
        RemovalOutcome(s, src, dst, copied, nodes, r);
        if dst !in s { MoveIntact(old(history), seen, history, s, copied, src, dst); }
      }
    }

    /** Makes a directory with whatever is missing above it. */
    method MakeDirectories(p: Path) returns (ok: bool)
      requires WellFormed(nodes)
      modifies this
      ensures ok <==> CanPrepare(old(nodes), p, old(budget))
      ensures ok ==> budget == old(budget) - Missing(old(nodes), p)
      ensures p in old(nodes) ==> nodes == old(nodes)
      ensures WellFormed(nodes) && WithParents(old(nodes), nodes, p)
      ensures old(history) <= history && forall t :: t in history && t !in old(history) ==> WithParents(old(nodes), t, p)
      ensures ok ==> p in nodes && nodes[p] == Directory
      decreases |p|
    {
      if p in nodes { return nodes[p].Directory?; }
      if p == [] { return false; }
      ok := MakeDirectories(Init(p));
      ShorterParents(old(nodes), p);
      if !ok { return; }
      NotYetMade(old(nodes), nodes, p);
      ghost var mid := nodes;
      ok := MakeDirectory(p);
      if ok { AddWellFormed(mid, p, Directory); }
      OneMoreParent(old(nodes), mid, p);
    }

    /** Whether something can be reached at `p`; `reaches` says where a symlink there leads. */
    method Accessible(p: Path, reaches: bool) returns (yes: bool)
      ensures yes <==> p in nodes && (nodes[p].Symlink? ==> reaches)
    {
      yes := p in nodes && (nodes[p].Symlink? ==> reaches);
    }

    method CopyPath(src: Path, dst: Path, reaches: bool, partial: Option<string>) returns (r: CopyResult)
      requires WellFormed(nodes) && dst != [] && !IntoItself(nodes, src, dst)
      modifies this
      ensures r == SourceMissing <==> src !in old(nodes)
      ensures r == SourceIsSymlink <==> src in old(nodes) && old(nodes)[src].Symlink?
      ensures r == Occupied <==> src in old(nodes) && !old(nodes)[src].Symlink? && dst in old(nodes) && (old(nodes)[dst].Symlink? ==> reaches)
      ensures r in {SourceMissing, SourceIsSymlink, Occupied} ==> nodes == old(nodes)
      ensures r == NotPrepared <==>
                r !in {SourceMissing, SourceIsSymlink, Occupied} && !CanPrepare(old(nodes), Init(dst), old(budget))
      ensures r == Copied <==>
                && r !in {SourceMissing, SourceIsSymlink, Occupied} && CanPrepare(old(nodes), Init(dst), old(budget))
                && CopyCompletes(old(nodes), src, dst, old(budget) - Missing(old(nodes), Init(dst)))
      // The destination is the source without its symlinks exactly when it was free.
      ensures r == Copied ==>
                ((forall p :: dst <= p ==> CopiedAt(old(nodes), src, dst, nodes, p)) <==> dst !in old(nodes))
      ensures r == Copied && dst in old(nodes) ==> nodes == old(nodes)
      // Nothing else changes but for created parents.
      ensures forall p :: !(dst <= p) ==> ParentAt(old(nodes), nodes, Init(dst), p)
    {
      ghost var s := nodes;
      var taken := Accessible(dst, reaches);
      if src !in nodes {
        r := SourceMissing;
      } else if nodes[src].Symlink? {
        r := SourceIsSymlink;
      } else if taken {
        r := Occupied;
      } else {
        assert InDirectory(s, dst);
        var ok := MakeDirectories(Init(dst));
        if !ok {
          r := NotPrepared;
        } else {
          ghost var ready := nodes;
          Prepared(s, ready, src, dst, budget);
          ok := CopyRecursive(src, dst, partial);
          r := if ok then Copied else Incomplete;
          CopyEnded(s, ready, src, dst, nodes, ok);
        }
      }
    }

    /** Moves to another file system. */
    method MovePath(src: Path, dst: Path, reaches: bool, partial: Option<string>) returns (r: MoveResult)
      requires WellFormed(nodes) && dst != [] && src in nodes && !(src <= dst)
      modifies this
      ensures r == DestinationExists <==> dst in old(nodes) && (old(nodes)[dst].Symlink? ==> reaches)
      ensures r == DestinationExists ==> nodes == old(nodes)
      ensures r == NoParent <==> r != DestinationExists && !CanPrepare(old(nodes), Init(dst), old(budget))
      ensures r == CopyFailed <==>
                && r != DestinationExists && CanPrepare(old(nodes), Init(dst), old(budget))
                && !CopyCompletes(old(nodes), src, dst, old(budget) - Missing(old(nodes), Init(dst)))
      ensures r == Moved <==>
                && r != DestinationExists && CanPrepare(old(nodes), Init(dst), old(budget))
                && MoveCompletes(old(nodes), src, dst, old(budget) - Missing(old(nodes), Init(dst)))
      ensures dst !in old(nodes) ==> AllIntact(old(history), history, old(nodes), src, dst)
      ensures r == Moved ==> MovedFrom(old(nodes), src, dst, nodes)
      // Nothing else changes but for created parents.
      ensures forall p :: !(src <= p) && !(dst <= p) ==> ParentAt(old(nodes), nodes, Init(dst), p)
    {
      ghost var s := nodes;
      var taken := Accessible(dst, reaches);
      if taken {
        r := DestinationExists;
      } else {
        ReadyToCopy(s, src, dst);
        var ok := MakeDirectories(Init(dst));
        ghost var ready, seen := nodes, history;
        ParentsSpareSource(old(history), seen, s, src, dst);
        if !ok {
          r := NoParent;
        } else {
          ReadyAsBefore(s, ready, src, dst, budget);
          r := CrossDeviceMove(src, dst, partial);
          OutcomeFromOriginal(s, ready, src, dst, nodes, r);
          if dst !in s { MoveJoins(old(history), seen, history, s, ready, src, dst); }
        }
      }
    }
  }

  // ---------------------------------------------------------------------------
  // A dangling symlink at the destination
  // ---------------------------------------------------------------------------

  function FileAndLink(content: string): Tree {
    map[[] := Directory, ["file"] := File(content), ["link"] := Symlink]
  }

  /** A copy onto it reports success and copies nothing. */
  method CopyOntoDanglingLink(content: string) returns (r: CopyResult, after: Tree)
    ensures r == Copied && after == FileAndLink(content)
  {
    var disk := new Disk(FileAndLink(content), 1);
    assert ["link"] != [] && Init(["link"]) == [];
    r := disk.CopyPath(["file"], ["link"], false, None);
    after := disk.nodes;
  }

  /** A move onto it reports success and leaves no file at all. */
  method MoveOntoDanglingLink(content: string) returns (r: MoveResult, after: Tree)
    ensures r == Moved && forall p :: p in after ==> !after[p].File?
  {
    var disk := new Disk(FileAndLink(content), 1);
    LeafCost(FileAndLink(content), ["file"]);
    assert Init(["link"]) == [] && ["file"][0][0] != ["link"][0][0];
    r := disk.MovePath(["file"], ["link"], false, None);
    after := disk.nodes;
    forall p | p in after ensures !after[p].File? {
      assert !(["file"] <= p) ==> SameAt(FileAndLink(content), after, p);
    }
  }
}
