/**
 Copying a tree, and moving one to another file system by copying and then removing it: what each leaves
 of the source and the destination, in the end and on the way, and how many operations each takes of a
 disk. Paths are sequences of names; a tree maps each path to what is there, and everything but the root
 lies in a directory.
 */
module TreeCopy {
  import opened Wrappers

  type Path = seq<string>

  datatype Node = File(content: string) | Directory | Symlink

  type Tree = map<Path, Node>

  /** Everything but the root lies in a directory. */
  ghost predicate WellFormed(t: Tree) { forall p :: InDirectory(t, p) }

  predicate InDirectory(t: Tree, p: Path) { p in t && p != [] ==> Init(p) in t && t[Init(p)] == Directory }

  /** Where a path below `src` goes when `src` becomes `dst`. */
  function Rebase(p: Path, src: Path, dst: Path): Path
    requires src <= p
  {
    dst + p[|src|..]
  }

  predicate Apart(src: Path, dst: Path) { !(src <= dst) && !(dst <= src) }

  ghost predicate SameAt(s: Tree, t: Tree, p: Path) { (p in t <==> p in s) && (p in s ==> t[p] == s[p]) }

  /** `t` differs from `s` only below `root`. */
  ghost predicate SameOutside(s: Tree, t: Tree, root: Path) { forall p :: !(root <= p) ==> SameAt(s, t, p) }

  /** What the copy has at `p`: what the source has there, symlinks left out. */
  ghost predicate CopiedAt(s: Tree, src: Path, dst: Path, t: Tree, p: Path)
    requires dst <= p
  {
    var q := Rebase(p, dst, src);
    && (p in t <==> q in s && !s[q].Symlink?)
    && (p in t ==> t[p] == s[q])
  }

  ghost predicate CopyOf(s: Tree, src: Path, dst: Path, t: Tree) {
    && SameOutside(s, t, dst)
    && forall p :: dst <= p ==> CopiedAt(s, src, dst, t, p)
  }

  /** Nothing is at `dst`, unless a symlink. */
  ghost predicate Vacant(t: Tree, dst: Path) { forall p :: dst <= p ==> LinkAtMost(t, dst, p) }

  ghost predicate LinkAtMost(t: Tree, dst: Path, p: Path) { p in t ==> p == dst && t[p].Symlink? }

  // ---------------------------------------------------------------------------
  // Paths
  // ---------------------------------------------------------------------------

  lemma {:induction false} AncestorsExist(t: Tree, a: Path, p: Path)
    requires WellFormed(t) && p in t && a <= p
    ensures a in t && (a != p ==> t[a] == Directory)
    decreases |p|
  {
    if a != p {
      assert InDirectory(t, p) && a <= Init(p);
      AncestorsExist(t, a, Init(p));
    }
  }

  /** Below anything but a directory there is nothing. */
  lemma NothingBelow(t: Tree, a: Path, p: Path)
    requires WellFormed(t) && a <= p && a != p && (a in t ==> t[a] != Directory)
    ensures p !in t
  {
    if p in t { AncestorsExist(t, a, p); }
  }

  lemma RebaseStep(p: Path, src: Path, dst: Path)
    requires dst <= p && |p| > |dst|
    ensures dst + [p[|dst|]] <= p
    ensures Rebase(p, dst, src) == Rebase(p, dst + [p[|dst|]], src + [p[|dst|]])
  {
  }

  function Names(t: Tree, dir: Path): set<string> {
    set p | p in t && |p| == |dir| + 1 && dir <= p :: Last(p)
  }

  lemma InNames(t: Tree, dir: Path, name: string)
    ensures name in Names(t, dir) <==> dir + [name] in t
  {
    if dir + [name] in t {
      assert Last(dir + [name]) == name;
    }
    if name in Names(t, dir) {
      var p :| p in t && |p| == |dir| + 1 && dir <= p && Last(p) == name;
      assert p == dir + [name];
    }
  }

  /** What of `w` is `root` or lies below it. */
  ghost function At(w: set<Path>, root: Path): set<Path> { set p | p in w && root <= p }

  ghost function Below(t: Tree, root: Path): set<Path> { At(t.Keys, root) }

  lemma ChildIsSmaller(t: Tree, dir: Path, name: string)
    requires dir in t
    ensures |Below(t, dir + [name])| < |Below(t, dir)|
  {
    var all, part := Below(t, dir), Below(t, dir + [name]);
    assert part <= all - {dir};
    Subset(part, all - {dir});
  }

  lemma {:induction false} Subset(a: set<Path>, b: set<Path>)
    requires a <= b
    ensures |a| <= |b|
    decreases |a|
  {
    if a != {} {
      var x :| x in a;
      Subset(a - {x}, b - {x});
    }
  }

  lemma OneLess(names: set<string>, todo: set<string>, name: string)
    requires todo <= names && name in todo
    ensures names - (todo - {name}) == (names - todo) + {name} && name !in names - todo
    ensures (names - todo) + {name} <= names && (todo - {name}) + {name} == todo
  {
  }

  // ---------------------------------------------------------------------------
  // How many operations a copy or a removal takes
  // ---------------------------------------------------------------------------

  /** The nodes a copy makes: symlinks are left out. */
  ghost function Solid(t: Tree): set<Path> { set p | p in t && !t[p].Symlink? }

  ghost function Copies(t: Tree, root: Path): set<Path> { At(Solid(t), root) }

  /** What of `w` lies below `root` under one of `names`. */
  ghost function Part(w: set<Path>, root: Path, names: set<string>): set<Path> {
    set p | p in w && root <= p && |p| > |root| && p[|root|] in names
  }

  lemma UnderName(root: Path, name: string, p: Path)
    ensures root + [name] <= p <==> root <= p && |p| > |root| && p[|root|] == name
  {
    if root <= p && |p| > |root| && p[|root|] == name { assert p[..|root| + 1] == root + [name]; }
  }

  lemma OneMoreName(w: set<Path>, root: Path, names: set<string>, name: string)
    requires name !in names
    ensures |Part(w, root, names + {name})| == |Part(w, root, names)| + |At(w, root + [name])|
  {
    var more, part, one := Part(w, root, names + {name}), Part(w, root, names), At(w, root + [name]);
    forall p ensures p in one <==> p in w && root <= p && |p| > |root| && p[|root|] == name { UnderName(root, name, p); }
    assert more == part + one && part !! one;
  }

  lemma MoreNames(w: set<Path>, root: Path, a: set<string>, b: set<string>)
    requires a <= b
    ensures |Part(w, root, a)| <= |Part(w, root, b)|
  {
    Subset(Part(w, root, a), Part(w, root, b));
  }

  lemma NoNames(w: set<Path>, root: Path)
    ensures Part(w, root, {}) == {}
  {
  }

  /** A directory and what lies under its names. */
  lemma AllNames(t: Tree, w: set<Path>, root: Path)
    requires WellFormed(t) && w <= t.Keys && root in w
    ensures |At(w, root)| == 1 + |Part(w, root, Names(t, root))|
  {
    var part := Part(w, root, Names(t, root));
    forall p | p in At(w, root) && p != root ensures p in part {
      UnderName(root, p[|root|], p);
      AncestorsExist(t, root + [p[|root|]], p);
      InNames(t, root, p[|root|]);
    }
    assert At(w, root) == {root} + part && root !in part;
  }

  lemma SameCopies(s: Tree, t: Tree, root: Path)
    requires forall p :: root <= p ==> SameAt(s, t, p)
    ensures Copies(t, root) == Copies(s, root) && Below(t, root) == Below(s, root)
  {
    forall p ensures p in Copies(t, root) <==> p in Copies(s, root) { assert root <= p ==> SameAt(s, t, p); }
    forall p ensures p in Below(t, root) <==> p in Below(s, root) { assert root <= p ==> SameAt(s, t, p); }
  }

  lemma SourceSame(s: Tree, t: Tree, dst: Path, root: Path)
    requires SameOutside(s, t, dst) && Apart(root, dst)
    ensures forall p :: root <= p ==> SameAt(s, t, p)
    ensures Copies(t, root) == Copies(s, root) && Below(t, root) == Below(s, root)
  {
    forall p | root <= p ensures SameAt(s, t, p) { Comparable(root, dst, p); }
    SameCopies(s, t, root);
  }

  /** The operations a copy takes onto a free place; onto a symlink a copy does nothing. */
  ghost function CopyCost(s: Tree, src: Path, dst: Path): nat { if dst in s then 0 else |Copies(s, src)| }

  /** Whether the copy of `src` to `dst`, made ready for it, completes on a disk good for `budget` operations. */
  ghost predicate CopyCompletes(s: Tree, src: Path, dst: Path, budget: nat) {
    && src in s && (dst in s ==> s[src] != Directory)
    && budget >= CopyCost(s, src, dst)
  }

  lemma LeafCost(t: Tree, p: Path)
    requires WellFormed(t) && p in t && t[p] != Directory
    ensures Below(t, p) == {p} && Copies(t, p) == if t[p].Symlink? then {} else {p}
  {
    LeafOnly(t, p);
    assert p in Below(t, p);
    assert forall q :: q in Below(t, p) ==> q == p;
    assert Copies(t, p) <= Below(t, p);
  }

  // ---------------------------------------------------------------------------
  // Copies
  // ---------------------------------------------------------------------------

  ghost predicate NothingAt(t: Tree, root: Path) { forall p :: root <= p ==> p !in t }

  lemma CopyOfSymlink(s: Tree, src: Path, dst: Path)
    requires WellFormed(s) && src in s && s[src].Symlink? && NothingAt(s, dst)
    ensures CopyOf(s, src, dst, s)
  {
    forall p | dst <= p ensures CopiedAt(s, src, dst, s, p) {
      if p == dst { assert Rebase(p, dst, src) == src; } else { NothingBelow(s, src, Rebase(p, dst, src)); }
    }
  }

  lemma CopyOfFile(s: Tree, src: Path, dst: Path)
    requires WellFormed(s) && src in s && s[src].File? && NothingAt(s, dst)
    ensures CopyOf(s, src, dst, s[dst := s[src]])
  {
    var t := s[dst := s[src]];
    forall p | dst <= p ensures CopiedAt(s, src, dst, t, p) {
      if p == dst { assert Rebase(p, dst, src) == src; } else { NothingBelow(s, src, Rebase(p, dst, src)); }
    }
  }

  /** A new node in a directory leaves every node in one. */
  lemma AddWellFormed(s: Tree, p: Path, n: Node)
    requires WellFormed(s) && p != [] && Init(p) in s && s[Init(p)] == Directory && (p in s ==> s[p] == n || NothingUnder(s, p))
    ensures WellFormed(s[p := n])
  {
    var t := s[p := n];
    forall q ensures InDirectory(t, q) {
      assert InDirectory(s, q);
      assert q in s && q != [] && Init(q) == p ==> p <= q;
    }
  }

  ghost predicate NothingUnder(s: Tree, p: Path) { forall q :: p <= q && q in s ==> q == p }

  /** Directory `src` was copied as far as the names `done`. */
  ghost predicate PartlyCopied(s: Tree, src: Path, dst: Path, t: Tree, done: set<string>) {
    && SameOutside(s, t, dst)
    && dst in t && t[dst] == Directory
    && forall p :: dst <= p && p != dst ==>
         if p[|dst|] in done then CopiedAt(s, src, dst, t, p) else p !in t
  }

  lemma LastOff(a: Path, b: Path, name: string)
    ensures a + [name] <= b + [name] ==> a <= b
  {
    if |a| <= |b| { assert b[..|a|] == (b + [name])[..|a|]; }
  }

  lemma PrefixThrough(root: Path, deep: Path, p: Path)
    requires root <= deep
    ensures deep <= p ==> root <= p
  {
  }

  lemma StillApart(src: Path, dst: Path, name: string)
    requires Apart(src, dst)
    ensures Apart(src + [name], dst + [name])
  {
    LastOff(src, dst, name);
    LastOff(dst, src, name);
  }

  lemma OneMoreCopied(s: Tree, src: Path, dst: Path, mid: Tree, t: Tree, done: set<string>, name: string)
    requires Apart(src, dst) && PartlyCopied(s, src, dst, mid, done)
    requires CopyOf(mid, src + [name], dst + [name], t)
    ensures PartlyCopied(s, src, dst, t, done + {name})
  {
    forall p | dst <= p && p != dst
      ensures if p[|dst|] in done + {name} then CopiedAt(s, src, dst, t, p) else p !in t
    {
      RebaseStep(p, src, dst);
      var q := Rebase(p, dst, src);
      Comparable(src, dst, q);
      assert SameAt(s, mid, q);
      if p[|dst|] == name {
        assert CopiedAt(mid, src + [name], dst + [name], t, p);
      } else {
        assert !(dst + [name] <= p);
        assert SameAt(mid, t, p);
      }
    }
    assert !(dst + [name] <= dst) && SameAt(mid, t, dst);
    forall p | !(dst <= p) ensures SameAt(s, t, p) {
      assert !(dst + [name] <= p);
      assert SameAt(s, mid, p) && SameAt(mid, t, p);
    }
  }

  lemma Comparable(a: Path, b: Path, p: Path)
    ensures a <= p && b <= p ==> a <= b || b <= a
  {
    if a <= p && b <= p {
      if |a| <= |b| { assert a == b[..|a|]; } else { assert b == a[..|b|]; }
    }
  }

  /** A directory copied as far as all its names is copied. */
  lemma AllCopied(s: Tree, src: Path, dst: Path, t: Tree)
    requires WellFormed(s) && src in s && s[src] == Directory && PartlyCopied(s, src, dst, t, Names(s, src))
    ensures CopyOf(s, src, dst, t)
  {
    forall p | dst <= p ensures CopiedAt(s, src, dst, t, p) {
      if p == dst {
        assert Rebase(p, dst, src) == src;
      } else {
        RebaseStep(p, src, dst);
        InNames(s, src, p[|dst|]);
        if p[|dst|] !in Names(s, src) && Rebase(p, dst, src) in s {
          AncestorsExist(s, src + [p[|dst|]], Rebase(p, dst, src));
        }
      }
    }
  }

  lemma SameBelow(s: Tree, t: Tree, dst: Path, root: Path)
    requires SameOutside(s, t, dst) && Apart(root, dst)
    ensures Below(t, root) == Below(s, root)
  {
    forall p ensures p in Below(t, root) <==> p in Below(s, root) {
      Comparable(root, dst, p);
      if root <= p { assert SameAt(s, t, p); }
    }
  }

  /** The same, counted from before the directory was made. */
  lemma MadeAndCopied(s: Tree, src: Path, dst: Path, t: Tree)
    requires WellFormed(s) && Apart(src, dst) && src in s && s[src] == Directory && NothingAt(s, dst)
    requires PartlyCopied(s[dst := Directory], src, dst, t, Names(s[dst := Directory], src))
    ensures CopyOf(s, src, dst, t)
  {
    var made := s[dst := Directory];
    SameBelow(s, made, dst, src);
    assert Names(made, src) == Names(s, src) by {
      forall p ensures src <= p ==> (p in made <==> p in s) { assert p in Below(made, src) <==> p in Below(s, src); }
    }
    forall p | dst <= p && p != dst ensures CopiedAt(made, src, dst, t, p) <==> CopiedAt(s, src, dst, t, p) {
      Comparable(src, dst, Rebase(p, dst, src));
    }
    DeeperIsOutside(s, made, t, dst, dst);
    AllCopied(s, src, dst, t);
  }

  lemma DirectoryCost(s: Tree, src: Path)
    requires src in s && s[src] == Directory
    ensures |Copies(s, src)| >= 1
  {
    assert src in Copies(s, src);
  }

  /** A directory was made for the copy of another. */
  lemma DirectoryMade(s: Tree, src: Path, dst: Path)
    requires WellFormed(s) && Apart(src, dst) && src in s && NothingAt(s, dst)
    requires dst != [] && Init(dst) in s && s[Init(dst)] == Directory
    ensures var made := s[dst := Directory];
            && WellFormed(made) && SameOutside(s, made, dst) && NothingUnder(made, dst) && SameAt(s, made, src)
            && Copies(made, src) == Copies(s, src) && Below(made, src) == Below(s, src)
  {
    AddWellFormed(s, dst, Directory);
    SourceSame(s, s[dst := Directory], dst, src);
  }

  /** The states `after` has and `before` has not are as `s` outside `root`. */
  ghost predicate OnlyBelow(before: set<Tree>, after: set<Tree>, s: Tree, root: Path) {
    forall t :: NewIsOutside(before, after, s, root, t)
  }

  ghost predicate NewIsOutside(before: set<Tree>, after: set<Tree>, s: Tree, root: Path, t: Tree) {
    (t in before ==> t in after) && (t in after && t !in before ==> SameOutside(s, t, root))
  }

  lemma DeeperIsOutside(s: Tree, mid: Tree, t: Tree, root: Path, deep: Path)
    requires root <= deep && SameOutside(s, mid, root) && SameOutside(mid, t, deep)
    ensures SameOutside(s, t, root)
  {
    forall p | !(root <= p) ensures SameAt(s, t, p) {
      PrefixThrough(root, deep, p);
      assert SameAt(s, mid, p) && SameAt(mid, t, p);
    }
  }

  lemma HistoryJoins(h: set<Tree>, h': set<Tree>, h'': set<Tree>, s: Tree, mid: Tree, root: Path, deep: Path)
    requires OnlyBelow(h, h', s, root) && OnlyBelow(h', h'', mid, deep) && root <= deep && SameOutside(s, mid, root)
    ensures OnlyBelow(h, h'', s, root)
  {
    forall t ensures NewIsOutside(h, h'', s, root, t) {
      assert NewIsOutside(h, h', s, root, t) && NewIsOutside(h', h'', mid, deep, t);
      if t in h'' && t !in h' { DeeperIsOutside(s, mid, t, root, deep); }
    }
  }

  /** The next entry can be copied: its place is free and there is less below it. */
  lemma EntryReady(s: Tree, src: Path, dst: Path, mid: Tree, done: set<string>, name: string)
    requires Apart(src, dst) && src in s && PartlyCopied(s, src, dst, mid, done) && name !in done
    ensures Apart(src + [name], dst + [name]) && Vacant(mid, dst + [name]) && dst + [name] !in mid
    ensures Init(dst + [name]) == dst && |Below(mid, src + [name])| < |Below(s, src)|
  {
    StillApart(src, dst, name);
    forall p | dst + [name] <= p ensures p !in mid && LinkAtMost(mid, dst + [name], p) {
      assert dst <= p && p != dst && p[|dst|] == name;
    }
    ChildIsSmaller(s, src, name);
    Comparable(src, dst, src + [name]);
    PrefixThrough(src, src + [name], dst);
    SameBelow(s, mid, dst, src + [name]);
  }

  lemma EntryHistory(h: set<Tree>, h': set<Tree>, h'': set<Tree>, s: Tree, mid: Tree, t: Tree, dst: Path, name: string)
    requires OnlyBelow(h, h', s, dst) && OnlyBelow(h', h'', mid, dst + [name])
    requires SameOutside(s, mid, dst) && SameOutside(mid, t, dst + [name])
    ensures OnlyBelow(h, h'', s, dst) && SameOutside(s, t, dst)
  {
    HistoryJoins(h, h', h'', s, mid, dst, dst + [name]);
    DeeperIsOutside(s, mid, t, dst, dst + [name]);
  }

  /** The operations that copying the entries called `done` took. */
  ghost function CopiedSoFar(s: Tree, src: Path, done: set<string>): nat { |Part(Solid(s), src, done)| }

  lemma NothingCopiedYet(s: Tree, src: Path, dst: Path)
    requires WellFormed(s) && src in s && s[src] == Directory && dst in s && s[dst] == Directory && NothingUnder(s, dst)
    ensures PartlyCopied(s, src, dst, s, {}) && CopiedSoFar(s, src, {}) == 0
    ensures |Copies(s, src)| == 1 + CopiedSoFar(s, src, Names(s, src))
  {
    NoNames(Solid(s), src);
    AllNames(s, Solid(s), src);
  }

  lemma OneMoreCost(s: Tree, src: Path, done: set<string>, name: string)
    requires name !in done && done + {name} <= Names(s, src)
    ensures CopiedSoFar(s, src, done + {name}) == CopiedSoFar(s, src, done) + |Copies(s, src + [name])|
    ensures CopiedSoFar(s, src, done + {name}) <= CopiedSoFar(s, src, Names(s, src))
  {
    OneMoreName(Solid(s), src, done, name);
    MoreNames(Solid(s), src, done + {name}, Names(s, src));
  }

  /** What one more entry takes is the same before and after the others were copied. */
  lemma EntryCost(s: Tree, src: Path, dst: Path, mid: Tree, done: set<string>, name: string)
    requires WellFormed(s) && Apart(src, dst) && src in s
    requires PartlyCopied(s, src, dst, mid, done) && name !in done && name in Names(s, src)
    ensures src + [name] in mid && dst + [name] !in mid
    ensures Copies(mid, src + [name]) == Copies(s, src + [name])
  {
    InNames(s, src, name);
    SourceSame(s, mid, dst, src);
    assert SameAt(s, mid, src + [name]);
    SameCopies(s, mid, src + [name]);
    assert (dst + [name])[|dst|] == name;
  }

  /** What a copy that reports success did: with a symlink at the destination, nothing. */
  ghost predicate CopyOutcome(s: Tree, src: Path, dst: Path, t: Tree) {
    && src in s
    && (if dst in s then t == s && s[src] != Directory else CopyOf(s, src, dst, t))
  }

  lemma VacantOrLink(t: Tree, dst: Path)
    requires Vacant(t, dst)
    ensures if dst in t then t[dst].Symlink? else NothingAt(t, dst)
    ensures NothingUnder(t, dst)
  {
    assert LinkAtMost(t, dst, dst);
    forall p | dst <= p ensures p in t ==> p == dst && p in Below(t, dst) { assert LinkAtMost(t, dst, p); }
  }

  // ---------------------------------------------------------------------------
  // Removing
  // ---------------------------------------------------------------------------

  /** `t` is `s` with some of what is below `root` gone. */
  ghost predicate Fewer(s: Tree, t: Tree, root: Path) {
    && SameOutside(s, t, root)
    && forall p :: p in t ==> p in s && t[p] == s[p]
  }

  ghost predicate OnlyFewer(before: set<Tree>, after: set<Tree>, s: Tree, root: Path) {
    forall t :: NewIsFewer(before, after, s, root, t)
  }

  ghost predicate NewIsFewer(before: set<Tree>, after: set<Tree>, s: Tree, root: Path, t: Tree) {
    (t in before ==> t in after) && (t in after && t !in before ==> Fewer(s, t, root))
  }

  lemma FewerThrough(s: Tree, mid: Tree, t: Tree, root: Path, deep: Path)
    requires root <= deep && Fewer(s, mid, root) && Fewer(mid, t, deep)
    ensures Fewer(s, t, root)
  {
    DeeperIsOutside(s, mid, t, root, deep);
  }

  lemma FewerJoins(h: set<Tree>, h': set<Tree>, h'': set<Tree>, s: Tree, mid: Tree, root: Path, deep: Path)
    requires OnlyFewer(h, h', s, root) && OnlyFewer(h', h'', mid, deep) && root <= deep && Fewer(s, mid, root)
    ensures OnlyFewer(h, h'', s, root)
  {
    forall t ensures NewIsFewer(h, h'', s, root, t) {
      assert NewIsFewer(h, h', s, root, t) && NewIsFewer(h', h'', mid, deep, t);
      if t in h'' && t !in h' { FewerThrough(s, mid, t, root, deep); }
    }
  }

  lemma RemoveWellFormed(s: Tree, p: Path)
    requires WellFormed(s) && NothingUnder(s, p)
    ensures WellFormed(s - {p}) && Fewer(s, s - {p}, p) && NothingAt(s - {p}, p)
  {
    var t := s - {p};
    forall q ensures InDirectory(t, q) {
      assert InDirectory(s, q);
      assert q in t && q != [] && Init(q) == p ==> p <= q;
    }
  }

  /** A directory none of whose names is left has nothing under it. */
  lemma Emptied(s: Tree, dir: Path)
    requires WellFormed(s) && forall name :: NothingAt(s, dir + [name])
    ensures NothingUnder(s, dir)
  {
    forall q | dir <= q ensures q == dir || q !in s {
      if q != dir {
        UnderName(dir, q[|dir|], q);
        assert NothingAt(s, dir + [q[|dir|]]);
      }
    }
  }

  lemma StillGone(mid: Tree, t: Tree, root: Path, name: string, gone: set<string>)
    requires Fewer(mid, t, root + [name]) && forall other :: other in gone ==> NothingAt(mid, root + [other])
    ensures forall other :: other in gone ==> NothingAt(t, root + [other])
  {
    forall other | other in gone ensures NothingAt(t, root + [other]) {
      assert NothingAt(mid, root + [other]);
    }
  }

  lemma LeafOnly(t: Tree, p: Path)
    requires WellFormed(t) && p in t && t[p] != Directory
    ensures NothingUnder(t, p)
  {
    forall q | p <= q ensures q == p || q !in t {
      if q != p { NothingBelow(t, p, q); }
    }
  }

  lemma BelowItself(t: Tree, root: Path)
    requires root in t
    ensures |Below(t, root)| >= 1
  {
    assert root in Below(t, root);
  }

  ghost predicate Untouched(s: Tree, t: Tree, root: Path) { forall p :: root <= p ==> SameAt(s, t, p) }

  /** The entries called `gone` were removed, and those called `left` were not. */
  ghost predicate PartlyRemoved(s: Tree, root: Path, t: Tree, gone: set<string>, left: set<string>) {
    && Fewer(s, t, root) && SameAt(s, t, root)
    && (forall name :: name in gone ==> NothingAt(t, root + [name]))
    && (forall name :: name in left ==> Untouched(s, t, root + [name]))
  }

  /** The operations that removing the entries called `gone` took. */
  ghost function RemovedSoFar(s: Tree, root: Path, gone: set<string>): nat { |Part(s.Keys, root, gone)| }

  lemma NothingRemovedYet(s: Tree, root: Path)
    requires WellFormed(s) && root in s
    ensures PartlyRemoved(s, root, s, {}, Names(s, root)) && RemovedSoFar(s, root, {}) == 0
    ensures |Below(s, root)| == 1 + RemovedSoFar(s, root, Names(s, root))
  {
    NoNames(s.Keys, root);
    AllNames(s, s.Keys, root);
  }

  lemma OneMoreRemovalCost(s: Tree, root: Path, gone: set<string>, name: string)
    requires name !in gone && gone + {name} <= Names(s, root)
    ensures RemovedSoFar(s, root, gone + {name}) == RemovedSoFar(s, root, gone) + |Below(s, root + [name])|
    ensures RemovedSoFar(s, root, gone + {name}) <= RemovedSoFar(s, root, Names(s, root))
  {
    OneMoreName(s.Keys, root, gone, name);
    MoreNames(s.Keys, root, gone + {name}, Names(s, root));
  }

  /** What removing one more entry takes is the same before and after others were removed. */
  lemma RemovalCost(s: Tree, mid: Tree, root: Path, name: string)
    requires name in Names(s, root) && Untouched(s, mid, root + [name])
    ensures root + [name] in mid && Below(mid, root + [name]) == Below(s, root + [name])
  {
    InNames(s, root, name);
    assert SameAt(s, mid, root + [name]);
    SameCopies(s, mid, root + [name]);
  }

  lemma FewerBelow(s: Tree, t: Tree, root: Path, deep: Path)
    requires root <= deep && Fewer(s, t, deep)
    ensures Fewer(s, t, root)
  {
    FewerThrough(s, s, t, root, deep);
  }

  /** Removing one entry leaves the others and the directory itself. */
  lemma OthersUntouched(s: Tree, mid: Tree, t: Tree, root: Path, name: string, others: set<string>)
    requires Fewer(mid, t, root + [name]) && name !in others
    requires forall other :: other in others ==> Untouched(s, mid, root + [other])
    ensures forall other :: other in others ==> Untouched(s, t, root + [other])
    ensures SameAt(mid, t, root)
  {
    forall other | other in others ensures Untouched(s, t, root + [other]) {
      assert Untouched(s, mid, root + [other]);
      forall p | root + [other] <= p ensures SameAt(s, t, p) {
        UnderName(root, other, p);
        UnderName(root, name, p);
        assert SameAt(s, mid, p) && SameAt(mid, t, p);
      }
    }
    assert !(root + [name] <= root);
  }

  lemma NamesGone(s: Tree, t: Tree, root: Path, gone: set<string>)
    requires WellFormed(t) && Fewer(s, t, root) && gone == Names(s, root)
    requires forall name :: name in gone ==> NothingAt(t, root + [name])
    ensures NothingUnder(t, root)
  {
    forall name ensures NothingAt(t, root + [name]) {
      InNames(s, root, name);
      if name !in gone {
        assert root + [name] !in t;
        forall p | root + [name] <= p ensures p !in t {
          if p != root + [name] { NothingBelow(t, root + [name], p); }
        }
      }
    }
    Emptied(t, root);
  }

  // ---------------------------------------------------------------------------
  // Moving
  // ---------------------------------------------------------------------------

  datatype MoveResult = Moved | CopyFailed | RemoveFailed | DestinationExists | NoParent

  datatype CopyResult = Copied | SourceMissing | SourceIsSymlink | Occupied | NotPrepared | Incomplete

  /** Every regular file of the source is still there, or at the destination, with its contents. */
  ghost predicate Intact(s: Tree, t: Tree, src: Path, dst: Path) {
    forall q :: src <= q && q in s && s[q].File? ==>
      SameAt(s, t, q) || (Rebase(q, src, dst) in t && t[Rebase(q, src, dst)] == s[q])
  }

  ghost predicate AllIntact(before: set<Tree>, after: set<Tree>, s: Tree, src: Path, dst: Path) {
    forall t :: t in after && t !in before ==> Intact(s, t, src, dst)
  }

  lemma IntactWhileCopying(s: Tree, t: Tree, src: Path, dst: Path)
    requires Apart(src, dst) && SameOutside(s, t, dst)
    ensures Intact(s, t, src, dst)
  {
    forall q | src <= q && q in s && s[q].File? ensures SameAt(s, t, q) { Comparable(src, dst, q); }
  }

  lemma IntactWhileRemoving(s: Tree, copied: Tree, t: Tree, src: Path, dst: Path)
    requires Apart(src, dst) && CopyOf(s, src, dst, copied) && Fewer(copied, t, src)
    ensures Intact(s, t, src, dst)
  {
    forall q | src <= q && q in s && s[q].File? ensures Rebase(q, src, dst) in t && t[Rebase(q, src, dst)] == s[q] {
      var p := Rebase(q, src, dst);
      assert Rebase(p, dst, src) == q && CopiedAt(s, src, dst, copied, p);
      Comparable(src, dst, p);
      assert SameAt(copied, t, p);
    }
  }

  lemma MoveIntact(h: set<Tree>, h': set<Tree>, h'': set<Tree>, s: Tree, copied: Tree, src: Path, dst: Path)
    requires Apart(src, dst) && OnlyBelow(h, h', s, dst) && CopyOf(s, src, dst, copied) && OnlyFewer(h', h'', copied, src)
    ensures AllIntact(h, h'', s, src, dst)
  {
    forall t | t in h'' && t !in h ensures Intact(s, t, src, dst) {
      assert NewIsOutside(h, h', s, dst, t) && NewIsFewer(h', h'', copied, src, t);
      if t in h' { IntactWhileCopying(s, t, src, dst); } else { IntactWhileRemoving(s, copied, t, src, dst); }
    }
  }

  /** What a completed move leaves: a copy, and nothing at the source. */
  ghost predicate MovedTree(s: Tree, src: Path, dst: Path, t: Tree) {
    && NothingAt(t, src)
    && (forall p :: !(src <= p) && !(dst <= p) ==> SameAt(s, t, p))
    && (forall p :: dst <= p ==> CopiedAt(s, src, dst, t, p))
  }

  lemma CopiedThenRemoved(s: Tree, src: Path, dst: Path, copied: Tree, t: Tree)
    requires Apart(src, dst) && CopyOf(s, src, dst, copied) && Fewer(copied, t, src) && NothingAt(t, src)
    ensures MovedTree(s, src, dst, t)
  {
    forall p | dst <= p ensures CopiedAt(s, src, dst, t, p) {
      Comparable(src, dst, p);
      assert CopiedAt(s, src, dst, copied, p) && SameAt(copied, t, p);
    }
    forall p | !(src <= p) && !(dst <= p) ensures SameAt(s, t, p) {
      assert SameAt(s, copied, p) && SameAt(copied, t, p);
    }
  }

  ghost predicate KeptAt(s: Tree, src: Path, dst: Path, t: Tree, q: Path)
    requires src <= q && q in s
  {
    Rebase(q, src, dst) in t && t[Rebase(q, src, dst)] == s[q]
  }

  /** A completed move to another file system keeps everything if, and only if, the source has no symlink. */
  lemma MoveKeepsAllButSymlinks(s: Tree, src: Path, dst: Path, t: Tree)
    requires Apart(src, dst) && MovedTree(s, src, dst, t)
    ensures (forall q :: src <= q && q in s ==> KeptAt(s, src, dst, t, q))
       <==> (forall q :: src <= q && q in s ==> !s[q].Symlink?)
  {
    forall q | src <= q && q in s ensures KeptAt(s, src, dst, t, q) <==> !s[q].Symlink? {
      assert Rebase(Rebase(q, src, dst), dst, src) == q;
      assert CopiedAt(s, src, dst, t, Rebase(q, src, dst));
    }
  }

  /** What a move of `src` to `dst`, made ready for it, does. A symlink in the way is taken for a copied file. */
  ghost predicate MoveOutcome(s: Tree, src: Path, dst: Path, t: Tree, r: MoveResult) {
    && (r == CopyFailed ==> SameOutside(s, t, dst))
    && (r == Moved ==> src in s && NothingAt(t, src))
    && (r == Moved && dst !in s ==> MovedTree(s, src, dst, t))
    && (r == Moved && dst in s ==> SameOutside(s, t, src) && (Intact(s, t, src, dst) <==> !s[src].File?))
    && (forall p :: !(src <= p) && !(dst <= p) ==> SameAt(s, t, p))
  }

  /** Whether the move of `src` to `dst`, made ready for it, completes on a disk good for `budget` operations. */
  ghost predicate MoveCompletes(s: Tree, src: Path, dst: Path, budget: nat) {
    CopyCompletes(s, src, dst, budget) && budget >= CopyCost(s, src, dst) + |Below(s, src)|
  }

  lemma CopyingIntact(h: set<Tree>, h': set<Tree>, s: Tree, src: Path, dst: Path)
    requires Apart(src, dst) && OnlyBelow(h, h', s, dst)
    ensures AllIntact(h, h', s, src, dst)
  {
    forall t | t in h' && t !in h ensures Intact(s, t, src, dst) {
      assert NewIsOutside(h, h', s, dst, t);
      IntactWhileCopying(s, t, src, dst);
    }
  }

  /** Onto a dangling symlink, a move completes without having copied anything. */
  lemma NothingCopied(s: Tree, src: Path, dst: Path, t: Tree)
    requires WellFormed(s) && Apart(src, dst) && src in s && dst in s && s[dst].Symlink?
    requires Fewer(s, t, src) && NothingAt(t, src) && s[src] != Directory
    ensures Intact(s, t, src, dst) <==> !s[src].File?
  {
    Comparable(src, dst, dst);
    assert SameAt(s, t, dst) && Rebase(src, src, dst) == dst;
    forall q | src <= q ensures q == src || q !in s {
      if q != src { NothingBelow(s, src, q); }
    }
  }

  /** What is left once the copy was done and the removal of the source ended, well or not. */
  lemma RemovalOutcome(s: Tree, src: Path, dst: Path, copied: Tree, t: Tree, r: MoveResult)
    requires WellFormed(s) && Apart(src, dst) && Vacant(s, dst)
    requires CopyOutcome(s, src, dst, copied) && SameOutside(s, copied, dst)
    requires Fewer(copied, t, src) && r in {Moved, RemoveFailed} && (r == Moved ==> NothingAt(t, src))
    ensures MoveOutcome(s, src, dst, t, r)
  {
    VacantOrLink(s, dst);
    forall p | !(src <= p) && !(dst <= p) ensures SameAt(s, t, p) {
      assert SameAt(s, copied, p) && SameAt(copied, t, p);
    }
    if r == Moved && dst !in s { CopiedThenRemoved(s, src, dst, copied, t); }
    if r == Moved && dst in s { NothingCopied(s, src, dst, t); }
  }

  // ---------------------------------------------------------------------------
  // Parents
  // ---------------------------------------------------------------------------

  /** Nothing but directories is in the way of `p`. */
  predicate WayOpen(s: Tree, p: Path) {
    if p in s then s[p] == Directory else p != [] && WayOpen(s, Init(p))
  }

  /** The directories on the way to `p` that are not there. */
  function Missing(s: Tree, p: Path): nat {
    if p in s || p == [] then 0 else 1 + Missing(s, Init(p))
  }

  /** Whether a disk good for `budget` operations can make `p` with what is missing above it. */
  predicate CanPrepare(s: Tree, p: Path, budget: nat) { WayOpen(s, p) && budget >= Missing(s, p) }

  /** At `q` the tree is as it was, or a directory made on the way to `p`. */
  ghost predicate ParentAt(s: Tree, t: Tree, p: Path, q: Path) {
    SameAt(s, t, q) || (q !in s && q <= p && q in t && t[q] == Directory)
  }

  ghost predicate WithParents(s: Tree, t: Tree, p: Path) { forall q :: ParentAt(s, t, p, q) }

  lemma ShorterParents(s: Tree, p: Path)
    requires p != []
    ensures forall t :: WithParents(s, t, Init(p)) ==> WithParents(s, t, p)
  {
    forall t | WithParents(s, t, Init(p)) ensures WithParents(s, t, p) {
      forall q ensures ParentAt(s, t, p, q) {
        assert ParentAt(s, t, Init(p), q);
        PrefixOfInit(q, q, p);
      }
    }
  }

  /** A directory whose copy goes inside itself. */
  predicate IntoItself(s: Tree, src: Path, dst: Path) { src in s && s[src] == Directory && src <= dst }

  /** Nothing can be made below a file. */
  lemma NoWayThroughFile(s: Tree, src: Path, dst: Path)
    requires WellFormed(s) && src in s && s[src].File? && src <= dst && src != dst
    ensures !WayOpen(s, Init(dst))
    decreases |dst|
  {
    var up := Init(dst);
    assert src <= up;
    if up in s { AncestorsExist(s, src, up); } else { NoWayThroughFile(s, src, up); }
  }

  lemma ReadyToCopy(s: Tree, src: Path, dst: Path)
    requires WellFormed(s) && src in s && !(src <= dst) && (dst in s ==> s[dst].Symlink?)
    ensures Apart(src, dst) && Vacant(s, dst)
  {
    forall p | dst <= p ensures LinkAtMost(s, dst, p) {
      if p != dst { NothingBelow(s, dst, p); }
    }
    if dst <= src { NothingBelow(s, dst, src); }
  }

  lemma StillVacant(s: Tree, t: Tree, dst: Path)
    requires dst != [] && Vacant(s, dst) && WithParents(s, t, Init(dst))
    ensures Vacant(t, dst) && SameAt(s, t, dst)
  {
    assert ParentAt(s, t, Init(dst), dst);
    forall p | dst <= p ensures LinkAtMost(t, dst, p) { assert ParentAt(s, t, Init(dst), p) && LinkAtMost(s, dst, p); }
  }

  lemma PrefixOfInit(a: Path, q: Path, p: Path)
    requires p != [] && a <= q
    ensures q <= Init(p) ==> a <= p && q <= p
  {
  }

  lemma OneMoreParent(s: Tree, mid: Tree, p: Path)
    requires WithParents(s, mid, p) && p !in mid
    ensures WithParents(s, mid[p := Directory], p)
  {
    var t := mid[p := Directory];
    forall q ensures ParentAt(s, t, p, q) { assert ParentAt(s, mid, p, q); }
  }

  lemma NotYetMade(s: Tree, t: Tree, p: Path)
    requires p != [] && p !in s && WithParents(s, t, Init(p))
    ensures p !in t
  {
    assert ParentAt(s, t, Init(p), p);
  }

  /** What changes only below `dst` after its parents were made is as it was but for those. */
  lemma ParentsOutside(s: Tree, ready: Tree, t: Tree, dst: Path)
    requires dst != [] && WithParents(s, ready, Init(dst)) && SameOutside(ready, t, dst)
    ensures forall p :: !(dst <= p) ==> ParentAt(s, t, Init(dst), p)
  {
    forall p | !(dst <= p) ensures ParentAt(s, t, Init(dst), p) {
      assert ParentAt(s, ready, Init(dst), p) && SameAt(ready, t, p);
    }
  }

  lemma SourceUnchanged(s: Tree, t: Tree, src: Path, dst: Path)
    requires Apart(src, dst) && dst != [] && WithParents(s, t, Init(dst))
    ensures forall q :: src <= q ==> SameAt(s, t, q)
  {
    forall q | src <= q ensures SameAt(s, t, q) {
      assert ParentAt(s, t, Init(dst), q);
      PrefixOfInit(src, q, dst);
    }
  }

  /** Making the parents changes nothing of what a copy or a move looks at. */
  lemma ReadyAsBefore(s: Tree, ready: Tree, src: Path, dst: Path, budget: nat)
    requires Apart(src, dst) && dst != [] && Vacant(s, dst) && WithParents(s, ready, Init(dst))
    ensures Vacant(ready, dst) && SameAt(s, ready, dst) && forall q :: src <= q ==> SameAt(s, ready, q)
    ensures CopyCompletes(ready, src, dst, budget) <==> CopyCompletes(s, src, dst, budget)
    ensures MoveCompletes(ready, src, dst, budget) <==> MoveCompletes(s, src, dst, budget)
  {
    StillVacant(s, ready, dst);
    SourceUnchanged(s, ready, src, dst);
    SameCopies(s, ready, src);
    assert SameAt(s, ready, src);
  }

  /** A copy that reports success made the destination what the source is, exactly when it was free. */
  lemma CopiedOrNot(s: Tree, ready: Tree, src: Path, dst: Path, t: Tree)
    requires WellFormed(s) && Apart(src, dst) && dst != [] && Vacant(s, dst) && WithParents(s, ready, Init(dst))
    requires CopyOutcome(ready, src, dst, t) && src in s && !s[src].Symlink?
    ensures (forall p :: dst <= p ==> CopiedAt(s, src, dst, t, p)) <==> dst !in s
    ensures dst in s ==> t == ready
  {
    StillVacant(s, ready, dst);
    VacantOrLink(s, dst);
    if dst !in s {
      CopiedFromOriginal(s, ready, src, dst, t);
    } else {
      assert t[dst].Symlink? && Rebase(dst, dst, src) == src;
      assert !CopiedAt(s, src, dst, t, dst);
    }
  }

  /** Everything is ready for the copy once the parents are made. */
  lemma Prepared(s: Tree, ready: Tree, src: Path, dst: Path, budget: nat)
    requires WellFormed(s) && dst != [] && src in s && !s[src].Symlink? && (dst in s ==> s[dst].Symlink?)
    requires !IntoItself(s, src, dst) && WayOpen(s, Init(dst)) && WithParents(s, ready, Init(dst))
    ensures Apart(src, dst) && Vacant(s, dst) && Vacant(ready, dst)
    ensures CopyCompletes(ready, src, dst, budget) <==> CopyCompletes(s, src, dst, budget)
  {
    if src <= dst { NoWayThroughFile(s, src, dst); }
    ReadyToCopy(s, src, dst);
    ReadyAsBefore(s, ready, src, dst, budget);
  }

  /** What a copy leaves of the original tree, whether it completed or not. */
  lemma CopyEnded(s: Tree, ready: Tree, src: Path, dst: Path, t: Tree, ok: bool)
    requires WellFormed(s) && Apart(src, dst) && dst != [] && Vacant(s, dst) && WithParents(s, ready, Init(dst))
    requires SameOutside(ready, t, dst) && src in s && !s[src].Symlink?
    requires ok ==> CopyOutcome(ready, src, dst, t)
    ensures forall p :: !(dst <= p) ==> ParentAt(s, t, Init(dst), p)
    ensures ok ==> ((forall p :: dst <= p ==> CopiedAt(s, src, dst, t, p)) <==> dst !in s)
    ensures ok && dst in s ==> t == ready
  {
    ParentsOutside(s, ready, t, dst);
    if ok { CopiedOrNot(s, ready, src, dst, t); }
  }

  lemma CopiedFromOriginal(s: Tree, ready: Tree, src: Path, dst: Path, t: Tree)
    requires Apart(src, dst) && dst != [] && WithParents(s, ready, Init(dst)) && CopyOf(ready, src, dst, t)
    ensures forall p :: dst <= p ==> CopiedAt(s, src, dst, t, p)
  {
    SourceUnchanged(s, ready, src, dst);
    forall p | dst <= p ensures CopiedAt(s, src, dst, t, p) { SameSourceCopied(s, ready, t, src, dst, p); }
  }

  lemma SameSourceCopied(s: Tree, ready: Tree, t: Tree, src: Path, dst: Path, p: Path)
    requires dst <= p && CopiedAt(ready, src, dst, t, p) && forall q :: src <= q ==> SameAt(s, ready, q)
    ensures CopiedAt(s, src, dst, t, p)
  {
    assert SameAt(s, ready, Rebase(p, dst, src));
  }

  lemma SameSourceIntact(s: Tree, ready: Tree, t: Tree, src: Path, dst: Path)
    requires Intact(ready, t, src, dst) && forall q :: src <= q ==> SameAt(s, ready, q)
    ensures Intact(s, t, src, dst)
  {
    forall q | src <= q && q in s && s[q].File?
      ensures SameAt(s, t, q) || (Rebase(q, src, dst) in t && t[Rebase(q, src, dst)] == s[q])
    {
      assert SameAt(s, ready, q);
    }
  }

  lemma MoveJoins(h: set<Tree>, h': set<Tree>, h'': set<Tree>, s: Tree, ready: Tree, src: Path, dst: Path)
    requires AllIntact(h, h', s, src, dst) && AllIntact(h', h'', ready, src, dst)
    requires forall q :: src <= q ==> SameAt(s, ready, q)
    ensures AllIntact(h, h'', s, src, dst)
  {
    forall t | t in h'' && t !in h ensures Intact(s, t, src, dst) {
      if t !in h' { SameSourceIntact(s, ready, t, src, dst); }
    }
  }

  /** What a completed move left of the original tree. */
  ghost predicate MovedFrom(s: Tree, src: Path, dst: Path, t: Tree) {
    && src in s && NothingAt(t, src)
    && (dst !in s ==> forall p :: dst <= p ==> CopiedAt(s, src, dst, t, p))
    && (dst in s ==> SameOutside(s, t, src) && (Intact(s, t, src, dst) <==> !s[src].File?))
  }

  lemma NoParentsToMake(s: Tree, ready: Tree, t: Tree, src: Path, p: Path)
    requires WellFormed(s) && p in s && WithParents(s, ready, p) && SameOutside(ready, t, src)
    ensures SameOutside(s, t, src)
  {
    forall q | !(src <= q) ensures SameAt(s, t, q) {
      assert ParentAt(s, ready, p, q) && SameAt(ready, t, q);
      if q <= p { AncestorsExist(s, q, p); }
    }
  }

  lemma OutcomeFromOriginal(s: Tree, ready: Tree, src: Path, dst: Path, t: Tree, r: MoveResult)
    requires WellFormed(s) && Apart(src, dst) && dst != [] && WithParents(s, ready, Init(dst)) && (dst in ready <==> dst in s)
    requires MoveOutcome(ready, src, dst, t, r)
    ensures r == Moved ==> MovedFrom(s, src, dst, t)
    ensures forall p :: !(src <= p) && !(dst <= p) ==> ParentAt(s, t, Init(dst), p)
  {
    SourceUnchanged(s, ready, src, dst);
    forall p | !(src <= p) && !(dst <= p) ensures ParentAt(s, t, Init(dst), p) {
      assert ParentAt(s, ready, Init(dst), p) && SameAt(ready, t, p);
    }
    if r == Moved {
      assert SameAt(s, ready, src);
      if dst !in s {
        forall p | dst <= p ensures CopiedAt(s, src, dst, t, p) { SameSourceCopied(s, ready, t, src, dst, p); }
      } else {
        assert InDirectory(s, dst);
        NoParentsToMake(s, ready, t, src, Init(dst));
        if Intact(ready, t, src, dst) { SameSourceIntact(s, ready, t, src, dst); }
        NotIntactBefore(s, ready, t, src, dst);
      }
    }
  }

  lemma NotIntactBefore(s: Tree, ready: Tree, t: Tree, src: Path, dst: Path)
    requires forall q :: src <= q ==> SameAt(s, ready, q)
    ensures Intact(s, t, src, dst) ==> Intact(ready, t, src, dst)
  {
    if Intact(s, t, src, dst) {
      forall q | src <= q && q in ready && ready[q].File?
        ensures SameAt(ready, t, q) || (Rebase(q, src, dst) in t && t[Rebase(q, src, dst)] == ready[q])
      {
        assert SameAt(s, ready, q);
      }
    }
  }

  lemma ParentsSpareSource(h: set<Tree>, h': set<Tree>, s: Tree, src: Path, dst: Path)
    requires Apart(src, dst) && dst != [] && forall t :: t in h' && t !in h ==> WithParents(s, t, Init(dst))
    ensures AllIntact(h, h', s, src, dst)
  {
    forall t | t in h' && t !in h ensures Intact(s, t, src, dst) { SourceUnchanged(s, t, src, dst); }
  }
}
