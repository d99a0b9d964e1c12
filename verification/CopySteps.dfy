/**
 The recursive copy one call at a time, and exactly when it ends. A call copies one node: a directory is
 made and a call is noted for each entry it is found to have, a file is copied, a symbolic link is left out.
 A copy to a place outside of what is copied runs out of calls, in whatever order entries are listed; one to a
 place inside of it finds what it made itself, and never does.
 */
module CopySteps {
  import opened Wrappers
  import opened TreeCopy

  // ---------------------------------------------------------------------------
  // Calls
  // ---------------------------------------------------------------------------

  /** A call to be made: copy what is at `src` to `dst`. */
  datatype Call = Call(src: Path, dst: Path)

  /** The tree and the calls still to be made, in their order; or one of them failed. */
  datatype Copying = Failed | Running(tree: Tree, todo: seq<Call>)

  /** What `readdir` answers: the names in a directory, in some order. */
  type Listing = (Tree, Path) -> seq<string>

  ghost predicate Lists(list: Listing) { forall t, dir :: ListsIn(list, t, dir) }

  ghost predicate ListsIn(list: Listing, t: Tree, dir: Path) { ListsAt(list(t, dir), t, dir) }

  ghost predicate ListsAt(names: seq<string>, t: Tree, dir: Path) {
    && (forall name :: name in names <==> name in Names(t, dir))
    && forall i, j :: 0 <= i < j < |names| ==> names[i] != names[j]
  }

  /** The calls for the entries called `names`. */
  function Calls(names: seq<string>, src: Path, dst: Path): seq<Call> {
    if names == [] then [] else [Call(src + [names[0]], dst + [names[0]])] + Calls(names[1..], src, dst)
  }

  /** One call, up to the calls it makes in turn. A directory is made before the source is listed, and the
      directory it is made in is there already. */
  function Step(list: Listing, c: Copying): Copying
    requires c.Running? && c.todo != []
  {
    var t, src, dst, rest := c.tree, c.todo[0].src, c.todo[0].dst, c.todo[1..];
    if src !in t then Failed
    else
      match t[src]
      case Symlink => Running(t, rest)
      case Directory =>
        if dst in t && t[dst] != Directory then Failed
        else
          var made := t[dst := Directory];
          Running(made, Calls(list(made, src), src, dst) + rest)
      case File(_) =>
        if dst !in t then Running(t[dst := t[src]], rest)
        else if t[dst].Symlink? then Running(t, rest)
        else Failed
  }

  predicate Ended(c: Copying) { c.Failed? || c.todo == [] }

  function Run(list: Listing, c: Copying, n: nat): Copying
    decreases n
  {
    if n == 0 || Ended(c) then c else Run(list, Step(list, c), n - 1)
  }

  lemma {:induction false} RunAdd(list: Listing, c: Copying, a: nat, b: nat)
    ensures Run(list, c, a + b) == Run(list, Run(list, c, a), b)
    decreases a
  {
    if a > 0 && !Ended(c) { RunAdd(list, Step(list, c), a - 1, b); }
  }

  lemma RunOn(list: Listing, c: Copying, a: nat, mid: Copying, b: nat, last: Copying) returns (n: nat)
    requires Run(list, c, a) == mid && Run(list, mid, b) == last
    ensures Run(list, c, n) == last
  {
    n := a + b;
    RunAdd(list, c, a, b);
  }

  /** Where a copy can begin: the source is there, and the destination is free in a directory. */
  ghost predicate Ready(t: Tree, c: Call) {
    && c.src in t && NothingAt(t, c.dst)
    && c.dst != [] && Init(c.dst) in t && t[Init(c.dst)] == Directory
  }

  // ---------------------------------------------------------------------------
  // A destination outside the source
  // ---------------------------------------------------------------------------

  lemma {:induction false} CallsAt(names: seq<string>, src: Path, dst: Path)
    ensures |Calls(names, src, dst)| == |names|
    ensures forall i :: 0 <= i < |names| ==> Calls(names, src, dst)[i] == Call(src + [names[i]], dst + [names[i]])
  {
    if names != [] { CallsAt(names[1..], src, dst); }
  }

  lemma FirstCall(names: seq<string>, src: Path, dst: Path, rest: seq<Call>)
    requires names != []
    ensures Calls(names, src, dst) + rest
         == [Call(src + [names[0]], dst + [names[0]])] + (Calls(names[1..], src, dst) + rest)
  {
  }

  /** `names` are entries of the directory, each once, and none of those called `done`. */
  ghost predicate EntriesInTurn(s: Tree, src: Path, done: set<string>, names: seq<string>)
    decreases |names|
  {
    names != [] ==>
      names[0] in Names(s, src) && names[0] !in done && EntriesInTurn(s, src, done + {names[0]}, names[1..])
  }

  function DoneAfter(done: set<string>, names: seq<string>): set<string>
    decreases |names|
  {
    if names == [] then done else DoneAfter(done + {names[0]}, names[1..])
  }

  lemma {:induction false} InTurnByIndex(s: Tree, src: Path, done: set<string>, names: seq<string>)
    requires forall i :: 0 <= i < |names| ==> names[i] in Names(s, src) && names[i] !in done
    requires forall i, j :: 0 <= i < j < |names| ==> names[i] != names[j]
    ensures EntriesInTurn(s, src, done, names)
    ensures forall name :: name in DoneAfter(done, names) <==> name in done || name in names
    decreases |names|
  {
    if names != [] {
      var rest := names[1..];
      assert forall i :: 0 <= i < |rest| ==> rest[i] == names[i + 1];
      InTurnByIndex(s, src, done + {names[0]}, rest);
      assert forall name :: name in names <==> name == names[0] || name in rest;
    }
  }

  lemma Listed(list: Listing, t: Tree, dir: Path)
    requires Lists(list)
    ensures EntriesInTurn(t, dir, {}, list(t, dir)) && DoneAfter({}, list(t, dir)) == Names(t, dir)
  {
    assert ListsIn(list, t, dir);
    InTurnByIndex(t, dir, {}, list(t, dir));
  }

  lemma LeafCallCopies(list: Listing, t: Tree, c: Call, rest: seq<Call>) returns (t': Tree)
    requires WellFormed(t) && Ready(t, c) && t[c.src] != Directory
    ensures Run(list, Running(t, [c] + rest), 1) == Running(t', rest)
    ensures WellFormed(t') && CopyOf(t, c.src, c.dst, t')
  {
    var before := Running(t, [c] + rest);
    assert before.todo[1..] == rest;
    if t[c.src].Symlink? {
      t' := t;
      CopyOfSymlink(t, c.src, c.dst);
    } else {
      t' := t[c.dst := t[c.src]];
      CopyOfFile(t, c.src, c.dst);
      AddWellFormed(t, c.dst, t[c.src]);
    }
    assert Run(list, Step(list, before), 0) == Running(t', rest);
  }

  lemma DirectoryCallSteps(list: Listing, t: Tree, c: Call, rest: seq<Call>)
    requires Ready(t, c) && t[c.src] == Directory
    ensures var made := t[c.dst := Directory];
            Step(list, Running(t, [c] + rest)) == Running(made, Calls(list(made, c.src), c.src, c.dst) + rest)
  {
    assert ([c] + rest)[1..] == rest;
  }

  /** The first call is made, with all the calls it leads to, and leaves a copy. */
  lemma {:induction false} FirstCallCopies(list: Listing, t: Tree, c: Call, rest: seq<Call>) returns (n: nat, t': Tree)
    requires Lists(list) && WellFormed(t) && Ready(t, c) && Apart(c.src, c.dst)
    ensures Run(list, Running(t, [c] + rest), n) == Running(t', rest)
    ensures WellFormed(t') && CopyOf(t, c.src, c.dst, t')
    decreases |Below(t, c.src)|, 1, 0
  {
    if t[c.src] != Directory {
      n := 1;
      t' := LeafCallCopies(list, t, c, rest);
    } else {
      var made := t[c.dst := Directory];
      DirectoryCallSteps(list, t, c, rest);
      DirectoryMade(t, c.src, c.dst);
      NothingCopiedYet(made, c.src, c.dst);
      Listed(list, made, c.src);
      n, t' := EntriesCopy(list, made, c.src, c.dst, made, {}, list(made, c.src), rest);
      MadeAndCopied(t, c.src, c.dst, t');
      n := n + 1;
    }
  }

  /** The calls for the entries called `names` are made one after the other. */
  lemma {:induction false} EntriesCopy(list: Listing, s: Tree, src: Path, dst: Path, mid: Tree, done: set<string>,
                                       names: seq<string>, rest: seq<Call>) returns (n: nat, t': Tree)
    requires Lists(list) && WellFormed(s) && WellFormed(mid) && Apart(src, dst) && src in s && s[src] == Directory
    requires PartlyCopied(s, src, dst, mid, done) && EntriesInTurn(s, src, done, names)
    ensures Run(list, Running(mid, Calls(names, src, dst) + rest), n) == Running(t', rest)
    ensures WellFormed(t') && PartlyCopied(s, src, dst, t', DoneAfter(done, names))
    decreases |Below(s, src)|, 0, |names|
  {
    if names == [] {
      n, t' := 0, mid;
      assert Calls(names, src, dst) + rest == rest;
    } else {
      var name, others := names[0], Calls(names[1..], src, dst) + rest;
      var n1, t1 := EntryCopies(list, s, src, dst, mid, done, name, others);
      var n2, t2 := EntriesCopy(list, s, src, dst, t1, done + {name}, names[1..], rest);
      t' := t2;
      FirstCall(names, src, dst, rest);
      n := RunOn(list, Running(mid, Calls(names, src, dst) + rest), n1, Running(t1, others), n2, Running(t2, rest));
    }
  }

  lemma {:induction false} EntryCopies(list: Listing, s: Tree, src: Path, dst: Path, mid: Tree, done: set<string>,
                                       name: string, others: seq<Call>) returns (n: nat, t': Tree)
    requires Lists(list) && WellFormed(s) && WellFormed(mid) && Apart(src, dst) && src in s && s[src] == Directory
    requires PartlyCopied(s, src, dst, mid, done) && name in Names(s, src) && name !in done
    ensures Run(list, Running(mid, [Call(src + [name], dst + [name])] + others), n) == Running(t', others)
    ensures WellFormed(t') && PartlyCopied(s, src, dst, t', done + {name})
    decreases |Below(s, src)|, 0, 0
  {
    EntryReady(s, src, dst, mid, done, name);
    EntryCost(s, src, dst, mid, done, name);
    FreeBelow(mid, dst + [name]);
    n, t' := FirstCallCopies(list, mid, Call(src + [name], dst + [name]), others);
    OneMoreCopied(s, src, dst, mid, t', done, name);
  }

  lemma FreeBelow(t: Tree, dst: Path)
    requires Vacant(t, dst) && dst !in t
    ensures NothingAt(t, dst)
  {
    VacantOrLink(t, dst);
  }

  // ---------------------------------------------------------------------------
  // A destination inside the source
  // ---------------------------------------------------------------------------

  ghost predicate AllReady(t: Tree, todo: seq<Call>) {
    && (forall i :: 0 <= i < |todo| ==> Ready(t, todo[i]))
    && forall i, j :: 0 <= i < j < |todo| ==> Apart(todo[i].dst, todo[j].dst)
  }

  /** A directory waits to be copied into itself. */
  ghost predicate Nests(t: Tree, c: Call) { c.src in t && t[c.src] == Directory && c.src <= c.dst }

  datatype Aspect = Formed | Able | Nested

  /** Nothing that waits can fail, and some of it is a copy into itself. */
  ghost predicate Endless(c: Copying) { forall a: Aspect :: Shows(c, a) }

  ghost predicate Shows(c: Copying, a: Aspect) {
    c.Running? &&
    match a
    case Formed => WellFormed(c.tree) && c.todo != []
    case Able => AllReady(c.tree, c.todo)
    case Nested => exists i :: 0 <= i < |c.todo| && Nests(c.tree, c.todo[i])
  }

  lemma StillReady(t: Tree, dst: Path, n: Node, c: Call)
    requires Ready(t, c) && Apart(dst, c.dst) && dst !in t
    ensures Ready(t[dst := n], c) && (Nests(t, c) ==> Nests(t[dst := n], c))
  {
    assert Init(c.dst) + [Last(c.dst)] == c.dst;
  }

  lemma RestReady(t: Tree, todo: seq<Call>, n: Node)
    requires WellFormed(t) && AllReady(t, todo) && todo != []
    ensures var t' := t[todo[0].dst := n];
            && WellFormed(t') && AllReady(t', todo[1..])
            && forall i :: 0 <= i < |todo| - 1 && Nests(t, todo[i + 1]) ==> Nests(t', todo[1..][i])
  {
    assert Ready(t, todo[0]);
    AddWellFormed(t, todo[0].dst, n);
    forall i | 0 < i < |todo|
      ensures Ready(t[todo[0].dst := n], todo[i]) && (Nests(t, todo[i]) ==> Nests(t[todo[0].dst := n], todo[i]))
    {
      StillReady(t, todo[0].dst, n, todo[i]);
    }
  }

  lemma EntryHasPlace(t: Tree, src: Path, dst: Path, name: string)
    requires Ready(t, Call(src, dst)) && name in Names(t[dst := Directory], src)
    ensures Ready(t[dst := Directory], Call(src + [name], dst + [name]))
  {
    var made := t[dst := Directory];
    InNames(made, src, name);
    forall p | dst + [name] <= p ensures p !in made { PrefixThrough(dst, dst + [name], p); }
  }

  lemma PlacesApart(dst: Path, a: string, b: string)
    requires a != b
    ensures Apart(dst + [a], dst + [b])
  {
    assert (dst + [a])[|dst|] == a && (dst + [b])[|dst|] == b;
  }

  /** The entries of a directory, each with a free place of its own in the directory just made. */
  lemma EntriesReady(t: Tree, src: Path, dst: Path, names: seq<string>)
    requires Ready(t, Call(src, dst)) && ListsAt(names, t[dst := Directory], src)
    ensures AllReady(t[dst := Directory], Calls(names, src, dst))
  {
    var made, calls := t[dst := Directory], Calls(names, src, dst);
    CallsAt(names, src, dst);
    forall i | 0 <= i < |calls| ensures Ready(made, calls[i]) {
      assert names[i] in names;
      EntryHasPlace(t, src, dst, names[i]);
    }
    forall i, j | 0 <= i < j < |calls| ensures Apart(calls[i].dst, calls[j].dst) { PlacesApart(dst, names[i], names[j]); }
  }

  lemma ApartBelow(dst: Path, name: string, other: Path)
    requires Apart(dst, other)
    ensures Apart(dst + [name], other)
  {
    assert other <= dst + [name] && |other| <= |dst| ==> other <= dst;
    assert other <= dst + [name] && |other| > |dst| ==> dst <= other;
  }

  lemma JoinReady(t: Tree, names: seq<string>, src: Path, dst: Path, rest: seq<Call>)
    requires AllReady(t, Calls(names, src, dst)) && AllReady(t, rest)
    requires forall j :: 0 <= j < |rest| ==> Apart(dst, rest[j].dst)
    ensures AllReady(t, Calls(names, src, dst) + rest)
  {
    CallsAt(names, src, dst);
    forall i, j | 0 <= i < |names| && 0 <= j < |rest| ensures Apart(Calls(names, src, dst)[i].dst, rest[j].dst) {
      ApartBelow(dst, names[i], rest[j].dst);
    }
  }

  /** The directory just made inside the source is listed, or one on the way to it, and waits in turn to be
      copied into itself. */
  lemma NestsAgain(t: Tree, src: Path, dst: Path, names: seq<string>)
    requires WellFormed(t) && Ready(t, Call(src, dst)) && Nests(t, Call(src, dst)) && ListsAt(names, t[dst := Directory], src)
    ensures |Calls(names, src, dst)| == |names|
    ensures exists i :: 0 <= i < |names| && Nests(t[dst := Directory], Calls(names, src, dst)[i])
  {
    CallsAt(names, src, dst);
    var made := t[dst := Directory];
    AddWellFormed(t, dst, Directory);
    assert src != dst;
    var name := dst[|src|];
    UnderName(src, name, dst);
    AncestorsExist(made, src + [name], dst);
    InNames(made, src, name);
    assert name in names;
    var i :| 0 <= i < |names| && names[i] == name;
    PrefixThrough(src + [name], dst, dst + [name]);
    assert Nests(made, Calls(names, src, dst)[i]);
  }

  lemma LeafStepEndless(list: Listing, c: Copying, k: nat)
    requires c.Running? && WellFormed(c.tree) && AllReady(c.tree, c.todo) && k < |c.todo| && Nests(c.tree, c.todo[k])
    requires c.tree[c.todo[0].src] != Directory
    ensures forall a: Aspect :: Shows(Step(list, c), a)
  {
    var t, todo := c.tree, c.todo;
    assert k > 0 && Ready(t, todo[0]) && todo[0].dst !in t;
    assert todo[1..][k - 1] == todo[k];
    if t[todo[0].src].File? {
      RestReady(t, todo, t[todo[0].src]);
      assert Nests(t[todo[0].dst := t[todo[0].src]], todo[1..][k - 1]);
    }
  }

  /** After a directory's call, everything that waits can begin. */
  lemma DirectoryStepReady(t: Tree, todo: seq<Call>, names: seq<string>)
    requires WellFormed(t) && AllReady(t, todo) && todo != []
    requires ListsAt(names, t[todo[0].dst := Directory], todo[0].src)
    ensures var made := t[todo[0].dst := Directory];
            WellFormed(made) && AllReady(made, Calls(names, todo[0].src, todo[0].dst) + todo[1..])
  {
    var src, dst := todo[0].src, todo[0].dst;
    assert Ready(t, todo[0]) && todo[0] == Call(src, dst);
    RestReady(t, todo, Directory);
    EntriesReady(t, src, dst, names);
    JoinReady(t[dst := Directory], names, src, dst, todo[1..]);
  }

  /** And something waits to be copied into itself. */
  lemma DirectoryStepNests(t: Tree, todo: seq<Call>, names: seq<string>, k: nat) returns (i: nat)
    requires WellFormed(t) && AllReady(t, todo) && k < |todo| && Nests(t, todo[k])
    requires ListsAt(names, t[todo[0].dst := Directory], todo[0].src)
    ensures var all := Calls(names, todo[0].src, todo[0].dst) + todo[1..];
            i < |all| && Nests(t[todo[0].dst := Directory], all[i])
  {
    var src, dst := todo[0].src, todo[0].dst;
    var made, calls := t[dst := Directory], Calls(names, src, dst);
    assert Ready(t, todo[0]) && todo[0] == Call(src, dst);
    if k == 0 {
      NestsAgain(t, src, dst, names);
      var j: nat :| j < |names| && Nests(made, calls[j]);
      i := j;
      assert (calls + todo[1..])[i] == calls[j];
    } else {
      StillReady(t, dst, Directory, todo[k]);
      i := |calls| + k - 1;
      assert (calls + todo[1..])[i] == todo[k];
    }
  }

  lemma StepEndless(list: Listing, c: Copying)
    requires Lists(list) && Endless(c)
    ensures !Ended(c) && Endless(Step(list, c))
  {
    assert Shows(c, Formed) && Shows(c, Able) && Shows(c, Nested);
    var t, todo := c.tree, c.todo;
    var k: nat :| k < |todo| && Nests(t, todo[k]);
    assert Ready(t, todo[0]);
    if t[todo[0].src] != Directory {
      LeafStepEndless(list, c, k);
    } else {
      var names := list(t[todo[0].dst := Directory], todo[0].src);
      assert ListsIn(list, t[todo[0].dst := Directory], todo[0].src);
      DirectoryStepReady(t, todo, names);
      var i := DirectoryStepNests(t, todo, names, k);
      assert Nests(Step(list, c).tree, Step(list, c).todo[i]);
      forall a: Aspect ensures Shows(Step(list, c), a) {}
    }
  }

  lemma {:induction false} StaysEndless(list: Listing, c: Copying, n: nat)
    requires Lists(list) && Endless(c)
    ensures !Ended(Run(list, c, n))
    decreases n
  {
    StepEndless(list, c);
    if n > 0 { StaysEndless(list, Step(list, c), n - 1); }
  }

  // ---------------------------------------------------------------------------
  // Main result
  // ---------------------------------------------------------------------------

  /** A copy to a free place ends exactly when it is not the copy of a directory into itself, however the
      entries are listed; when it ends, the place has a copy, symlinks left out. A copy into itself has
      calls to make after any number of them. */
  lemma EndsExactlyWhenOutside(list: Listing, s: Tree, src: Path, dst: Path)
    requires Lists(list) && WellFormed(s) && Ready(s, Call(src, dst))
    ensures var start := Running(s, [Call(src, dst)]);
            && ((exists n: nat :: Ended(Run(list, start, n))) <==> !IntoItself(s, src, dst))
            && (!IntoItself(s, src, dst) ==>
                  exists n: nat :: var last := Run(list, start, n);
                    last.Running? && last.todo == [] && CopyOf(s, src, dst, last.tree))
  {
    var start := Running(s, [Call(src, dst)]);
    if src <= dst {
      assert src <= Init(dst);
      AncestorsExist(s, src, Init(dst));
      assert Nests(s, start.todo[0]) && Ready(s, start.todo[0]);
      forall a: Aspect ensures Shows(start, a) {}
      forall n: nat ensures !Ended(Run(list, start, n)) { StaysEndless(list, start, n); }
    } else {
      assert !(dst <= src);
      var n, t := FirstCallCopies(list, s, Call(src, dst), []);
      assert [Call(src, dst)] + [] == [Call(src, dst)];
      assert Ended(Run(list, start, n));
    }
  }
}
