/**
 The walk of grep_files: matching lines of the files that are not hidden, up to a number of matches and
 a total size.
 */
module GrepWalk {
  import opened Wrappers
  import opened TreeWalk
  import PathFilters

  const MATCH_CAP := 50
  const SIZE_CAP := 100 * 1024

  datatype Hit = Hit(file: string, line: nat, text: string)

  /** What a search looks for. `lines` is what can be read of the file at a path: nothing for one that is
      too large or no longer a regular file; `relative` is a path as the answer shows it. */
  datatype Query = Query(
    filter: Filter, fileMatches: string -> bool, lineMatches: string -> bool,
    lines: string -> Option<seq<string>>, relative: string -> string)

  /** The matching lines among `lines`, numbered from 1. */
  function HitsIn(q: Query, path: string, lines: seq<string>): seq<Hit> {
    if lines == [] then []
    else
      HitsIn(q, path, Init(lines))
      + if q.lineMatches(Last(lines)) then [Hit(q.relative(path), |lines|, Last(lines))] else []
  }

  /** A matching line, with its number counted from 1. */
  ghost predicate IsHit(q: Query, path: string, lines: seq<string>, h: Hit) {
    1 <= h.line <= |lines| && q.lineMatches(lines[h.line - 1]) && h.text == lines[h.line - 1] && h.file == q.relative(path)
  }

  /** The hits in a file are its matching lines in order, each with its number counted from 1, its text, and
      the path as the answer shows it. */
  lemma {:induction false} HitsAreLines(q: Query, path: string, lines: seq<string>)
    ensures forall h :: h in HitsIn(q, path, lines) <==> IsHit(q, path, lines, h)
    ensures forall a, b :: 0 <= a < b < |HitsIn(q, path, lines)| ==> HitsIn(q, path, lines)[a].line < HitsIn(q, path, lines)[b].line
    decreases |lines|
  {
    if lines != [] {
      var n, before := |lines| - 1, HitsIn(q, path, Init(lines));
      HitsAreLines(q, path, Init(lines));
      var last := if q.lineMatches(lines[n]) then [Hit(q.relative(path), n + 1, lines[n])] else [];
      assert HitsIn(q, path, lines) == before + last;
      forall h ensures h in before + last <==> IsHit(q, path, lines, h) {
        assert h in before <==> IsHit(q, path, Init(lines), h);
        assert h in before + last <==> h in before || h in last;
      }
      forall a | 0 <= a < |before| ensures before[a].line <= n { assert before[a] in before; }
    }
  }

  function HitsAt(q: Query, path: string): seq<Hit> {
    if q.lines(path).None? then [] else HitsIn(q, path, q.lines(path).value)
  }

  // ---------------------------------------------------------------------------
  // The pruned walk, and the plain walk of the whole tree
  // ---------------------------------------------------------------------------

  ghost function Searched(q: Query, entries: seq<Entry>, dir: string): seq<Hit>
    decreases entries
  {
    if entries == [] then [] else SearchedAt(q, entries[0], dir) + Searched(q, entries[1..], dir)
  }

  ghost function SearchedAt(q: Query, e: Entry, dir: string): seq<Hit>
    decreases e
  {
    var path := Join(dir, e.name);
    if EntryHidden(q.filter, path, e) then []
    else if e.Directory? then Searched(q, e.children, path)
    else if e.File? && q.fileMatches(e.name) then HitsAt(q, path) else []
  }

  /** The hits in every file met that is not hidden. */
  ghost function AllHits(q: Query, all: seq<Met>): seq<Hit> {
    if all == [] then []
    else
      (if all[0].entry.File? && q.fileMatches(all[0].entry.name) && !EntryHidden(q.filter, all[0].path, all[0].entry)
       then HitsAt(q, all[0].path) else [])
      + AllHits(q, all[1..])
  }

  /** A hit is a matching line of a visible file whose name matches. */
  lemma {:induction false} HitsExactly(q: Query, all: seq<Met>, h: Hit)
    ensures h in AllHits(q, all) <==>
              exists m :: m in all && m.entry.File? && q.fileMatches(m.entry.name) && Visible(q.filter, m)
                          && q.lines(m.path).Some? && IsHit(q, m.path, q.lines(m.path).value, h)
  {
    if all != [] {
      HitsExactly(q, all[1..], h);
      assert all == [all[0]] + all[1..];
      if q.lines(all[0].path).Some? { HitsAreLines(q, all[0].path, q.lines(all[0].path).value); }
    }
  }

  lemma {:induction false} AllHitsConcat(q: Query, a: seq<Met>, b: seq<Met>)
    ensures AllHits(q, a + b) == AllHits(q, a) + AllHits(q, b)
    decreases |a|
  {
    if a == [] {
      assert a + b == b;
    } else {
      assert (a + b)[1..] == a[1..] + b;
      AllHitsConcat(q, a[1..], b);
    }
  }

  /** An entry's hits are its own, then those below it. */
  lemma AtEntry(q: Query, e: Entry, dir: string, above: seq<string>)
    ensures AllHits(q, EverythingAt(e, dir, above))
         == (if e.File? && q.fileMatches(e.name) && !EntryHidden(q.filter, Join(dir, e.name), e) then HitsAt(q, Join(dir, e.name)) else [])
            + (if e.Directory? then AllHits(q, Everything(e.children, Join(dir, e.name), above + [e.name])) else [])
  {
    var one := [Met(Join(dir, e.name), e, above + [e.name])];
    assert one[1..] == [];
    AllHitsConcat(q, one, if e.Directory? then Everything(e.children, Join(dir, e.name), above + [e.name]) else []);
  }

  lemma {:induction false} BlockedHasNoHits(q: Query, entries: seq<Entry>, dir: string, above: seq<string>)
    requires ValidTree(entries) && q.filter.Some? && dir != "" && dir[|dir| - 1] != '/'
    requires PathFilters.Blocked(q.filter.value, dir)
    ensures AllHits(q, Everything(entries, dir, above)) == []
    decreases entries
  {
    if entries != [] {
      var e := entries[0];
      var path, names := Join(dir, e.name), above + [e.name];
      PathFilters.BlockedIsInherited(q.filter.value, dir, e.name);
      assert path[|path| - 1] == e.name[|e.name| - 1];
      if e.Directory? { BlockedHasNoHits(q, e.children, path, names); }
      AtEntry(q, e, dir, above);
      assert forall x :: x in entries[1..] ==> x in entries;
      BlockedHasNoHits(q, entries[1..], dir, above);
      AllHitsConcat(q, EverythingAt(e, dir, above), Everything(entries[1..], dir, above));
    }
  }

  /** The pruned search finds what a search of everything finds in files that are not hidden. */
  lemma {:induction false} PrunedGrepIsFilteredGrep(q: Query, entries: seq<Entry>, dir: string, above: seq<string>)
    requires ValidTree(entries)
    ensures Searched(q, entries, dir) == AllHits(q, Everything(entries, dir, above))
    decreases entries
  {
    if entries != [] {
      PrunedGrepAtEntry(q, entries[0], dir, above);
      assert forall x :: x in entries[1..] ==> x in entries;
      PrunedGrepIsFilteredGrep(q, entries[1..], dir, above);
      AllHitsConcat(q, EverythingAt(entries[0], dir, above), Everything(entries[1..], dir, above));
    }
  }

  lemma {:induction false} PrunedGrepAtEntry(q: Query, e: Entry, dir: string, above: seq<string>)
    requires ValidName(e.name) && (e.Directory? ==> ValidTree(e.children))
    ensures SearchedAt(q, e, dir) == AllHits(q, EverythingAt(e, dir, above))
    decreases e
  {
    var path, names := Join(dir, e.name), above + [e.name];
    AtEntry(q, e, dir, above);
    if e.Directory? {
      assert path[|path| - 1] == e.name[|e.name| - 1];
      if EntryHidden(q.filter, path, e) { BlockedHasNoHits(q, e.children, path, names); }
      else { PrunedGrepIsFilteredGrep(q, e.children, path, names); }
      assert [] + AllHits(q, Everything(e.children, path, names)) == AllHits(q, Everything(e.children, path, names));
    } else {
      assert SearchedAt(q, e, dir) + [] == SearchedAt(q, e, dir);
    }
  }

  // ---------------------------------------------------------------------------
  // The caps
  // ---------------------------------------------------------------------------

  function Size(hits: seq<Hit>): nat {
    if hits == [] then 0 else Size(Init(hits)) + |Last(hits).text| + |Last(hits).file| + 20
  }

  lemma SizeAppend(hits: seq<Hit>, hit: Hit)
    ensures Size(hits + [hit]) == Size(hits) + |hit.text| + |hit.file| + 20
  {
    assert Init(hits + [hit]) == hits && Last(hits + [hit]) == hit;
  }

  predicate Full(hits: seq<Hit>) { |hits| >= MATCH_CAP || Size(hits) >= SIZE_CAP }

  /** The shortest beginning that is full, or all of it. */
  function Capped(all: seq<Hit>): seq<Hit> {
    if all == [] then [] else if Full(Capped(Init(all))) then Capped(Init(all)) else all
  }

  lemma {:induction false} CappedFacts(all: seq<Hit>)
    ensures Capped(all) <= all && (!Full(Capped(all)) ==> Capped(all) == all)
    ensures forall n :: 0 <= n < |Capped(all)| ==> !Full(all[..n])
  {
    if all != [] {
      CappedFacts(Init(all));
      var c := Capped(Init(all));
      forall n | 0 <= n < |Capped(all)| ensures !Full(all[..n]) {
        if n < |Init(all)| { assert all[..n] == Init(all)[..n]; } else { assert all[..n] == Init(all) == c; }
      }
    }
  }

  lemma {:induction false} CappedConcat(a: seq<Hit>, b: seq<Hit>)
    requires Full(Capped(a))
    ensures Capped(a + b) == Capped(a)
    decreases |b|
  {
    if b == [] {
      assert a + b == a;
    } else {
      assert Init(a + b) == a + Init(b);
      CappedConcat(a, Init(b));
    }
  }

  // ---------------------------------------------------------------------------
  // grep_files
  // ---------------------------------------------------------------------------

  class Grepper {
    const query: Query
    var found: seq<Hit>
    var totalSize: nat
    var truncated: bool

    constructor (query: Query)
      ensures this.query == query && found == [] && Open()
    {
      this.query, found, totalSize, truncated := query, [], 0, false;
    }

    /** The search goes on: neither cap is reached. */
    ghost predicate Open()
      reads this
    {
      totalSize == Size(found) && !truncated && !Full(found) && Capped(found) == found
    }

    twostate predicate Extended(more: seq<Hit>)
      reads this
    {
      && found == Capped(old(found) + more) && totalSize == Size(found) && truncated == Full(found)
    }

    method SearchInFile(path: string)
      requires Open()
      modifies this
      ensures Extended(HitsAt(query, path))
    {
      ghost var was := found;
      assert was + [] == was;
      if query.lines(path).None? { return; }
      var lines := query.lines(path).value;
      var i := 0;
      assert lines[..0] == [];
      while i < |lines| && !truncated
        invariant 0 <= i <= |lines| && totalSize == Size(found) && truncated == Full(found)
        invariant found == Capped(was + HitsIn(query, path, lines[..i]))
      {
        OneMoreLine(query, was, path, lines, i);
        if query.lineMatches(lines[i]) {
          var hit := Hit(query.relative(path), i + 1, lines[i]);
          SizeAppend(found, hit);
          found := found + [hit];
          totalSize := totalSize + |hit.text| + |hit.file| + 20;
          if |found| >= MATCH_CAP || totalSize >= SIZE_CAP { truncated := true; }
        }
        i := i + 1;
      }
      RestOfFile(was, path, lines, i, truncated);
    }

    /** Lines after the caps are reached make no difference. */
    lemma RestOfFile(was: seq<Hit>, path: string, lines: seq<string>, i: nat, full: bool)
      requires i <= |lines| && (i == |lines| || full)
      requires full == Full(Capped(was + HitsIn(query, path, lines[..i])))
      ensures Capped(was + HitsIn(query, path, lines)) == Capped(was + HitsIn(query, path, lines[..i]))
    {
      if full {
        var before := HitsIn(query, path, lines[..i]);
        var rest := HitsFrom(query, path, lines, i);
        assert was + (before + rest) == (was + before) + rest;
        CappedConcat(was + before, rest);
      } else {
        assert lines[..i] == lines;
      }
    }

    method Walk(entries: seq<Entry>, dir: string)
      requires Open()
      modifies this
      ensures Extended(Searched(query, entries, dir))
      decreases entries, 1
    {
      ghost var total := found + Searched(query, entries, dir);
      var i := 0;
      assert entries[0..] == entries;
      while i < |entries| && !truncated
        invariant 0 <= i <= |entries|
        invariant !truncated ==> Open() && found + Searched(query, entries[i..], dir) == total
        invariant truncated ==> found == Capped(total) && Full(found) && totalSize == Size(found)
        decreases |entries| - i, !truncated
      {
        ghost var before, first := found, SearchedAt(query, entries[i], dir);
        SearchedStep(query, entries, i, dir, before);
        WalkEntry(entries[i], dir);
        CappedFacts(before + first);
        if truncated { CappedConcat(before + first, Searched(query, entries[i + 1..], dir)); }
        i := i + 1;
      }
      assert !truncated ==> i == |entries| && entries[i..] == [] && found + [] == found;
    }

    method WalkEntry(entry: Entry, dir: string)
      requires Open()
      modifies this
      ensures Extended(SearchedAt(query, entry, dir))
      decreases entry, 0
    {
      assert found + [] == found;
      var fullPath := Join(dir, entry.name);
      var hidden := IsEntryHidden(query.filter, fullPath, entry);
      if hidden { return; }
      if entry.Directory? {
        Walk(entry.children, fullPath);
      } else if entry.File? {
        if !query.fileMatches(entry.name) { return; }
        SearchInFile(fullPath);
      }
    }
  }

  lemma SearchedStep(q: Query, entries: seq<Entry>, i: nat, dir: string, before: seq<Hit>)
    requires i < |entries|
    ensures before + Searched(q, entries[i..], dir) == (before + SearchedAt(q, entries[i], dir)) + Searched(q, entries[i + 1..], dir)
  {
    assert entries[i..][1..] == entries[i + 1..] && entries[i..][0] == entries[i];
    var first, rest := SearchedAt(q, entries[i], dir), Searched(q, entries[i + 1..], dir);
    assert before + (first + rest) == (before + first) + rest;
  }

  lemma CappedAppend(before: seq<Hit>, hit: Hit)
    requires !Full(Capped(before))
    ensures Capped(before) == before && Capped(before + [hit]) == before + [hit]
  {
    CappedFacts(before);
    assert Init(before + [hit]) == before;
  }

  lemma HitsOfOneMore(q: Query, path: string, lines: seq<string>, i: nat)
    requires i < |lines|
    ensures HitsIn(q, path, lines[..i + 1])
         == HitsIn(q, path, lines[..i]) + if q.lineMatches(lines[i]) then [Hit(q.relative(path), i + 1, lines[i])] else []
  {
    assert Init(lines[..i + 1]) == lines[..i] && Last(lines[..i + 1]) == lines[i];
  }

  /** One more line adds at most its hit, while the caps are not reached. */
  lemma OneMoreLine(q: Query, was: seq<Hit>, path: string, lines: seq<string>, i: nat)
    requires i < |lines| && !Full(Capped(was + HitsIn(q, path, lines[..i])))
    ensures var c := Capped(was + HitsIn(q, path, lines[..i]));
            Capped(was + HitsIn(q, path, lines[..i + 1]))
              == if q.lineMatches(lines[i]) then c + [Hit(q.relative(path), i + 1, lines[i])] else c
  {
    var found := HitsIn(q, path, lines[..i]);
    var hit := Hit(q.relative(path), i + 1, lines[i]);
    HitsOfOneMore(q, path, lines, i);
    CappedAppend(was + found, hit);
    assert was + (found + [hit]) == was + found + [hit] && was + (found + []) == was + found;
  }

  lemma {:induction false} HitsFrom(q: Query, path: string, lines: seq<string>, i: nat) returns (rest: seq<Hit>)
    requires i <= |lines|
    ensures HitsIn(q, path, lines) == HitsIn(q, path, lines[..i]) + rest
    decreases |lines|
  {
    if i == |lines| {
      rest := [];
      assert lines[..i] == lines;
    } else {
      var before := HitsFrom(q, path, Init(lines), i);
      assert Init(lines)[..i] == lines[..i];
      rest := before + if q.lineMatches(Last(lines)) then [Hit(q.relative(path), |lines|, Last(lines))] else [];
    }
  }

  /** Searches the tree at `base`, or `base` itself when it is a file (`tree` is then None). */
  method GrepFiles(query: Query, tree: Option<seq<Entry>>, base: string) returns (found: seq<Hit>, truncated: bool)
    requires tree.Some? ==> ValidTree(tree.value)
    ensures var all := if tree.Some? then AllHits(query, Everything(tree.value, base, [])) else HitsAt(query, base);
            && found <= all
            && (truncated <==> |found| >= 50 || Size(found) >= 102_400)
            && (forall n :: 0 <= n < |found| ==> n < 50 && Size(all[..n]) < 102_400)
            && (!truncated ==> found == all)
  {
    var g := new Grepper(query);
    if tree.None? {
      g.SearchInFile(base);
      assert [] + HitsAt(query, base) == HitsAt(query, base);
      CappedFacts(HitsAt(query, base));
    } else {
      g.Walk(tree.value, base);
      PrunedGrepIsFilteredGrep(query, tree.value, base, []);
      assert [] + Searched(query, tree.value, base) == Searched(query, tree.value, base);
      CappedFacts(Searched(query, tree.value, base));
    }
    found, truncated := g.found, g.truncated;
  }
}
