/**
 The `edit_file` tool: replacements applied one after the other, each to a text that must occur once.
 */
module SequentialEdit {
  import opened Wrappers

  // ---------------------------------------------------------------------------
  // Occurrences
  // ---------------------------------------------------------------------------

  predicate OccursAt(h: string, n: string, i: int) {
    0 <= i && i + |n| <= |h| && forall k :: 0 <= k < |n| ==> h[i + k] == n[k]
  }

  /** The first occurrence at or after `from`. */
  function IndexOf(h: string, n: string, from: nat): (i: Option<nat>)
    ensures i.Some? ==> from <= i.value && OccursAt(h, n, i.value)
    ensures i.Some? ==> forall j :: from <= j < i.value ==> !OccursAt(h, n, j)
    ensures i.None? ==> forall j :: from <= j ==> !OccursAt(h, n, j)
    decreases |h| + 1 - from
  {
    if from > |h| then None else if OccursAt(h, n, from) then Some(from) else IndexOf(h, n, from + 1)
  }

  /** Where the count finds its matches: each search starts where the last match ended. */
  function Matches(h: string, n: string, pos: nat): seq<nat>
    requires n != ""
    decreases |h| + 1 - pos
  {
    if pos > |h| then []
    else
      var i := IndexOf(h, n, pos);
      if i.None? then [] else [i.value] + Matches(h, n, i.value + |n|)
  }

  function CountOf(h: string, n: string): nat { if n == "" then 0 else |Matches(h, n, 0)| }

  method CountOccurrences(h: string, n: string) returns (count: nat)
    ensures count == CountOf(h, n)
  {
    if n == "" { return 0; }
    count := 0;
    var pos := 0;
    var found := IndexOf(h, n, pos);
    while found.Some?
      invariant pos <= |h| && found == IndexOf(h, n, pos)
      invariant count + |Matches(h, n, pos)| == CountOf(h, n)
      decreases |h| - pos
    {
      count := count + 1;
      pos := found.value + |n|;
      found := IndexOf(h, n, pos);
    }
  }

  /** A list of occurrences none of which overlaps the next. */
  predicate DisjointFrom(h: string, n: string, pos: nat, ps: seq<nat>) {
    && (forall k :: 0 <= k < |ps| ==> OccursAt(h, n, ps[k]))
    && (ps != [] ==> pos <= ps[0])
    && (forall k :: 0 <= k && k + 1 < |ps| ==> ps[k] + |n| <= ps[k + 1])
  }

  lemma {:induction false} MatchesAreDisjoint(h: string, n: string, pos: nat)
    requires n != ""
    ensures DisjointFrom(h, n, pos, Matches(h, n, pos))
    decreases |h| + 1 - pos
  {
    if pos <= |h| && IndexOf(h, n, pos).Some? {
      var i := IndexOf(h, n, pos).value;
      MatchesAreDisjoint(h, n, i + |n|);
    }
  }

  lemma DisjointRest(h: string, n: string, pos: nat, ps: seq<nat>, next: nat)
    requires ps != [] && DisjointFrom(h, n, pos, ps) && next <= ps[0] + |n|
    ensures DisjointFrom(h, n, next, ps[1..])
  {
    if |ps| > 1 { assert ps[0] + |n| <= ps[0 + 1]; }
  }

  lemma FirstMatch(h: string, n: string, pos: nat, p: nat)
    requires n != "" && OccursAt(h, n, p) && pos <= p
    ensures pos <= |h| && IndexOf(h, n, pos).Some? && IndexOf(h, n, pos).value <= p
    ensures |Matches(h, n, pos)| == 1 + |Matches(h, n, IndexOf(h, n, pos).value + |n|)|
  {
    var found := IndexOf(h, n, pos);
    assert found.Some? && found.value <= p;
    assert Matches(h, n, pos) == [found.value] + Matches(h, n, found.value + |n|);
  }

  /** The count is the most occurrences that can be replaced without one touching another. */
  lemma {:induction false} CountIsMaximal(h: string, n: string, pos: nat, ps: seq<nat>)
    requires n != "" && DisjointFrom(h, n, pos, ps)
    ensures |ps| <= |Matches(h, n, pos)|
    decreases |h| + 1 - pos
  {
    if ps != [] {
      FirstMatch(h, n, pos, ps[0]);
      var i := IndexOf(h, n, pos).value;
      DisjointRest(h, n, pos, ps, i + |n|);
      CountIsMaximal(h, n, i + |n|, ps[1..]);
    }
  }

  /** At most `count` occurrences can be chosen so that none touches another. */
  ghost predicate MostDisjoint(h: string, n: string, count: nat) {
    && (exists ps :: |ps| == count && DisjointFrom(h, n, 0, ps))
    && forall ps :: DisjointFrom(h, n, 0, ps) ==> |ps| <= count
  }

  lemma CountIsMost(h: string, n: string)
    requires n != ""
    ensures MostDisjoint(h, n, CountOf(h, n))
  {
    MatchesAreDisjoint(h, n, 0);
    forall ps | DisjointFrom(h, n, 0, ps) ensures |ps| <= CountOf(h, n) { CountIsMaximal(h, n, 0, ps); }
  }

  /** The count is zero exactly when the text does not occur; the empty text is never found. */
  lemma CountZero(h: string, n: string)
    ensures CountOf(h, n) == 0 <==> n == "" || forall i :: !OccursAt(h, n, i)
  {
  }

  /** It is one exactly when the text occurs and every occurrence overlaps the first. */
  lemma CountOne(h: string, n: string)
    ensures CountOf(h, n) == 1 <==>
              n != "" && IndexOf(h, n, 0).Some?
              && forall i :: OccursAt(h, n, i) ==> i < IndexOf(h, n, 0).value + |n|
  {
    if n != "" && IndexOf(h, n, 0).Some? {
      var first := IndexOf(h, n, 0).value;
      assert Matches(h, n, 0) == [first] + Matches(h, n, first + |n|);
      if first + |n| <= |h| && IndexOf(h, n, first + |n|).Some? {
        assert OccursAt(h, n, IndexOf(h, n, first + |n|).value);
      }
    }
  }

  ghost predicate OccursOnce(h: string, n: string) {
    && IndexOf(h, n, 0).Some?
    && forall i :: OccursAt(h, n, i) ==> i == IndexOf(h, n, 0).value
  }

  /** The text begins the way it ends: two occurrences of it can overlap by `|n| - k` characters. */
  predicate OverlapsItself(n: string, k: int) { 0 < k < |n| && n[k..] == n[..|n| - k] }

  predicate HasBorder(n: string) { exists k :: 0 < k < |n| && OverlapsItself(n, k) }

  /** Two occurrences closer than the text is long make a border. */
  lemma CloseOccurrences(h: string, n: string, i: int, j: int)
    requires OccursAt(h, n, i) && OccursAt(h, n, j) && i < j < i + |n|
    ensures OverlapsItself(n, j - i)
  {
    var k := j - i;
    forall m | 0 <= m < |n| - k ensures n[k..][m] == n[..|n| - k][m] {
      assert h[i + (k + m)] == n[k + m] && h[j + m] == n[m];
    }
    assert n[k..] == n[..|n| - k];
  }

  /** Two copies laid over each other at a border, where the count is one all the same. */
  lemma OverlappedCopies(n: string, k: int)
    requires OverlapsItself(n, k)
    ensures CountOf(n[..k] + n, n) == 1 && !OccursOnce(n[..k] + n, n)
  {
    var h := n[..k] + n;
    forall m | 0 <= m < |n| ensures h[0 + m] == n[m] {
      if m >= k { assert n[k..][m - k] == n[..|n| - k][m - k]; }
    }
    assert OccursAt(h, n, 0);
    assert forall m :: 0 <= m < |n| ==> h[k + m] == n[m];
    assert OccursAt(h, n, k);
    assert IndexOf(h, n, 0) == Some(0);
    CountOne(h, n);
  }

  /** So a count of one means that the text occurs once, in every content there is, exactly when the text
      does not begin the way it ends. */
  lemma OneMeansOnceExactlyWhenBorderless(n: string)
    requires n != ""
    ensures (forall h :: CountOf(h, n) == 1 ==> OccursOnce(h, n)) <==> !HasBorder(n)
  {
    if HasBorder(n) {
      var k :| OverlapsItself(n, k);
      OverlappedCopies(n, k);
    } else {
      forall h | CountOf(h, n) == 1 ensures OccursOnce(h, n) {
        CountOne(h, n);
        var first := IndexOf(h, n, 0).value;
        forall i | OccursAt(h, n, i) ensures i == first {
          if first < i { CloseOccurrences(h, n, first, i); }
        }
      }
    }
  }

  // ---------------------------------------------------------------------------
  // Edits
  // ---------------------------------------------------------------------------

  datatype Edit = Edit(oldText: string, newText: string)

  datatype EditError =
    | NoMatch(index: nat)
    | Ambiguous(index: nat, count: nat)
    | TooLarge
    | WriteFailed

  /** Replaces the first occurrence. */
  function ReplaceFirst(content: string, e: Edit): string {
    var i := IndexOf(content, e.oldText, 0);
    if i.None? then content else content[..i.value] + e.newText + content[i.value + |e.oldText|..]
  }

  /** The contents after the first `k` edits, as a fold. */
  function After(content: string, edits: seq<Edit>): string {
    if edits == [] then content else ReplaceFirst(After(content, Init(edits)), Last(edits))
  }

  predicate Applies(content: string, e: Edit) { CountOf(content, e.oldText) == 1 }

  function FailureOf(content: string, e: Edit, index: nat): EditError {
    if CountOf(content, e.oldText) == 0 then NoMatch(index) else Ambiguous(index, CountOf(content, e.oldText))
  }

  /** Whether edit `k` applies to what its predecessors left. */
  predicate AppliesAt(content: string, edits: seq<Edit>, k: nat) {
    k < |edits| && Applies(After(content, edits[..k]), edits[k])
  }

  /** Whether `i` is the first edit that fails on what its predecessors left. */
  ghost predicate FirstFailure(content: string, edits: seq<Edit>, i: nat) {
    i < |edits| && !AppliesAt(content, edits, i) && forall k :: 0 <= k < i ==> AppliesAt(content, edits, k)
  }

  ghost predicate AllApply(content: string, edits: seq<Edit>) {
    forall k :: 0 <= k < |edits| ==> AppliesAt(content, edits, k)
  }

  lemma AfterOneMore(content: string, edits: seq<Edit>, i: nat)
    requires i < |edits|
    ensures After(content, edits[..i + 1]) == ReplaceFirst(After(content, edits[..i]), edits[i])
  {
    assert Init(edits[..i + 1]) == edits[..i] && Last(edits[..i + 1]) == edits[i];
  }

  method ApplyEdits(original: string, edits: seq<Edit>) returns (r: Result<string, EditError>)
    ensures r.Ok? ==> AllApply(original, edits) && r.value == After(original, edits)
    ensures r.Err? ==> exists i: nat :: FirstFailure(original, edits, i) && r.error == FailureOf(After(original, edits[..i]), edits[i], i)
  {
    var content := original;
    assert edits[..0] == [];
    var i := 0;
    while i < |edits|
      invariant 0 <= i <= |edits| && content == After(original, edits[..i])
      invariant forall k :: 0 <= k < i ==> AppliesAt(original, edits, k)
    {
      var edit := edits[i];
      var count := CountOccurrences(content, edit.oldText);
      if count == 0 {
        assert FirstFailure(original, edits, i);
        return Err(NoMatch(i));
      }
      if count > 1 {
        assert FirstFailure(original, edits, i);
        return Err(Ambiguous(i, count));
      }
      AfterOneMore(original, edits, i);
      content := ReplaceFirst(content, edit);
      i := i + 1;
    }
    assert edits[..i] == edits;
    return Ok(content);
  }

  /** No list of edits both fails and succeeds, and only one edit is the first to fail. */
  lemma FailureIsDetermined(content: string, edits: seq<Edit>, i: nat, j: nat)
    requires FirstFailure(content, edits, i)
    ensures !AllApply(content, edits) && (FirstFailure(content, edits, j) ==> j == i)
  {
    assert !AppliesAt(content, edits, i);
  }

  /** An edit that applies keeps everything before and after the one text it replaces. */
  lemma AppliedEditIsLocal(content: string, e: Edit)
    requires Applies(content, e)
    ensures exists i :: OccursAt(content, e.oldText, i)
              && content == content[..i] + e.oldText + content[i + |e.oldText|..]
              && ReplaceFirst(content, e) == content[..i] + e.newText + content[i + |e.oldText|..]
  {
    CountOne(content, e.oldText);
    var i := IndexOf(content, e.oldText, 0).value;
    assert content[i..i + |e.oldText|] == e.oldText;
    assert content == content[..i] + content[i..i + |e.oldText|] + content[i + |e.oldText|..];
  }

  // ---------------------------------------------------------------------------
  // The file
  // ---------------------------------------------------------------------------

  predicate IsTooLarge(content: string, maxSizeKb: Option<nat>, byteLength: string -> nat) {
    maxSizeKb.Some? && byteLength(content) > maxSizeKb.value * 1024
  }

  class EditedFile {
    var content: string

    constructor (content: string)
      ensures this.content == content
    {
      this.content := content;
    }

    /** Edits the file. `byteLength` and `diff` are those of the platform; `writes` says whether the write
        after the truncation succeeds. */
    method EditFile(edits: seq<Edit>, dryRun: bool, maxSizeKb: Option<nat>, byteLength: string -> nat,
                    diff: (string, string) -> string, writes: bool)
      returns (r: Result<string, EditError>)
      modifies this
      // The file is touched only when every edit applied, it is not a dry run and the result is not too large.
      ensures r.Ok? ==> AllApply(old(content), edits) && r.value == diff(old(content), After(old(content), edits))
      ensures r.Ok? <==> AllApply(old(content), edits)
                         && (dryRun || (writes && !IsTooLarge(After(old(content), edits), maxSizeKb, byteLength)))
      ensures r.Ok? ==> content == if dryRun then old(content) else After(old(content), edits)
      ensures r.Err? && r.error != WriteFailed ==> content == old(content)
      ensures r == Err(WriteFailed) ==> content == ""
      ensures r == Err(WriteFailed) <==>
                AllApply(old(content), edits) && !dryRun && !writes
                && !IsTooLarge(After(old(content), edits), maxSizeKb, byteLength)
      ensures r == Err(TooLarge) <==>
                AllApply(old(content), edits) && !dryRun
                && maxSizeKb.Some? && byteLength(After(old(content), edits)) > maxSizeKb.value * 1024
      ensures r.Err? && (r.error.NoMatch? || r.error.Ambiguous?) ==>
                var i := r.error.index;
                FirstFailure(old(content), edits, i) && r.error == FailureOf(After(old(content), edits[..i]), edits[i], i)
      ensures forall i: nat :: FirstFailure(old(content), edits, i) ==> r == Err(FailureOf(After(old(content), edits[..i]), edits[i], i))
      // No match: the text is empty or does not occur. Ambiguous: that many disjoint occurrences, and no more.
      ensures r.Err? && r.error.NoMatch? ==>
                && r.error.index < |edits|
                && var edit := edits[r.error.index];
                   edit.oldText == "" || forall p :: !OccursAt(After(old(content), edits[..r.error.index]), edit.oldText, p)
      ensures r.Err? && r.error.Ambiguous? ==>
                && r.error.index < |edits| && r.error.count >= 2
                && MostDisjoint(After(old(content), edits[..r.error.index]), edits[r.error.index].oldText, r.error.count)
    {
      var original := content;
      var edited := ApplyEdits(original, edits);
      if edited.Err? {
        ghost var f: nat :| FirstFailure(original, edits, f) && edited.error == FailureOf(After(original, edits[..f]), edits[f], f);
        forall i: nat | FirstFailure(original, edits, i) ensures i == f { FailureIsDetermined(original, edits, f, i); }
        FailureIsDetermined(original, edits, f, f);
        CountZero(After(original, edits[..f]), edits[f].oldText);
        if edited.error.Ambiguous? { CountIsMost(After(original, edits[..f]), edits[f].oldText); }
        return Err(edited.error);
      }
      forall i: nat | FirstFailure(original, edits, i) ensures false { FailureIsDetermined(original, edits, i, i); }
      if !dryRun && maxSizeKb.Some? && byteLength(edited.value) > maxSizeKb.value * 1024 {
        return Err(TooLarge);
      }
      if !dryRun {
        content := "";
        if !writes { return Err(WriteFailed); }
        content := edited.value;
      }
      return Ok(diff(original, edited.value));
    }
  }
}
