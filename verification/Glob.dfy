/**
 Globs by themselves: how the text of one reads as a tree, and which texts the tree stands for.
 */
module Glob {
  import opened Wrappers

  datatype Item =
    | Literal(c: char)
    | OneInSegment                                   // ?
    | SegmentText                                    // *
    | AnyText                                        // **
    | AnySegments                                    // **/
    | OneOf(negated: bool, body: string)             // [...]
    | Choice(branches: seq<Branch>)                  // {a,b}

  datatype Branch = Branch(items: seq<Item>)

  datatype GlobError = UnclosedBracket | UnclosedBrace

  // ---------------------------------------------------------------------------
  // Meaning
  // ---------------------------------------------------------------------------

  /** Membership in a class body: single characters and `a-z` ranges. */
  predicate BodyHas(body: string, c: char) {
    if body == "" then false
    else if |body| >= 3 && body[1] == '-' then body[0] <= c <= body[2] || BodyHas(body[3..], c)
    else body[0] == c || BodyHas(body[1..], c)
  }

  predicate ValidRanges(body: string) {
    if body == "" then true
    else if |body| >= 3 && body[1] == '-' then body[0] <= body[2] && ValidRanges(body[3..])
    else ValidRanges(body[1..])
  }

  predicate NoNewline(s: string, i: nat, j: nat)
    requires i <= j <= |s|
  {
    forall k :: i <= k < j ==> s[k] != '\n'
  }

  predicate NoSlash(s: string, i: nat, j: nat)
    requires i <= j <= |s|
  {
    forall k :: i <= k < j ==> s[k] != '/'
  }

  /** Whether the item stands for the text between positions `i` and `j` of `s`. The documented
      meaning lets `**` span anything (`lines`); without `lines` it stops at a line break. */
  predicate Stands(it: Item, s: string, i: nat, j: nat, lines: bool)
    requires i <= j <= |s|
    decreases it
  {
    match it
    case Literal(c) => j == i + 1 && s[i] == c
    case OneInSegment => j == i + 1 && s[i] != '/'
    case SegmentText => NoSlash(s, i, j)
    case AnyText => lines || NoNewline(s, i, j)
    case AnySegments => i == j || (s[j - 1] == '/' && (lines || NoNewline(s, i, j)))
    case OneOf(negated, body) => j == i + 1 && BodyHas(body, s[i]) != negated
    case Choice(branches) => exists b :: 0 <= b < |branches| && StandsSeq(branches[b].items, s, i, j, lines)
  }

  predicate StandsSeq(items: seq<Item>, s: string, i: nat, j: nat, lines: bool)
    requires i <= j <= |s|
    decreases items
  {
    if items == [] then i == j
    else exists k :: i <= k <= j && StandsSeq(Init(items), s, i, k, lines)
                                 && Stands(Last(items), s, k, j, lines)
  }

  // ---------------------------------------------------------------------------
  // Reading
  // ---------------------------------------------------------------------------

  /** Open braces: the finished alternatives and the items of the current one. */
  datatype Stack =
    | Base(items: seq<Item>)
    | Inside(below: Stack, branches: seq<Branch>, items: seq<Item>)

  function Depth(st: Stack): nat {
    if st.Base? then 0 else 1 + Depth(st.below)
  }

  function Push(st: Stack, it: Item): Stack {
    st.(items := st.items + [it])
  }

  /** The first `]` of `g` at or after `k`, or -1. */
  function FindClose(g: string, k: nat): (r: int)
    ensures r == -1 || k <= r < |g|
    ensures r >= 0 ==> g[r] == ']' && (forall m :: k <= m < r ==> g[m] != ']')
    ensures r == -1 ==> forall m :: k <= m < |g| ==> g[m] != ']'
    decreases |g| - k
  {
    if k >= |g| then -1
    else if g[k] == ']' then k
    else FindClose(g, k + 1)
  }

  /** A class body's leading `!` or `^`, and the rest. */
  predicate Negates(raw: string) { raw != "" && (raw[0] == '!' || raw[0] == '^') }

  function Members(raw: string): string { if Negates(raw) then raw[1..] else raw }

  function Read(g: string, st: Stack): Result<seq<Item>, GlobError>
    decreases |g|
  {
    if g == "" then
      if st.Base? then Ok(st.items) else Err(UnclosedBrace)
    else if g[0] == '*' then
      if |g| >= 2 && g[1] == '*' then
        if |g| >= 3 && g[2] == '/' then Read(g[3..], Push(st, AnySegments))
        else Read(g[2..], Push(st, AnyText))
      else Read(g[1..], Push(st, SegmentText))
    else if g[0] == '?' then Read(g[1..], Push(st, OneInSegment))
    else if g[0] == '[' then
      var end := FindClose(g, 2);
      if end == -1 then Err(UnclosedBracket)
      else Read(g[end + 1..], Push(st, OneOf(Negates(g[1..end]), Members(g[1..end]))))
    else if g[0] == '{' then Read(g[1..], Inside(st, [], []))
    else if g[0] == '}' && st.Inside? then Read(g[1..], Push(st.below, Choice(st.branches + [Branch(st.items)])))
    else if g[0] == ',' && st.Inside? then
      Read(g[1..], st.(branches := st.branches + [Branch(st.items)], items := []))
    else Read(g[1..], Push(st, Literal(g[0])))
  }

  function ReadGlob(g: string): Result<seq<Item>, GlobError> {
    Read(g, Base([]))
  }

  /** The documented language of a glob; empty when the glob is malformed. */
  predicate Denotes(g: string, s: string, lines: bool) {
    ReadGlob(g).Ok? && StandsSeq(ReadGlob(g).value, s, 0, |s|, lines)
  }

  /** A class body none of whose members begins the way a POSIX class such as `[:alpha:]` does. */
  predicate NamesNoClass(body: string) {
    if body == "" then true
    else if |body| >= 2 && body[0] == '[' && body[1] == ':' then false
    else if |body| >= 3 && body[1] == '-' then NamesNoClass(body[3..])
    else NamesNoClass(body[1..])
  }

  /** A class body that RE2 reads as the glob means it. */
  predicate PlainBody(body: string) { body != "" && NamesNoClass(body) }

  /** Every class of the glob has a plain body. */
  predicate ClassesPlain(g: string)
    decreases |g|
  {
    if g == "" then true
    else if g[0] != '[' then ClassesPlain(g[1..])
    else
      var end := FindClose(g, 2);
      end == -1 || (PlainBody(Members(g[1..end])) && ClassesPlain(g[end + 1..]))
  }

  /** Every class of the glob has ranges in order. */
  predicate RangesValid(g: string)
    decreases |g|
  {
    if g == "" then true
    else if g[0] != '[' then RangesValid(g[1..])
    else
      var end := FindClose(g, 2);
      end == -1 || (ValidRanges(Members(g[1..end])) && RangesValid(g[end + 1..]))
  }
}
