/**
 Stored filters, and where the emitted source parts from the documented language.
 */
module GlobFilters {
  import opened Wrappers
  import opened GlobCompiler
  import R = Re2
  import G = Glob

  // ---------------------------------------------------------------------------
  // Filters: a glob that is not absolute matches at any depth
  // ---------------------------------------------------------------------------

  predicate StartsWith(s: string, prefix: string) { prefix <= s }

  function FilterGlob(pattern: string): string {
    if StartsWith(pattern, "/") || StartsWith(pattern, "**") then pattern else "**/" + pattern
  }

  const MAX_FILTER_PATTERN_LENGTH := 1000

  datatype FilterError = BadLength | BadGlob(error: G.GlobError) | NotRe2

  /** The source stored for a glob filter. */
  function FilterSource(pattern: string): Result<string, FilterError> {
    if |pattern| == 0 || |pattern| > MAX_FILTER_PATTERN_LENGTH then Err(BadLength)
    else
      var source := Source(FilterGlob(pattern));
      if source.Err? then Err(BadGlob(source.error))
      else if R.Compile(source.value).None? then Err(NotRe2)
      else Ok(source.value)
  }

  /** Position `k` starts a path segment. */
  predicate SegmentStart(s: string, k: nat)
    requires k <= |s|
  {
    k == 0 || s[k - 1] == '/'
  }

  /** Reading after an initial item is reading with that item in front. */
  lemma {:induction false} ReadFrom(g: string, st: G.Stack, it: G.Item, st': G.Stack)
    requires Fronted(st, it, st')
    ensures G.Read(g, st).Ok? <==> G.Read(g, st').Ok?
    ensures G.Read(g, st).Ok? ==> G.Read(g, st').value == [it] + G.Read(g, st).value
    ensures G.Read(g, st).Err? ==> G.Read(g, st') == G.Read(g, st)
    decreases |g|
  {
    if g != "" {
      AbsorbReads(g, st);
      AbsorbReads(g, st');
      FrontedDepth(st, it, st');
      var turn := TakeTurn(g, G.Depth(st));
      FrontedAbsorb(g, st, it, st');
      if turn.Ok? { ReadFrom(g[turn.value.used..], Absorb(g, st), it, Absorb(g, st')); }
    }
  }

  /** `st'` is `st` with `it` in front of the outermost items. */
  predicate Fronted(st: G.Stack, it: G.Item, st': G.Stack) {
    match st
    case Base(items) => st' == G.Base([it] + items)
    case Inside(below, branches, items) =>
      st'.Inside? && st'.branches == branches && st'.items == items && Fronted(below, it, st'.below)
  }

  lemma FrontedDepth(st: G.Stack, it: G.Item, st': G.Stack)
    requires Fronted(st, it, st')
    ensures G.Depth(st) == G.Depth(st')
  {
  }

  lemma FrontedPush(st: G.Stack, it: G.Item, st': G.Stack, pushed: G.Item)
    requires Fronted(st, it, st')
    ensures Fronted(G.Push(st, pushed), it, G.Push(st', pushed))
  {
    if st.Base? { assert [it] + st.items + [pushed] == [it] + (st.items + [pushed]); }
  }

  lemma FrontedAbsorb(g: string, st: G.Stack, it: G.Item, st': G.Stack)
    requires g != "" && Fronted(st, it, st')
    ensures Fronted(Absorb(g, st), it, Absorb(g, st'))
  {
    if g[0] == '}' && st.Inside? {
      FrontedPush(st.below, it, st'.below, G.Choice(st.branches + [G.Branch(st.items)]));
    } else if g[0] != '{' && !(g[0] == ',' && st.Inside?) && Absorb(g, st) != st {
      FrontedPush(st, it, st', Last(Absorb(g, st).items));
    }
  }

  lemma SplitLast(items: seq<G.Item>, s: string, i: nat, j: nat, lines: bool) returns (k: nat)
    requires i <= j <= |s| && items != [] && G.StandsSeq(items, s, i, j, lines)
    ensures i <= k <= j && G.StandsSeq(Init(items), s, i, k, lines) && G.Stands(Last(items), s, k, j, lines)
  {
    k :| i <= k <= j && G.StandsSeq(Init(items), s, i, k, lines) && G.Stands(Last(items), s, k, j, lines);
  }

  lemma JoinLast(items: seq<G.Item>, it: G.Item, s: string, i: nat, k: nat, j: nat, lines: bool)
    requires i <= k <= j <= |s| && G.StandsSeq(items, s, i, k, lines) && G.Stands(it, s, k, j, lines)
    ensures G.StandsSeq(items + [it], s, i, j, lines)
  {
    assert Init(items + [it]) == items && Last(items + [it]) == it;
  }

  lemma JoinEnd(items: seq<G.Item>, s: string, k: nat, m: nat, j: nat, lines: bool)
    requires k <= m <= j <= |s| && items != []
    requires G.StandsSeq(Init(items), s, k, m, lines) && G.Stands(Last(items), s, m, j, lines)
    ensures G.StandsSeq(items, s, k, j, lines)
  {
    JoinLast(Init(items), Last(items), s, k, m, j, lines);
    assert Init(items) + [Last(items)] == items;
  }

  lemma OnlyItem(it: G.Item, s: string, i: nat, j: nat, lines: bool)
    requires i <= j <= |s| && G.StandsSeq([it], s, i, j, lines)
    ensures G.Stands(it, s, i, j, lines) && G.StandsSeq([], s, j, j, lines)
  {
    var m := SplitLast([it], s, i, j, lines);
    assert Init([it]) == [] && Last([it]) == it;
  }

  lemma SplitEnd(it: G.Item, items: seq<G.Item>, s: string, i: nat, j: nat, lines: bool) returns (m: nat)
    requires i <= j <= |s| && items != [] && G.StandsSeq([it] + items, s, i, j, lines)
    ensures i <= m <= j && G.StandsSeq([it] + Init(items), s, i, m, lines) && G.Stands(Last(items), s, m, j, lines)
  {
    assert Init([it] + items) == [it] + Init(items) && Last([it] + items) == Last(items);
    m := SplitLast([it] + items, s, i, j, lines);
  }

  lemma {:induction false} SplitFirst(it: G.Item, items: seq<G.Item>, s: string, i: nat, j: nat, lines: bool)
    returns (k: nat)
    requires i <= j <= |s| && G.StandsSeq([it] + items, s, i, j, lines)
    ensures i <= k <= j && G.Stands(it, s, i, k, lines) && G.StandsSeq(items, s, k, j, lines)
    decreases |items|
  {
    if items == [] {
      assert [it] + items == [it];
      OnlyItem(it, s, i, j, lines);
      k := j;
    } else {
      var m := SplitEnd(it, items, s, i, j, lines);
      k := SplitFirst(it, Init(items), s, i, m, lines);
      JoinEnd(items, s, k, m, j, lines);
    }
  }

  lemma {:induction false} JoinFirst(it: G.Item, items: seq<G.Item>, s: string, i: nat, k: nat, j: nat, lines: bool)
    requires i <= k <= j <= |s| && G.Stands(it, s, i, k, lines) && G.StandsSeq(items, s, k, j, lines)
    ensures G.StandsSeq([it] + items, s, i, j, lines)
    decreases |items|
  {
    if items == [] {
      assert G.StandsSeq([], s, i, i, lines);
      JoinLast([], it, s, i, i, j, lines);
      assert [] + [it] == [it] + items;
    } else {
      var m := SplitLast(items, s, k, j, lines);
      JoinFirst(it, Init(items), s, i, k, m, lines);
      JoinLast([it] + Init(items), Last(items), s, i, m, j, lines);
      assert [it] + Init(items) + [Last(items)] == [it] + items;
    }
  }

  /** A pattern that is tied to the root, or that says itself how deep it reaches. */
  predicate Anchored(pattern: string) {
    pattern != "" && (pattern[0] == '/' || (|pattern| >= 2 && pattern[0] == '*' && pattern[1] == '*'))
  }

  /** Which paths a filter is for: those its items stand for, or, for a pattern that is not anchored, those
      with a segment start after which its items stand for the rest. */
  predicate FilterStands(pattern: string, path: string, lines: bool) {
    G.ReadGlob(pattern).Ok? &&
    var items := G.ReadGlob(pattern).value;
    if Anchored(pattern) then G.StandsSeq(items, path, 0, |path|, lines)
    else exists k :: 0 <= k <= |path| && SegmentStart(path, k) && G.StandsSeq(items, path, k, |path|, lines)
  }

  lemma AnchoredStays(pattern: string)
    ensures Anchored(pattern) <==> StartsWith(pattern, "/") || StartsWith(pattern, "**")
    ensures FilterGlob(pattern) == if Anchored(pattern) then pattern else "**/" + pattern
  {
    if |pattern| >= 2 && pattern[0] == '*' && pattern[1] == '*' { assert pattern[..2] == "**"; }
    if pattern != "" && pattern[0] == '/' { assert pattern[..1] == "/"; }
  }

  lemma AnyDepthReads(pattern: string)
    ensures G.ReadGlob("**/" + pattern) ==
              if G.ReadGlob(pattern).Ok? then Ok([G.AnySegments] + G.ReadGlob(pattern).value) else G.ReadGlob(pattern)
  {
    var glob := "**/" + pattern;
    assert glob[3..] == pattern;
    assert [G.AnySegments] + [] == [G.AnySegments] && [] + [G.AnySegments] == [G.AnySegments];
    ReadFrom(pattern, G.Base([]), G.AnySegments, G.Base([G.AnySegments]));
  }

  /** A relative filter blocks a path exactly when the pattern stands for what follows some segment
      start in it. */
  lemma FilterMatchesAtAnyDepth(pattern: string, path: string)
    requires !StartsWith(pattern, "/") && !StartsWith(pattern, "**")
    requires G.ReadGlob(pattern).Ok?
    ensures G.ReadGlob(FilterGlob(pattern)).Ok?
    ensures G.Denotes(FilterGlob(pattern), path, true) <==>
              exists k :: 0 <= k <= |path| && SegmentStart(path, k)
                          && G.StandsSeq(G.ReadGlob(pattern).value, path, k, |path|, true)
  {
    var items := G.ReadGlob(pattern).value;
    var glob := "**/" + pattern;
    AnyDepthReads(pattern);
    if G.Denotes(glob, path, true) {
      var k := SplitFirst(G.AnySegments, items, path, 0, |path|, true);
    }
    if k: nat :| k <= |path| && SegmentStart(path, k) && G.StandsSeq(items, path, k, |path|, true) {
      JoinFirst(G.AnySegments, items, path, 0, k, |path|, true);
    }
  }

  /** The glob that is compiled for a filter is the filter. */
  lemma FilterGlobStands(pattern: string, path: string)
    ensures G.ReadGlob(FilterGlob(pattern)).Ok? <==> G.ReadGlob(pattern).Ok?
    ensures G.ReadGlob(pattern).Err? ==> G.ReadGlob(FilterGlob(pattern)) == G.ReadGlob(pattern)
    ensures G.Denotes(FilterGlob(pattern), path, true) <==> FilterStands(pattern, path, true)
  {
    AnchoredStays(pattern);
    var glob := FilterGlob(pattern);
    if Anchored(pattern) {
      assert glob == pattern;
    } else {
      assert glob == "**/" + pattern;
      AnyDepthReads(pattern);
      if G.ReadGlob(pattern).Ok? { FilterMatchesAtAnyDepth(pattern, path); }
    }
  }

  lemma ClassesAfter(c: char, g: string)
    requires c != '['
    ensures G.ClassesPlain([c] + g) <==> G.ClassesPlain(g)
    ensures G.RangesValid([c] + g) <==> G.RangesValid(g)
  {
    assert ([c] + g)[1..] == g;
  }

  /** Nothing in front of the pattern has classes. */
  lemma FilterClasses(pattern: string)
    ensures G.ClassesPlain(FilterGlob(pattern)) <==> G.ClassesPlain(pattern)
    ensures G.RangesValid(FilterGlob(pattern)) <==> G.RangesValid(pattern)
  {
    if !Anchored(pattern) {
      ClassesAfter('/', pattern);
      ClassesAfter('*', "/" + pattern);
      ClassesAfter('*', "*/" + pattern);
      assert "**/" + pattern == "*" + ("*/" + pattern) && "*/" + pattern == "*" + ("/" + pattern);
    }
    AnchoredStays(pattern);
  }

  /** When a filter is accepted: it has 1 to 1000 characters, reads as a glob, and RE2 takes what it compiles to,
      which for plain classes it does exactly when their ranges are in order. */
  lemma AcceptedFilters(pattern: string)
    ensures FilterSource(pattern) == Err(BadLength) <==> |pattern| == 0 || |pattern| > 1000
    ensures forall e :: FilterSource(pattern) == Err(BadGlob(e)) <==> 1 <= |pattern| <= 1000 && G.ReadGlob(pattern) == Err(e)
    ensures FilterSource(pattern).Ok? ==> R.Compile(FilterSource(pattern).value).Some?
    ensures G.ClassesPlain(pattern) ==>
              (FilterSource(pattern).Ok? <==> 1 <= |pattern| <= 1000 && G.ReadGlob(pattern).Ok? && G.RangesValid(pattern))
  {
    FilterGlobStands(pattern, "");
    FilterClasses(pattern);
    FailsExactlyWhenUnclosed(FilterGlob(pattern));
    if Source(FilterGlob(pattern)).Ok? && G.ClassesPlain(pattern) { SourcePreservesMeaning(FilterGlob(pattern), ""); }
  }

  // ---------------------------------------------------------------------------
  // Line breaks, and classes RE2 reads differently
  // ---------------------------------------------------------------------------

  /** Without line breaks in the text, the two readings of `**` agree. */
  lemma {:induction false} LinesIrrelevant(items: seq<G.Item>, s: string, i: nat, j: nat)
    requires i <= j <= |s| && G.NoNewline(s, 0, |s|)
    ensures G.StandsSeq(items, s, i, j, true) <==> G.StandsSeq(items, s, i, j, false)
    decreases items
  {
    if items != [] {
      forall k | i <= k <= j
        ensures G.StandsSeq(Init(items), s, i, k, true) <==> G.StandsSeq(Init(items), s, i, k, false)
        ensures G.Stands(Last(items), s, k, j, true) <==> G.Stands(Last(items), s, k, j, false)
      {
        LinesIrrelevant(Init(items), s, i, k);
        LineIrrelevant(Last(items), s, k, j);
      }
    }
  }

  lemma {:induction false} LineIrrelevant(it: G.Item, s: string, i: nat, j: nat)
    requires i <= j <= |s| && G.NoNewline(s, 0, |s|)
    ensures G.Stands(it, s, i, j, true) <==> G.Stands(it, s, i, j, false)
    decreases it
  {
    if it.Choice? {
      forall b | 0 <= b < |it.branches|
        ensures G.StandsSeq(it.branches[b].items, s, i, j, true) <==> G.StandsSeq(it.branches[b].items, s, i, j, false)
      {
        LinesIrrelevant(it.branches[b].items, s, i, j);
      }
    }
  }

  /** On text without line breaks, a stored filter finds exactly the paths it is for. */
  lemma FilterSourceFindsGlob(pattern: string, path: string)
    requires FilterSource(pattern).Ok? && G.ClassesPlain(pattern) && G.NoNewline(path, 0, |path|)
    ensures R.Find(R.Compile(FilterSource(pattern).value).value, path) <==> FilterStands(pattern, path, true)
  {
    var glob := FilterGlob(pattern);
    FilterClasses(pattern);
    SourcePreservesMeaning(glob, path);
    FailsExactlyWhenUnclosed(glob);
    LinesIrrelevant(G.ReadGlob(glob).value, path, 0, |path|);
    FilterGlobStands(pattern, path);
  }

  lemma SingleStands(it: G.Item, s: string, i: nat, j: nat, lines: bool)
    requires i <= j <= |s|
    ensures G.StandsSeq([it], s, i, j, lines) <==> G.Stands(it, s, i, j, lines)
  {
    assert [it] + [] == [it];
    if G.StandsSeq([it], s, i, j, lines) { var k := SplitFirst(it, [], s, i, j, lines); }
    if G.Stands(it, s, i, j, lines) { JoinFirst(it, [], s, i, j, j, lines); }
  }

  lemma ReadsOne(g: string, it: G.Item, s: string)
    requires G.ReadGlob(g) == G.Read("", G.Push(G.Base([]), it))
    ensures G.Denotes(g, s, true) <==> G.Stands(it, s, 0, |s|, true)
  {
    assert [] + [it] == [it];
    assert G.Read("", G.Base([it])) == Ok([it]);
    SingleStands(it, s, 0, |s|, true);
  }

  lemma StarGlob(s: string)
    ensures G.Denotes("*", s, true) <==> '/' !in s
  {
    var g := "*";
    assert g[1..] == "";
    ReadsOne(g, G.SegmentText, s);
  }

  lemma OneGlob(s: string)
    ensures G.Denotes("?", s, true) <==> |s| == 1 && s[0] != '/'
  {
    var g := "?";
    assert g[1..] == "";
    ReadsOne(g, G.OneInSegment, s);
  }

  lemma TextGlob(s: string)
    ensures G.Denotes("**", s, true)
  {
    var g := "**";
    assert g[2..] == "";
    ReadsOne(g, G.AnyText, s);
  }

  lemma LiteralGlob(c: char, s: string)
    requires c !in ['*', '?', '[', '{']
    ensures G.Denotes([c], s, true) <==> s == [c]
  {
    var g := [c];
    assert g[1..] == "";
    ReadsOne(g, G.Literal(c), s);
  }

  /** What the smallest globs stand for: `*` any text within a segment, `?` one character of a segment, `**` any text,
      and a character without a meaning of its own itself. */
  lemma SmallestGlobs(c: char, s: string)
    requires c !in ['*', '?', '[', '{']
    ensures G.Denotes("*", s, true) <==> '/' !in s
    ensures G.Denotes("?", s, true) <==> |s| == 1 && s[0] != '/'
    ensures G.Denotes("**", s, true)
    ensures G.Denotes([c], s, true) <==> s == [c]
  {
    StarGlob(s);
    OneGlob(s);
    TextGlob(s);
    LiteralGlob(c, s);
  }

  /** The glob `/` is a filter, and stands for the root directory alone. */
  lemma RootGlobFindsRoot(path: string)
    ensures FilterSource("/").Ok?
    ensures R.Find(R.Compile(FilterSource("/").value).value, path) <==> path == "/"
  {
    var glob := "/";
    RootGlobReads();
    FailsExactlyWhenUnclosed(glob);
    SourcePreservesMeaning(glob, path);
    SingleStands(G.Literal('/'), path, 0, |path|, false);
    assert G.Denotes(glob, path, false) <==> path == "/";
  }

  lemma RootGlobReads()
    ensures FilterGlob("/") == "/" && G.ClassesPlain("/") && G.RangesValid("/")
    ensures G.ReadGlob("/") == Ok([G.Literal('/')])
  {
    var glob := "/";
    assert glob[1..] == "" && G.Push(G.Base([]), G.Literal('/')) == G.Base([G.Literal('/')]);
    assert G.ClassesPlain("") && G.RangesValid("");
    assert G.Read(glob, G.Base([])) == G.Read("", G.Base([G.Literal('/')]));
  }

  /** A line break is where the emitted source and the documented `**` part. */
  lemma LineBreakStopsGlobstar(s: string)
    ensures G.Denotes("**", s, true)
    ensures G.Denotes("**", s, false) <==> G.NoNewline(s, 0, |s|)
  {
    GlobstarReads();
    SingleStands(G.AnyText, s, 0, |s|, true);
    SingleStands(G.AnyText, s, 0, |s|, false);
  }

  lemma GlobstarReads()
    ensures G.ReadGlob("**") == Ok([G.AnyText])
  {
    var g := "**";
    assert g[2..] == "" && G.Push(G.Base([]), G.AnyText) == G.Base([G.AnyText]);
  }

  lemma OrdinaryMember(c: char, x: string, first: bool)
    requires c != '\\' && (c == ']' ==> first)
    requires x != "" && x[0] != '-' && !(c == '[' && x[0] == ':')
    ensures R.ClassItems([c] + x, first) == R.Prepend((c, c), R.ClassItems(x, false))
  {
    assert ([c] + x)[1..] == x;
  }

  /** Why class bodies must not be empty: after the negation of `[!]` RE2 takes the bracket as a member
      and reads on, so the class swallows the rest of the glob and matches single characters only. */
  lemma EmptyClassSwallows()
    ensures !G.ClassesPlain("[!]a[b]") && Source("[!]a[b]") == Ok("^[^]a[b]$")
    ensures G.Denotes("[!]a[b]", "xab", false)
    ensures R.Compile("^[^]a[b]$").Some? && !R.Find(R.Compile("^[^]a[b]$").value, "xab")
  {
    EmptyClassReads();
    EmptyClassStands();
    EmptyClassCompiles();
    var swallowed := R.Class(true, [(']', ']'), ('a', 'a'), ('[', '['), ('b', 'b')]);
    forall i: nat, j: nat | i <= j <= 3 && R.MatchSeq([R.Begin, swallowed, R.End], "xab", i, j) ensures false {
      AnchoredClassMatchesOne(swallowed, "xab", i, j);
    }
  }

  lemma SplitLastRegex(rs: seq<R.Regex>, s: string, i: nat, j: nat) returns (k: nat)
    requires i <= j <= |s| && rs != [] && R.MatchSeq(rs, s, i, j)
    ensures i <= k <= j && R.MatchSeq(Init(rs), s, i, k) && R.Match(Last(rs), s, k, j)
  {
    k :| i <= k <= j && R.MatchSeq(Init(rs), s, i, k) && R.Match(Last(rs), s, k, j);
  }

  lemma AnchoredClassMatchesOne(c: R.Regex, s: string, i: nat, j: nat)
    requires i <= j <= |s| && c.Class? && R.MatchSeq([R.Begin, c, R.End], s, i, j)
    ensures |s| == 1
  {
    var k := SplitLastRegex([R.Begin, c, R.End], s, i, j);
    assert Init([R.Begin, c, R.End]) == [R.Begin, c] && Init([R.Begin, c]) == [R.Begin];
    var m := SplitLastRegex([R.Begin, c], s, i, k);
    var l := SplitLastRegex([R.Begin], s, i, m);
  }

  lemma EmptyClassTurns()
    ensures G.FindClose("[!]a[b]", 2) == 2 && G.FindClose("[b]", 2) == 2
    ensures "[!]a[b]"[3..] == "a[b]" && "a[b]"[1..] == "[b]" && "[b]"[3..] == ""
    ensures TakeTurn("[!]a[b]", 0) == Ok(Turn("[^]", 3, 0)) && !TurnPlain("[!]a[b]")
    ensures TakeTurn("a[b]", 0) == Ok(Turn("a", 1, 0))
    ensures TakeTurn("[b]", 0) == Ok(Turn("[b]", 3, 0))
  {
    assert "[!]a[b]"[1..2] == "!" && G.Members("!") == "" && "[b]"[1..2] == "b";
    assert EscapeBody("b") == "b" && EscapeBody("") == "";
    assert "[^" + "" + "]" == "[^]" && "[" + "b" + "]" == "[b]";
  }

  lemma EmptyClassReads()
    ensures !G.ClassesPlain("[!]a[b]") && Source("[!]a[b]") == Ok("^[^]a[b]$")
    ensures G.ReadGlob("[!]a[b]") == Ok([G.OneOf(true, ""), G.Literal('a'), G.OneOf(false, "b")])
  {
    EmptyClassTurns();
    TurnChecks("[!]a[b]", 0);
    EmptyClassEmits();
    EmptyClassAbsorbs();
  }

  lemma EmptyClassEmits()
    ensures Source("[!]a[b]") == Ok("^[^]a[b]$")
  {
    EmptyClassTurns();
    assert Emit("", 0) == Ok("") && "[b]" + "" == "[b]";
    assert Emit("[b]", 0) == Ok("[b]");
    assert "a" + "[b]" == "a[b]" && "[^]" + "a[b]" == "[^]a[b]" && "^" + "[^]a[b]" + "$" == "^[^]a[b]$";
    assert Emit("a[b]", 0) == Ok("a[b]");
    assert Emit("[!]a[b]", 0) == Ok("[^]a[b]");
  }

  lemma EmptyClassAbsorbs()
    ensures G.ReadGlob("[!]a[b]") == Ok([G.OneOf(true, ""), G.Literal('a'), G.OneOf(false, "b")])
  {
    EmptyClassTurns();
    var st0 := G.Base([]);
    var st1, st2, st3 := G.Base([G.OneOf(true, "")]), G.Base([G.OneOf(true, ""), G.Literal('a')]),
                         G.Base([G.OneOf(true, ""), G.Literal('a'), G.OneOf(false, "b")]);
    assert "[!]a[b]"[1..2] == "!" && G.Members("!") == "" && "[b]"[1..2] == "b";
    assert Absorb("[!]a[b]", st0) == st1 && Absorb("a[b]", st1) == st2 && Absorb("[b]", st2) == st3;
    AbsorbReads("[!]a[b]", st0);
    AbsorbReads("a[b]", st1);
    AbsorbReads("[b]", st2);
  }

  lemma EmptyClassStands()
    ensures G.StandsSeq([G.OneOf(true, ""), G.Literal('a'), G.OneOf(false, "b")], "xab", 0, 3, false)
  {
    var s := "xab";
    var first, second, third := G.OneOf(true, ""), G.Literal('a'), G.OneOf(false, "b");
    assert !G.BodyHas("", s[0]) && G.BodyHas("b", s[2]);
    SingleStands(first, s, 0, 1, false);
    JoinLast([first], second, s, 0, 1, 2, false);
    JoinLast([first] + [second], third, s, 0, 2, 3, false);
    assert [first] + [second] + [third] == [first, second, third];
  }

  lemma EmptyClassCompiles()
    ensures R.Compile("^[^]a[b]$") ==
              Some([R.Branch([R.Begin, R.Class(true, [(']', ']'), ('a', 'a'), ('[', '['), ('b', 'b')]), R.End])])
  {
    SwallowingItems();
    var ranges := [(']', ']'), ('a', 'a'), ('[', '['), ('b', 'b')];
    var x, rest := "^[^]a[b]$", "[^]a[b]$";
    assert x[1..] == rest && rest[2..] == "]a[b]$" && "$"[1..] == "";
    var begun := R.Base([], [R.Begin]);
    assert R.Push(R.Base([], []), R.Begin) == begun;
    assert R.Parse(x, R.Base([], [])) == R.Parse(rest, begun);
    assert R.Parse(rest, begun) == R.Parse("$", R.Push(begun, R.Class(true, ranges)));
    var class', all := [R.Begin] + [R.Class(true, ranges)], [R.Begin, R.Class(true, ranges), R.End];
    assert R.Push(begun, R.Class(true, ranges)) == R.Base([], class');
    assert class' + [R.End] == all && [] + [R.Branch(all)] == [R.Branch(all)];
    assert R.Parse("$", R.Base([], class')) == R.Parse("", R.Base([], all));
  }

  lemma SwallowingItems()
    ensures R.ClassItems("]a[b]$", true) == Some(([(']', ']'), ('a', 'a'), ('[', '['), ('b', 'b')], "$"))
  {
    OrdinaryMember(']', "a[b]$", true);
    OrdinaryMember('a', "[b]$", false);
    OrdinaryMember('[', "b]$", false);
    OrdinaryMember('b', "]$", false);
    assert "]a[b]$" == [']'] + "a[b]$" && "a[b]$" == ['a'] + "[b]$" && "[b]$" == ['['] + "b]$" && "b]$" == ['b'] + "]$";
    assert "]$"[1..] == "$" && R.ClassItems("]$", false) == Some(([], "$"));
    var r1, r2, r3 := [('b', 'b')], [('[', '['), ('b', 'b')], [('a', 'a'), ('[', '['), ('b', 'b')];
    assert [('b', 'b')] + [] == r1 && [('[', '[')] + r1 == r2 && [('a', 'a')] + r2 == r3;
    assert R.ClassItems("b]$", false) == Some((r1, "$"));
    assert R.ClassItems("[b]$", false) == Some((r2, "$"));
    assert R.ClassItems("a[b]$", false) == Some((r3, "$"));
    assert [(']', ']')] + r3 == [(']', ']'), ('a', 'a'), ('[', '['), ('b', 'b')];
  }
}
