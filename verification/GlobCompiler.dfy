/**
 The translation of a glob into RE2 source, and the proof that it preserves the glob's meaning.
 */
module GlobCompiler {
  import opened Wrappers
  import R = Re2
  import G = Glob

  // ---------------------------------------------------------------------------
  // The translation
  // ---------------------------------------------------------------------------

  /** A literal character, escaped when RE2 would read it otherwise. */
  function EscapeLiteral(c: char): string {
    if c in ".+^$()|\\{}[]" then ['\\', c] else [c]
  }

  function EscapeBody(body: string): string {
    if body == "" then ""
    else (if body[0] == '\\' || body[0] == ']' then ['\\', body[0]] else [body[0]]) + EscapeBody(body[1..])
  }

  function ClassSource(raw: string): string {
    (if G.Negates(raw) then "[^" else "[") + EscapeBody(G.Members(raw)) + "]"
  }

  function Prefix(head: string, tail: Result<string, G.GlobError>): Result<string, G.GlobError> {
    if tail.Err? then tail else Ok(head + tail.value)
  }

  /** One turn of the translation: the source it emits, the glob it uses up, the depth after it. */
  datatype Turn = Turn(piece: string, used: nat, depth: nat)

  function TakeTurn(g: string, depth: nat): (r: Result<Turn, G.GlobError>)
    requires g != ""
    ensures r.Ok? ==> 0 < r.value.used <= |g|
  {
    if g[0] == '*' then
      if |g| >= 2 && g[1] == '*' then
        if |g| >= 3 && g[2] == '/' then Ok(Turn("(?:.*/)?", 3, depth)) else Ok(Turn(".*", 2, depth))
      else Ok(Turn("[^/]*", 1, depth))
    else if g[0] == '?' then Ok(Turn("[^/]", 1, depth))
    else if g[0] == '[' then
      var end := G.FindClose(g, 2);
      if end == -1 then Err(G.UnclosedBracket) else Ok(Turn(ClassSource(g[1..end]), end + 1, depth))
    else if g[0] == '{' then Ok(Turn("(?:", 1, depth + 1))
    else if g[0] == '}' && depth > 0 then Ok(Turn(")", 1, depth - 1))
    else if g[0] == ',' && depth > 0 then Ok(Turn("|", 1, depth))
    else Ok(Turn(EscapeLiteral(g[0]), 1, depth))
  }

  /** What is emitted for the rest `g` of a glob inside `depth` open braces. */
  function Emit(g: string, depth: nat): Result<string, G.GlobError>
    decreases |g|
  {
    if g == "" then
      if depth == 0 then Ok("") else Err(G.UnclosedBrace)
    else
      var turn := TakeTurn(g, depth);
      if turn.Err? then Err(turn.error)
      else Prefix(turn.value.piece, Emit(g[turn.value.used..], turn.value.depth))
  }

  function Source(glob: string): Result<string, G.GlobError> {
    var out := Emit(glob, 0);
    if out.Err? then out else Ok("^" + out.value + "$")
  }

  lemma PrefixTwice(a: string, b: string, tail: Result<string, G.GlobError>)
    ensures Prefix(a, Prefix(b, tail)) == Prefix(a + b, tail)
  {
    if tail.Ok? { assert a + (b + tail.value) == a + b + tail.value; }
  }

  lemma FindCloseShift(glob: string, i: nat, k: nat)
    requires i + k <= |glob|
    ensures G.FindClose(glob, i + k) == (var r := G.FindClose(glob[i..], k); if r == -1 then -1 else r + i)
    decreases |glob| - k
  {
    if i + k < |glob| { FindCloseShift(glob, i, k + 1); }
  }

  /** The translation stands at position `i`, with `out` emitted so far. */
  predicate Reached(glob: string, i: nat, out: string, depth: nat) {
    i <= |glob| && Emit(glob, 0) == Prefix(out, Emit(glob[i..], depth))
  }

  lemma ReachedTurn(glob: string, i: nat, out: string, depth: nat, turn: Turn)
    requires Reached(glob, i, out, depth) && i < |glob| && TakeTurn(glob[i..], depth) == Ok(turn)
    ensures 0 < turn.used && i + turn.used <= |glob| && Reached(glob, i + turn.used, out + turn.piece, turn.depth)
  {
    assert glob[i..][turn.used..] == glob[i + turn.used..];
    PrefixTwice(out, turn.piece, Emit(glob[i + turn.used..], turn.depth));
  }

  /** A class read at position `i` of the whole glob. */
  lemma ClassTurn(glob: string, i: nat, depth: nat)
    requires i < |glob| && glob[i] == '['
    ensures var end := G.FindClose(glob, i + 2);
            TakeTurn(glob[i..], depth) ==
              if end == -1 then Err(G.UnclosedBracket)
              else Ok(Turn(ClassSource(glob[i + 1..end]), end - i + 1, depth))
  {
    var rest := glob[i..];
    assert rest[0] == '[';
    if i + 2 <= |glob| {
      FindCloseShift(glob, i, 2);
      var end := G.FindClose(glob, i + 2);
      if end == -1 {
        assert G.FindClose(rest, 2) == -1;
      } else {
        assert G.FindClose(rest, 2) == end - i && rest[1..end - i] == glob[i + 1..end];
      }
    } else {
      assert G.FindClose(rest, 2) == -1;
    }
  }

  /** The body of the translation's loop: what to emit at position `i`, and where to go on. */
  method TurnAt(glob: string, i: nat, braceDepth: nat) returns (turn: Result<Turn, G.GlobError>)
    requires i < |glob|
    ensures turn == TakeTurn(glob[i..], braceDepth)
  {
    var c := glob[i];
    assert glob[i..][0] == c;
    if c == '*' {
      if i + 1 < |glob| && glob[i + 1] == '*' {
        if i + 2 < |glob| && glob[i + 2] == '/' { return Ok(Turn("(?:.*/)?", 3, braceDepth)); }
        return Ok(Turn(".*", 2, braceDepth));
      }
      return Ok(Turn("[^/]*", 1, braceDepth));
    } else if c == '?' {
      return Ok(Turn("[^/]", 1, braceDepth));
    } else if c == '[' {
      ClassTurn(glob, i, braceDepth);
      var end := G.FindClose(glob, i + 2);
      if end == -1 { return Err(G.UnclosedBracket); }
      var body := glob[i + 1..end];
      var negate := G.Negates(body);
      if negate { body := body[1..]; }
      return Ok(Turn((if negate then "[^" else "[") + EscapeBody(body) + "]", end - i + 1, braceDepth));
    } else if c == '{' {
      return Ok(Turn("(?:", 1, braceDepth + 1));
    } else if c == '}' && braceDepth > 0 {
      return Ok(Turn(")", 1, braceDepth - 1));
    } else if c == ',' && braceDepth > 0 {
      return Ok(Turn("|", 1, braceDepth));
    }
    return Ok(Turn(EscapeLiteral(c), 1, braceDepth));
  }

  method GlobToRe2Source(glob: string) returns (source: Result<string, G.GlobError>)
    ensures source == Source(glob)
  {
    var out: string := "";
    var braceDepth: nat := 0;
    var i: nat := 0;
    ReachedStart(glob);
    while i < |glob|
      invariant Reached(glob, i, out, braceDepth)
      decreases |glob| - i
    {
      var turn := TurnAt(glob, i, braceDepth);
      if turn.Err? {
        ReachedError(glob, i, out, braceDepth);
        return Err(turn.error);
      }
      ReachedTurn(glob, i, out, braceDepth, turn.value);
      out := out + turn.value.piece;
      braceDepth := turn.value.depth;
      i := i + turn.value.used;
    }
    ReachedEnd(glob, out, braceDepth);
    if braceDepth != 0 { return Err(G.UnclosedBrace); }
    source := Ok("^" + out + "$");
  }

  lemma ReachedStart(glob: string)
    ensures Reached(glob, 0, "", 0)
  {
    assert glob[0..] == glob;
    assert Emit(glob, 0).Ok? ==> "" + Emit(glob, 0).value == Emit(glob, 0).value;
  }

  lemma ReachedError(glob: string, i: nat, out: string, depth: nat)
    requires Reached(glob, i, out, depth) && i < |glob| && TakeTurn(glob[i..], depth).Err?
    ensures Source(glob) == Err(TakeTurn(glob[i..], depth).error)
  {
  }

  lemma ReachedEnd(glob: string, out: string, depth: nat)
    requires Reached(glob, |glob|, out, depth)
    ensures Source(glob) == if depth != 0 then Err(G.UnclosedBrace) else Ok("^" + out + "$")
  {
    assert glob[|glob|..] == "" && out + "" == out;
  }

  // ---------------------------------------------------------------------------
  // Glob items as regular expressions
  // ---------------------------------------------------------------------------

  const NOT_SLASH := R.Class(true, [('/', '/')])

  function BodyRanges(body: string): seq<(char, char)> {
    if body == "" then []
    else if |body| >= 3 && body[1] == '-' then [(body[0], body[2])] + BodyRanges(body[3..])
    else [(body[0], body[0])] + BodyRanges(body[1..])
  }

  function Trans(it: G.Item): R.Regex
    decreases it
  {
    match it
    case Literal(c) => R.Char(c)
    case OneInSegment => NOT_SLASH
    case SegmentText => R.Star(NOT_SLASH)
    case AnyText => R.Star(R.AnyChar)
    case AnySegments => R.Opt(R.Group([R.Branch([R.Star(R.AnyChar), R.Char('/')])]))
    case OneOf(negated, body) => R.Class(negated, BodyRanges(body))
    case Choice(branches) => R.Group(TransBranches(branches))
  }

  function TransSeq(items: seq<G.Item>): seq<R.Regex>
    decreases items
  {
    if items == [] then [] else TransSeq(Init(items)) + [Trans(Last(items))]
  }

  function TransBranches(branches: seq<G.Branch>): (r: seq<R.Branch>)
    ensures |r| == |branches|
    ensures forall b :: 0 <= b < |branches| ==> r[b] == R.Branch(TransSeq(branches[b].items))
    decreases branches
  {
    if branches == [] then []
    else TransBranches(Init(branches)) + [R.Branch(TransSeq(Last(branches).items))]
  }

  lemma TransSeqSnoc(items: seq<G.Item>, it: G.Item)
    ensures TransSeq(items + [it]) == TransSeq(items) + [Trans(it)]
  {
    assert Init(items + [it]) == items;
  }

  lemma TransBranchesSnoc(branches: seq<G.Branch>, b: G.Branch)
    ensures TransBranches(branches + [b]) == TransBranches(branches) + [R.Branch(TransSeq(b.items))]
  {
    assert Init(branches + [b]) == branches;
  }

  // ---------------------------------------------------------------------------
  // Each item and its expression match the same text
  // ---------------------------------------------------------------------------

  lemma {:induction false} RangesMeanBody(body: string, c: char)
    ensures R.InRanges(BodyRanges(body), c) <==> G.BodyHas(body, c)
    decreases |body|
  {
    if body != "" {
      var tail := if |body| >= 3 && body[1] == '-' then body[3..] else body[1..];
      RangesMeanBody(tail, c);
      var head := BodyRanges(body)[0];
      assert BodyRanges(body) == [head] + BodyRanges(tail);
      RangesCons(head, BodyRanges(tail), c);
    }
  }

  lemma RangesCons(head: (char, char), tail: seq<(char, char)>, c: char)
    ensures R.InRanges([head] + tail, c) <==> head.0 <= c <= head.1 || R.InRanges(tail, c)
  {
    var all := [head] + tail;
    if R.InRanges(tail, c) {
      var k :| 0 <= k < |tail| && tail[k].0 <= c <= tail[k].1;
      assert all[k + 1] == tail[k];
    }
    if R.InRanges(all, c) {
      var k :| 0 <= k < |all| && all[k].0 <= c <= all[k].1;
      assert k > 0 ==> tail[k - 1] == all[k];
    }
    assert all[0] == head;
  }

  /** A starred single-character expression matches exactly the texts all of whose characters it matches. */
  lemma {:induction false} StarOfOne(r: R.Regex, s: string, i: nat, j: nat)
    requires i <= j <= |s| && (r == NOT_SLASH || r == R.AnyChar)
    ensures R.Match(R.Star(r), s, i, j) <==>
              if r == NOT_SLASH then G.NoSlash(s, i, j) else G.NoNewline(s, i, j)
    decreases j - i
  {
    if i < j {
      StarOfOne(r, s, i + 1, j);
      RangesCons(('/', '/'), [], s[i]);
      assert [('/', '/')] == [('/', '/')] + [];
      assert R.Match(r, s, i, i + 1) <==> if r == NOT_SLASH then s[i] != '/' else s[i] != '\n';
      assert forall k :: i < k <= j && R.Match(r, s, i, k) ==> k == i + 1;
    }
  }

  lemma SegmentsMatch(s: string, i: nat, j: nat)
    requires i <= j <= |s|
    ensures R.Match(Trans(G.AnySegments), s, i, j) <==> G.Stands(G.AnySegments, s, i, j, false)
  {
    var seg := [R.Star(R.AnyChar), R.Char('/')];
    var star := [R.Star(R.AnyChar)];
    assert Init(seg) == star && Init(star) == [];
    forall k | i <= k <= j ensures R.MatchSeq(star, s, i, k) <==> G.NoNewline(s, i, k) {
      StarOfOne(R.AnyChar, s, i, k);
      assert R.MatchSeq([], s, i, i);
    }
    assert R.MatchSeq(seg, s, i, j) <==> i < j && G.NoNewline(s, i, j - 1) && s[j - 1] == '/';
    assert R.Group([R.Branch(seg)]).branches[0].atoms == seg;
  }

  lemma {:induction false} ItemMatches(it: G.Item, s: string, i: nat, j: nat)
    requires i <= j <= |s|
    ensures R.Match(Trans(it), s, i, j) <==> G.Stands(it, s, i, j, false)
    decreases it
  {
    match it {
      case Literal(_) =>
      case OneInSegment =>
        if i < |s| { RangesCons(('/', '/'), [], s[i]); assert [('/', '/')] == [('/', '/')] + []; }
      case SegmentText => StarOfOne(NOT_SLASH, s, i, j);
      case AnyText => StarOfOne(R.AnyChar, s, i, j);
      case AnySegments => SegmentsMatch(s, i, j);
      case OneOf(_, body) => if i < |s| { RangesMeanBody(body, s[i]); }
      case Choice(branches) =>
        forall b | 0 <= b < |branches|
          ensures R.MatchSeq(TransBranches(branches)[b].atoms, s, i, j) <==> G.StandsSeq(branches[b].items, s, i, j, false)
        {
          SeqMatches(branches[b].items, s, i, j);
        }
    }
  }

  lemma {:induction false} SeqMatches(items: seq<G.Item>, s: string, i: nat, j: nat)
    requires i <= j <= |s|
    ensures R.MatchSeq(TransSeq(items), s, i, j) <==> G.StandsSeq(items, s, i, j, false)
    decreases items
  {
    if items != [] {
      TransSeqSnoc(Init(items), Last(items));
      var ts := TransSeq(items);
      assert Init(ts) == TransSeq(Init(items)) && Last(ts) == Trans(Last(items));
      forall k | i <= k <= j
        ensures R.MatchSeq(Init(ts), s, i, k) <==> G.StandsSeq(Init(items), s, i, k, false)
        ensures R.Match(Last(ts), s, k, j) <==> G.Stands(Last(items), s, k, j, false)
      {
        SeqMatches(Init(items), s, i, k);
        ItemMatches(Last(items), s, k, j);
      }
    }
  }

  /** Between the anchors, a search succeeds exactly when the whole text matches. */
  lemma {:induction false} BeginMatches(rs: seq<R.Regex>, s: string, i: nat, j: nat)
    requires i <= j <= |s|
    ensures R.MatchSeq([R.Begin] + rs, s, i, j) <==> i == 0 && R.MatchSeq(rs, s, 0, j)
    decreases |rs|
  {
    var all := [R.Begin] + rs;
    if rs == [] {
      assert all == [R.Begin] && Init(all) == [];
    } else {
      assert Init(all) == [R.Begin] + Init(rs) && Last(all) == Last(rs);
      forall k | i <= k <= j
        ensures R.MatchSeq(Init(all), s, i, k) <==> i == 0 && R.MatchSeq(Init(rs), s, 0, k)
      {
        BeginMatches(Init(rs), s, i, k);
      }
    }
  }

  function Anchored(items: seq<G.Item>): seq<R.Branch> {
    [R.Branch([R.Begin] + TransSeq(items) + [R.End])]
  }

  lemma AnchoredFinds(items: seq<G.Item>, s: string)
    ensures R.Find(Anchored(items), s) <==> G.StandsSeq(items, s, 0, |s|, false)
  {
    var inner := [R.Begin] + TransSeq(items);
    var all := inner + [R.End];
    assert Init(all) == inner && Last(all) == R.End;
    forall i: nat, j: nat | i <= j <= |s|
      ensures R.MatchSeq(all, s, i, j) <==> i == 0 && j == |s| && G.StandsSeq(items, s, 0, |s|, false)
    {
      BeginMatches(TransSeq(items), s, i, j);
      SeqMatches(items, s, 0, |s|);
    }
    assert R.Find(Anchored(items), s) ==> R.MatchSeq(all, s, 0, |s|);
    assert R.MatchSeq(all, s, 0, |s|) ==> R.MatchSeq(Anchored(items)[0].atoms, s, 0, |s|);
  }

  // ---------------------------------------------------------------------------
  // The emitted source parses to those expressions
  // ---------------------------------------------------------------------------

  function TransStack(st: G.Stack): R.Stack {
    match st
    case Base(items) => R.Base([], [R.Begin] + TransSeq(items))
    case Inside(below, branches, items) => R.Inside(TransStack(below), TransBranches(branches), TransSeq(items))
  }

  lemma TransPush(st: G.Stack, it: G.Item)
    ensures TransStack(G.Push(st, it)) == R.Push(TransStack(st), Trans(it))
  {
    TransSeqSnoc(st.items, it);
    assert [R.Begin] + (TransSeq(st.items) + [Trans(it)]) == [R.Begin] + TransSeq(st.items) + [Trans(it)];
  }

  predicate StartsMember(t: string, first: bool) {
    && t != "" && (t[0] == ']' ==> first)
    && !(|t| >= 2 && t[0] == '[' && t[1] == ':')
  }

  lemma SingleMember(t: string, first: bool, c: char, rest: string)
    requires StartsMember(t, first) && R.ClassChar(t) == Some((c, rest))
    requires !(|rest| >= 2 && rest[0] == '-' && rest[1] != ']')
    ensures R.ClassItems(t, first) == R.Prepend((c, c), R.ClassItems(rest, false))
  {
  }

  lemma RangeMember(t: string, first: bool, lo: char, rest: string, hi: char, tail: string)
    requires StartsMember(t, first) && R.ClassChar(t) == Some((lo, rest))
    requires |rest| >= 2 && rest[0] == '-' && rest[1] != ']' && R.ClassChar(rest[1..]) == Some((hi, tail))
    ensures R.ClassItems(t, first) == if hi < lo then None else R.Prepend((lo, hi), R.ClassItems(tail, false))
  {
    R.ClassCharShortens(t);
    R.ClassCharShortens(rest[1..]);
  }

  lemma {:induction false} EscapedBodyParses(body: string, first: bool, x: string)
    requires first ==> body != ""
    requires x != "" && x[0] == ']'
    ensures R.ClassItems(EscapeBody(body) + x, first) ==
              if G.NamesNoClass(body) && G.ValidRanges(body) then Some((BodyRanges(body), x[1..])) else None
    decreases |body|
  {
    var t := EscapeBody(body) + x;
    if body == "" {
      assert t == x;
    } else {
      EscapedCharReads(body, x);
      var rest := EscapeBody(body[1..]) + x;
      if OpensNamedClass(body) {
        assert R.ClassItems(t, first).None?;
      } else if |body| >= 3 && body[1] == '-' {
        EscapedCharReads(body[1..], x);
        EscapedCharReads(body[2..], x);
        assert body[1..][1..] == body[2..] && body[2..][1..] == body[3..];
        EscapeSplit(body[1..], x);
        assert rest[1..] == EscapeBody(body[2..]) + x;
        RangeMember(t, first, body[0], rest, body[2], EscapeBody(body[3..]) + x);
        EscapedBodyParses(body[3..], false, x);
      } else {
        if |body| > 1 { EscapedCharReads(body[1..], x); }
        SingleMember(t, first, body[0], rest);
        EscapedBodyParses(body[1..], false, x);
      }
    }
  }

  lemma LoneBracketNeverCloses()
    ensures R.ClassItems("]", true).None?
  {
    assert "]"[1..] == "" && R.ClassChar("]") == Some((']', ""));
    assert R.ClassItems("", false).None?;
    SingleMember("]", true, ']', "");
  }

  /** RE2 reads a class body back as the class the glob means, and goes on after its bracket, whatever
      comes there. */
  ghost predicate ReadBackAsMeant(body: string) {
    forall x :: x != "" && x[0] == ']' ==>
      var read := R.ClassItems(EscapeBody(body) + x, true);
      read.Some? && read.value.1 == x[1..] && forall c :: R.InRanges(read.value.0, c) <==> G.BodyHas(body, c)
  }

  /** Which it does exactly when the body is not empty, names no POSIX class and has its ranges in order. */
  lemma ReadBackExactlyWhenPlain(body: string)
    ensures ReadBackAsMeant(body) <==> G.PlainBody(body) && G.ValidRanges(body)
  {
    if G.PlainBody(body) && G.ValidRanges(body) {
      forall x | x != "" && x[0] == ']'
        ensures R.ClassItems(EscapeBody(body) + x, true) == Some((BodyRanges(body), x[1..]))
      {
        EscapedBodyParses(body, true, x);
      }
      forall c ensures R.InRanges(BodyRanges(body), c) <==> G.BodyHas(body, c) { RangesMeanBody(body, c); }
    } else {
      var x := "]";
      if body == "" {
        assert EscapeBody(body) + x == x;
        LoneBracketNeverCloses();
      } else {
        EscapedBodyParses(body, true, x);
      }
      assert R.ClassItems(EscapeBody(body) + x, true).None?;
    }
  }

  predicate OpensNamedClass(t: string) { |t| >= 2 && t[0] == '[' && t[1] == ':' }

  /** The escaped first character of a body reads back as itself, and never as a bracket. */
  lemma EscapedCharReads(body: string, x: string)
    requires body != "" && x != "" && x[0] == ']'
    ensures var t := EscapeBody(body) + x;
            && R.ClassChar(t) == Some((body[0], EscapeBody(body[1..]) + x))
            && t[0] != ']' && (t[0] == '-' <==> body[0] == '-') && |t| >= 2
            && (OpensNamedClass(t) <==> OpensNamedClass(body))
            && (body[0] == '-' ==> (t[1] == ']' <==> |body| == 1))
  {
    var t := EscapeBody(body) + x;
    var tail := EscapeBody(body[1..]) + x;
    EscapeSplit(body, x);
    if !Escaped(body[0]) {
      assert t[1..] == tail;
      if |body| > 1 { EscapeSplit(body[1..], x); }
    } else {
      assert t[2..] == tail;
    }
  }

  predicate Escaped(c: char) { c == '\\' || c == ']' }

  lemma EscapeSplit(body: string, x: string)
    requires body != ""
    ensures EscapeBody(body) + x ==
              (if Escaped(body[0]) then ['\\', body[0]] else [body[0]]) + (EscapeBody(body[1..]) + x)
  {
  }

  /** The glob's own reading of one turn: the open braces after it. */
  function Absorb(g: string, st: G.Stack): G.Stack
    requires g != ""
  {
    if g[0] == '*' then
      if |g| >= 2 && g[1] == '*' then
        if |g| >= 3 && g[2] == '/' then G.Push(st, G.AnySegments) else G.Push(st, G.AnyText)
      else G.Push(st, G.SegmentText)
    else if g[0] == '?' then G.Push(st, G.OneInSegment)
    else if g[0] == '[' then
      var end := G.FindClose(g, 2);
      if end == -1 then st else G.Push(st, G.OneOf(G.Negates(g[1..end]), G.Members(g[1..end])))
    else if g[0] == '{' then G.Inside(st, [], [])
    else if g[0] == '}' && st.Inside? then G.Push(st.below, G.Choice(st.branches + [G.Branch(st.items)]))
    else if g[0] == ',' && st.Inside? then st.(branches := st.branches + [G.Branch(st.items)], items := [])
    else G.Push(st, G.Literal(g[0]))
  }

  lemma AbsorbReads(g: string, st: G.Stack)
    requires g != ""
    ensures var turn := TakeTurn(g, G.Depth(st));
            && (turn.Err? ==> G.Read(g, st) == Err(turn.error))
            && (turn.Ok? ==> G.Read(g, st) == G.Read(g[turn.value.used..], Absorb(g, st))
                             && G.Depth(Absorb(g, st)) == turn.value.depth)
  {
  }

  /** The part of `ClassesPlain` and `RangesValid` that one turn looks at. */
  predicate TurnPlain(g: string)
    requires g != ""
  {
    g[0] == '[' && G.FindClose(g, 2) != -1 ==> G.PlainBody(G.Members(g[1..G.FindClose(g, 2)]))
  }

  predicate TurnInOrder(g: string)
    requires g != ""
  {
    g[0] == '[' && G.FindClose(g, 2) != -1 ==> G.ValidRanges(G.Members(g[1..G.FindClose(g, 2)]))
  }

  lemma TurnChecks(g: string, depth: nat)
    requires g != "" && TakeTurn(g, depth).Ok?
    ensures var rest := g[TakeTurn(g, depth).value.used..];
            && (G.ClassesPlain(g) <==> TurnPlain(g) && G.ClassesPlain(rest))
            && (G.RangesValid(g) <==> TurnInOrder(g) && G.RangesValid(rest))
  {
    if g[0] == '*' && |g| >= 2 && g[1] == '*' {
      assert g[1..][1..] == g[2..];
      assert G.ClassesPlain(g) <==> G.ClassesPlain(g[1..]);
      assert G.RangesValid(g) <==> G.RangesValid(g[1..]);
      if |g| >= 3 && g[2] == '/' {
        assert g[2..][1..] == g[3..];
        assert G.ClassesPlain(g[1..]) <==> G.ClassesPlain(g[2..]);
        assert G.RangesValid(g[1..]) <==> G.RangesValid(g[2..]);
      }
    }
  }

  lemma AtomParses(piece: string, x: string, st: R.Stack, atom: R.Regex)
    requires (piece, atom) in {("[^/]", NOT_SLASH), (".", R.AnyChar)} || exists c :: piece == [c] && atom == R.Char(c) && c !in "^$.()|*?+{[\\"
    ensures R.Parse(piece + x, st) == R.Parse(x, R.Push(st, atom))
  {
    var t := piece + x;
    if piece == "[^/]" {
      assert t[2..] == "/]" + x;
      assert ("/]" + x)[1..] == "]" + x && ("]" + x)[1..] == x;
      assert R.ClassItems("]" + x, false) == Some(([], x));
      assert [('/', '/')] + [] == [('/', '/')];
      assert R.ClassItems("/]" + x, true) == Some(([('/', '/')], x));
    } else {
      assert t[1..] == x;
    }
  }

  lemma QuantifierParses(c: char, x: string, st: R.Stack, atom: R.Regex)
    requires c == '*' || c == '?'
    requires !(atom.Star? || atom.Opt? || atom.Begin? || atom.End?)
    ensures R.Parse([c] + x, R.Push(st, atom)) == R.Parse(x, R.Push(st, if c == '*' then R.Star(atom) else R.Opt(atom)))
  {
    assert ([c] + x)[1..] == x;
    assert Init(st.atoms + [atom]) == st.atoms;
  }

  lemma OpenParses(x: string, st: R.Stack)
    ensures R.Parse("(?:" + x, st) == R.Parse(x, R.Inside(st, [], []))
  {
    assert ("(?:" + x)[3..] == x;
  }

  lemma CloseParses(x: string, st: R.Stack)
    requires st.Inside?
    ensures R.Parse(")" + x, st) == R.Parse(x, R.Push(st.below, R.Group(st.branches + [R.Branch(st.atoms)])))
  {
    assert (")" + x)[1..] == x;
  }

  lemma BarParses(x: string, st: R.Stack)
    ensures R.Parse("|" + x, st) == R.Parse(x, st.(branches := st.branches + [R.Branch(st.atoms)], atoms := []))
  {
    assert ("|" + x)[1..] == x;
  }

  // The inside of the group that stands for any number of segments.
  lemma SegmentBodyParses(x: string, st: R.Stack)
    ensures R.Parse(".*/" + x, R.Inside(st, [], [])) == R.Parse(x, R.Inside(st, [], [R.Star(R.AnyChar), R.Char('/')]))
  {
    var inner := R.Inside(st, [], []);
    var starred := R.Inside(st, [], [R.Star(R.AnyChar)]);
    assert R.Push(inner, R.Star(R.AnyChar)) == starred;
    assert R.Push(starred, R.Char('/')) == R.Inside(st, [], [R.Star(R.AnyChar), R.Char('/')]);
    assert ".*/" + x == "." + "*" + ("/" + x);
    StarredParses(".", "/" + x, inner, R.AnyChar);
    AtomParses("/", x, starred, R.Char('/'));
  }

  lemma SegmentsParse(x: string, st: R.Stack)
    ensures R.Parse("(?:.*/)?" + x, st) == R.Parse(x, R.Push(st, Trans(G.AnySegments)))
  {
    var inner := R.Inside(st, [], []);
    var full := R.Inside(st, [], [R.Star(R.AnyChar), R.Char('/')]);
    assert "(?:.*/)?" + x == "(?:" + (".*/" + (")" + (['?'] + x)));
    OpenParses(".*/" + (")" + (['?'] + x)), st);
    SegmentBodyParses(")" + (['?'] + x), st);
    CloseParses(['?'] + x, full);
    assert [] + [R.Branch(full.atoms)] == [R.Branch(full.atoms)];
    QuantifierParses('?', x, st, R.Group([R.Branch(full.atoms)]));
  }

  lemma ClassParses(raw: string, x: string, st: R.Stack)
    requires raw != "" && G.PlainBody(G.Members(raw))
    ensures R.Parse(ClassSource(raw) + x, st) ==
              if G.ValidRanges(G.Members(raw))
              then R.Parse(x, R.Push(st, R.Class(G.Negates(raw), BodyRanges(G.Members(raw))))) else None
  {
    var body := G.Members(raw);
    var t := ClassSource(raw) + x;
    var items := EscapeBody(body) + ("]" + x);
    EscapedBodyParses(body, true, "]" + x);
    assert ("]" + x)[1..] == x;
    if G.Negates(raw) {
      assert t[0] == '[' && t[1] == '^' && t[2..] == items;
    } else {
      assert t[0] == '[' && t[1..] == items;
      EscapeSplit(body, "]" + x);
      assert t[1] != '^';
    }
    OpensClass(t, G.Negates(raw), items, st);
  }

  lemma OpensClass(t: string, negated: bool, items: string, st: R.Stack)
    requires |t| >= 2 && t[0] == '[' && (t[1] == '^' <==> negated)
    requires items == if negated then t[2..] else t[1..]
    ensures var read := R.ClassItems(items, true);
            R.Parse(t, st) == if read.None? then None
                              else R.Parse(read.value.1, R.Push(st, R.Class(negated, read.value.0)))
  {
    R.ClassItemsShortens(items, true);
  }

  lemma LiteralParses(c: char, x: string, st: R.Stack)
    requires c !in "*?["
    ensures R.Parse(EscapeLiteral(c) + x, st) == R.Parse(x, R.Push(st, R.Char(c)))
  {
    var t := EscapeLiteral(c) + x;
    if c in ".+^$()|\\{}[]" {
      assert t[2..] == x;
    } else {
      AtomParses([c], x, st, R.Char(c));
    }
  }

  lemma StarParses(g: string, st: G.Stack, x: string)
    requires g != "" && g[0] == '*' && TakeTurn(g, G.Depth(st)).Ok?
    ensures R.Parse(TakeTurn(g, G.Depth(st)).value.piece + x, TransStack(st)) == R.Parse(x, TransStack(Absorb(g, st)))
  {
    var piece, ts := TakeTurn(g, G.Depth(st)).value.piece, TransStack(st);
    if piece == "(?:.*/)?" {
      SegmentsParse(x, ts);
      TransPush(st, G.AnySegments);
    } else if piece == ".*" {
      assert "." + "*" == ".*";
      StarredParses(".", x, ts, R.AnyChar);
      TransPush(st, G.AnyText);
    } else {
      assert "[^/]" + "*" == "[^/]*";
      StarredParses("[^/]", x, ts, NOT_SLASH);
      TransPush(st, G.SegmentText);
    }
  }

  lemma StarredParses(piece: string, x: string, st: R.Stack, atom: R.Regex)
    requires (piece == "." && atom == R.AnyChar) || (piece == "[^/]" && atom == NOT_SLASH)
    ensures R.Parse(piece + "*" + x, st) == R.Parse(x, R.Push(st, R.Star(atom)))
  {
    assert piece + "*" + x == piece + ("*" + x);
    AtomParses(piece, "*" + x, st, atom);
    QuantifierParses('*', x, st, atom);
  }

  lemma OneCharParses(g: string, st: G.Stack, x: string)
    requires g != "" && g[0] == '?'
    ensures R.Parse(TakeTurn(g, G.Depth(st)).value.piece + x, TransStack(st)) == R.Parse(x, TransStack(Absorb(g, st)))
  {
    AtomParses("[^/]", x, TransStack(st), NOT_SLASH);
    TransPush(st, G.OneInSegment);
  }

  lemma BracketParses(g: string, st: G.Stack, x: string)
    requires g != "" && g[0] == '[' && TakeTurn(g, G.Depth(st)).Ok? && TurnPlain(g)
    ensures R.Parse(TakeTurn(g, G.Depth(st)).value.piece + x, TransStack(st)) ==
              if TurnInOrder(g) then R.Parse(x, TransStack(Absorb(g, st))) else None
  {
    var raw := g[1..G.FindClose(g, 2)];
    ClassParses(raw, x, TransStack(st));
    TransPush(st, G.OneOf(G.Negates(raw), G.Members(raw)));
  }

  /** The source of one turn parses to what the glob reads in that turn. */
  lemma PieceParses(g: string, st: G.Stack, x: string)
    requires g != "" && TakeTurn(g, G.Depth(st)).Ok? && TurnPlain(g)
    ensures R.Parse(TakeTurn(g, G.Depth(st)).value.piece + x, TransStack(st)) ==
              if TurnInOrder(g) then R.Parse(x, TransStack(Absorb(g, st))) else None
  {
    if g[0] == '*' {
      StarParses(g, st, x);
    } else if g[0] == '?' {
      OneCharParses(g, st, x);
    } else if g[0] == '[' {
      BracketParses(g, st, x);
    } else {
      BraceOrLiteralParses(g, st, x);
    }
  }

  lemma BraceOrLiteralParses(g: string, st: G.Stack, x: string)
    requires g != "" && g[0] !in "*?["
    ensures R.Parse(TakeTurn(g, G.Depth(st)).value.piece + x, TransStack(st)) == R.Parse(x, TransStack(Absorb(g, st)))
  {
    var ts := TransStack(st);
    if g[0] == '{' {
      OpenParses(x, ts);
    } else if g[0] == '}' && st.Inside? {
      CloseParses(x, ts);
      TransBranchesSnoc(st.branches, G.Branch(st.items));
      TransPush(st.below, G.Choice(st.branches + [G.Branch(st.items)]));
    } else if g[0] == ',' && st.Inside? {
      BarParses(x, ts);
      TransBranchesSnoc(st.branches, G.Branch(st.items));
    } else {
      LiteralParses(g[0], x, ts);
      TransPush(st, G.Literal(g[0]));
    }
  }

  lemma {:induction false} EmittedReads(g: string, st: G.Stack)
    ensures var out := Emit(g, G.Depth(st));
            && (out.Err? ==> G.Read(g, st) == Err(out.error))
            && (out.Ok? ==> G.Read(g, st).Ok?)
    decreases |g|
  {
    if g != "" {
      AbsorbReads(g, st);
      var turn := TakeTurn(g, G.Depth(st));
      if turn.Ok? { EmittedReads(g[turn.value.used..], Absorb(g, st)); }
    }
  }

  lemma {:induction false} EmittedParses(g: string, st: G.Stack)
    requires Emit(g, G.Depth(st)).Ok? && G.ClassesPlain(g)
    ensures G.Read(g, st).Ok?
    ensures R.Parse(Emit(g, G.Depth(st)).value + "$", TransStack(st)) ==
              if G.RangesValid(g) then Some(Anchored(G.Read(g, st).value)) else None
    decreases |g|
  {
    if g == "" {
      var ts := TransStack(st);
      assert "" + "$" == "$" && "$"[1..] == "";
      assert R.Parse("$", ts) == R.Parse("", R.Push(ts, R.End));
      assert [] + [R.Branch(ts.atoms + [R.End])] == Anchored(st.items);
    } else {
      AbsorbReads(g, st);
      var turn := TakeTurn(g, G.Depth(st)).value;
      TurnChecks(g, G.Depth(st));
      var rest := Emit(g[turn.used..], turn.depth).value;
      PieceParses(g, st, rest + "$");
      assert turn.piece + rest + "$" == turn.piece + (rest + "$");
      EmittedParses(g[turn.used..], Absorb(g, st));
    }
  }

  // ---------------------------------------------------------------------------
  // What the translation means
  // ---------------------------------------------------------------------------

  /** The translation fails exactly on the globs that do not read, with the same error. */
  lemma FailsExactlyWhenUnclosed(glob: string)
    ensures Source(glob).Err? <==> G.ReadGlob(glob).Err?
    ensures Source(glob).Err? ==> Source(glob).error == G.ReadGlob(glob).error
  {
    EmittedReads(glob, G.Base([]));
  }

  /** The emitted source is valid RE2 exactly when the class ranges are in order, and then finds a
      match in exactly the texts the glob stands for, with `**` stopping at line breaks. */
  lemma SourcePreservesMeaning(glob: string, s: string)
    requires Source(glob).Ok? && G.ClassesPlain(glob)
    ensures R.Compile(Source(glob).value).Some? <==> G.RangesValid(glob)
    ensures G.RangesValid(glob) ==>
              (R.Find(R.Compile(Source(glob).value).value, s) <==> G.Denotes(glob, s, false))
  {
    var out := Emit(glob, 0).value;
    EmittedParses(glob, G.Base([]));
    var x := "^" + out + "$";
    assert x[1..] == out + "$";
    assert [] + [R.Begin] == [R.Begin] + [];
    if G.RangesValid(glob) { AnchoredFinds(G.ReadGlob(glob).value, s); }
  }
}
