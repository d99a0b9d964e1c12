/**
 The part of RE2 that path filters compile to: its syntax trees, a parser for its source text, and
 which stretches of a text a tree matches. Text is a sequence of code units.
 */
module Re2 {
  import opened Wrappers

  datatype Regex =
    | Char(c: char)
    | AnyChar
    | Class(negated: bool, ranges: seq<(char, char)>)
    | Star(body: Regex)
    | Opt(body: Regex)
    | Group(branches: seq<Branch>)
    | Begin
    | End

  datatype Branch = Branch(atoms: seq<Regex>)

  // ---------------------------------------------------------------------------
  // Matching
  // ---------------------------------------------------------------------------

  predicate InRanges(ranges: seq<(char, char)>, c: char) {
    exists k :: 0 <= k < |ranges| && ranges[k].0 <= c <= ranges[k].1
  }

  /** Whether `r` matches exactly the text between positions `i` and `j` of `s`. */
  predicate Match(r: Regex, s: string, i: nat, j: nat)
    requires i <= j <= |s|
    decreases r, j - i
  {
    match r
    case Char(c) => j == i + 1 && s[i] == c
    case AnyChar => j == i + 1 && s[i] != '\n'
    case Class(negated, ranges) => j == i + 1 && InRanges(ranges, s[i]) != negated
    case Star(body) => i == j || exists k :: i < k <= j && Match(body, s, i, k) && Match(r, s, k, j)
    case Opt(body) => i == j || Match(body, s, i, j)
    case Group(branches) => exists b :: 0 <= b < |branches| && MatchSeq(branches[b].atoms, s, i, j)
    case Begin => i == j == 0
    case End => i == j == |s|
  }

  predicate MatchSeq(rs: seq<Regex>, s: string, i: nat, j: nat)
    requires i <= j <= |s|
    decreases rs, j - i
  {
    if rs == [] then i == j
    else exists k :: i <= k <= j && MatchSeq(Init(rs), s, i, k) && Match(Last(rs), s, k, j)
  }

  /** An unanchored search, as the filters use it. */
  predicate Find(branches: seq<Branch>, s: string) {
    exists b, i, j :: 0 <= b < |branches| && 0 <= i <= j <= |s| && MatchSeq(branches[b].atoms, s, i, j)
  }

  // ---------------------------------------------------------------------------
  // Parsing
  // ---------------------------------------------------------------------------

  /** Open groups, innermost outermost last: the finished branches and the atoms of the current one. */
  datatype Stack =
    | Base(branches: seq<Branch>, atoms: seq<Regex>)
    | Inside(below: Stack, branches: seq<Branch>, atoms: seq<Regex>)

  function Push(st: Stack, r: Regex): Stack {
    st.(atoms := st.atoms + [r])
  }

  predicate Repeatable(st: Stack) {
    st.atoms != [] && var r := Last(st.atoms); !(r.Star? || r.Opt? || r.Begin? || r.End?)
  }

  function Requantify(st: Stack, r: Regex): Stack
    requires st.atoms != []
  {
    st.(atoms := Init(st.atoms) + [r])
  }

  predicate IsAlnum(c: char) { 'a' <= c <= 'z' || 'A' <= c <= 'Z' || '0' <= c <= '9' }

  /** A backslash before one of these makes it literal. */
  predicate IsEscapable(c: char) { c < 128 as char && !IsAlnum(c) }

  /** One character of a class body and the text after it. */
  function ClassChar(t: string): Option<(char, string)> {
    if t == "" then None
    else if t[0] != '\\' then Some((t[0], t[1..]))
    else if |t| >= 2 && IsEscapable(t[1]) then Some((t[1], t[2..]))
    else None
  }

  lemma ClassCharShortens(t: string)
    ensures ClassChar(t).Some? ==> |ClassChar(t).value.1| < |t|
  {
  }

  /** The ranges of a class body up to its closing bracket, and the text after the bracket. A leading
      bracket is an ordinary member; a named class such as `[:alpha:]` is outside this subset. */
  function ClassItems(t: string, first: bool): Option<(seq<(char, char)>, string)>
    decreases |t|
  {
    if t == "" then None
    else if t[0] == ']' && !first then Some(([], t[1..]))
    else if |t| >= 2 && t[0] == '[' && t[1] == ':' then None
    else
      ClassCharShortens(t);
      var lo := ClassChar(t);
      if lo.None? then None
      else
        var rest := lo.value.1;
        if |rest| >= 2 && rest[0] == '-' && rest[1] != ']' then
          ClassCharShortens(rest[1..]);
          var hi := ClassChar(rest[1..]);
          if hi.None? || hi.value.0 < lo.value.0 then None
          else Prepend((lo.value.0, hi.value.0), ClassItems(hi.value.1, false))
        else Prepend((lo.value.0, lo.value.0), ClassItems(rest, false))
  }

  function Prepend(range: (char, char), tail: Option<(seq<(char, char)>, string)>): Option<(seq<(char, char)>, string)> {
    if tail.None? then None else Some(([range] + tail.value.0, tail.value.1))
  }

  lemma ClassItemsShortens(t: string, first: bool)
    ensures ClassItems(t, first).Some? ==> |ClassItems(t, first).value.1| < |t|
    decreases |t|
  {
    if t != "" && ClassChar(t).Some? {
      var rest := ClassChar(t).value.1;
      ClassItemsShortens(rest, false);
      if |rest| >= 2 && ClassChar(rest[1..]).Some? {
        ClassItemsShortens(ClassChar(rest[1..]).value.1, false);
      }
    }
  }

  /** The branches of the expression written as `x`, given the groups open so far. */
  function Parse(x: string, st: Stack): Option<seq<Branch>>
    decreases |x|
  {
    if x == "" then
      if st.Base? then Some(st.branches + [Branch(st.atoms)]) else None
    else match x[0]
      case '^' => Parse(x[1..], Push(st, Begin))
      case '$' => Parse(x[1..], Push(st, End))
      case '.' => Parse(x[1..], Push(st, AnyChar))
      case '(' =>
        if |x| >= 3 && x[1] == '?' && x[2] == ':' then Parse(x[3..], Inside(st, [], [])) else None
      case ')' =>
        if st.Inside? then Parse(x[1..], Push(st.below, Group(st.branches + [Branch(st.atoms)]))) else None
      case '|' => Parse(x[1..], st.(branches := st.branches + [Branch(st.atoms)], atoms := []))
      case '*' =>
        if Repeatable(st) then Parse(x[1..], Requantify(st, Star(Last(st.atoms)))) else None
      case '?' =>
        if Repeatable(st) then Parse(x[1..], Requantify(st, Opt(Last(st.atoms)))) else None
      case '+' => None
      case '{' => None
      case '[' =>
        var negated := |x| >= 2 && x[1] == '^';
        var body := if negated then x[2..] else x[1..];
        ClassItemsShortens(body, true);
        var items := ClassItems(body, true);
        if items.None? then None
        else Parse(items.value.1, Push(st, Class(negated, items.value.0)))
      case '\\' =>
        if |x| >= 2 && IsEscapable(x[1]) then Parse(x[2..], Push(st, Char(x[1]))) else None
      case c => Parse(x[1..], Push(st, Char(c)))
  }

  function Compile(source: string): Option<seq<Branch>> {
    Parse(source, Base([], []))
  }
}
