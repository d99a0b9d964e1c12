/**
 The text of an env file: white space, lines, and assignments as the writer, the reader and the hub's
 loader recognise them. The three use different patterns, and agree on which lines assign which name.
 */
module EnvText {
  import opened Wrappers

  /** What `\s` matches and `trim` strips. */
  predicate White(c: char) {
    c == '\t' || c == '\n' || c == '\U{B}' || c == '\U{C}' || c == '\r' || c == ' ' || c == '\U{A0}'
    || c == '\U{1680}' || '\U{2000}' <= c <= '\U{200A}' || c == '\U{2028}' || c == '\U{2029}'
    || c == '\U{202F}' || c == '\U{205F}' || c == '\U{3000}' || c == '\U{FEFF}'
  }

  /** What `.` does not match. */
  predicate LineEnd(c: char) { c == '\n' || c == '\r' || c == '\U{2028}' || c == '\U{2029}' }

  predicate AllWhite(s: string) { forall i :: 0 <= i < |s| ==> White(s[i]) }

  predicate NoLineEnd(s: string) { forall i :: 0 <= i < |s| ==> !LineEnd(s[i]) }

  function SkipWhite(s: string): (n: nat)
    ensures n <= |s|
  {
    if s == "" || !White(s[0]) then 0 else 1 + SkipWhite(s[1..])
  }

  function TrimStart(s: string): string { s[SkipWhite(s)..] }

  function TrimEnd(s: string): string { if s != "" && White(Last(s)) then TrimEnd(Init(s)) else s }

  function Trim(s: string): string { TrimEnd(TrimStart(s)) }

  /** One pair of equal quotes around a text of one line. */
  predicate Quoted(s: string) {
    |s| >= 2 && (s[0] == '"' || s[0] == '\'') && Last(s) == s[0] && NoLineEnd(s)
  }

  function Unquote(s: string): string { if Quoted(s) then s[1..|s| - 1] else s }

  // ---------------------------------------------------------------------------
  // White space
  // ---------------------------------------------------------------------------

  lemma {:induction false} SkipFacts(s: string)
    ensures AllWhite(s[..SkipWhite(s)]) && (SkipWhite(s) < |s| ==> !White(s[SkipWhite(s)]))
  {
    if s != "" && White(s[0]) {
      SkipFacts(s[1..]);
      var n := SkipWhite(s);
      assert s[1..][..n - 1] == s[1..n];
      forall i | 0 <= i < n ensures White(s[..n][i]) {
        if i > 0 { assert s[..n][i] == s[1..][..n - 1][i - 1]; }
      }
    }
  }

  /** White space followed by something else is skipped exactly. */
  lemma {:induction false} SkipExactly(w: string, rest: string)
    requires AllWhite(w) && (rest == "" || !White(rest[0]))
    ensures SkipWhite(w + rest) == |w|
  {
    if w != "" {
      assert (w + rest)[1..] == w[1..] + rest;
      SkipExactly(w[1..], rest);
    } else {
      assert w + rest == rest;
    }
  }

  lemma {:induction false} TrimEndWhite(a: string, w: string)
    requires AllWhite(w)
    ensures TrimEnd(a + w) == TrimEnd(a)
    decreases |w|
  {
    if w == "" {
      assert a + w == a;
    } else {
      assert Last(a + w) == Last(w) && Init(a + w) == a + Init(w);
      TrimEndWhite(a, Init(w));
    }
  }

  lemma {:induction false} TrimEndAfter(a: string, c: char, b: string)
    requires !White(c)
    ensures TrimEnd(a + [c] + b) == a + [c] + TrimEnd(b)
    decreases |b|
  {
    var s := a + [c] + b;
    if b == "" {
      assert s == a + [c] && Last(s) == c;
    } else {
      assert Last(s) == Last(b) && Init(s) == a + [c] + Init(b);
      if White(Last(b)) { TrimEndAfter(a, c, Init(b)); } else { assert s == a + [c] + TrimEnd(b); }
    }
  }

  lemma {:induction false} TrimEndSplits(s: string) returns (w: string)
    ensures s == TrimEnd(s) + w && AllWhite(w)
    ensures TrimEnd(s) == "" || !White(Last(TrimEnd(s)))
  {
    if s != "" && White(Last(s)) {
      var v := TrimEndSplits(Init(s));
      w := v + [Last(s)];
      assert s == Init(s) + [Last(s)];
      assert TrimEnd(s) + w == TrimEnd(Init(s)) + v + [Last(s)];
    } else {
      w := "";
    }
  }

  lemma {:induction false} SkipInFront(t: string, w: string)
    requires SkipWhite(t) < |t|
    ensures SkipWhite(t + w) == SkipWhite(t)
  {
    if White(t[0]) {
      assert (t + w)[1..] == t[1..] + w;
      SkipInFront(t[1..], w);
    }
  }

  lemma {:induction false} SkipAll(w: string)
    requires AllWhite(w)
    ensures SkipWhite(w) == |w| && TrimStart(w) == ""
  {
    if w != "" { SkipAll(w[1..]); }
  }

  lemma NotAllSkipped(t: string)
    requires t != "" && !White(Last(t))
    ensures SkipWhite(t) < |t|
  {
    SkipFacts(t);
    assert t[..|t|] == t;
  }

  /** White space after a text that does not end in any makes no difference. */
  lemma TrimTail(t: string, w: string)
    requires AllWhite(w) && (t == "" || !White(Last(t)))
    ensures Trim(t + w) == Trim(t)
  {
    if t == "" {
      assert t + w == w;
      SkipAll(w);
    } else {
      var n := SkipWhite(t);
      NotAllSkipped(t);
      SkipInFront(t, w);
      assert TrimStart(t + w) == TrimStart(t) + w;
      TrimEndWhite(t[n..], w);
    }
  }

  /** Trimming the end first makes no difference. */
  lemma TrimOfTrimEnd(s: string)
    ensures Trim(TrimEnd(s)) == Trim(s)
  {
    var w := TrimEndSplits(s);
    TrimTail(TrimEnd(s), w);
  }

  lemma TrimShortens(s: string)
    ensures |Trim(s)| <= |s| && (Trim(s) != s ==> |Trim(s)| < |s|)
  {
    var w := TrimEndSplits(TrimStart(s));
    assert TrimStart(s) == Trim(s) + w;
    if SkipWhite(s) == 0 && w == "" { assert TrimStart(s) == s && Trim(s) == s; }
  }

  // ---------------------------------------------------------------------------
  // Lines
  // ---------------------------------------------------------------------------

  predicate OneLine(s: string) { forall i :: 0 <= i < |s| ==> s[i] != '\n' }

  /** `split("\n")`, built from the end: the last line grows until a newline is met. */
  function Split(s: string): (lines: seq<string>)
    ensures lines != []
  {
    if s == "" then [""]
    else
      var lines := Split(Init(s));
      if Last(s) == '\n' then lines + [""] else Init(lines) + [Last(lines) + [Last(s)]]
  }

  function Join(lines: seq<string>): string {
    if lines == [] then ""
    else if |lines| == 1 then lines[0]
    else Join(Init(lines)) + "\n" + Last(lines)
  }

  lemma {:induction false} SplitAppend(s: string, line: string)
    requires OneLine(line)
    ensures Split(s + "\n" + line) == Split(s) + [line]
    decreases |line|
  {
    var t := s + "\n" + line;
    if line == "" {
      assert Init(t) == s && Last(t) == '\n';
    } else {
      assert Init(t) == s + "\n" + Init(line) && Last(t) == Last(line);
      SplitAppend(s, Init(line));
      assert Init(Split(s) + [Init(line)]) == Split(s);
      assert Init(line) + [Last(line)] == line;
    }
  }

  lemma {:induction false} SplitOne(line: string)
    requires OneLine(line)
    ensures Split(line) == [line]
  {
    if line != "" {
      SplitOne(Init(line));
      assert Init(line) + [Last(line)] == line;
      assert Init([Init(line)]) == [];
    }
  }

  lemma SplitJoinStep(front: seq<string>, line: string)
    requires front != [] && OneLine(line) && Split(Join(front)) == front
    ensures Split(Join(front + [line])) == front + [line]
  {
    assert Init(front + [line]) == front && Last(front + [line]) == line;
    SplitAppend(Join(front), line);
  }

  /** Lines joined are split into the same lines. */
  lemma {:induction false} SplitJoin(lines: seq<string>)
    requires lines != [] && forall i :: 0 <= i < |lines| ==> OneLine(lines[i])
    ensures Split(Join(lines)) == lines
    decreases |lines|
  {
    if |lines| == 1 {
      SplitOne(lines[0]);
      assert Join(lines) == lines[0] && lines == [lines[0]];
    } else {
      var front, line := Init(lines), Last(lines);
      assert lines == front + [line];
      SplitJoin(front);
      SplitJoinStep(front, line);
    }
  }

  lemma {:induction false} SplitLines(s: string)
    ensures forall i :: 0 <= i < |Split(s)| ==> OneLine(Split(s)[i])
  {
    if s != "" {
      SplitLines(Init(s));
      assert OneLine(Last(Split(Init(s))));
    }
  }

  // ---------------------------------------------------------------------------
  // Assignments
  // ---------------------------------------------------------------------------

  predicate KeyStart(c: char) { 'A' <= c <= 'Z' || c == '_' }

  predicate KeyChar(c: char) { KeyStart(c) || '0' <= c <= '9' }

  /** The names the writer and the reader accept. */
  predicate EnvKey(key: string) { key != "" && KeyStart(key[0]) && forall i :: 0 <= i < |key| ==> KeyChar(key[i]) }

  /** What follows the `=` of a line that assigns `key`. */
  function AssignedRest(line: string, key: string): Option<string> {
    var body := TrimStart(line);
    if !(key <= body) then None
    else
      var tail := TrimStart(body[|key|..]);
      if tail == "" || tail[0] != '=' then None else Some(tail[1..])
  }

  predicate Assigns(line: string, key: string) { AssignedRest(line, key).Some? }

  /** The value the reader takes from a line; none from one whose rest has a line end in it. */
  function ReadLine(line: string, key: string): Option<string> {
    var rest := AssignedRest(line, key);
    if rest.None? || !NoLineEnd(rest.value) then None else Some(Unquote(Trim(rest.value)))
  }

  /** The name and value the hub's loader takes from a line. */
  function LoadLine(line: string): Option<(string, string)> { LoadTrimmed(Trim(line)) }

  function LoadTrimmed(trimmed: string): Option<(string, string)> {
    if trimmed == "" || trimmed[0] == '#' then None
    else
      var eq := IndexOfEq(trimmed);
      if eq.None? then None
      else
        var key := Trim(trimmed[..eq.value]);
        if key == "" then None else Some((key, Unquote(Trim(trimmed[eq.value + 1..]))))
  }

  function IndexOfEq(s: string): (i: Option<nat>)
    ensures i.Some? ==> i.value < |s| && s[i.value] == '=' && forall k :: 0 <= k < i.value ==> s[k] != '='
    ensures i.None? ==> forall k :: 0 <= k < |s| ==> s[k] != '='
  {
    if s == "" then None
    else if s[0] == '=' then Some(0)
    else
      var i := IndexOfEq(s[1..]);
      if i.None? then None else Some(i.value + 1)
  }

  lemma StartSplits(s: string)
    ensures s == s[..SkipWhite(s)] + TrimStart(s) && AllWhite(s[..SkipWhite(s)])
  {
    SkipFacts(s);
  }

  lemma AssignedForm(line: string, key: string) returns (w0: string, w: string)
    requires Assigns(line, key)
    ensures AllWhite(w0) && AllWhite(w) && line == w0 + key + w + "=" + AssignedRest(line, key).value
  {
    var body := TrimStart(line);
    var after := body[|key|..];
    var tail := TrimStart(after);
    w0, w := line[..SkipWhite(line)], after[..SkipWhite(after)];
    StartSplits(line);
    StartSplits(after);
    var rest := tail[1..];
    assert rest == AssignedRest(line, key).value;
    Rejoin(line, w0, body, key, after, w, tail, rest);
  }

  lemma Rejoin(line: string, w0: string, body: string, key: string, after: string, w: string, tail: string, rest: string)
    requires line == w0 + body && key <= body && after == body[|key|..] && after == w + tail
    requires tail != "" && tail[0] == '=' && rest == tail[1..]
    ensures line == w0 + key + w + "=" + rest
  {
    assert body == key + after && tail == "=" + rest;
  }

  lemma FormAssigns(w0: string, key: string, w: string, rest: string)
    requires AllWhite(w0) && AllWhite(w) && EnvKey(key)
    ensures AssignedRest(w0 + key + w + "=" + rest, key) == Some(rest)
  {
    var line := w0 + key + w + "=" + rest;
    assert !White(key[0]);
    assert line == w0 + (key + w + "=" + rest);
    SkipExactly(w0, key + w + "=" + rest);
    var body := key + w + "=" + rest;
    assert TrimStart(line) == body && body[|key|..] == w + ("=" + rest);
    SkipExactly(w, "=" + rest);
    assert TrimStart(body[|key|..]) == "=" + rest && ("=" + rest)[1..] == rest;
  }

  /** A line assigns one name at most. */
  lemma AssignsOneKey(line: string, a: string, b: string)
    requires EnvKey(a) && EnvKey(b) && Assigns(line, a) && Assigns(line, b)
    ensures a == b
  {
    var body := TrimStart(line);
    assert |a| < |body| && |b| < |body| && a == body[..|a|] && b == body[..|b|];
    AfterKey(body, a);
    AfterKey(body, b);
    KeyNoLonger(body, a, b);
    KeyNoLonger(body, b, a);
  }

  lemma KeyNoLonger(body: string, a: string, b: string)
    requires |a| < |body| && !KeyChar(body[|a|]) && b <= body && EnvKey(b)
    ensures |b| <= |a|
  {
    forall i | 0 <= i < |b| ensures KeyChar(body[i]) { assert body[i] == b[i]; }
  }

  /** The character after an assigned name is no name character. */
  lemma AfterKey(body: string, key: string)
    requires key <= body && TrimStart(body[|key|..]) != "" && TrimStart(body[|key|..])[0] == '='
    ensures |key| < |body| && !KeyChar(body[|key|])
  {
    SkipFacts(body[|key|..]);
    var n := SkipWhite(body[|key|..]);
    if n > 0 { assert White(body[|key|..][..n][0]); }
  }

  // ---------------------------------------------------------------------------
  // The loader and the reader recognise the same assignments
  // ---------------------------------------------------------------------------

  lemma FirstEq(a: string, rest: string)
    requires forall i :: 0 <= i < |a| ==> a[i] != '='
    ensures IndexOfEq(a + "=" + rest) == Some(|a|)
  {
    var s := a + "=" + rest;
    assert s[|a|] == '=';
    assert forall i :: 0 <= i < |a| ==> s[i] == a[i];
  }

  lemma TrimAssignment(w0: string, key: string, w: string, rest: string)
    requires AllWhite(w0) && AllWhite(w) && EnvKey(key)
    ensures Trim(w0 + key + w + "=" + rest) == key + w + "=" + TrimEnd(rest)
  {
    var body := key + w + "=" + rest;
    assert w0 + key + w + "=" + rest == w0 + body;
    assert body[0] == key[0] && !White(key[0]);
    SkipExactly(w0, body);
    assert (w0 + body)[|w0|..] == body;
    TrimEndAfter(key + w, '=', rest);
    assert body == key + w + ['='] + rest;
  }

  lemma LoadAssignment(key: string, w: string, b: string)
    requires AllWhite(w) && EnvKey(key)
    ensures LoadTrimmed(key + w + "=" + b) == Some((key, Unquote(Trim(b))))
  {
    var t := key + w + "=" + b;
    assert t[0] == key[0];
    forall i | 0 <= i < |key + w| ensures (key + w)[i] != '=' {
      assert i >= |key| ==> White(w[i - |key|]);
      assert i < |key| ==> KeyChar(key[i]);
    }
    FirstEq(key + w, b);
    assert t[..|key + w|] == key + w && t[|key + w| + 1..] == b;
    TrimKey(key, w);
  }

  lemma LoaderReadsAssignment(line: string, key: string)
    requires EnvKey(key) && Assigns(line, key)
    ensures LoadLine(line) == Some((key, Unquote(Trim(AssignedRest(line, key).value))))
  {
    var rest := AssignedRest(line, key).value;
    var w0, w := AssignedForm(line, key);
    TrimAssignment(w0, key, w, rest);
    LoadAssignment(key, w, TrimEnd(rest));
    TrimOfTrimEnd(rest);
  }

  lemma TrimKey(key: string, w: string)
    requires EnvKey(key) && AllWhite(w)
    ensures Trim(key + w) == key
  {
    assert (key + w)[0] == key[0] && !White(key[0]);
    assert SkipWhite(key + w) == 0 && TrimStart(key + w) == key + w;
    TrimEndWhite(key, w);
    assert KeyChar(Last(key));
  }

  /** What the loader takes for a name stands at the start, up to white space. */
  lemma LoadedName(trimmed: string, key: string) returns (w: string, b: string)
    requires LoadTrimmed(trimmed).Some? && LoadTrimmed(trimmed).value.0 == key && !White(trimmed[0])
    ensures AllWhite(w) && trimmed == key + w + "=" + b
  {
    var eq := IndexOfEq(trimmed).value;
    var a := trimmed[..eq];
    b := trimmed[eq + 1..];
    assert trimmed == a + "=" + b;
    assert Trim("") == "";
    assert a[0] == trimmed[0];
    assert SkipWhite(a) == 0 && TrimStart(a) == a;
    w := TrimEndSplits(a);
  }

  lemma TrimmedHead(line: string)
    requires Trim(line) != ""
    ensures !White(Trim(line)[0])
  {
    SkipFacts(line);
    var v := TrimEndSplits(TrimStart(line));
    assert Trim(line)[0] == TrimStart(line)[0];
  }

  lemma LoadedIsAssigned(line: string, key: string)
    requires EnvKey(key) && LoadLine(line).Some? && LoadLine(line).value.0 == key
    ensures Assigns(line, key)
  {
    TrimmedHead(line);
    var w, b := LoadedName(Trim(line), key);
    var v := TrimEndSplits(TrimStart(line));
    var w0 := line[..SkipWhite(line)];
    StartSplits(line);
    Regroup(w0, key, w, b, v);
    FormAssigns(w0, key, w, b + v);
  }

  lemma Regroup(w0: string, key: string, w: string, b: string, v: string)
    ensures w0 + (key + w + "=" + b + v) == w0 + key + w + "=" + (b + v)
  {
  }
}
