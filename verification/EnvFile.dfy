/**
 The env file: the writer that replaces one variable, the reader that takes the last assignment, and the
 hub's loader that takes the first.
 */
module EnvFile {
  import opened Wrappers
  import opened EnvText

  datatype WriteError = InvalidKey | ForbiddenValue

  predicate Forbidden(value: string) {
    exists i :: 0 <= i < |value| && (value[i] == '\r' || value[i] == '\n' || value[i] == '\0')
  }

  // ---------------------------------------------------------------------------
  // Writing
  // ---------------------------------------------------------------------------

  /** The lines of a file, without the empty one its trailing newline leaves. */
  function LinesOf(file: Option<string>): seq<string> {
    if file.None? then []
    else
      var lines := Split(file.value);
      if Last(lines) == "" then Init(lines) else lines
  }

  predicate AnyAssigns(lines: seq<string>, key: string) { exists i :: 0 <= i < |lines| && Assigns(lines[i], key) }

  function Assignment(key: string, value: string): string { key + "=" + value }

  /** The first assignment replaced, the others dropped, every other line kept. */
  function Rewritten(lines: seq<string>, key: string, value: string): seq<string> {
    if lines == [] then []
    else
      Rewritten(Init(lines), key, value)
      + if !Assigns(Last(lines), key) then [Last(lines)]
        else if AnyAssigns(Init(lines), key) then [] else [Assignment(key, value)]
  }

  function WrittenLines(lines: seq<string>, key: string, value: string): seq<string> {
    Rewritten(lines, key, value) + if AnyAssigns(lines, key) then [] else [Assignment(key, value)]
  }

  function Written(file: Option<string>, key: string, value: string): string {
    Join(WrittenLines(LinesOf(file), key, value)) + "\n"
  }

  // ---------------------------------------------------------------------------
  // Reading and loading
  // ---------------------------------------------------------------------------

  /** The value of the last line that gives one. */
  function LastValue(lines: seq<string>, key: string): Option<string> {
    if lines == [] then None
    else
      var value := ReadLine(Last(lines), key);
      if value.Some? then value else LastValue(Init(lines), key)
  }

  function ReadValue(file: Option<string>, key: string): Option<string> {
    if file.None? then None else LastValue(Split(file.value), key)
  }

  /** The environment after the loader went through the lines: what is set already stays. */
  function Loaded(lines: seq<string>, env: map<string, string>): map<string, string> {
    if lines == [] then env
    else
      var before := Loaded(Init(lines), env);
      match LoadLine(Last(lines))
      case Some((key, value)) => if key in before then before else before[key := value]
      case None => before
  }

  // ---------------------------------------------------------------------------
  // The lines of a written file
  // ---------------------------------------------------------------------------

  lemma AssignmentAssigns(key: string, value: string)
    requires EnvKey(key)
    ensures AssignedRest(Assignment(key, value), key) == Some(value)
  {
    FormAssigns("", key, "", value);
    assert "" + key + "" + "=" + value == Assignment(key, value);
  }

  lemma AssignmentIsOneLine(key: string, value: string)
    requires EnvKey(key) && !Forbidden(value)
    ensures OneLine(Assignment(key, value))
  {
    var line := Assignment(key, value);
    forall i | 0 <= i < |line| ensures line[i] != '\n' {
      if i < |key| { assert line[i] == key[i] && KeyChar(key[i]); }
      if i > |key| { assert line[i] == value[i - |key| - 1]; }
    }
  }

  lemma {:induction false} RewrittenOneLine(lines: seq<string>, key: string, value: string)
    requires EnvKey(key) && !Forbidden(value) && forall i :: 0 <= i < |lines| ==> OneLine(lines[i])
    ensures forall i :: 0 <= i < |Rewritten(lines, key, value)| ==> OneLine(Rewritten(lines, key, value)[i])
  {
    if lines != [] {
      RewrittenOneLine(Init(lines), key, value);
      AssignmentIsOneLine(key, value);
    }
  }

  lemma {:induction false} RewrittenNonEmpty(lines: seq<string>, key: string, value: string)
    requires AnyAssigns(lines, key)
    ensures Rewritten(lines, key, value) != []
  {
    AnyAssignsLast(lines, key);
    if AnyAssigns(Init(lines), key) { RewrittenNonEmpty(Init(lines), key, value); }
  }

  /** A written file has the written lines and its trailing newline. */
  lemma WrittenSplits(file: Option<string>, key: string, value: string)
    requires EnvKey(key) && !Forbidden(value)
    ensures Split(Written(file, key, value)) == WrittenLines(LinesOf(file), key, value) + [""]
  {
    var lines := LinesOf(file);
    var out := WrittenLines(lines, key, value);
    if file.Some? { SplitLines(file.value); }
    RewrittenOneLine(lines, key, value);
    AssignmentIsOneLine(key, value);
    if AnyAssigns(lines, key) { RewrittenNonEmpty(lines, key, value); }
    SplitJoin(out);
    SplitAppend(Join(out), "");
    assert Join(out) + "\n" + "" == Written(file, key, value);
  }

  // ---------------------------------------------------------------------------
  // One assignment, and the other lines
  // ---------------------------------------------------------------------------

  /** The lines that do not assign `key`. */
  function Others(lines: seq<string>, key: string): seq<string> {
    if lines == [] then []
    else Others(Init(lines), key) + if Assigns(Last(lines), key) then [] else [Last(lines)]
  }

  function Assigners(lines: seq<string>, key: string): seq<string> {
    if lines == [] then []
    else Assigners(Init(lines), key) + if Assigns(Last(lines), key) then [Last(lines)] else []
  }

  lemma Append1(lines: seq<string>, line: string, key: string)
    ensures Others(lines + [line], key) == Others(lines, key) + if Assigns(line, key) then [] else [line]
    ensures Assigners(lines + [line], key) == Assigners(lines, key) + if Assigns(line, key) then [line] else []
  {
    assert Init(lines + [line]) == lines && Last(lines + [line]) == line;
  }

  lemma AnyAssignsLast(lines: seq<string>, key: string)
    requires lines != []
    ensures AnyAssigns(lines, key) <==> AnyAssigns(Init(lines), key) || Assigns(Last(lines), key)
  {
    if AnyAssigns(Init(lines), key) {
      var i :| 0 <= i < |Init(lines)| && Assigns(Init(lines)[i], key);
      assert lines[i] == Init(lines)[i];
    }
    if AnyAssigns(lines, key) && !Assigns(Last(lines), key) {
      var i :| 0 <= i < |lines| && Assigns(lines[i], key);
      assert Init(lines)[i] == lines[i];
    }
  }

  lemma {:induction false} RewrittenKeepsOthers(lines: seq<string>, key: string, value: string)
    requires EnvKey(key)
    ensures Others(Rewritten(lines, key, value), key) == Others(lines, key)
    ensures Assigners(Rewritten(lines, key, value), key) == if AnyAssigns(lines, key) then [Assignment(key, value)] else []
  {
    if lines != [] {
      var front, line := Rewritten(Init(lines), key, value), Last(lines);
      RewrittenKeepsOthers(Init(lines), key, value);
      AnyAssignsLast(lines, key);
      AssignmentAssigns(key, value);
      Append1(front, line, key);
      Append1(front, Assignment(key, value), key);
      assert front + [] == front;
    }
  }

  lemma {:induction false} LastValueOfOthers(lines: seq<string>, key: string, other: string)
    requires EnvKey(key) && EnvKey(other) && key != other
    ensures LastValue(Others(lines, key), other) == LastValue(lines, other)
  {
    if lines != [] {
      LastValueOfOthers(Init(lines), key, other);
      if Assigns(Last(lines), key) && Assigns(Last(lines), other) {
        AssignsOneKey(Last(lines), key, other);
      }
      var front := Others(Init(lines), key);
      assert Init(front + [Last(lines)]) == front && Last(front + [Last(lines)]) == Last(lines);
      assert front + [] == front;
    }
  }

  lemma {:induction false} LastValueOfAssigners(lines: seq<string>, key: string)
    ensures LastValue(Assigners(lines, key), key) == LastValue(lines, key)
  {
    if lines != [] {
      LastValueOfAssigners(Init(lines), key);
      var front := Assigners(Init(lines), key);
      assert Init(front + [Last(lines)]) == front && Last(front + [Last(lines)]) == Last(lines);
      assert front + [] == front;
    }
  }

  lemma EmptyLineSaysNothing(lines: seq<string>, key: string)
    requires EnvKey(key)
    ensures LastValue(lines + [""], key) == LastValue(lines, key)
    ensures Others(lines + [""], key) == Others(lines, key) + [""] && Assigners(lines + [""], key) == Assigners(lines, key)
  {
    assert TrimStart("") == "" && !Assigns("", key);
    assert Init(lines + [""]) == lines && Last(lines + [""]) == "";
    Append1(lines, "", key);
  }

  lemma WrittenLinesFacts(lines: seq<string>, key: string, value: string)
    requires EnvKey(key)
    ensures Others(WrittenLines(lines, key, value), key) == Others(lines, key)
    ensures Assigners(WrittenLines(lines, key, value), key) == [Assignment(key, value)]
  {
    var out := Rewritten(lines, key, value);
    RewrittenKeepsOthers(lines, key, value);
    AssignmentAssigns(key, value);
    Append1(out, Assignment(key, value), key);
    assert out + [] == out;
  }

  // ---------------------------------------------------------------------------
  // Main results
  // ---------------------------------------------------------------------------

  /** After a write exactly one assignment of the name is left, and the other lines are the same in the
      same order. */
  lemma OneAssignmentRemains(file: Option<string>, key: string, value: string)
    requires EnvKey(key) && !Forbidden(value)
    ensures Assigners(Split(Written(file, key, value)), key) == [Assignment(key, value)]
    ensures Others(Split(Written(file, key, value)), key) == Others(LinesOf(file), key) + [""]
  {
    WrittenSplits(file, key, value);
    WrittenLinesFacts(LinesOf(file), key, value);
    EmptyLineSaysNothing(WrittenLines(LinesOf(file), key, value), key);
  }

  /** What is read back: the value without outer white space and one pair of quotes, unless it has a line
      separator in it. */
  lemma ReadBack(file: Option<string>, key: string, value: string)
    requires EnvKey(key) && !Forbidden(value)
    ensures ReadValue(Some(Written(file, key, value)), key) == if NoLineEnd(value) then Some(Unquote(Trim(value))) else None
  {
    var lines := Split(Written(file, key, value));
    OneAssignmentRemains(file, key, value);
    LastValueOfAssigners(lines, key);
    AssignmentAssigns(key, value);
    var one := [Assignment(key, value)];
    assert Last(one) == Assignment(key, value) && Init(one) == [];
  }

  /** A value survives being written and read exactly when it has no line separator, no outer white space
      and no pair of quotes around it. */
  lemma RoundTripExactlyWhenPlain(file: Option<string>, key: string, value: string)
    requires EnvKey(key) && !Forbidden(value)
    ensures ReadValue(Some(Written(file, key, value)), key) == Some(value)
       <==> NoLineEnd(value) && Trim(value) == value && !Quoted(value)
  {
    ReadBack(file, key, value);
    TrimShortens(value);
    assert |Unquote(Trim(value))| <= |Trim(value)|;
  }

  /** Every other variable reads as before. */
  lemma OtherKeysReadTheSame(file: Option<string>, key: string, value: string, other: string)
    requires EnvKey(key) && EnvKey(other) && key != other && !Forbidden(value)
    ensures ReadValue(Some(Written(file, key, value)), other) == ReadValue(file, other)
  {
    var lines := LinesOf(file);
    var out := WrittenLines(lines, key, value);
    WrittenSplits(file, key, value);
    WrittenLinesFacts(lines, key, value);
    EmptyLineSaysNothing(out, other);
    LastValueOfOthers(out, key, other);
    LastValueOfOthers(lines, key, other);
    if file.Some? && Last(Split(file.value)) == "" {
      assert Split(file.value) == lines + [""];
      EmptyLineSaysNothing(lines, other);
    }
  }

  function RestOf(line: string, key: string): string {
    if Assigns(line, key) then AssignedRest(line, key).value else ""
  }

  /** A line sets `key` in the loader's environment exactly when it assigns it. */
  lemma LoaderKey(line: string, key: string)
    requires EnvKey(key)
    ensures Assigns(line, key) <==> LoadLine(line).Some? && LoadLine(line).value.0 == key
    ensures Assigns(line, key) ==> LoadLine(line).value.1 == Unquote(Trim(RestOf(line, key)))
  {
    if Assigns(line, key) { LoaderReadsAssignment(line, key); }
    if LoadLine(line).Some? && LoadLine(line).value.0 == key { LoadedIsAssigned(line, key); }
  }

  lemma {:induction false} LoadedFromAssigners(lines: seq<string>, env: map<string, string>, key: string)
    requires EnvKey(key) && key !in env
    ensures key in Loaded(lines, env) <==> Assigners(lines, key) != []
    ensures Assigners(lines, key) != [] ==> Loaded(lines, env)[key] == Unquote(Trim(RestOf(Assigners(lines, key)[0], key)))
  {
    if lines != [] {
      LoadedFromAssigners(Init(lines), env, key);
      LoaderKey(Last(lines), key);
      assert Assigners(lines, key) == Assigners(Init(lines), key) + if Assigns(Last(lines), key) then [Last(lines)] else [];
    }
  }

  /** The hub's loader, which takes the first assignment, gives a name that is not set already the value
      written; the reader, which takes the last, agrees exactly when the value has no line separator. */
  lemma LoaderAgrees(file: Option<string>, key: string, value: string, env: map<string, string>)
    requires EnvKey(key) && !Forbidden(value) && key !in env
    ensures var env' := Loaded(Split(Written(file, key, value)), env);
            && key in env' && env'[key] == Unquote(Trim(value))
            && (ReadValue(Some(Written(file, key, value)), key) == Some(env'[key]) <==> NoLineEnd(value))
  {
    OneAssignmentRemains(file, key, value);
    LoadedFromAssigners(Split(Written(file, key, value)), env, key);
    AssignmentAssigns(key, value);
    ReadBack(file, key, value);
  }

  // ---------------------------------------------------------------------------
  // The file
  // ---------------------------------------------------------------------------

  class File {
    var contents: Option<string>

    constructor (contents: Option<string>)
      ensures this.contents == contents
    {
      this.contents := contents;
    }

    method WriteEnvFileValue(key: string, value: string) returns (r: Result<(), WriteError>)
      modifies this
      ensures r.Err? ==> contents == old(contents)
      ensures r == Err(InvalidKey) <==> !EnvKey(key)
      ensures r == Err(ForbiddenValue) <==> EnvKey(key) && Forbidden(value)
      ensures r.Ok? ==> contents == Some(Written(old(contents), key, value))
    {
      if !EnvKey(key) { return Err(InvalidKey); }
      if Forbidden(value) { return Err(ForbiddenValue); }
      var lines := LinesOf(contents);
      var out: seq<string> := [];
      var replaced := false;
      var i := 0;
      while i < |lines|
        invariant 0 <= i <= |lines|
        invariant out == Rewritten(lines[..i], key, value) && replaced == AnyAssigns(lines[..i], key)
      {
        var line := lines[i];
        assert Init(lines[..i + 1]) == lines[..i] && Last(lines[..i + 1]) == line;
        AnyAssignsLast(lines[..i + 1], key);
        if !Assigns(line, key) {
          out := out + [line];
        } else if !replaced {
          out := out + [Assignment(key, value)];
          replaced := true;
        }
        i := i + 1;
      }
      assert lines[..i] == lines;
      ghost var rewritten := out;
      assert rewritten + [] == rewritten;
      if !replaced { out := out + [Assignment(key, value)]; }
      assert out == WrittenLines(lines, key, value);
      contents := Some(Join(out) + "\n");
      return Ok(());
    }

    method ReadEnvFileValue(key: string) returns (r: Result<Option<string>, WriteError>)
      ensures r == if EnvKey(key) then Ok(ReadValue(contents, key)) else Err(InvalidKey)
    {
      if !EnvKey(key) { return Err(InvalidKey); }
      if contents.None? { return Ok(None); }
      var lines := Split(contents.value);
      var value: Option<string> := None;
      var i := 0;
      while i < |lines|
        invariant 0 <= i <= |lines| && value == LastValue(lines[..i], key)
      {
        assert Init(lines[..i + 1]) == lines[..i] && Last(lines[..i + 1]) == lines[i];
        var found := ReadLine(lines[i], key);
        if found.Some? { value := found; }
        i := i + 1;
      }
      assert lines[..i] == lines;
      return Ok(value);
    }

    /** Loads the variables that are not set yet. */
    method SourceEnvFile(env: map<string, string>) returns (r: Option<map<string, string>>)
      ensures r == if contents.None? then None else Some(Loaded(Split(contents.value), env))
    {
      if contents.None? { return None; }
      var lines := Split(contents.value);
      var now := env;
      var i := 0;
      while i < |lines|
        invariant 0 <= i <= |lines| && now == Loaded(lines[..i], env)
      {
        assert Init(lines[..i + 1]) == lines[..i] && Last(lines[..i + 1]) == lines[i];
        var found := LoadLine(lines[i]);
        if found.Some? && found.value.0 !in now { now := now[found.value.0 := found.value.1]; }
        i := i + 1;
      }
      assert lines[..i] == lines;
      return Some(now);
    }
  }
}
