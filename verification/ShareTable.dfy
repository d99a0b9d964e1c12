/**
 The relay's tables of shares: each node and each hub replaces its own rows.
 */
module ShareTable {
  import opened Wrappers

  type User = string
  type ExecutorId = string

  const MAX_CONFIG_UPDATE_ENTRIES := 256
  const MAX_HUB_SHARE_ENTRIES := 1000
  const MAX_INSTRUCTIONS_LENGTH := 4096

  /** A field of a message: missing, a text, or something else that is false or true in a condition. */
  datatype Field = Absent | Text(text: string) | OtherFalse | OtherTrue

  datatype RawEntry = NotObject | RawEntry(share: Field, path: Field, instructions: Field)

  datatype Payload = NotArray | Entries(entries: seq<RawEntry>)

  datatype Rejection =
    | NotForHubs | NotAnArray | TooMany | MissingField | BadShareName | BadPath
    | BadInstructions(share: string) | InstructionsTooLong(share: string) | Duplicate(share: string)
    | Conflict(share: string)

  datatype Row = Row(user: User, share: string, executor: ExecutorId, path: string, instructions: Option<string>)

  predicate ShareChar(c: char) {
    'A' <= c <= 'Z' || 'a' <= c <= 'z' || '0' <= c <= '9' || c == '.' || c == '_' || c == '-'
  }

  predicate ShareName(s: string) { 1 <= |s| <= 64 && forall i :: 0 <= i < |s| ==> ShareChar(s[i]) }

  predicate Given(f: Field) { f.OtherTrue? || (f.Text? && f.text != "") }

  function ShareOf(e: RawEntry): string { if e.RawEntry? && e.share.Text? then e.share.text else "" }

  // ---------------------------------------------------------------------------
  // Validation
  // ---------------------------------------------------------------------------

  /** What is wrong with an entry by itself. */
  function EntryError(e: RawEntry): Option<Rejection> {
    if e.NotObject? || !Given(e.share) || !Given(e.path) then Some(MissingField)
    else if !e.share.Text? || !ShareName(e.share.text) then Some(BadShareName)
    else if !e.path.Text? then Some(BadPath)
    else if !e.instructions.Absent? && !e.instructions.Text? then Some(BadInstructions(e.share.text))
    else if e.instructions.Text? && |e.instructions.text| > MAX_INSTRUCTIONS_LENGTH then Some(InstructionsTooLong(e.share.text))
    else None
  }

  /** A field that a condition takes for missing. */
  ghost predicate Missing(f: Field) { f == Absent || f == OtherFalse || f == Text("") }

  /** A share of 1 to 64 letters, digits, dots, underscores and hyphens. */
  ghost predicate NamesShare(f: Field) {
    f.Text? && 1 <= |f.text| <= 64
    && forall c :: c in f.text ==> 'A' <= c <= 'Z' || 'a' <= c <= 'z' || '0' <= c <= '9' || c == '.' || c == '_' || c == '-'
  }

  /** An entry as the protocol asks for it. */
  ghost predicate Acceptable(e: RawEntry) {
    && e.RawEntry? && NamesShare(e.share) && e.path.Text? && e.path.text != ""
    && (e.instructions.Absent? || (e.instructions.Text? && |e.instructions.text| <= 4096))
  }

  /** What each refusal of an entry says: the first of its faults, in the order share and path missing, share,
      path, instructions. */
  ghost predicate Explains(x: Rejection, e: RawEntry) {
    if x == MissingField then e.NotObject? || Missing(e.share) || Missing(e.path)
    else
      && e.RawEntry? && !Missing(e.share) && !Missing(e.path)
      && if x == BadShareName then !NamesShare(e.share)
         else
           && NamesShare(e.share)
           && if x == BadPath then !e.path.Text?
              else
                && e.path.Text?
                && if x == BadInstructions(e.share.text) then !e.instructions.Absent? && !e.instructions.Text?
                   else x == InstructionsTooLong(e.share.text) && e.instructions.Text? && |e.instructions.text| > 4096
  }

  lemma EntryRefused(e: RawEntry)
    ensures EntryError(e).None? <==> Acceptable(e)
    ensures forall x :: EntryError(e) == Some(x) <==> Explains(x, e)
  {
    if e.RawEntry? && e.share.Text? {
      var s := e.share.text;
      assert forall i :: 0 <= i < |s| ==> s[i] in s;
    }
  }

  /** The first thing wrong with a list of entries, after `seen` shares. */
  function FirstError(entries: seq<RawEntry>, seen: set<string>): Option<Rejection> {
    if entries == [] then None
    else if EntryError(entries[0]).Some? then EntryError(entries[0])
    else if ShareOf(entries[0]) in seen then Some(Duplicate(ShareOf(entries[0])))
    else FirstError(entries[1..], seen + {ShareOf(entries[0])})
  }

  ghost predicate WellFormed(entries: seq<RawEntry>) {
    && (forall i :: 0 <= i < |entries| ==> EntryError(entries[i]) == None)
    && (forall i, j :: 0 <= i < j < |entries| ==> ShareOf(entries[i]) != ShareOf(entries[j]))
  }

  ghost predicate NoneIn(entries: seq<RawEntry>, seen: set<string>) {
    forall i :: 0 <= i < |entries| ==> ShareOf(entries[i]) !in seen
  }

  lemma WellFormedHead(entries: seq<RawEntry>, seen: set<string>)
    requires entries != [] && EntryError(entries[0]).None? && ShareOf(entries[0]) !in seen
    ensures WellFormed(entries) && NoneIn(entries, seen)
       <==> WellFormed(entries[1..]) && NoneIn(entries[1..], seen + {ShareOf(entries[0])})
  {
    var rest := entries[1..];
    assert forall i :: 0 < i < |entries| ==> entries[i] == rest[i - 1];
    if WellFormed(entries) && NoneIn(entries, seen) {
      assert forall i :: 0 <= i < |rest| ==> rest[i] == entries[i + 1];
    }
  }

  /** A list is refused exactly when an entry is malformed or two entries name one share. */
  lemma {:induction false} ValidExactlyWhenWellFormed(entries: seq<RawEntry>, seen: set<string>)
    ensures FirstError(entries, seen).None? <==> WellFormed(entries) && NoneIn(entries, seen)
  {
    if entries != [] && EntryError(entries[0]).None? && ShareOf(entries[0]) !in seen {
      WellFormedHead(entries, seen);
      ValidExactlyWhenWellFormed(entries[1..], seen + {ShareOf(entries[0])});
    }
  }

  // ---------------------------------------------------------------------------
  // The table of path shares
  // ---------------------------------------------------------------------------

  /** The row an entry stands for; `sanitize` is the text sanitizer. */
  function RowOf(user: User, e: ExecutorId, entry: RawEntry, sanitize: string -> string): Row
    requires EntryError(entry).None?
  {
    Row(user, ShareOf(entry), e, entry.path.text,
        if entry.instructions.Text? then Some(sanitize(entry.instructions.text)) else None)
  }

  function Rows(user: User, e: ExecutorId, entries: seq<RawEntry>, sanitize: string -> string): set<Row>
    requires forall i :: 0 <= i < |entries| ==> EntryError(entries[i]).None?
  {
    set i | 0 <= i < |entries| :: RowOf(user, e, entries[i], sanitize)
  }

  predicate Conflicts(table: set<Row>, user: User, e: ExecutorId, share: string) {
    exists r :: r in table && r.user == user && r.share == share && r.executor != e
  }

  /** The first share of a list that another executor of the user has. */
  function FirstConflict(table: set<Row>, user: User, e: ExecutorId, entries: seq<RawEntry>): Option<string>
    requires forall i :: 0 <= i < |entries| ==> EntryError(entries[i]).None?
  {
    if entries == [] then None
    else if Conflicts(table, user, e, ShareOf(entries[0])) then Some(ShareOf(entries[0]))
    else FirstConflict(table, user, e, entries[1..])
  }

  lemma {:induction false} NoConflict(table: set<Row>, user: User, e: ExecutorId, entries: seq<RawEntry>)
    requires forall i :: 0 <= i < |entries| ==> EntryError(entries[i]).None?
    ensures FirstConflict(table, user, e, entries).None? <==>
              forall i :: 0 <= i < |entries| ==> !Conflicts(table, user, e, ShareOf(entries[i]))
  {
    if entries != [] {
      NoConflict(table, user, e, entries[1..]);
      assert forall i :: 0 < i < |entries| ==> entries[i] == entries[1..][i - 1];
    }
  }

  function Verdict(table: set<Row>, isHub: bool, user: User, e: ExecutorId, msg: Payload): (r: Option<Rejection>)
    ensures r.None? ==> msg.Entries? && FirstError(msg.entries, {}).None? && !isHub && |msg.entries| <= MAX_CONFIG_UPDATE_ENTRIES
  {
    if isHub then Some(NotForHubs)
    else if msg.NotArray? then Some(NotAnArray)
    else if |msg.entries| > MAX_CONFIG_UPDATE_ENTRIES then Some(TooMany)
    else if FirstError(msg.entries, {}).Some? then FirstError(msg.entries, {})
    else
      ValidExactlyWhenWellFormed(msg.entries, {});
      var conflict := FirstConflict(table, user, e, msg.entries);
      if conflict.Some? then Some(Conflict(conflict.value)) else None
  }

  /** The rows after an executor replaced its own. */
  ghost function Replaced(table: set<Row>, user: User, e: ExecutorId, entries: seq<RawEntry>, sanitize: string -> string): set<Row>
    requires forall i :: 0 <= i < |entries| ==> EntryError(entries[i]).None?
  {
    (set r | r in table && r.executor != e) + Rows(user, e, entries, sanitize)
  }

  /** An update is accepted exactly when a node sends at most 256 entries, all acceptable, that name no share twice
      and none that another executor of the user has. */
  lemma AcceptedExactly(table: set<Row>, isHub: bool, user: User, e: ExecutorId, msg: Payload)
    ensures Verdict(table, isHub, user, e, msg).None? <==>
              && !isHub && msg.Entries? && |msg.entries| <= 256
              && (forall i :: 0 <= i < |msg.entries| ==> Acceptable(msg.entries[i]))
              && (forall i, j :: 0 <= i < j < |msg.entries| ==> msg.entries[i].share.text != msg.entries[j].share.text)
              && (forall i, r :: 0 <= i < |msg.entries| && r in table && r.user == user && r.share == msg.entries[i].share.text ==>
                    r.executor == e)
  {
    if msg.Entries? {
      var entries := msg.entries;
      ValidExactlyWhenWellFormed(entries, {});
      forall i | 0 <= i < |entries| ensures EntryError(entries[i]).None? <==> Acceptable(entries[i]) { EntryRefused(entries[i]); }
      if WellFormed(entries) {
        NoConflict(table, user, e, entries);
        assert forall i, r :: 0 <= i < |entries| && r in table && r.user == user && r.share == ShareOf(entries[i]) ==>
          (r.executor == e || Conflicts(table, user, e, ShareOf(entries[i])));
      }
    }
  }

  /** A refused list of entries is refused for the first entry with a fault, of its own or for naming a share that was
      named before. */
  lemma {:induction false} FirstFault(entries: seq<RawEntry>, seen: set<string>)
    requires FirstError(entries, seen).Some?
    ensures exists i :: 0 <= i < |entries| && WellFormed(entries[..i]) && NoneIn(entries[..i], seen)
                        && var x := FirstError(entries, seen).value;
                           || Explains(x, entries[i])
                           || (Acceptable(entries[i]) && x == Duplicate(ShareOf(entries[i]))
                               && (ShareOf(entries[i]) in seen || ShareOf(entries[i]) in Names(entries[..i])))
  {
    var e, rest := entries[0], entries[1..];
    EntryRefused(e);
    assert entries[..0] == [];
    if EntryError(e).None? && ShareOf(e) !in seen {
      var more := seen + {ShareOf(e)};
      FirstFault(rest, more);
      var x := FirstError(rest, more).value;
      var i :| 0 <= i < |rest| && WellFormed(rest[..i]) && NoneIn(rest[..i], more)
               && (Explains(x, rest[i]) || (Acceptable(rest[i]) && x == Duplicate(ShareOf(rest[i]))
                                            && (ShareOf(rest[i]) in more || ShareOf(rest[i]) in Names(rest[..i]))));
      assert entries[..i + 1] == [e] + rest[..i];
      WellFormedHead(entries[..i + 1], seen);
      NamesCons(e, rest[..i]);
      assert entries[i + 1] == rest[i];
    }
  }

  lemma NamesCons(e: RawEntry, entries: seq<RawEntry>)
    ensures Names([e] + entries) == {ShareOf(e)} + Names(entries)
  {
    var all := [e] + entries;
    assert ShareOf(all[0]) == ShareOf(e);
    forall x | x in Names(entries) ensures x in Names(all) {
      var i :| 0 <= i < |entries| && ShareOf(entries[i]) == x;
      assert ShareOf(all[i + 1]) == x;
    }
  }

  // ---------------------------------------------------------------------------
  // Runs of updates
  // ---------------------------------------------------------------------------

  datatype Update = Update(e: ExecutorId, isHub: bool, msg: Payload)

  /** One update: the table replaced or, on any rejection, as it was. */
  ghost function Apply(table: set<Row>, userOf: ExecutorId -> User, u: Update, sanitize: string -> string): set<Row> {
    if Verdict(table, u.isHub, userOf(u.e), u.e, u.msg).Some? then table
    else
      ValidExactlyWhenWellFormed(u.msg.entries, {});
      Replaced(table, userOf(u.e), u.e, u.msg.entries, sanitize)
  }

  ghost function ApplyAll(table: set<Row>, userOf: ExecutorId -> User, us: seq<Update>, sanitize: string -> string): set<Row> {
    if us == [] then table else Apply(ApplyAll(table, userOf, Init(us), sanitize), userOf, Last(us), sanitize)
  }

  /** No user has two rows for one share. */
  ghost predicate Unique(table: set<Row>) {
    forall r, q :: r in table && q in table && r.user == q.user && r.share == q.share ==> r == q
  }

  /** An executor's rows are its user's. */
  ghost predicate Owned(table: set<Row>, userOf: ExecutorId -> User) {
    forall r :: r in table ==> r.user == userOf(r.executor)
  }

  lemma ApplyKeepsUnique(table: set<Row>, userOf: ExecutorId -> User, u: Update, sanitize: string -> string)
    requires Unique(table) && Owned(table, userOf)
    ensures Unique(Apply(table, userOf, u, sanitize)) && Owned(Apply(table, userOf, u, sanitize), userOf)
  {
    if Verdict(table, u.isHub, userOf(u.e), u.e, u.msg).None? {
      var user, entries := userOf(u.e), u.msg.entries;
      ValidExactlyWhenWellFormed(entries, {});
      NoConflict(table, user, u.e, entries);
      var after := Replaced(table, user, u.e, entries, sanitize);
      forall r, q | r in table && q in Rows(user, u.e, entries, sanitize) && r.user == q.user && r.share == q.share
        ensures r.executor == u.e
      {
        assert !Conflicts(table, user, u.e, q.share);
      }
    }
  }

  /** Over every run of updates from an empty table, (user, share) stays unique. */
  lemma {:induction false} ShareStaysUnique(userOf: ExecutorId -> User, us: seq<Update>, sanitize: string -> string)
    ensures Unique(ApplyAll({}, userOf, us, sanitize)) && Owned(ApplyAll({}, userOf, us, sanitize), userOf)
    decreases |us|
  {
    if us != [] {
      ShareStaysUnique(userOf, Init(us), sanitize);
      ApplyKeepsUnique(ApplyAll({}, userOf, Init(us), sanitize), userOf, Last(us), sanitize);
    }
  }

  /** An accepted update leaves the executor with exactly the payload's shares, a rejected one changes
      nothing, and neither touches another executor's rows. */
  lemma UpdateReplacesExactly(table: set<Row>, userOf: ExecutorId -> User, u: Update, sanitize: string -> string, r: Row)
    ensures var after := Apply(table, userOf, u, sanitize);
            && (r.executor != u.e ==> (r in after <==> r in table))
            && (Verdict(table, u.isHub, userOf(u.e), u.e, u.msg).Some? ==> after == table)
            && (Verdict(table, u.isHub, userOf(u.e), u.e, u.msg).None? && r.executor == u.e ==>
                  (r in after <==> exists i :: 0 <= i < |u.msg.entries| && Stores(u.msg.entries[i], userOf(u.e), sanitize, r)))
  {
    if Verdict(table, u.isHub, userOf(u.e), u.e, u.msg).None? {
      ValidExactlyWhenWellFormed(u.msg.entries, {});
      forall i | 0 <= i < |u.msg.entries| && r.executor == u.e
        ensures Stores(u.msg.entries[i], userOf(u.e), sanitize, r) <==> r == RowOf(userOf(u.e), u.e, u.msg.entries[i], sanitize)
      {
        EntryRefused(u.msg.entries[i]);
      }
    }
  }

  /** An executor's row `r` holds what the entry says: its share, its path, and its instructions as sanitized. */
  ghost predicate Stores(entry: RawEntry, user: User, sanitize: string -> string, r: Row) {
    && Acceptable(entry) && r.user == user && r.share == entry.share.text && r.path == entry.path.text
    && r.instructions == match entry.instructions
                         case Text(text) => Some(sanitize(text))
                         case _ => None
  }

  // ---------------------------------------------------------------------------
  // The transaction's writes
  // ---------------------------------------------------------------------------

  predicate SameKey(r: Row, q: Row) { r.user == q.user && r.share == q.share }

  /** A new row, or the one there with another path and text: its executor stays. */
  function Upserted(table: set<Row>, row: Row): set<Row> {
    var hits := set r | r in table && SameKey(r, row);
    if hits == {} then table + {row} else (table - hits) + set r | r in hits :: row.(executor := r.executor)
  }

  function Names(entries: seq<RawEntry>): set<string> { set i | 0 <= i < |entries| :: ShareOf(entries[i]) }

  ghost function Written(table: set<Row>, user: User, e: ExecutorId, entries: seq<RawEntry>, sanitize: string -> string): set<Row>
    requires forall i :: 0 <= i < |entries| ==> EntryError(entries[i]).None?
  {
    (set r | r in table && !(r.user == user && r.share in Names(entries))) + Rows(user, e, entries, sanitize)
  }

  /** With no conflict an upsert puts the row in place of whatever had its key. */
  lemma UpsertReplaces(table: set<Row>, row: Row)
    requires forall r :: r in table && SameKey(r, row) ==> r.executor == row.executor
    ensures Upserted(table, row) == (set r | r in table && !SameKey(r, row)) + {row}
  {
    var hits := set r | r in table && SameKey(r, row);
    if hits != {} {
      var q :| q in hits;
      assert forall r :: r in hits ==> row.(executor := r.executor) == row;
      assert row in set r | r in hits :: row.(executor := r.executor);
    }
    assert forall r :: r in table && SameKey(r, row) ==> r in hits;
  }

  lemma WrittenSnoc(table: set<Row>, user: User, e: ExecutorId, entries: seq<RawEntry>, i: nat, sanitize: string -> string)
    requires i < |entries| && WellFormed(entries) && !Conflicts(table, user, e, ShareOf(entries[i]))
    ensures Written(table, user, e, entries[..i + 1], sanitize)
         == Upserted(Written(table, user, e, entries[..i], sanitize), RowOf(user, e, entries[i], sanitize))
  {
    var done, row := Written(table, user, e, entries[..i], sanitize), RowOf(user, e, entries[i], sanitize);
    UpsertReplaces(done, row);
    assert entries[..i + 1] == entries[..i] + [entries[i]];
    NamesSnoc(entries[..i], entries[i]);
    RowsSnoc(user, e, entries[..i], entries[i], sanitize);
  }

  lemma NamesSnoc(entries: seq<RawEntry>, entry: RawEntry)
    ensures Names(entries + [entry]) == Names(entries) + {ShareOf(entry)}
  {
    var all := entries + [entry];
    assert ShareOf(all[|entries|]) == ShareOf(entry);
    forall x | x in Names(entries) ensures x in Names(all) {
      var i :| 0 <= i < |entries| && ShareOf(entries[i]) == x;
      assert ShareOf(all[i]) == x;
    }
  }

  lemma RowsSnoc(user: User, e: ExecutorId, entries: seq<RawEntry>, entry: RawEntry, sanitize: string -> string)
    requires EntryError(entry).None? && forall i :: 0 <= i < |entries| ==> EntryError(entries[i]).None?
    ensures Rows(user, e, entries + [entry], sanitize) == Rows(user, e, entries, sanitize) + {RowOf(user, e, entry, sanitize)}
  {
    var all := entries + [entry];
    assert RowOf(user, e, all[|entries|], sanitize) == RowOf(user, e, entry, sanitize);
    forall x | x in Rows(user, e, entries, sanitize) ensures x in Rows(user, e, all, sanitize) {
      var i :| 0 <= i < |entries| && RowOf(user, e, entries[i], sanitize) == x;
      assert RowOf(user, e, all[i], sanitize) == x;
    }
  }

  /** What the writes leave once the executor's other rows are deleted. */
  lemma WrittenThenDeleted(table: set<Row>, userOf: ExecutorId -> User, e: ExecutorId, entries: seq<RawEntry>, sanitize: string -> string)
    requires WellFormed(entries) && Owned(table, userOf)
    requires forall i :: 0 <= i < |entries| ==> !Conflicts(table, userOf(e), e, ShareOf(entries[i]))
    ensures (set r | r in Written(table, userOf(e), e, entries, sanitize) && (r.executor != e || r.share in Names(entries)))
         == Replaced(table, userOf(e), e, entries, sanitize)
  {
    var rows := Rows(userOf(e), e, entries, sanitize);
    forall r | r in rows ensures r.executor == e && r.share in Names(entries) {
      var i :| 0 <= i < |entries| && RowOf(userOf(e), e, entries[i], sanitize) == r;
      assert ShareOf(entries[i]) == r.share;
    }
    forall r | r in table && r.user == userOf(e) && r.share in Names(entries) ensures r.executor == e {
      var i :| 0 <= i < |entries| && ShareOf(entries[i]) == r.share;
      assert !Conflicts(table, userOf(e), e, ShareOf(entries[i]));
    }
  }

  // ---------------------------------------------------------------------------
  // Hub shares
  // ---------------------------------------------------------------------------

  datatype HubEntry<B> = HubEntry(name: string, path: string, blob: B, instructions: Option<string>)

  datatype HubRow<B> = HubRow(executor: ExecutorId, share: string, path: string, blob: B, instructions: Option<string>)

  function HubRowOf<B>(e: ExecutorId, entry: HubEntry<B>, sanitize: string -> string): HubRow<B> {
    HubRow(e, entry.name, entry.path, entry.blob,
           if entry.instructions.Some? then Some(sanitize(entry.instructions.value)) else None)
  }

  /** The last entry of a name: the list is not checked for duplicates. */
  function LastOf<B>(entries: seq<HubEntry<B>>, name: string): (last: Option<HubEntry<B>>)
    ensures last.Some? ==> last.value in entries && last.value.name == name
    ensures last.None? ==> forall entry :: entry in entries ==> entry.name != name
  {
    if entries == [] then None
    else if Last(entries).name == name then Some(Last(entries))
    else LastOf(Init(entries), name)
  }

  /** The key of a hub's row. */
  datatype HubKey = HubKey(executor: ExecutorId, share: string)

  // ---------------------------------------------------------------------------
  // The relay's handlers
  // ---------------------------------------------------------------------------

  class Shares {
    var rows: set<Row>
    const sanitize: string -> string

    constructor (sanitize: string -> string)
      ensures rows == {} && this.sanitize == sanitize
    {
      rows, this.sanitize := {}, sanitize;
    }

    method Validate(entries: seq<RawEntry>) returns (problem: Option<Rejection>)
      ensures problem == FirstError(entries, {})
    {
      var seen: set<string> := {};
      var i := 0;
      while i < |entries|
        invariant 0 <= i <= |entries|
        invariant FirstError(entries[i..], seen) == FirstError(entries, {})
      {
        var entry := entries[i];
        assert entries[i..][0] == entry && entries[i..][1..] == entries[i + 1..];
        var wrong := EntryError(entry);
        if wrong.Some? { return wrong; }
        if ShareOf(entry) in seen { return Some(Duplicate(ShareOf(entry))); }
        seen := seen + {ShareOf(entry)};
        i := i + 1;
      }
      return None;
    }

    method FindConflict(user: User, e: ExecutorId, entries: seq<RawEntry>) returns (share: Option<string>)
      requires forall i :: 0 <= i < |entries| ==> EntryError(entries[i]).None?
      ensures share == FirstConflict(rows, user, e, entries)
    {
      var i := 0;
      while i < |entries|
        invariant 0 <= i <= |entries|
        invariant FirstConflict(rows, user, e, entries[i..]) == FirstConflict(rows, user, e, entries)
      {
        assert entries[i..][0] == entries[i] && entries[i..][1..] == entries[i + 1..];
        if Conflicts(rows, user, e, ShareOf(entries[i])) { return Some(ShareOf(entries[i])); }
        i := i + 1;
      }
      return None;
    }

    method Upsert(row: Row)
      modifies this`rows
      ensures rows == Upserted(old(rows), row)
    {
      var hits := set r | r in rows && SameKey(r, row);
      if hits == {} {
        rows := rows + {row};
      } else {
        rows := (rows - hits) + set r | r in hits :: row.(executor := r.executor);
      }
    }

    method Write(user: User, e: ExecutorId, entries: seq<RawEntry>)
      requires WellFormed(entries)
      requires forall i :: 0 <= i < |entries| ==> !Conflicts(rows, user, e, ShareOf(entries[i]))
      modifies this`rows
      ensures rows == Written(old(rows), user, e, entries, sanitize)
    {
      var i := 0;
      while i < |entries|
        invariant 0 <= i <= |entries|
        invariant rows == Written(old(rows), user, e, entries[..i], sanitize)
      {
        WrittenSnoc(old(rows), user, e, entries, i, sanitize);
        Upsert(RowOf(user, e, entries[i], sanitize));
        i := i + 1;
      }
      assert entries[..i] == entries;
    }

    method DeleteOthers(e: ExecutorId, active: set<string>)
      modifies this`rows
      ensures rows == set r | r in old(rows) && (r.executor != e || r.share in active)
    {
      rows := set r | r in rows && (r.executor != e || r.share in active);
    }

    method HandleConfigUpdate(ghost userOf: ExecutorId -> User, e: ExecutorId, user: User, isHub: bool, msg: Payload)
      returns (rejected: Option<Rejection>)
      requires Unique(rows) && Owned(rows, userOf) && user == userOf(e)
      modifies this`rows
      ensures rejected == Verdict(old(rows), isHub, user, e, msg)
      ensures rows == Apply(old(rows), userOf, Update(e, isHub, msg), sanitize)
    {
      if isHub { return Some(NotForHubs); }
      if msg.NotArray? { return Some(NotAnArray); }
      var entries := msg.entries;
      if |entries| > MAX_CONFIG_UPDATE_ENTRIES { return Some(TooMany); }
      rejected := Validate(entries);
      if rejected.Some? { return; }
      ValidExactlyWhenWellFormed(entries, {});
      var conflict := FindConflict(user, e, entries);
      if conflict.Some? { return Some(Conflict(conflict.value)); }
      NoConflict(rows, user, e, entries);
      WrittenThenDeleted(rows, userOf, e, entries, sanitize);
      Write(user, e, entries);
      DeleteOthers(e, Names(entries));
    }
  }

  /** The hub shares, one row for each executor and share. */
  class HubShares<B> {
    var rows: map<HubKey, HubRow<B>>
    const sanitize: string -> string

    constructor (sanitize: string -> string)
      ensures rows == map[] && this.sanitize == sanitize
    {
      rows, this.sanitize := map[], sanitize;
    }

    /** On success the hub's rows are the last entry of each name, and of no other name. */
    method HandleHubShareSync(e: ExecutorId, isHub: bool, entries: seq<HubEntry<B>>) returns (ok: bool)
      modifies this`rows
      ensures ok <==> isHub && |entries| <= 1000
      ensures !ok ==> rows == old(rows)
      ensures forall k: HubKey :: k.executor != e ==> (k in rows <==> k in old(rows)) && (k in rows ==> rows[k] == old(rows)[k])
      ensures ok ==> forall name ::
                var last := LastOf(entries, name);
                && (HubKey(e, name) in rows <==> last.Some?)
                && (last.Some? ==>
                      var row := rows[HubKey(e, name)];
                      && row.executor == e && row.share == name && row.path == last.value.path && row.blob == last.value.blob
                      && row.instructions == match last.value.instructions
                                             case Some(text) => Some(sanitize(text))
                                             case None => None)
    {
      if !isHub || |entries| > MAX_HUB_SHARE_ENTRIES { return false; }
      var active: set<string> := {};
      var i := 0;
      while i < |entries|
        invariant 0 <= i <= |entries|
        invariant forall name :: name in active <==> LastOf(entries[..i], name).Some?
        invariant forall k: HubKey :: k.executor != e ==> (k in rows <==> k in old(rows)) && (k in rows ==> rows[k] == old(rows)[k])
        invariant forall name ::
                    var last := LastOf(entries[..i], name);
                    last.Some? ==> HubKey(e, name) in rows && rows[HubKey(e, name)] == HubRowOf(e, last.value, sanitize)
      {
        assert Init(entries[..i + 1]) == entries[..i] && Last(entries[..i + 1]) == entries[i];
        rows := rows[HubKey(e, entries[i].name) := HubRowOf(e, entries[i], sanitize)];
        active := active + {entries[i].name};
        i := i + 1;
      }
      assert entries[..i] == entries;
      rows := rows - set k | k in rows && k.executor == e && k.share !in active;
      return true;
    }
  }
}
