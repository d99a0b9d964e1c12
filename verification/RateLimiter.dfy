/**
 The relay's sliding-window rate limiter, against one that remembers every call it allowed.
 */
module RateLimiter {
  import opened Wrappers

  const RATE_WINDOW_MS := 60_000

  type Key = string
  type Times = seq<int>

  predicate Expired(t: int, now: int) { now - t >= RATE_WINDOW_MS }

  predicate Sorted(ts: Times) { forall i, j :: 0 <= i < j < |ts| ==> ts[i] <= ts[j] }

  /** The times still in the window. */
  function Recent(ts: Times, now: int): Times {
    if ts == [] then []
    else Recent(Init(ts), now) + if Expired(Last(ts), now) then [] else [Last(ts)]
  }

  /** How many expired times there are at the front. */
  function ExpiredPrefix(ts: Times, now: int): (n: nat)
    ensures n <= |ts|
  {
    if ts == [] || !Expired(ts[0], now) then 0 else 1 + ExpiredPrefix(ts[1..], now)
  }

  function Live(ts: Times, now: int): Times { ts[ExpiredPrefix(ts, now)..] }

  // ---------------------------------------------------------------------------
  // The limiter
  // ---------------------------------------------------------------------------

  function Window(m: map<Key, Times>, k: Key): Times { if k in m then m[k] else [] }

  /** One call: whether it is allowed, and the windows afterwards. */
  function Allow(m: map<Key, Times>, k: Key, limit: int, now: int): (map<Key, Times>, bool) {
    var ts := Window(m, k);
    var live := Live(ts, now);
    if |live| >= limit then (if live != ts then m[k := live] else m, false)
    else (m[k := live + [now]], true)
  }

  predicate PrunedKey(m: map<Key, Times>, now: int, m': map<Key, Times>, k: Key) {
    var kept := Recent(Window(m, k), now);
    Window(m', k) == kept && (k in m' <==> kept != [])
  }

  ghost predicate PrunedTo(m: map<Key, Times>, now: int, m': map<Key, Times>) {
    forall k :: PrunedKey(m, now, m', k)
  }

  datatype Event = Call(key: Key, now: int) | Prune(now: int)

  /** Runs of the limiter; `answers` says which calls it allowed. */
  ghost predicate IsRun(maps: seq<map<Key, Times>>, events: seq<Event>, answers: seq<bool>, limit: int) {
    && |maps| == |events| + 1 && |answers| == |events| && maps[0] == map[]
    && forall i :: 0 <= i < |events| ==> IsStep(maps[i], events[i], answers[i], maps[i + 1], limit)
  }

  ghost predicate IsStep(m: map<Key, Times>, ev: Event, answer: bool, m': map<Key, Times>, limit: int) {
    forall cause: Cause :: StepBy(cause, m, ev, answer, m', limit)
  }

  datatype Cause = ByCall | ByPrune

  ghost predicate StepBy(cause: Cause, m: map<Key, Times>, ev: Event, answer: bool, m': map<Key, Times>, limit: int) {
    match cause
    case ByCall => ev.Call? ==> (m', answer) == Allow(m, ev.key, limit, ev.now)
    case ByPrune => ev.Prune? ==> PrunedTo(m, ev.now, m')
  }

  lemma StepMeans(m: map<Key, Times>, ev: Event, answer: bool, m': map<Key, Times>, limit: int)
    requires IsStep(m, ev, answer, m', limit)
    ensures ev.Call? ==> (m', answer) == Allow(m, ev.key, limit, ev.now)
    ensures ev.Prune? ==> PrunedTo(m, ev.now, m')
  {
    assert StepBy(ByCall, m, ev, answer, m', limit) && StepBy(ByPrune, m, ev, answer, m', limit);
  }

  ghost predicate InOrder(events: seq<Event>) {
    forall i, j :: 0 <= i < j < |events| ==> events[i].now <= events[j].now
  }

  // ---------------------------------------------------------------------------
  // The limiter that remembers everything
  // ---------------------------------------------------------------------------

  /** Every call of a key that was allowed, when the decision counts all of them. */
  function History(events: seq<Event>, k: Key, limit: int): Times {
    if events == [] then []
    else
      var before := History(Init(events), k, limit);
      match Last(events)
      case Call(key, now) => if key == k && |Recent(before, now)| < limit then before + [now] else before
      case Prune(_) => before
  }

  // ---------------------------------------------------------------------------
  // Windows of sorted times
  // ---------------------------------------------------------------------------

  lemma {:induction false} PrefixExpired(ts: Times, now: int)
    ensures forall i :: 0 <= i < ExpiredPrefix(ts, now) ==> Expired(ts[i], now)
    ensures ExpiredPrefix(ts, now) < |ts| ==> !Expired(ts[ExpiredPrefix(ts, now)], now)
  {
    if ts != [] && Expired(ts[0], now) {
      PrefixExpired(ts[1..], now);
      forall i | 0 <= i < ExpiredPrefix(ts, now) ensures Expired(ts[i], now) {
        if i > 0 { assert ts[i] == ts[1..][i - 1]; }
      }
    }
  }

  /** Expired times at the front may be left out. */
  lemma {:induction false} RecentSuffix(ts: Times, m: nat, now: int)
    requires m <= |ts| && forall i :: 0 <= i < m ==> Expired(ts[i], now)
    ensures Recent(ts, now) == Recent(ts[m..], now)
    decreases |ts|
  {
    if m < |ts| {
      assert Init(ts)[m..] == Init(ts[m..]);
      RecentSuffix(Init(ts), m, now);
    } else if ts != [] {
      RecentSuffix(Init(ts), m - 1, now);
      assert Init(ts)[m - 1..] == ts[m..] == [];
    }
  }

  lemma LastApart(ts: Times)
    requires ts != []
    ensures ts[..|ts| - 1] + [ts[|ts| - 1]] == ts
  {
  }

  lemma RecentSnoc(ts: Times, t: int, now: int)
    ensures Recent(ts + [t], now) == Recent(ts, now) + if Expired(t, now) then [] else [t]
  {
    assert Init(ts + [t]) == ts && Last(ts + [t]) == t;
  }

  lemma {:induction false} RecentAll(ts: Times, now: int)
    requires forall i :: 0 <= i < |ts| ==> !Expired(ts[i], now)
    ensures Recent(ts, now) == ts
    decreases |ts|
  {
    if ts != [] {
      var before, last := ts[..|ts| - 1], ts[|ts| - 1];
      RecentAll(before, now);
      RecentSnoc(before, last, now);
      LastApart(ts);
    }
  }

  /** Of sorted times, dropping the expired ones at the front drops exactly the expired ones. */
  lemma LiveIsRecent(ts: Times, now: int)
    requires Sorted(ts)
    ensures Live(ts, now) == Recent(ts, now)
  {
    var n := ExpiredPrefix(ts, now);
    PrefixExpired(ts, now);
    RecentSuffix(ts, n, now);
    RestNotExpired(ts, n, now);
    RecentAll(ts[n..], now);
  }

  lemma RestNotExpired(ts: Times, n: nat, now: int)
    requires Sorted(ts) && n <= |ts| && (n < |ts| ==> !Expired(ts[n], now))
    ensures forall i :: 0 <= i < |ts[n..]| ==> !Expired(ts[n..][i], now)
  {
    forall i | 0 <= i < |ts[n..]| ensures !Expired(ts[n..][i], now) {
      assert ts[n..][i] == ts[n + i] && ts[n] <= ts[n + i];
    }
  }

  // ---------------------------------------------------------------------------
  // The trimmed window follows the history
  // ---------------------------------------------------------------------------

  /** The window is the history without some times that are expired at `now`, and not too long. */
  ghost predicate Follows(window: Times, history: Times, limit: int, now: int) {
    forall tie: Tie :: Ties(tie, window, history, limit, now)
  }

  datatype Tie = InThePast | IsSuffix | LeftOutExpired | NotTooLong

  ghost predicate Ties(tie: Tie, window: Times, history: Times, limit: int, now: int) {
    |window| <= |history| &&
    match tie
    case InThePast => Sorted(history) && forall i :: 0 <= i < |history| ==> history[i] <= now
    case IsSuffix => window == history[|history| - |window|..]
    case LeftOutExpired => forall i :: 0 <= i < |history| - |window| ==> Expired(history[i], now)
    case NotTooLong => |window| <= if limit < 0 then 0 else limit
  }

  lemma FollowsMeans(window: Times, history: Times, limit: int, now: int)
    requires Follows(window, history, limit, now)
    ensures Ties(InThePast, window, history, limit, now) && Ties(IsSuffix, window, history, limit, now)
    ensures Ties(LeftOutExpired, window, history, limit, now) && Ties(NotTooLong, window, history, limit, now)
  {
  }

  lemma FollowsLater(window: Times, history: Times, limit: int, now: int, later: int)
    requires Follows(window, history, limit, now) && now <= later
    ensures Follows(window, history, limit, later)
  {
    FollowsMeans(window, history, limit, now);
  }

  lemma SortedSuffix(ts: Times, m: nat)
    requires Sorted(ts) && m <= |ts|
    ensures Sorted(ts[m..])
  {
    forall i, j | 0 <= i < j < |ts[m..]| ensures ts[m..][i] <= ts[m..][j] {
      assert ts[m + i] <= ts[m + j];
    }
  }

  lemma FollowsSorted(window: Times, history: Times, limit: int, now: int)
    requires Follows(window, history, limit, now)
    ensures Sorted(window)
  {
    FollowsMeans(window, history, limit, now);
    SortedSuffix(history, |history| - |window|);
  }

  lemma FollowsSameRecent(window: Times, history: Times, limit: int, now: int)
    requires Follows(window, history, limit, now)
    ensures Recent(window, now) == Recent(history, now)
  {
    FollowsMeans(window, history, limit, now);
    RecentSuffix(history, |history| - |window|, now);
  }

  /** What is live in the window is what is recent in the history. */
  lemma FollowsRecent(window: Times, history: Times, limit: int, now: int)
    requires Follows(window, history, limit, now)
    ensures Sorted(window) && Live(window, now) == Recent(window, now) && Recent(window, now) == Recent(history, now)
  {
    FollowsSorted(window, history, limit, now);
    FollowsSameRecent(window, history, limit, now);
    LiveIsRecent(window, now);
  }

  lemma SuffixOfSuffix(ts: Times, m: nat, n: nat)
    requires m + n <= |ts|
    ensures ts[m..][n..] == ts[m + n..]
  {
  }

  lemma ExpiredLonger(ts: Times, m: nat, n: nat, now: int)
    requires m + n <= |ts| && (forall i :: 0 <= i < m ==> Expired(ts[i], now))
    requires forall i :: 0 <= i < n ==> Expired(ts[m..][i], now)
    ensures forall i :: 0 <= i < m + n ==> Expired(ts[i], now)
  {
    forall i | 0 <= i < m + n ensures Expired(ts[i], now) {
      if i >= m { assert ts[m..][i - m] == ts[i]; }
    }
  }

  lemma LiveFollows(window: Times, history: Times, limit: int, now: int)
    requires Follows(window, history, limit, now)
    ensures Follows(Live(window, now), history, limit, now)
  {
    FollowsMeans(window, history, limit, now);
    var m, n, live := |history| - |window|, ExpiredPrefix(window, now), Live(window, now);
    PrefixExpired(window, now);
    SuffixOfSuffix(history, m, n);
    ExpiredLonger(history, m, n, now);
    assert |history| - |live| == m + n && live == history[m + n..];
    forall tie: Tie ensures Ties(tie, live, history, limit, now) {}
  }

  /** A call that is allowed extends both. */
  lemma FollowsAppend(window: Times, history: Times, limit: int, now: int)
    requires Follows(window, history, limit, now) && |window| < limit
    ensures Follows(window + [now], history + [now], limit, now)
  {
    FollowsMeans(window, history, limit, now);
    assert (history + [now])[|history| - |window|..] == window + [now];
  }

  lemma CallFollows(window: Times, history: Times, limit: int, now: int)
    requires Follows(window, history, limit, now)
    ensures |Live(window, now)| == |Recent(history, now)|
    ensures if |Live(window, now)| < limit then Follows(Live(window, now) + [now], history + [now], limit, now)
            else Follows(Live(window, now), history, limit, now)
  {
    FollowsRecent(window, history, limit, now);
    LiveFollows(window, history, limit, now);
    if |Live(window, now)| < limit { FollowsAppend(Live(window, now), history, limit, now); }
  }

  lemma CallEventFollows(m: map<Key, Times>, key: Key, now: int, history: Times, k: Key, limit: int)
    requires Follows(Window(m, k), history, limit, now)
    ensures var m' := Allow(m, key, limit, now).0;
            Follows(Window(m', k), if key == k && |Recent(history, now)| < limit then history + [now] else history, limit, now)
  {
    CallFollows(Window(m, k), history, limit, now);
    AllowedWindow(m, key, limit, now, k);
  }

  /** A call changes its own key's window only. */
  lemma AllowedWindow(m: map<Key, Times>, key: Key, limit: int, now: int, k: Key)
    ensures var live := Live(Window(m, key), now);
            Window(Allow(m, key, limit, now).0, k)
              == if key != k then Window(m, k) else if |live| < limit then live + [now] else live
  {
  }

  lemma PruneFollows(m: map<Key, Times>, now: int, m': map<Key, Times>, history: Times, k: Key, limit: int)
    requires PrunedTo(m, now, m') && Follows(Window(m, k), history, limit, now)
    ensures Follows(Window(m', k), history, limit, now)
  {
    assert PrunedKey(m, now, m', k);
    FollowsRecent(Window(m, k), history, limit, now);
    LiveFollows(Window(m, k), history, limit, now);
  }

  /** One event keeps the window following the history. */
  lemma EventFollows(m: map<Key, Times>, ev: Event, m': map<Key, Times>, events: seq<Event>, k: Key, limit: int)
    requires ev.Call? ==> m' == Allow(m, ev.key, limit, ev.now).0
    requires ev.Prune? ==> PrunedTo(m, ev.now, m')
    requires events != [] && Last(events) == ev
    requires Follows(Window(m, k), History(Init(events), k, limit), limit, ev.now)
    ensures Follows(Window(m', k), History(events, k, limit), limit, ev.now)
  {
    var history := History(Init(events), k, limit);
    match ev
    case Call(key, now) => CallEventFollows(m, key, now, history, k, limit);
    case Prune(now) => PruneFollows(m, now, m', history, k, limit);
  }

  lemma NothingFollows(limit: int, now: int)
    ensures Follows([], [], limit, now)
  {
    var none: Times := [];
    assert none[0..] == none;
    forall tie: Tie ensures Ties(tie, none, none, limit, now) {}
  }

  lemma LastOfFirst(events: seq<Event>, i: nat)
    requires 0 < i <= |events|
    ensures events[..i] != [] && Init(events[..i]) == events[..i - 1] && Last(events[..i]) == events[i - 1]
  {
  }

  lemma {:induction false} RunFollows(maps: seq<map<Key, Times>>, events: seq<Event>, answers: seq<bool>, limit: int, i: nat, k: Key, now: int)
    requires IsRun(maps, events, answers, limit) && InOrder(events) && i <= |events|
    requires i > 0 ==> events[i - 1].now <= now
    ensures Follows(Window(maps[i], k), History(events[..i], k, limit), limit, now)
    decreases i
  {
    if i == 0 {
      NothingFollows(limit, now);
    } else {
      var ev := events[i - 1];
      LastOfFirst(events, i);
      StepMeans(maps[i - 1], ev, answers[i - 1], maps[i], limit);
      RunFollows(maps, events, answers, limit, i - 1, k, ev.now);
      EventFollows(maps[i - 1], ev, maps[i], events[..i], k, limit);
      FollowsLater(Window(maps[i], k), History(events[..i], k, limit), limit, ev.now, now);
    }
  }

  // ---------------------------------------------------------------------------
  // Main results
  // ---------------------------------------------------------------------------

  /** For times that do not run backwards, and whatever pruning happens in between, the limiter answers
      as if it remembered every call; so it refuses a call only when the window already holds `limit`. */
  lemma AnswersAgree(maps: seq<map<Key, Times>>, events: seq<Event>, answers: seq<bool>, limit: int, i: nat)
    requires IsRun(maps, events, answers, limit) && InOrder(events) && i < |events| && events[i].Call?
    ensures answers[i] <==> |Recent(History(events[..i], events[i].key, limit), events[i].now)| < limit
    ensures History(events[..i + 1], events[i].key, limit)
         == History(events[..i], events[i].key, limit) + if answers[i] then [events[i].now] else []
  {
    var k, now := events[i].key, events[i].now;
    if i > 0 { assert events[i - 1].now <= events[i].now; }
    RunFollows(maps, events, answers, limit, i, k, now);
    CallFollows(Window(maps[i], k), History(events[..i], k, limit), limit, now);
    StepMeans(maps[i], events[i], answers[i], maps[i + 1], limit);
    assert Init(events[..i + 1]) == events[..i] && Last(events[..i + 1]) == events[i];
  }

  /** What is stored stays sorted and no longer than the limit. */
  lemma StoredStaysShort(maps: seq<map<Key, Times>>, events: seq<Event>, answers: seq<bool>, limit: int, i: nat, k: Key)
    requires IsRun(maps, events, answers, limit) && InOrder(events) && i <= |events|
    ensures Sorted(Window(maps[i], k)) && |Window(maps[i], k)| <= if limit < 0 then 0 else limit
  {
    var now := if i > 0 then events[i - 1].now else 0;
    RunFollows(maps, events, answers, limit, i, k, now);
    FollowsRecent(Window(maps[i], k), History(events[..i], k, limit), limit, now);
    FollowsMeans(Window(maps[i], k), History(events[..i], k, limit), limit, now);
  }

  /** Calls of a key allowed in the minute that starts at `from`. */
  function AllowedFrom(ts: Times, from: int): nat {
    if ts == [] then 0
    else AllowedFrom(Init(ts), from) + if from <= Last(ts) < from + 60_000 then 1 else 0
  }

  /** No more of sorted times lie in the minute than its last `n`, if the one before those is a minute older. */
  lemma {:induction false} MinuteHolds(ts: Times, from: int, n: nat)
    requires Sorted(ts) && forall i :: 0 <= i && i + n < |ts| ==> ts[i + n] - ts[i] >= RATE_WINDOW_MS
    ensures AllowedFrom(ts, from) <= n
    decreases |ts|
  {
    if |ts| > n {
      if from <= Last(ts) < from + RATE_WINDOW_MS {
        // The first of the last n + 1 is a minute older, so all before them are out as well.
        var k := |ts| - 1 - n;
        assert ts[k + n] - ts[k] >= RATE_WINDOW_MS;
        OlderAreOut(ts[..k + 1], from);
        CountSplit(ts, k + 1, from);
      } else {
        assert Sorted(Init(ts));
        MinuteHolds(Init(ts), from, n);
      }
    } else {
      CountAtMost(ts, from);
    }
  }

  lemma {:induction false} CountAtMost(ts: Times, from: int)
    ensures AllowedFrom(ts, from) <= |ts|
  {
    if ts != [] { CountAtMost(Init(ts), from); }
  }

  lemma {:induction false} OlderAreOut(ts: Times, from: int)
    requires forall i :: 0 <= i < |ts| ==> ts[i] < from
    ensures AllowedFrom(ts, from) == 0
  {
    if ts != [] { OlderAreOut(Init(ts), from); }
  }

  lemma {:induction false} CountSplit(ts: Times, k: nat, from: int)
    requires k <= |ts|
    ensures AllowedFrom(ts, from) <= AllowedFrom(ts[..k], from) + |ts| - k
    decreases |ts|
  {
    if k < |ts| {
      assert Init(ts)[..k] == ts[..k];
      CountSplit(Init(ts), k, from);
    } else {
      assert ts[..k] == ts;
    }
  }

  /** Times `limit` apart are a minute apart. */
  ghost predicate Spaced(ts: Times, limit: nat) {
    forall i :: 0 <= i && i + limit < |ts| ==> ts[i + limit] - ts[i] >= RATE_WINDOW_MS
  }

  ghost predicate Until(ts: Times, now: int) { Sorted(ts) && forall i :: 0 <= i < |ts| ==> ts[i] <= now }

  lemma SpacedAppend(ts: Times, limit: nat, now: int)
    requires Until(ts, now) && Spaced(ts, limit) && |Recent(ts, now)| < limit
    ensures Spaced(ts + [now], limit)
  {
    if limit <= |ts| { SpacedFromLast(ts, limit, now); }
    forall i | 0 <= i && i + limit < |ts + [now]| ensures (ts + [now])[i + limit] - (ts + [now])[i] >= RATE_WINDOW_MS {
      if i + limit < |ts| { assert ts[i + limit] - ts[i] >= RATE_WINDOW_MS; }
    }
  }

  lemma UntilAppend(ts: Times, at: int, now: int)
    requires Until(ts, at) && at <= now
    ensures Until(ts, now) && Until(ts + [at], now)
  {
  }

  lemma InOrderInit(events: seq<Event>)
    requires InOrder(events) && events != []
    ensures InOrder(Init(events)) && (Init(events) != [] ==> Last(Init(events)).now <= Last(events).now)
  {
  }

  lemma {:induction false} HistorySpaced(events: seq<Event>, k: Key, limit: nat, now: int)
    requires InOrder(events) && (events != [] ==> Last(events).now <= now)
    ensures Until(History(events, k, limit), now) && Spaced(History(events, k, limit), limit)
    decreases |events|
  {
    if events != [] {
      var before, at := History(Init(events), k, limit), Last(events).now;
      InOrderInit(events);
      HistorySpaced(Init(events), k, limit, at);
      UntilAppend(before, at, now);
      if Last(events).Call? && Last(events).key == k && |Recent(before, at)| < limit {
        SpacedAppend(before, limit, at);
        assert History(events, k, limit) == before + [at];
      } else {
        assert History(events, k, limit) == before;
      }
    }
  }

  /** With fewer than `limit` recent times, the one `limit` from the end has expired. */
  lemma SpacedFromLast(ts: Times, limit: nat, now: int)
    requires Sorted(ts) && |Recent(ts, now)| < limit <= |ts|
    ensures Expired(ts[|ts| - limit], now)
  {
    LiveIsRecent(ts, now);
    PrefixExpired(ts, now);
  }

  /** The times of the calls of a key that were answered yes. */
  function AllowedTimes(events: seq<Event>, answers: seq<bool>, k: Key): Times
    requires |answers| == |events|
  {
    if events == [] then []
    else
      var ev := Last(events);
      AllowedTimes(Init(events), Init(answers), k)
      + if ev.Call? && ev.key == k && Last(answers) then [ev.now] else []
  }

  lemma {:induction false} AllowedTimesAreHistory(maps: seq<map<Key, Times>>, events: seq<Event>, answers: seq<bool>, limit: int, i: nat, k: Key)
    requires IsRun(maps, events, answers, limit) && InOrder(events) && i <= |events|
    ensures AllowedTimes(events[..i], answers[..i], k) == History(events[..i], k, limit)
    decreases i
  {
    if i > 0 {
      assert Init(events[..i]) == events[..i - 1] && Last(events[..i]) == events[i - 1];
      assert Init(answers[..i]) == answers[..i - 1] && Last(answers[..i]) == answers[i - 1];
      AllowedTimesAreHistory(maps, events, answers, limit, i - 1, k);
      if events[i - 1].Call? { AnswersAgree(maps, events, answers, limit, i - 1); }
    }
  }

  /** No minute, wherever it starts, has more than `limit` calls of one key that were answered yes. */
  lemma MinuteHoldsAtMostLimit(maps: seq<map<Key, Times>>, events: seq<Event>, answers: seq<bool>, limit: nat, i: nat, k: Key, from: int)
    requires IsRun(maps, events, answers, limit) && InOrder(events) && i <= |events|
    ensures AllowedFrom(AllowedTimes(events[..i], answers[..i], k), from) <= limit
  {
    AllowedTimesAreHistory(maps, events, answers, limit, i, k);
    HistorySpaced(events[..i], k, limit, if i > 0 then events[i - 1].now else 0);
    MinuteHolds(History(events[..i], k, limit), from, limit);
  }

  lemma {:induction false} RecentCounts(ts: Times, now: int)
    requires forall i :: 0 <= i < |ts| ==> ts[i] <= now
    ensures |Recent(ts, now)| == AllowedFrom(ts, now - 59_999)
    decreases |ts|
  {
    if ts != [] { RecentCounts(Init(ts), now); }
  }

  lemma HistoryCounts(maps: seq<map<Key, Times>>, events: seq<Event>, answers: seq<bool>, limit: int, i: nat)
    requires IsRun(maps, events, answers, limit) && InOrder(events) && i < |events| && events[i].Call?
    ensures var history := History(events[..i], events[i].key, limit);
            |Recent(history, events[i].now)| == AllowedFrom(history, events[i].now - 59_999)
  {
    var k, now := events[i].key, events[i].now;
    if i > 0 { assert events[i - 1].now <= now; }
    RunFollows(maps, events, answers, limit, i, k, now);
    FollowsMeans(Window(maps[i], k), History(events[..i], k, limit), limit, now);
    RecentCounts(History(events[..i], k, limit), now);
  }

  /** A call is allowed exactly when fewer calls of its key than the limit were allowed in the minute that ends
      with it. */
  lemma AllowedExactly(maps: seq<map<Key, Times>>, events: seq<Event>, answers: seq<bool>, limit: int, i: nat)
    requires IsRun(maps, events, answers, limit) && InOrder(events) && i < |events| && events[i].Call?
    ensures answers[i] <==> AllowedFrom(AllowedTimes(events[..i], answers[..i], events[i].key), events[i].now - 59_999) < limit
  {
    AnswersAgree(maps, events, answers, limit, i);
    AllowedTimesAreHistory(maps, events, answers, limit, i, events[i].key);
    HistoryCounts(maps, events, answers, limit, i);
  }

  // ---------------------------------------------------------------------------
  // A clock that runs backwards
  // ---------------------------------------------------------------------------

  /** Two calls may then leave a window out of order, */
  lemma ClockRunningBackwards(m: map<Key, Times>, k: Key)
    requires Window(m, k) == [100_000]
    ensures Allow(m, k, 2, 50_000).1 && Window(Allow(m, k, 2, 50_000).0, k) == [100_000, 50_000]
  {
    assert ExpiredPrefix([100_000], 50_000) == 0;
    assert [100_000] + [50_000] == [100_000, 50_000];
  }

  /** which keeps a call that expired behind one that did not, */
  lemma ExpiredBehindLive(ts: Times)
    requires ts == [100_000, 50_000]
    ensures Live(ts, 115_000) == ts && |Recent(ts, 115_000)| == 1
  {
    assert ExpiredPrefix(ts, 115_000) == 0;
    assert Init(ts) == [100_000] && Last(ts) == 50_000;
    var one := [100_000];
    assert Init(one) == [] && Last(one) == 100_000 && Recent(Init(one), 115_000) == [];
    assert Recent(one, 115_000) == [100_000];
  }

  lemma HistoryOfOne(events: seq<Event>, k: Key)
    requires events == [Call(k, 100_000)]
    ensures History(events, k, 2) == [100_000]
  {
    assert Init(events) == [] && Last(events) == Call(k, 100_000);
    assert Recent([], 100_000) == [] && [] + [100_000] == [100_000];
  }

  lemma HistoryOfTwo(events: seq<Event>, k: Key)
    requires events == [Call(k, 100_000), Call(k, 50_000)]
    ensures History(events, k, 2) == [100_000, 50_000]
  {
    assert Init(events) == [Call(k, 100_000)] && Last(events) == Call(k, 50_000);
    HistoryOfOne(Init(events), k);
    RecentAll([100_000], 50_000);
    assert [100_000] + [50_000] == [100_000, 50_000];
  }

  lemma FirstCall(m: map<Key, Times>, k: Key)
    requires m == map[]
    ensures IsStep(m, Call(k, 100_000), true, map[k := [100_000]], 2)
  {
    assert Live([], 100_000) == [];
    assert [] + [100_000] == [100_000];
  }

  lemma SecondCall(m: map<Key, Times>, k: Key)
    requires m == map[k := [100_000]]
    ensures IsStep(m, Call(k, 50_000), true, map[k := [100_000, 50_000]], 2)
  {
    ClockRunningBackwards(m, k);
    assert m[k := [100_000, 50_000]] == map[k := [100_000, 50_000]];
  }

  lemma ThirdCall(m: map<Key, Times>, k: Key)
    requires m == map[k := [100_000, 50_000]]
    ensures IsStep(m, Call(k, 115_000), false, m, 2)
  {
    ExpiredBehindLive(Window(m, k));
  }

  lemma OneMoreStep(maps: seq<map<Key, Times>>, events: seq<Event>, answers: seq<bool>, limit: int,
                    ev: Event, answer: bool, m: map<Key, Times>)
    requires IsRun(maps, events, answers, limit) && IsStep(Last(maps), ev, answer, m, limit)
    ensures IsRun(maps + [m], events + [ev], answers + [answer], limit)
  {
    var ms, es, bs := maps + [m], events + [ev], answers + [answer];
    forall i | 0 <= i < |es| ensures IsStep(ms[i], es[i], bs[i], ms[i + 1], limit) {
      if i < |events| {
        assert ms[i] == maps[i] && es[i] == events[i] && bs[i] == answers[i] && ms[i + 1] == maps[i + 1];
      } else {
        assert ms[i] == Last(maps) && es[i] == ev && bs[i] == answer && ms[i + 1] == m;
      }
    }
  }

  lemma FullHistoryAllows(events: seq<Event>, k: Key)
    requires |events| == 3 && events[0] == Call(k, 100_000) && events[1] == Call(k, 50_000)
    ensures |Recent(History(events[..2], k, 2), 115_000)| == 1
  {
    assert events[..2] == [Call(k, 100_000), Call(k, 50_000)];
    HistoryOfTwo(events[..2], k);
    ExpiredBehindLive([100_000, 50_000]);
  }

  /** so that from a start with nothing stored, the third of three calls is refused although the limiter
      that remembers every call allows it. */
  lemma ClockMustNotRunBackwards(k: Key) returns (maps: seq<map<Key, Times>>, events: seq<Event>, answers: seq<bool>)
    ensures IsRun(maps, events, answers, 2) && |events| == 3 && events[2].Call? && !InOrder(events)
    ensures !answers[2] && |Recent(History(events[..2], events[2].key, 2), events[2].now)| < 2
  {
    var m1: map<Key, Times>, m2: map<Key, Times> := map[k := [100_000]], map[k := [100_000, 50_000]];
    FirstCall(map[], k);
    SecondCall(m1, k);
    ThirdCall(m2, k);
    maps, events, answers := [map[]], [], [];
    OneMoreStep(maps, events, answers, 2, Call(k, 100_000), true, m1);
    maps, events, answers := maps + [m1], events + [Call(k, 100_000)], answers + [true];
    OneMoreStep(maps, events, answers, 2, Call(k, 50_000), true, m2);
    maps, events, answers := maps + [m2], events + [Call(k, 50_000)], answers + [true];
    OneMoreStep(maps, events, answers, 2, Call(k, 115_000), false, m2);
    maps, events, answers := maps + [m2], events + [Call(k, 115_000)], answers + [false];
    FullHistoryAllows(events, k);
    assert events[0].now > events[1].now;
  }

  // ---------------------------------------------------------------------------
  // The limiter as it runs
  // ---------------------------------------------------------------------------

  class Limiter {
    var timestamps: map<Key, Times>

    constructor ()
      ensures timestamps == map[]
    {
      timestamps := map[];
    }

    method AllowInWindow(k: Key, limit: int, now: int) returns (allowed: bool)
      modifies this
      ensures (timestamps, allowed) == Allow(old(timestamps), k, limit, now)
    {
      var ts := if k in timestamps then timestamps[k] else [];
      var expired := 0;
      while expired < |ts| && now - ts[expired] >= RATE_WINDOW_MS
        invariant 0 <= expired <= |ts|
        invariant expired + ExpiredPrefix(ts[expired..], now) == ExpiredPrefix(ts, now)
      {
        assert ts[expired..][1..] == ts[expired + 1..];
        expired := expired + 1;
      }
      var live := if expired > 0 then ts[expired..] else ts;
      if |live| >= limit {
        if expired > 0 { timestamps := timestamps[k := live]; }
        return false;
      }
      timestamps := timestamps[k := live + [now]];
      return true;
    }

    method Filter(ts: Times, now: int) returns (kept: Times)
      ensures kept == Recent(ts, now)
    {
      kept := [];
      var i := 0;
      while i < |ts|
        invariant 0 <= i <= |ts| && kept == Recent(ts[..i], now)
      {
        assert Init(ts[..i + 1]) == ts[..i] && Last(ts[..i + 1]) == ts[i];
        if now - ts[i] < RATE_WINDOW_MS { kept := kept + [ts[i]]; }
        i := i + 1;
      }
      assert ts[..i] == ts;
    }

    method PruneRateLimits(now: int)
      modifies this
      ensures PrunedTo(old(timestamps), now, timestamps)
    {
      var todo := timestamps.Keys;
      while todo != {}
        invariant todo <= timestamps.Keys <= old(timestamps.Keys)
        invariant forall k :: k in todo ==> timestamps[k] == old(timestamps)[k]
        invariant forall k :: k !in todo ==> PrunedKey(old(timestamps), now, timestamps, k)
        decreases todo
      {
        var k :| k in todo;
        todo := todo - {k};
        ghost var before := timestamps;
        var live := Filter(timestamps[k], now);
        if live == [] { timestamps := timestamps - {k}; } else { timestamps := timestamps[k := live]; }
        assert forall j :: j != k ==> Window(timestamps, j) == Window(before, j);
      }
    }
  }
}
