/**
 Polling for the token of a device sign-in. Times are in milliseconds.
 */
module DevicePoll {
  import opened Wrappers

  // Section 3.5 of RFC 8628, against a clock and a server that may do anything.

  const DEFAULT_POLL_INTERVAL_S := 5.0
  const MIN_POLL_INTERVAL_S := 1.0
  const MAX_POLL_INTERVAL_S := 60.0
  const SLOW_DOWN_STEP_MS := 5_000.0
  const MAX_DEVICE_CODE_LIFETIME_S := 3_600.0

  /** What a field of the server's answer may be where a number belongs. */
  datatype Number = Finite(value: real) | NotFinite | NotANumber

  function Min(a: real, b: real): real { if a <= b then a else b }

  function Max(a: real, b: real): real { if a >= b then a else b }

  /** Within 1 to 60 seconds, and what the server said where that is within them. */
  function ClampPollInterval(interval: Number): (s: real)
    ensures MIN_POLL_INTERVAL_S <= s <= MAX_POLL_INTERVAL_S
    ensures interval.Finite? && 1.0 <= interval.value <= 60.0 ==> s == interval.value
    ensures interval.Finite? && interval.value < 1.0 ==> s == 1.0
    ensures interval.Finite? && interval.value > 60.0 ==> s == 60.0
    ensures !interval.Finite? ==> s == 5.0
  {
    if !interval.Finite? then DEFAULT_POLL_INTERVAL_S
    else Min(MAX_POLL_INTERVAL_S, Max(MIN_POLL_INTERVAL_S, interval.value))
  }

  datatype Reply =
    | Tokens
    | MalformedTokens
    | Pending
    | SlowDown
    | Expired
    | Denied
    | OtherError
    | Transient          // a status of 429 or from 500 up
    | NetworkError
    | Unexpected         // another status, or an error that is not of the network

  /** Whether polling goes on after a reply. */
  predicate KeepsPolling(r: Reply) { r.Pending? || r.SlowDown? || r.Transient? || r.NetworkError? }

  datatype Outcome = SignedIn | InvalidLifetime | CodeExpired | Refused(reply: Reply)

  function OutcomeOf(r: Reply): Outcome {
    if r.Tokens? then SignedIn else if r.Expired? then CodeExpired else Refused(r)
  }

  /** One poll: when it was sent, the interval waited for before it, and what came back. */
  datatype Poll = Poll(at: real, interval: real, reply: Reply)

  function NextInterval(p: Poll): real {
    if p.reply.SlowDown? then Min(p.interval + SLOW_DOWN_STEP_MS, MAX_POLL_INTERVAL_S * 1000.0) else p.interval
  }

  function Lifetime(expiresIn: real): real { Min(expiresIn, MAX_DEVICE_CODE_LIFETIME_S) * 1000.0 }

  // ---------------------------------------------------------------------------
  // What the polls of one sign-in look like
  // ---------------------------------------------------------------------------

  /** Each poll comes an interval after the one before; the interval grows only with slow_down. */
  ghost predicate WellSpaced(polls: seq<Poll>, start: real, first: real) {
    && (polls != [] ==> polls[0].interval == first && polls[0].at - start >= first)
    && forall i :: 0 <= i && i + 1 < |polls| ==>
         polls[i + 1].interval == NextInterval(polls[i]) && polls[i + 1].at - polls[i].at >= polls[i + 1].interval
  }

  /** All were sent before the deadline, and all but the last called for another. */
  ghost predicate InTime(polls: seq<Poll>, deadline: real) {
    && (forall i :: 0 <= i < |polls| ==> polls[i].at < deadline)
    && (forall i :: 0 <= i < |polls| - 1 ==> KeepsPolling(polls[i].reply))
  }

  ghost predicate Answered(polls: seq<Poll>, replies: nat -> Reply) {
    forall i :: 0 <= i < |polls| ==> polls[i].reply == replies(i)
  }

  ghost predicate Bounded(interval: real) { MIN_POLL_INTERVAL_S * 1000.0 <= interval <= MAX_POLL_INTERVAL_S * 1000.0 }

  /** The interval never decreases and stays within 1 to 60 seconds. */
  lemma {:induction false} IntervalGrows(polls: seq<Poll>, start: real, first: real, i: nat, j: nat)
    requires WellSpaced(polls, start, first) && Bounded(first) && i <= j < |polls|
    ensures Bounded(polls[i].interval) && Bounded(polls[j].interval) && polls[i].interval <= polls[j].interval
    decreases i, j
  {
    if j > i {
      IntervalGrows(polls, start, first, i, j - 1);
      assert polls[(j - 1) + 1].interval == NextInterval(polls[j - 1]);
    } else if i > 0 {
      IntervalGrows(polls, start, first, i - 1, i - 1);
      assert polls[(i - 1) + 1].interval == NextInterval(polls[i - 1]);
    }
  }

  /** The answers after which there is another poll; only slow_down changes the interval, by 5 seconds up to a
      minute; and no poll is sent once the code has expired, or an hour after the start. */
  lemma PollsAgain(polls: seq<Poll>, start: real, first: real, expiresIn: real, i: nat)
    requires WellSpaced(polls, start, first) && InTime(polls, start + Lifetime(expiresIn)) && i < |polls|
    ensures polls[i].at < start + expiresIn * 1000.0 && polls[i].at < start + 3_600_000.0
    ensures Lifetime(expiresIn) == if expiresIn < 3_600.0 then expiresIn * 1000.0 else 3_600_000.0
    ensures i + 1 < |polls| ==>
              && polls[i].reply in {Pending, SlowDown, Transient, NetworkError}
              && polls[i + 1].at - polls[i].at >= polls[i + 1].interval
              && polls[i + 1].interval == if polls[i].reply != SlowDown then polls[i].interval
                                          else if polls[i].interval < 55_000.0 then polls[i].interval + 5_000.0 else 60_000.0
  {
    if i + 1 < |polls| { assert KeepsPolling(polls[i].reply) && polls[i + 1].interval == NextInterval(polls[i]); }
  }

  /** What a sign-in ends with that an answer ended: tokens sign in, an expired code is reported as such, and any
      other answer that does not ask for another poll is reported as it is. */
  lemma EndsAsAnswered(r: Reply)
    ensures KeepsPolling(r) <==> r in {Pending, SlowDown, Transient, NetworkError}
    ensures OutcomeOf(r) == SignedIn <==> r == Tokens
    ensures OutcomeOf(r) == CodeExpired <==> r == Expired
    ensures r in {MalformedTokens, Denied, OtherError, Unexpected} ==> OutcomeOf(r) == Refused(r)
  {
  }

  lemma {:induction false} PollComesAfter(polls: seq<Poll>, start: real, first: real, i: nat)
    requires WellSpaced(polls, start, first) && Bounded(first) && i < |polls|
    ensures polls[i].at - start >= (i + 1) as real * first
    decreases i
  {
    if i > 0 {
      PollComesAfter(polls, start, first, i - 1);
      IntervalGrows(polls, start, first, 0, i);
      assert polls[(i - 1) + 1].at - polls[i - 1].at >= polls[i].interval;
      assert (i + 1) as real * first == i as real * first + first;
    }
  }

  /** There are fewer polls than first intervals in the code's lifetime. */
  lemma FewerPollsThanIntervals(polls: seq<Poll>, start: real, first: real, expiresIn: real)
    requires WellSpaced(polls, start, first) && Bounded(first) && expiresIn > 0.0
    requires InTime(polls, start + Lifetime(expiresIn))
    ensures |polls| as real * first < Lifetime(expiresIn)
    ensures |polls| < 3_600
  {
    if polls != [] {
      PollComesAfter(polls, start, first, |polls| - 1);
    }
    assert |polls| as real * first >= |polls| as real * 1000.0;
  }

  // ---------------------------------------------------------------------------
  // Polling
  // ---------------------------------------------------------------------------

  class Poller {
    var now: real

    constructor (now: real)
      ensures this.now == now
    {
      this.now := now;
    }

    /** A wait lasts what it was asked to, or longer. */
    method Wait(ms: real, late: real)
      modifies this
      ensures now == old(now) + ms + Max(late, 0.0)
    {
      now := now + ms + Max(late, 0.0);
    }

    /** `late`, `replies` and `took` are what the `i`th wait, answer and request do. */
    method PollDeviceToken(expiresIn: Number, interval: Number, late: nat -> real, replies: nat -> Reply, took: nat -> real)
      returns (outcome: Outcome, ghost polls: seq<Poll>)
      modifies this
      ensures outcome.InvalidLifetime? <==> !(expiresIn.Finite? && expiresIn.value > 0.0)
      ensures outcome.InvalidLifetime? ==> polls == []
      ensures !outcome.InvalidLifetime? ==>
                && WellSpaced(polls, old(now), ClampPollInterval(interval) * 1000.0)
                && InTime(polls, old(now) + Lifetime(expiresIn.value))
                && Answered(polls, replies)
                && (if polls != [] && !KeepsPolling(Last(polls).reply) then outcome == OutcomeOf(Last(polls).reply)
                    else outcome == CodeExpired && now >= old(now) + Lifetime(expiresIn.value))
    {
      polls := [];
      if !expiresIn.Finite? || expiresIn.value <= 0.0 { return InvalidLifetime, polls; }
      var deadline := now + Lifetime(expiresIn.value);
      var intervalMs := ClampPollInterval(interval) * 1000.0;
      ghost var first, start := intervalMs, now;
      var i := 0;
      while true
        invariant i == |polls| && Bounded(intervalMs)
        invariant WellSpaced(polls, start, first) && InTime(polls, deadline) && Answered(polls, replies)
        invariant polls != [] ==> KeepsPolling(Last(polls).reply)
        invariant if polls == [] then intervalMs == first && now == start else intervalMs == NextInterval(Last(polls)) && now >= Last(polls).at
        decreases Left(deadline, now)
      {
        ghost var before := now;
        Wait(intervalMs, late(i));
        if now >= deadline {
          outcome := CodeExpired;
          break;
        }
        ghost var sent := now;
        var reply := replies(i);
        ghost var poll := Poll(now, intervalMs, reply);
        OneMorePoll(polls, poll, start, first, deadline);
        polls := polls + [poll];
        now := now + Max(took(i), 0.0);
        LessLeft(deadline, before, sent, now);
        if !KeepsPolling(reply) {
          outcome := if reply.Tokens? then SignedIn else if reply.Expired? then CodeExpired else Refused(reply);
          break;
        }
        i := i + 1;
        if reply.SlowDown? { intervalMs := Min(intervalMs + SLOW_DOWN_STEP_MS, MAX_POLL_INTERVAL_S * 1000.0); }
      }
    }
  }

  function Left(deadline: real, now: real): nat {
    if deadline > now then ((deadline - now) / 1000.0).Floor + 1 else 0
  }

  /** A second or more later, a second less is left. */
  lemma LessLeft(deadline: real, before: real, sent: real, later: real)
    requires before + 1000.0 <= sent < deadline && sent <= later
    ensures Left(deadline, later) < Left(deadline, before)
  {
    if later < deadline { assert (deadline - before) / 1000.0 >= (deadline - later) / 1000.0 + 1.0; }
  }

  lemma OneMorePoll(polls: seq<Poll>, p: Poll, start: real, first: real, deadline: real)
    requires WellSpaced(polls, start, first) && InTime(polls, deadline) && p.at < deadline
    requires polls != [] ==> KeepsPolling(Last(polls).reply)
    requires if polls == [] then p.interval == first && p.at - start >= first
             else p.interval == NextInterval(Last(polls)) && p.at - Last(polls).at >= p.interval
    ensures WellSpaced(polls + [p], start, first) && InTime(polls + [p], deadline)
  {
  }
}
