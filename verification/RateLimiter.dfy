/** The sliding-window rate limiter (packages/verifier/src/rate-limiter.ts), and its bound over
    every window of every run. */
module RateLimiter {
  import opened Sequences

  type State = map<string, seq<int>>

  datatype Request = Request(who: string, at: int)

  /** `entries.findIndex((t) => t >= windowStart)`, or the length. */
  function FirstValid(entries: seq<int>, windowStart: int): (i: nat)
    ensures i <= |entries|
  {
    if entries == [] || entries[0] >= windowStart then 0 else 1 + FirstValid(entries[1..], windowStart)
  }

  lemma {:induction false} FirstValidIsFirst(entries: seq<int>, windowStart: int)
    ensures var i := FirstValid(entries, windowStart);
            (i < |entries| ==> entries[i] >= windowStart) && (forall j | 0 <= j < i :: entries[j] < windowStart)
  {
    if entries != [] && entries[0] < windowStart { FirstValidIsFirst(entries[1..], windowStart); }
  }

  /** One `check`: the new timestamps and the verdict. */
  function CheckStep(s: State, who: string, now: int, maxRequests: int, windowMs: int): (State, bool) {
    if who !in s then (s[who := [now]], true)
    else
      var kept := s[who][FirstValid(s[who], now - windowMs)..];
      if kept == [] then (s[who := [now]], true)
      else if |kept| >= maxRequests then (s[who := kept], false)
      else (s[who := kept + [now]], true)
  }

  class Limiter {
    const maxRequests: int
    const windowMs: int
    var timestamps: map<string, seq<int>>

    constructor (maxRequests: int, windowMs: int)
      ensures this.maxRequests == maxRequests && this.windowMs == windowMs && timestamps == map[]
    {
      this.maxRequests, this.windowMs := maxRequests, windowMs;
      timestamps := map[];
    }

    method Check(who: string, now: int) returns (allowed: bool)
      modifies this
      ensures (timestamps, allowed) == CheckStep(old(timestamps), who, now, maxRequests, windowMs)
    {
      var windowStart := now - windowMs;
      if who !in timestamps {
        timestamps := timestamps[who := [now]];
        return true;
      }
      var entries := timestamps[who];
      var firstValid := 0;
      while firstValid < |entries| && entries[firstValid] < windowStart
        invariant firstValid <= |entries|
        invariant firstValid + FirstValid(entries[firstValid..], windowStart) == FirstValid(entries, windowStart)
      {
        assert entries[firstValid..][1..] == entries[firstValid + 1..];
        firstValid := firstValid + 1;
      }
      entries := entries[firstValid..];
      if |entries| == 0 {
        timestamps := timestamps - {who};
        timestamps := timestamps[who := [now]];
        assert timestamps == old(timestamps)[who := [now]];
        return true;
      }
      if |entries| >= maxRequests {
        timestamps := timestamps[who := entries];
        return false;
      }
      timestamps := timestamps[who := entries + [now]];
      return true;
    }

    method Reset()
      modifies this
      ensures timestamps == map[]
    {
      timestamps := map[];
    }
  }

  // ---- Runs ------------------------------------------------------------------------------

  function Run(requests: seq<Request>, maxRequests: int, windowMs: int): State {
    if requests == [] then map[] else
      var n := |requests| - 1;
      CheckStep(Run(requests[..n], maxRequests, windowMs), requests[n].who, requests[n].at, maxRequests, windowMs).0
  }

  /** The verdict on request `i` of a run. */
  predicate Allowed(requests: seq<Request>, i: nat, maxRequests: int, windowMs: int)
    requires i < |requests|
  {
    CheckStep(Run(requests[..i], maxRequests, windowMs), requests[i].who, requests[i].at, maxRequests, windowMs).1
  }

  /** The times of a requester's allowed requests. */
  function AllowedTimes(requests: seq<Request>, who: string, maxRequests: int, windowMs: int): seq<int> {
    if requests == [] then [] else
      var n := |requests| - 1;
      var earlier := AllowedTimes(requests[..n], who, maxRequests, windowMs);
      if requests[n].who == who && Allowed(requests, n, maxRequests, windowMs)
      then earlier + [requests[n].at]
      else earlier
  }

  function Between(lo: int, hi: int): int -> bool {
    t => lo <= t <= hi
  }

  /** How many of the times lie in a closed interval. */
  function CountIn(times: seq<int>, lo: int, hi: int): nat {
    |Filter(times, Between(lo, hi))|
  }

  /** The cap in force: even a limit below one lets a first request through. */
  function Cap(maxRequests: int): int {
    if maxRequests >= 1 then maxRequests else 1
  }

  /** The clock does not go backwards. */
  ghost predicate Ordered(requests: seq<Request>) {
    forall i, j | 0 <= i < j < |requests| :: requests[i].at <= requests[j].at
  }

  ghost predicate Ascending(times: seq<int>) {
    forall i, j | 0 <= i < j < |times| :: times[i] <= times[j]
  }

  lemma {:induction false} AllowedTimesOrdered(requests: seq<Request>, who: string, maxRequests: int, windowMs: int)
    requires Ordered(requests)
    ensures var times := AllowedTimes(requests, who, maxRequests, windowMs);
            && Ascending(times)
            && (forall t | t in times :: requests != [] && t <= requests[|requests| - 1].at)
  {
    if requests != [] {
      var n := |requests| - 1;
      AllowedTimesOrdered(requests[..n], who, maxRequests, windowMs);
      var earlier := AllowedTimes(requests[..n], who, maxRequests, windowMs);
      forall i | 0 <= i < |earlier| ensures earlier[i] <= requests[n].at { assert earlier[i] in earlier; }
    }
  }

  function EntriesOf(s: State, who: string): seq<int> {
    if who in s then s[who] else []
  }

  /** What is stored for a requester: the allowed times from some point on, everything before that
      point being older than the window. */
  ghost predicate Stored(entries: seq<int>, times: seq<int>, floor: int) {
    && |entries| <= |times| && entries == times[|times| - |entries|..]
    && forall i | 0 <= i < |times| - |entries| :: times[i] < floor
  }

  /** In an ascending list, dropping the entries before the window keeps exactly those in it. */
  lemma {:induction false} CountSuffix(times: seq<int>, k: nat, lo: int, hi: int)
    requires k <= |times|
    requires forall i | 0 <= i < k :: times[i] < lo
    requires forall i | k <= i < |times| :: lo <= times[i] <= hi
    ensures CountIn(times, lo, hi) == |times| - k
  {
    if times != [] {
      var n := |times| - 1;
      if k < |times| { CountSuffix(times[..n], k, lo, hi); } else { CountSuffix(times[..n], n, lo, hi); }
    }
  }

  lemma KeptIsWindow(times: seq<int>, entries: seq<int>, windowStart: int, now: int)
    requires Ascending(times) && (forall t | t in times :: t <= now)
    requires Stored(entries, times, windowStart)
    ensures var kept := entries[FirstValid(entries, windowStart)..];
            && |kept| == CountIn(times, windowStart, now)
            && Stored(kept, times, windowStart) && Stored(kept + [now], times + [now], windowStart)
  {
    var f := FirstValid(entries, windowStart);
    FirstValidIsFirst(entries, windowStart);
    var kept := entries[f..];
    var k := |times| - |kept|;
    forall i | 0 <= i < k ensures times[i] < windowStart {
      if i >= |times| - |entries| { assert times[i] == entries[i - (|times| - |entries|)]; }
    }
    forall i | k <= i < |times| ensures windowStart <= times[i] <= now {
      assert times[i] in times;
      assert times[k] == entries[f];
    }
    CountSuffix(times, k, windowStart, now);
    StoredSnoc(kept, times, windowStart, now);
  }

  /** One check in terms of what it keeps. */
  lemma CheckShape(s: State, who: string, now: int, maxRequests: int, windowMs: int)
    ensures var (t, allowed) := CheckStep(s, who, now, maxRequests, windowMs);
            var kept := EntriesOf(s, who)[FirstValid(EntriesOf(s, who), now - windowMs)..];
            && (allowed <==> |kept| < Cap(maxRequests))
            && EntriesOf(t, who) == (if allowed then kept + [now] else kept)
            && (forall other | other != who :: EntriesOf(t, other) == EntriesOf(s, other))
  {
  }

  lemma StoredSnoc(entries: seq<int>, times: seq<int>, floor: int, now: int)
    requires Stored(entries, times, floor)
    ensures Stored(entries + [now], times + [now], floor)
  {
    assert entries + [now] == (times + [now])[|times| - |entries|..];
  }

  /** One check, seen from the allowed times. */
  lemma CheckVerdict(s: State, times: seq<int>, who: string, now: int, maxRequests: int, windowMs: int)
    requires Stored(EntriesOf(s, who), times, now - windowMs)
    requires Ascending(times) && (forall t | t in times :: t <= now)
    ensures var (t, allowed) := CheckStep(s, who, now, maxRequests, windowMs);
            && (allowed <==> CountIn(times, now - windowMs, now) < Cap(maxRequests))
            && Stored(EntriesOf(t, who), if allowed then times + [now] else times, now - windowMs)
  {
    KeptIsWindow(times, EntriesOf(s, who), now - windowMs, now);
    CheckShape(s, who, now, maxRequests, windowMs);
  }

  lemma StoredWeaken(entries: seq<int>, times: seq<int>, floor: int, higher: int)
    requires Stored(entries, times, floor) && floor <= higher
    ensures Stored(entries, times, higher)
  {
  }

  /** The facts about a run that one more check relies on. */
  ghost predicate Good(requests: seq<Request>, who: string, now: int, maxRequests: int, windowMs: int) {
    var times := AllowedTimes(requests, who, maxRequests, windowMs);
    && Stored(EntriesOf(Run(requests, maxRequests, windowMs), who), times, now - windowMs)
    && Ascending(times) && (forall t | t in times :: t <= now)
  }

  lemma {:induction false} RunGood(requests: seq<Request>, who: string, now: int, maxRequests: int, windowMs: int)
    requires Ordered(requests)
    requires forall i | 0 <= i < |requests| :: requests[i].at <= now
    ensures Good(requests, who, now, maxRequests, windowMs)
  {
    AllowedTimesOrdered(requests, who, maxRequests, windowMs);
    if requests != [] {
      var n := |requests| - 1;
      RunGood(requests[..n], who, requests[n].at, maxRequests, windowMs);
      GoodSnoc(requests, who, maxRequests, windowMs);
      StoredWeaken(EntriesOf(Run(requests, maxRequests, windowMs), who),
                   AllowedTimes(requests, who, maxRequests, windowMs),
                   requests[n].at - windowMs, now - windowMs);
    }
  }

  lemma GoodSnoc(requests: seq<Request>, who: string, maxRequests: int, windowMs: int)
    requires requests != []
    requires var n := |requests| - 1; Good(requests[..n], who, requests[n].at, maxRequests, windowMs)
    ensures var n := |requests| - 1;
            Stored(EntriesOf(Run(requests, maxRequests, windowMs), who),
                   AllowedTimes(requests, who, maxRequests, windowMs),
                   requests[n].at - windowMs)
  {
    var n := |requests| - 1;
    StoredFrom(Run(requests[..n], maxRequests, windowMs), AllowedTimes(requests[..n], who, maxRequests, windowMs),
               requests, who, maxRequests, windowMs);
  }

  /** A run and its allowed times, one request longer. */
  lemma RunSnoc(requests: seq<Request>, who: string, maxRequests: int, windowMs: int)
    requires requests != []
    ensures var n := |requests| - 1;
            var (t, allowed) := CheckStep(Run(requests[..n], maxRequests, windowMs),
                                          requests[n].who, requests[n].at, maxRequests, windowMs);
            var earlier := AllowedTimes(requests[..n], who, maxRequests, windowMs);
            && Run(requests, maxRequests, windowMs) == t
            && AllowedTimes(requests, who, maxRequests, windowMs) ==
               (if requests[n].who == who && allowed then earlier + [requests[n].at] else earlier)
  {
  }

  lemma StoredFrom(s: State, times: seq<int>, requests: seq<Request>, who: string, maxRequests: int, windowMs: int)
    requires requests != []
    requires var n := |requests| - 1;
             && s == Run(requests[..n], maxRequests, windowMs)
             && times == AllowedTimes(requests[..n], who, maxRequests, windowMs)
             && Stored(EntriesOf(s, who), times, requests[n].at - windowMs)
             && Ascending(times) && (forall t | t in times :: t <= requests[n].at)
    ensures var n := |requests| - 1;
            Stored(EntriesOf(Run(requests, maxRequests, windowMs), who),
                   AllowedTimes(requests, who, maxRequests, windowMs),
                   requests[n].at - windowMs)
  {
    RunSnoc(requests, who, maxRequests, windowMs);
    StoredAfter(s, times, who, requests[|requests| - 1], maxRequests, windowMs);
  }

  lemma StoredAfter(s: State, times: seq<int>, who: string, r: Request, maxRequests: int, windowMs: int)
    requires Stored(EntriesOf(s, who), times, r.at - windowMs)
    requires Ascending(times) && (forall t | t in times :: t <= r.at)
    ensures var (t, allowed) := CheckStep(s, r.who, r.at, maxRequests, windowMs);
            Stored(EntriesOf(t, who), if r.who == who && allowed then times + [r.at] else times, r.at - windowMs)
  {
    hide Stored, FirstValid, EntriesOf, CheckStep, CountIn;
    if r.who == who {
      CheckVerdict(s, times, who, r.at, maxRequests, windowMs);
    } else {
      CheckShape(s, r.who, r.at, maxRequests, windowMs);
    }
  }

  // ---- Main results ----------------------------------------------------------------------

  lemma VerdictFrom(s: State, times: seq<int>, requests: seq<Request>, i: nat, maxRequests: int, windowMs: int)
    requires i < |requests| && s == Run(requests[..i], maxRequests, windowMs)
    requires Stored(EntriesOf(s, requests[i].who), times, requests[i].at - windowMs)
    requires Ascending(times) && (forall t | t in times :: t <= requests[i].at)
    ensures Allowed(requests, i, maxRequests, windowMs) <==>
            CountIn(times, requests[i].at - windowMs, requests[i].at) < Cap(maxRequests)
  {
    hide Run, CheckStep, CountIn, Stored, EntriesOf;
    CheckVerdict(s, times, requests[i].who, requests[i].at, maxRequests, windowMs);
  }

  lemma RequestGood(requests: seq<Request>, i: nat, maxRequests: int, windowMs: int)
    requires Ordered(requests) && i < |requests|
    ensures Good(requests[..i], requests[i].who, requests[i].at, maxRequests, windowMs)
  {
    RunGood(requests[..i], requests[i].who, requests[i].at, maxRequests, windowMs);
  }

  /** A request is refused exactly when as many requests as the cap were allowed in the window
      that ends with it. */
  lemma VerdictIff(requests: seq<Request>, i: nat, maxRequests: int, windowMs: int)
    requires Ordered(requests) && i < |requests|
    ensures var now := requests[i].at;
            Allowed(requests, i, maxRequests, windowMs) <==>
              CountIn(AllowedTimes(requests[..i], requests[i].who, maxRequests, windowMs), now - windowMs, now)
              < Cap(maxRequests)
  {
    RequestGood(requests, i, maxRequests, windowMs);
    VerdictFrom(Run(requests[..i], maxRequests, windowMs),
                AllowedTimes(requests[..i], requests[i].who, maxRequests, windowMs),
                requests, i, maxRequests, windowMs);
  }

  lemma {:induction false} CountMonotone(times: seq<int>, lo: int, hi: int, lo': int, hi': int)
    requires forall i | 0 <= i < |times| && lo <= times[i] <= hi :: lo' <= times[i] <= hi'
    ensures CountIn(times, lo, hi) <= CountIn(times, lo', hi')
  {
    if times != [] {
      CountMonotone(times[..|times| - 1], lo, hi, lo', hi');
    }
  }

  lemma CountSnoc(times: seq<int>, t: int, lo: int, hi: int)
    ensures CountIn(times + [t], lo, hi) == CountIn(times, lo, hi) + (if lo <= t <= hi then 1 else 0)
  {
    assert (times + [t])[..|times|] == times;
  }

  /** Allowing one more request at the end of a window with room keeps every window bounded. */
  lemma WindowStep(times: seq<int>, now: int, start: int, windowMs: int, cap: int)
    requires forall i | 0 <= i < |times| :: times[i] <= now
    requires CountIn(times, now - windowMs, now) < cap && CountIn(times, start, start + windowMs) <= cap
    ensures CountIn(times + [now], start, start + windowMs) <= cap
  {
    CountSnoc(times, now, start, start + windowMs);
    if start <= now <= start + windowMs {
      CountMonotone(times, start, start + windowMs, now - windowMs, now);
    }
  }

  lemma AllowedBefore(requests: seq<Request>, who: string, maxRequests: int, windowMs: int)
    requires Ordered(requests) && requests != []
    ensures var n := |requests| - 1;
            var times := AllowedTimes(requests[..n], who, maxRequests, windowMs);
            forall i | 0 <= i < |times| :: times[i] <= requests[n].at
  {
    var n := |requests| - 1;
    var times := AllowedTimes(requests[..n], who, maxRequests, windowMs);
    AllowedTimesOrdered(requests[..n], who, maxRequests, windowMs);
    assert forall i | 0 <= i < |times| :: times[i] in times;
  }

  /** For every requester and every closed interval of one window length, at most the cap of
      checks return true. */
  lemma {:induction false} WindowBound(requests: seq<Request>, who: string, start: int, maxRequests: int, windowMs: int)
    requires Ordered(requests)
    ensures CountIn(AllowedTimes(requests, who, maxRequests, windowMs), start, start + windowMs) <= Cap(maxRequests)
  {
    if requests != [] {
      var n := |requests| - 1;
      var times := AllowedTimes(requests[..n], who, maxRequests, windowMs);
      WindowBound(requests[..n], who, start, maxRequests, windowMs);
      if requests[n].who == who && Allowed(requests, n, maxRequests, windowMs) {
        VerdictIff(requests, n, maxRequests, windowMs);
        AllowedBefore(requests, who, maxRequests, windowMs);
        WindowStep(times, requests[n].at, start, windowMs, Cap(maxRequests));
      } else {
        assert AllowedTimes(requests, who, maxRequests, windowMs) == times;
      }
    }
  }

  // ---- Resets ----------------------------------------------------------------------------

  datatype Call = Checked(request: Request) | Cleared

  /** The state after checks and resets. */
  function RunCalls(calls: seq<Call>, maxRequests: int, windowMs: int): State {
    if calls == [] then map[]
    else
      var s := RunCalls(calls[..|calls| - 1], maxRequests, windowMs);
      match calls[|calls| - 1]
      case Checked(r) => CheckStep(s, r.who, r.at, maxRequests, windowMs).0
      case Cleared => map[]
  }

  /** The checks since the last reset. */
  function SinceReset(calls: seq<Call>): seq<Request> {
    if calls == [] then []
    else match calls[|calls| - 1]
      case Checked(r) => SinceReset(calls[..|calls| - 1]) + [r]
      case Cleared => []
  }

  /** A reset starts the limiter over: the state, and so every later verdict, depends only on the
      checks since. */
  lemma {:induction false} ResetStartsOver(calls: seq<Call>, maxRequests: int, windowMs: int)
    ensures RunCalls(calls, maxRequests, windowMs) == Run(SinceReset(calls), maxRequests, windowMs)
  {
    hide CheckStep;
    if calls != [] {
      var n := |calls| - 1;
      ResetStartsOver(calls[..n], maxRequests, windowMs);
      if calls[n].Checked? {
        var earlier := SinceReset(calls[..n]);
        assert (earlier + [calls[n].request])[..|earlier|] == earlier;
      }
    }
  }
}
