/** Reveal access with expiry (packages/policy/src/reveal-state.ts). */
module RevealState {
  import opened Sequences
  import Strings

  /** `Date.getTime()`: milliseconds, or not a number. Comparisons with `NaN` are false. */
  datatype Instant = Ms(ms: int) | NaN

  predicate AtMost(a: Instant, b: Instant) {
    a.Ms? && b.Ms? && a.ms <= b.ms
  }

  datatype Scope = Message | Thread | Sender | ContentType | TimeWindow

  /** One recorded reveal: when its access ends and what it was requested for. */
  datatype Entry = Entry(expiresAt: Option<Instant>, groupId: string, scope: Scope, targetId: string)

  datatype Query = Query(messageId: string, groupId: string, threadId: Option<string>, sender: string,
                         contentType: string, sentAt: Instant)

  predicate Expired(e: Entry, now: Instant) {
    e.expiresAt.Some? && AtMost(e.expiresAt.value, now)
  }

  predicate InWindow(targetId: string, sentAt: Instant, parse: string -> Instant) {
    var i := Strings.Find(targetId, '|');
    && i < |targetId|
    && (var start, end := parse(targetId[..i]), parse(targetId[i + 1..]);
        start.Ms? && end.Ms? && AtMost(start, sentAt) && AtMost(sentAt, end))
  }

  /** `parse` is the engine's date parser. */
  predicate Matches(e: Entry, q: Query, parse: string -> Instant) {
    && e.groupId == q.groupId
    && match e.scope
       case Message => e.targetId == q.messageId
       case Thread => q.threadId == Some(e.targetId)
       case Sender => e.targetId == q.sender
       case ContentType => e.targetId == q.contentType
       case TimeWindow => InWindow(e.targetId, q.sentAt, parse)
  }

  /** The message is revealed at `now`: some entry that matches it has not expired. */
  ghost predicate Revealed(entries: seq<Entry>, q: Query, now: Instant, parse: string -> Instant) {
    exists e | e in entries :: !Expired(e, now) && Matches(e, q, parse)
  }

  function Current(now: Instant): Entry -> bool {
    e => !Expired(e, now)
  }

  class Store {
    var entries: seq<Entry>

    constructor ()
      ensures entries == []
    {
      entries := [];
    }

    method Record(e: Entry)
      modifies this
      ensures entries == old(entries) + [e]
    {
      entries := entries + [e];
    }

    method IsRevealed(q: Query, now: Instant, parse: string -> Instant) returns (r: bool)
      ensures r <==> Revealed(entries, q, now, parse)
    {
      for i := 0 to |entries|
        invariant forall j | 0 <= j < i :: Expired(entries[j], now) || !Matches(entries[j], q, parse)
      {
        if !Expired(entries[i], now) && Matches(entries[i], q, parse) { return true; }
      }
      r := false;
    }

    /** Splices expired entries out from the back. */
    method ExpireStale(now: Instant) returns (removed: nat)
      modifies this
      ensures entries == Filter(old(entries), Current(now))
      ensures removed == |old(entries)| - |entries|
    {
      removed := 0;
      ghost var before := entries;
      ghost var kept: seq<Entry> := [];
      assert before[..|entries|] == before;
      assert Filter(before, Current(now)) + kept == Filter(before, Current(now));
      assert Filter(before[..0], Current(now)) == [];
      hide Filter;
      for i := |entries| downto 0
        invariant i <= |before| && entries == before[..i] + kept
        invariant Filter(before[..i], Current(now)) + kept == Filter(before, Current(now))
        invariant removed == |before| - |entries|
      {
        FilterSnoc(before, i, Current(now));
        assert before[..i + 1] == before[..i] + [before[i]];
        assert entries[i] == before[i] && entries[..i] == before[..i] && entries[i + 1..] == kept;
        if Expired(entries[i], now) {
          assert Filter(before[..i], Current(now)) + [] == Filter(before[..i], Current(now));
          entries := entries[..i] + entries[i + 1..];
          removed := removed + 1;
        } else {
          assert Filter(before[..i], Current(now)) + [before[i]] + kept
              == Filter(before[..i], Current(now)) + ([before[i]] + kept);
          kept := [before[i]] + kept;
        }
      }
      assert entries == kept;
    }

    method Snapshot() returns (state: seq<Entry>)
      ensures state == entries
    {
      state := entries;
    }

    method Restore(state: seq<Entry>)
      modifies this
      ensures entries == state
    {
      entries := [];
      for i := 0 to |state|
        invariant entries == state[..i]
      {
        entries := entries + [state[i]];
      }
    }
  }

  /** A sweep at `t` removes exactly the entries expiring at or before `t` and keeps the others in
      order; it cannot change an answer at or after `t`. */
  lemma SweepKeepsAnswers(entries: seq<Entry>, q: Query, t: Instant, now: Instant, parse: string -> Instant)
    requires AtMost(t, now)
    ensures Revealed(Filter(entries, Current(t)), q, now, parse) <==> Revealed(entries, q, now, parse)
  {
    FilterMembers(entries, Current(t));
  }

  datatype Op = Record(entry: Entry) | Expire(at: Instant) | Restart

  /** `Restart` is a snapshot restored into a new store. */
  function Run(ops: seq<Op>): seq<Entry> {
    if ops == [] then []
    else
      var entries := Run(ops[..|ops| - 1]);
      match ops[|ops| - 1]
      case Record(e) => entries + [e]
      case Expire(at) => Filter(entries, Current(at))
      case Restart => entries
  }

  /** Everything ever recorded. */
  function Recorded(ops: seq<Op>): seq<Entry> {
    if ops == [] then []
    else
      var earlier := Recorded(ops[..|ops| - 1]);
      if ops[|ops| - 1].Record? then earlier + [ops[|ops| - 1].entry] else earlier
  }

  /** Whenever the sweeps ran, a message is revealed exactly when something ever recorded matches
      it and has not expired: expiry alone decides, never the sweeping. */
  lemma {:induction false} SweepsAreInvisible(ops: seq<Op>, q: Query, now: Instant, parse: string -> Instant)
    requires forall op | op in ops && op.Expire? :: AtMost(op.at, now)
    ensures Revealed(Run(ops), q, now, parse) <==> Revealed(Recorded(ops), q, now, parse)
  {
    if ops != [] {
      var earlier := ops[..|ops| - 1];
      SweepsAreInvisible(earlier, q, now, parse);
      match ops[|ops| - 1]
      case Record(e) => RevealedSnoc(Run(earlier), e, q, now, parse); RevealedSnoc(Recorded(earlier), e, q, now, parse);
      case Expire(at) =>
        assert ops[|ops| - 1] in ops;
        SweepKeepsAnswers(Run(earlier), q, at, now, parse);
      case Restart =>
    }
  }

  lemma RevealedSnoc(entries: seq<Entry>, e: Entry, q: Query, now: Instant, parse: string -> Instant)
    ensures Revealed(entries + [e], q, now, parse) <==>
            Revealed(entries, q, now, parse) || (!Expired(e, now) && Matches(e, q, parse))
  {
    assert e in entries + [e];
    assert forall x :: x in entries + [e] <==> x in entries || x == e;
  }

  // ---- Who sees what ---------------------------------------------------------------------

  /** A window target names two dates, the first before its first `|`, with the message between them. */
  ghost predicate WithinWindow(targetId: string, sentAt: Instant, parse: string -> Instant) {
    exists start: string, end: string | targetId == start + "|" + end && '|' !in start ::
      && parse(start).Ms? && parse(end).Ms? && sentAt.Ms?
      && parse(start).ms <= sentAt.ms <= parse(end).ms
  }

  lemma InWindowIff(targetId: string, sentAt: Instant, parse: string -> Instant)
    ensures InWindow(targetId, sentAt, parse) <==> WithinWindow(targetId, sentAt, parse)
  {
    var i := Strings.Find(targetId, '|');
    if i < |targetId| { assert targetId == targetId[..i] + "|" + targetId[i + 1..]; }
    if WithinWindow(targetId, sentAt, parse) {
      var start, end :| targetId == start + "|" + end && '|' !in start
        && parse(start).Ms? && parse(end).Ms? && sentAt.Ms? && parse(start).ms <= sentAt.ms <= parse(end).ms;
      assert targetId[|start|] == '|' && |start| == i;
      assert targetId[..i] == start && targetId[i + 1..] == end;
    }
  }

  /** The entry is about this message: of the same group, and naming the message itself, its thread, its
      sender, its content type or a window around it. */
  ghost predicate About(e: Entry, q: Query, parse: string -> Instant) {
    && e.groupId == q.groupId
    && (e.scope == Message ==> q.messageId == e.targetId)
    && (e.scope == Thread ==> q.threadId.Some? && q.threadId.value == e.targetId)
    && (e.scope == Sender ==> q.sender == e.targetId)
    && (e.scope == ContentType ==> q.contentType == e.targetId)
    && (e.scope == TimeWindow ==> WithinWindow(e.targetId, q.sentAt, parse))
  }

  /** Over any run, at a time that no sweep so far lies behind: a message is revealed exactly when
      something recorded is about it and, if its access ends at all, ends later. */
  lemma RevealedIff(ops: seq<Op>, q: Query, now: int, parse: string -> Instant)
    requires forall op | op in ops && op.Expire? :: op.at.Ms? && op.at.ms <= now
    ensures Revealed(Run(ops), q, Ms(now), parse) <==>
            exists k | 0 <= k < |ops| && ops[k].Record? ::
              && About(ops[k].entry, q, parse)
              && (ops[k].entry.expiresAt.Some? && ops[k].entry.expiresAt.value.Ms? ==>
                    now < ops[k].entry.expiresAt.value.ms)
  {
    SweepsAreInvisible(ops, q, Ms(now), parse);
    RecordedMembers(ops);
    forall e: Entry ensures Matches(e, q, parse) <==> About(e, q, parse) { InWindowIff(e.targetId, q.sentAt, parse); }
  }

  lemma {:induction false} RecordedMembers(ops: seq<Op>)
    ensures forall e :: e in Recorded(ops) <==> exists k | 0 <= k < |ops| && ops[k].Record? :: ops[k].entry == e
  {
    if ops != [] {
      var n := |ops| - 1;
      RecordedMembers(ops[..n]);
      forall e ensures e in Recorded(ops) <==> exists k | 0 <= k < |ops| && ops[k].Record? :: ops[k].entry == e {
        if k :| 0 <= k < n && ops[..n][k].Record? && ops[..n][k].entry == e { assert ops[k].entry == e; }
        if k :| 0 <= k < |ops| && ops[k].Record? && ops[k].entry == e && k < n { assert ops[..n][k].entry == e; }
      }
    }
  }

  /** Nothing recorded for another group ever reveals a message. */
  lemma OtherGroupsRevealNothing(ops: seq<Op>, q: Query, now: int, parse: string -> Instant)
    requires forall op | op in ops && op.Expire? :: op.at.Ms? && op.at.ms <= now
    requires forall op | op in ops && op.Record? :: op.entry.groupId != q.groupId
    ensures !Revealed(Run(ops), q, Ms(now), parse)
  {
    RevealedIff(ops, q, now, parse);
  }
}
