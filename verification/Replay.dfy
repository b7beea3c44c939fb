/** Replay after a reconnect: the ring buffer, sequence numbers and the resume decision of the
    WebSocket server (packages/ws/src/replay-buffer.ts, event-broadcaster.ts, server.ts). */
module Replay {
  import opened Sequences
  import Digits

  /** The last `n` items of a list. */
  function Last<T>(s: seq<T>, n: nat): (r: seq<T>) {
    if |s| <= n then s else s[|s| - n..]
  }

  /** Position `i` counted from `start` in a ring of `cap` slots. */
  function Slot(start: nat, i: nat, cap: nat): (k: nat)
    requires start < cap && i < cap
    ensures k < cap
  {
    if start + i < cap then start + i else start + i - cap
  }

  lemma SlotIsModulo(start: nat, i: nat, cap: nat)
    requires start < cap && i < cap
    ensures (start + i) % cap == Slot(start, i, cap)
  {
    var k := Slot(start, i, cap);
    Digits.DivModUnique(cap, 0, k);
    Digits.DivModUnique(cap, 1, k);
  }

  lemma NextSlot(head: nat, cap: nat)
    requires head < cap
    ensures (head + 1) % cap == if head + 1 < cap then head + 1 else 0
  {
    if head + 1 < cap { SlotIsModulo(head, 1, cap); } else { assert cap % cap == 0; }
  }

  class CircularBuffer<T> {
    const cap: nat
    const slots: array<Option<T>>
    var head: nat
    var count: nat

    ghost predicate Valid()
      reads this, slots
    {
      && 1 <= cap == slots.Length && head < cap && count <= cap
      && (count < cap ==> head == count)
      && forall i | 0 <= i < count :: slots[i].Some?
    }

    function Start(): nat
      reads this
    {
      if count < cap then 0 else head
    }

    /** The items held, oldest first. */
    ghost function Contents(): (r: seq<T>)
      requires Valid()
      reads this, slots
      ensures |r| == count
    {
      seq(count, i requires 0 <= i < count reads this, slots requires Valid() => slots[Slot(Start(), i, cap)].value)
    }

    constructor (cap: nat)
      requires cap >= 1
      ensures Valid() && Contents() == [] && this.cap == cap && fresh(slots)
    {
      this.cap := cap;
      slots := new Option<T>[cap](_ => None);
      head, count := 0, 0;
    }

    method Push(item: T)
      requires Valid()
      modifies this, slots
      ensures Valid() && Contents() == Last(old(Contents()) + [item], cap)
    {
      ghost var before := Contents();
      ghost var expected := Last(before + [item], cap);
      ghost var at, start := head, Start();
      slots[head] := Some(item);
      NextSlot(head, cap);
      head := (head + 1) % cap;
      if count < cap { count := count + 1; }
      forall i | 0 <= i < count ensures Contents()[i] == expected[i] {
        if i < count - 1 {
          var j := if old(count) < cap then i else i + 1;
          assert expected[i] == before[j];
          assert before[j] == old(slots[Slot(start, j, cap)]).value;
          assert Slot(Start(), i, cap) == Slot(start, j, cap) != at;
        } else {
          assert Slot(Start(), i, cap) == at;
        }
      }
    }

    method Oldest() returns (item: Option<T>)
      requires Valid()
      ensures item == if Contents() == [] then None else Some(Contents()[0])
    {
      if count == 0 { return None; }
      item := slots[Start()];
    }

    method ItemsSince(matches: T -> bool) returns (result: seq<T>)
      requires Valid()
      ensures result == Filter(Contents(), matches)
    {
      result := [];
      for i := 0 to count
        invariant result == Filter(Contents()[..i], matches)
      {
        var item := slots[(Start() + i) % cap];
        SlotIsModulo(Start(), i, cap);
        FilterSnoc(Contents(), i, matches);
        if item.Some? && matches(item.value) { result := result + [item.value]; }
      }
      assert Contents()[..count] == Contents();
    }

    method ToArray() returns (result: seq<T>)
      requires Valid()
      ensures result == Contents()
    {
      result := [];
      for i := 0 to count
        invariant result == Contents()[..i]
      {
        var item := slots[(Start() + i) % cap];
        SlotIsModulo(Start(), i, cap);
        if item.Some? { result := result + [item.value]; }
      }
    }

    method Clear()
      requires Valid()
      modifies this, slots
      ensures Valid() && Contents() == []
    {
      forall i | 0 <= i < slots.Length { slots[i] := None; }
      head, count := 0, 0;
    }
  }

  // ---- Sequence numbers ------------------------------------------------------------------

  datatype Frame<E> = Frame(seqNo: nat, event: E)

  /** A credential's frames: the k-th event sent carries number k, counting from one. */
  function Frames<E>(history: seq<E>): (r: seq<Frame<E>>)
    ensures |r| == |history| && forall i | 0 <= i < |r| :: r[i] == Frame(i + 1, history[i])
  {
    seq(|history|, i requires 0 <= i < |history| => Frame(i + 1, history[i]))
  }

  datatype Resume<E> = Fresh | Recover | Replay(frames: seq<Frame<E>>)

  function After<E>(lastSeen: nat): Frame<E> -> bool {
    (f: Frame<E>) => f.seqNo > lastSeen
  }

  /** The server's decision when a client authenticates. */
  function ResumeOf<E>(buffered: seq<Frame<E>>, lastSeen: Option<nat>): Resume<E> {
    match lastSeen
    case None => Fresh
    case Some(n) =>
      if buffered != [] && buffered[0].seqNo > n + 1 then Recover
      else Replay(Filter(buffered, After(n)))
  }

  /** The replay state of one credential. */
  class CredentialReplay<E> {
    const buffer: CircularBuffer<Frame<E>>
    var nextSeq: nat
    ghost var history: seq<E>

    ghost predicate Valid()
      reads this, buffer, buffer.slots
    {
      && buffer.Valid()
      && nextSeq == |history| + 1
      && buffer.Contents() == Last(Frames(history), buffer.cap)
    }

    constructor (replayBufferSize: nat)
      requires replayBufferSize >= 1
      ensures Valid() && history == [] && buffer.cap == replayBufferSize
      ensures fresh(buffer) && fresh(buffer.slots)
    {
      buffer := new CircularBuffer(replayBufferSize);
      nextSeq := 1;
      history := [];
    }

    method SequenceEvent(event: E) returns (frame: Frame<E>)
      requires Valid()
      modifies this, buffer, buffer.slots
      ensures Valid() && history == old(history) + [event]
      ensures frame == Frame(|history|, event)
    {
      hide Last, Frames;
      var seqNo := nextSeq;
      nextSeq := seqNo + 1;
      frame := Frame(seqNo, event);
      buffer.Push(frame);
      history := history + [event];
      LastFrames(old(history), event, buffer.cap);
    }

    method ResumeFrom(lastSeen: Option<nat>) returns (r: Resume<E>)
      requires Valid()
      ensures r == ResumeOf(Last(Frames(history), buffer.cap), lastSeen)
    {
      if lastSeen.None? { return Fresh; }
      var n := lastSeen.value;
      var oldest := buffer.Oldest();
      if oldest.Some? && oldest.value.seqNo > n + 1 { return Recover; }
      var frames := buffer.ItemsSince(After(n));
      r := Replay(frames);
    }
  }

  lemma LastFrames<E>(history: seq<E>, event: E, cap: nat)
    requires cap >= 1
    ensures Last(Last(Frames(history), cap) + [Frame(|history| + 1, event)], cap) ==
            Last(Frames(history + [event]), cap)
  {
    assert Frames(history + [event]) == Frames(history) + [Frame(|history| + 1, event)];
  }

  /** After any run of sends the buffer holds the last frames, numbered consecutively and ending
      one below the next number. */
  lemma BufferConsecutive<E>(history: seq<E>, cap: nat)
    requires cap >= 1
    ensures var held := Last(Frames(history), cap);
            && |held| == (if |history| < cap then |history| else cap)
            && forall i | 0 <= i < |held| ::
                 held[i] == Frame(|history| - |held| + i + 1, history[|history| - |held| + i])
  {
  }

  /** Filtering consecutively numbered frames keeps a suffix. */
  lemma {:induction false} FilterConsecutive<E>(frames: seq<Frame<E>>, base: nat, n: nat)
    requires forall i | 0 <= i < |frames| :: frames[i].seqNo == base + i + 1
    ensures Filter(frames, After(n)) ==
            frames[if n <= base then 0 else if n - base <= |frames| then n - base else |frames|..]
  {
    if frames != [] {
      var k := |frames| - 1;
      FilterConsecutive(frames[..k], base, n);
      assert frames == frames[..k] + [frames[k]];
    }
  }

  /** A client that saw number `n` is told to recover exactly when a frame it missed has been
      overwritten; otherwise it is sent precisely the frames after `n`, in order. */
  lemma ResumeIff<E>(history: seq<E>, cap: nat, n: nat)
    requires cap >= 1
    ensures var r := ResumeOf(Last(Frames(history), cap), Some(n));
            if |history| > n + cap then r == Recover
            else r == Replay(Frames(history)[if n <= |history| then n else |history|..])
  {
    var frames := Frames(history);
    var held := Last(frames, cap);
    FilterConsecutive(held, |history| - |held|, n);
    hide Filter;
    if |history| <= n + cap {
      SuffixOfLast(frames, cap, n);
    }
  }

  /** A suffix that reaches back no further than the last items is a suffix of those. */
  lemma SuffixOfLast<T>(s: seq<T>, cap: nat, n: nat)
    requires |s| <= n + cap
    ensures var held := Last(s, cap);
            var base := |s| - |held|;
            held[if n <= base then 0 else if n - base <= |held| then n - base else |held|..] ==
            s[if n <= |s| then n else |s|..]
  {
  }
}
