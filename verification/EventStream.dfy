/** The client's event queue: pushes, completion and an async iterator with one waiter
    (packages/sdk/src/event-stream.ts). */
module EventStream {
  import opened Sequences

  datatype Answer<E> = Value(event: E) | Done

  /** `answers` are the results handed out, in order; `orphaned` counts promises whose resolver
      was overwritten by a later `next`. */
  datatype State<E> = State(buffer: seq<E>, done: bool, waiting: bool, answers: seq<Answer<E>>, orphaned: nat)

  datatype Op<E> = Push(event: E) | Complete | Next

  function Start<E>(): State<E> { State([], false, false, [], 0) }

  function Step<E>(s: State<E>, op: Op<E>): State<E> {
    match op
    case Push(event) =>
      if s.done then s
      else if s.waiting then s.(waiting := false, answers := s.answers + [Value(event)])
      else s.(buffer := s.buffer + [event])
    case Complete =>
      if s.waiting then s.(done := true, waiting := false, answers := s.answers + [Done]) else s.(done := true)
    case Next =>
      if s.buffer != [] then s.(buffer := s.buffer[1..], answers := s.answers + [Value(s.buffer[0])])
      else if s.done then s.(answers := s.answers + [Done])
      else s.(waiting := true, orphaned := if s.waiting then s.orphaned + 1 else s.orphaned)
  }

  function Run<E>(ops: seq<Op<E>>): State<E> {
    if ops == [] then Start() else Step(Run(ops[..|ops| - 1]), ops[|ops| - 1])
  }

  /** The events pushed before the stream was completed. */
  function Accepted<E>(ops: seq<Op<E>>): seq<E> {
    if ops == [] then [] else
      var n := |ops| - 1;
      if ops[n].Push? && !Completed(ops[..n]) then Accepted(ops[..n]) + [ops[n].event] else Accepted(ops[..n])
  }

  predicate Completed<E>(ops: seq<Op<E>>) {
    ops != [] && (ops[|ops| - 1].Complete? || Completed(ops[..|ops| - 1]))
  }

  function Nexts<E>(ops: seq<Op<E>>): nat {
    if ops == [] then 0 else Nexts(ops[..|ops| - 1]) + (if ops[|ops| - 1].Next? then 1 else 0)
  }

  class Stream<E> {
    var buffer: seq<E>
    var done: bool
    var waiter: bool
    ghost var answers: seq<Answer<E>>
    ghost var orphaned: nat

    ghost function Track(): State<E>
      reads this
    {
      State(buffer, done, waiter, answers, orphaned)
    }

    constructor ()
      ensures Track() == Start()
    {
      buffer, done, waiter, answers, orphaned := [], false, false, [], 0;
    }

    /** Returns what the waiting promise, if any, resolves to. */
    method PushEvent(event: E) returns (resolved: Option<Answer<E>>)
      modifies this
      ensures Track() == Step(old(Track()), Push(event))
      ensures answers == if resolved.Some? then old(answers) + [resolved.value] else old(answers)
    {
      if done { return None; }
      if waiter {
        waiter := false;
        resolved := Some(Value(event));
        answers := answers + [Value(event)];
      } else {
        resolved := None;
        buffer := buffer + [event];
      }
    }

    method CompleteStream() returns (resolved: Option<Answer<E>>)
      modifies this
      ensures Track() == Step(old(Track()), Complete)
      ensures answers == if resolved.Some? then old(answers) + [resolved.value] else old(answers)
    {
      done := true;
      resolved := None;
      if waiter {
        waiter := false;
        resolved := Some(Done);
        answers := answers + [Done];
      }
    }

    /** `None` is a promise left pending. */
    method NextEvent() returns (resolved: Option<Answer<E>>)
      modifies this
      ensures Track() == Step(old(Track()), Next)
      ensures answers == if resolved.Some? then old(answers) + [resolved.value] else old(answers)
    {
      if |buffer| > 0 {
        resolved := Some(Value(buffer[0]));
        answers := answers + [Value(buffer[0])];
        buffer := buffer[1..];
        return;
      }
      if done {
        answers := answers + [Done];
        return Some(Done);
      }
      if waiter { orphaned := orphaned + 1; }
      waiter := true;
      resolved := None;
    }
  }

  // ---- Whole runs ------------------------------------------------------------------------

  /** `answers` are the first accepted events, then only `Done`, which follows the last of them. */
  ghost predicate Delivered<E>(answers: seq<Answer<E>>, accepted: seq<E>, buffered: seq<E>) {
    var k := |accepted| - |buffered|;
    && 0 <= k <= |answers| && buffered == accepted[k..]
    && (forall i | 0 <= i < k :: answers[i] == Value(accepted[i]))
    && (forall i | k <= i < |answers| :: answers[i] == Done)
    && (k < |answers| ==> buffered == [])
  }

  ghost predicate Inv<E>(s: State<E>, accepted: seq<E>, completed: bool, nexts: nat) {
    && Delivered(s.answers, accepted, s.buffer)
    && s.done == completed
    && (s.waiting ==> !s.done && s.buffer == [])
    && (!s.done ==> |s.answers| == |accepted| - |s.buffer|)
    && |s.answers| + s.orphaned + (if s.waiting then 1 else 0) == nexts
  }

  lemma PushKeepsInv<E>(s: State<E>, event: E, accepted: seq<E>, nexts: nat)
    requires Inv(s, accepted, s.done, nexts)
    ensures Inv(Step(s, Push(event)), if s.done then accepted else accepted + [event], s.done, nexts)
  {
  }

  lemma NextKeepsInv<E>(s: State<E>, accepted: seq<E>, nexts: nat)
    requires Inv(s, accepted, s.done, nexts)
    ensures Inv(Step(s, Next), accepted, s.done, nexts + 1)
  {
    if s.buffer != [] {
      var k := |accepted| - |s.buffer|;
      assert s.buffer[1..] == accepted[k + 1..];
    }
  }

  lemma {:induction false} RunKeepsInv<E>(ops: seq<Op<E>>)
    ensures Inv(Run(ops), Accepted(ops), Completed(ops), Nexts(ops))
  {
    if ops != [] {
      var earlier := ops[..|ops| - 1];
      RunKeepsInv(earlier);
      match ops[|ops| - 1]
      case Push(event) => PushKeepsInv(Run(earlier), event, Accepted(earlier), Nexts(earlier));
      case Complete =>
      case Next => NextKeepsInv(Run(earlier), Accepted(earlier), Nexts(earlier));
    }
  }

  /** First in, first out, exactly once: the answers are the events pushed before completion, in
      order, then `Done` only after all of them; what is not yet answered is still buffered. */
  lemma FirstInFirstOut<E>(ops: seq<Op<E>>)
    ensures Delivered(Run(ops).answers, Accepted(ops), Run(ops).buffer)
    ensures forall i | 0 <= i < |Run(ops).answers| && Run(ops).answers[i] == Done :: Completed(ops)
  {
    RunKeepsInv(ops);
  }

  /** No `next` is ever called while an earlier one is still waiting. */
  ghost predicate OneOutstanding<E>(ops: seq<Op<E>>) {
    forall i | 0 <= i < |ops| && ops[i].Next? :: !Run(ops[..i]).waiting
  }

  lemma {:induction false} OrphansIff<E>(ops: seq<Op<E>>)
    ensures Run(ops).orphaned == 0 <==> OneOutstanding(ops)
  {
    if ops != [] {
      var n := |ops| - 1;
      OrphansIff(ops[..n]);
      RunKeepsInv(ops[..n]);
      OneOutstandingSnoc(ops);
    }
  }

  lemma OneOutstandingSnoc<E>(ops: seq<Op<E>>)
    requires ops != []
    ensures var n := |ops| - 1;
            OneOutstanding(ops) <==> OneOutstanding(ops[..n]) && !(ops[n].Next? && Run(ops[..n]).waiting)
  {
    hide Run;
    var n := |ops| - 1;
    forall i | 0 <= i < n ensures ops[..n][..i] == ops[..i] && ops[..n][i] == ops[i] {}
    if OneOutstanding(ops) {
      forall i | 0 <= i < n && ops[..n][i].Next? ensures !Run(ops[..n][..i]).waiting { assert !Run(ops[..i]).waiting; }
    }
    if OneOutstanding(ops[..n]) && !(ops[n].Next? && Run(ops[..n]).waiting) {
      forall i | 0 <= i < |ops| && ops[i].Next? ensures !Run(ops[..i]).waiting {
        if i < n { assert !Run(ops[..n][..i]).waiting; }
      }
    }
  }

  /** Every `next` has been answered, save one still waiting, exactly when calls to `next` never
      overlapped. */
  lemma AllAnsweredIff<E>(ops: seq<Op<E>>)
    ensures |Run(ops).answers| + (if Run(ops).waiting then 1 else 0) == Nexts(ops) <==> OneOutstanding(ops)
  {
    RunKeepsInv(ops);
    OrphansIff(ops);
  }
}
