/** One SDK client and the server over any sequence of broadcasts, handshakes, deliveries and lost
    connections (packages/ws/src/server.ts, packages/sdk/src/handler.ts). */
module ReplaySession {
  import opened Sequences
  import opened Replay

  datatype Event = RecoveryComplete | Payload(text: string)

  /** What travels on the socket: the answer to the client's authentication, or a numbered frame. */
  datatype Wire = Authenticated | Data(frame: Frame<Event>)

  /** Server side: `history` is what was numbered for the credential, `open` says that this client's
      socket is registered as active, and `pending` holds the resume decision between registering
      the socket and answering it. Client side: `connected`, what is on its way, whether the answer
      was handled, and what was handed on. `skipped` are the numbers that, while the client was
      connected, went to another socket or ahead of the answer. */
  datatype State = State(
    history: seq<Event>, open: bool, pending: Option<Resume<Event>>,
    connected: bool, channel: seq<Wire>, authHandled: bool,
    lastSeen: Option<nat>, received: seq<Frame<Event>>, skipped: set<nat>)

  datatype Op =
    | Broadcast(event: Event, before: nat, after: nat) // and how many other active sockets are served
    | SendOwn(event: Event)                            // a heartbeat on this client's socket
    | SendElsewhere(event: Event)                      // or on another one of the credential
    | Register                                         // the server registers the client's new socket
    | Authenticate                                     // and, later, answers it
    | Receive                                          // the client handles the next message
    | Drop                                             // the client's end is lost with all on it
    | Close                                            // the server removes the socket

  const INITIAL := State([], false, None, false, [], false, None, [], {})

  // ---- Steps -----------------------------------------------------------------------------

  /** The event gets the next number on another socket. */
  function Elsewhere(s: State, event: Event): State {
    s.(history := s.history + [event],
       skipped := if s.connected then s.skipped + {|s.history| + 1} else s.skipped)
  }

  function ElsewhereTimes(s: State, event: Event, k: nat): State {
    if k == 0 then s else Elsewhere(ElsewhereTimes(s, event, k - 1), event)
  }

  /** The event gets the next number on this client's socket. */
  function Own(s: State, event: Event): State {
    var n := |s.history| + 1;
    s.(history := s.history + [event],
       channel := if s.connected then s.channel + [Data(Frame(n, event))] else s.channel,
       skipped := if s.connected && s.pending.Some? then s.skipped + {n} else s.skipped)
  }

  function OwnIfOpen(s: State, event: Event): State {
    if s.open then Own(s, event) else s
  }

  function RegisterStep(s: State, cap: nat): State {
    s.(open := true, connected := true, channel := [], authHandled := false,
       pending := Some(ResumeOf(Last(Frames(s.history), cap), s.lastSeen)))
  }

  function Messages(frames: seq<Frame<Event>>): (r: seq<Wire>)
    ensures |r| == |frames|
  {
    seq(|frames|, i requires 0 <= i < |frames| => Data(frames[i]))
  }

  /** The answer, then the recovery frame or the replay. On a socket that was closed meanwhile
      nothing arrives, but a recovery frame is numbered all the same. */
  function AuthenticateStep(s: State, decision: Resume<Event>): State {
    var t := s.(pending := None);
    if !s.open then (if decision.Recover? then t.(history := t.history + [RecoveryComplete]) else t)
    else
      var answered := t.(channel := t.channel + [Authenticated]);
      match decision
      case Fresh => answered
      case Recover => Own(answered, RecoveryComplete)
      case Replay(frames) => answered.(channel := answered.channel + Messages(frames))
  }

  /** A frame that comes ahead of the answer is not handed on. */
  function ReceiveStep(s: State): State {
    if s.channel == [] then s
    else
      var t := s.(channel := s.channel[1..]);
      match s.channel[0]
      case Authenticated => t.(authHandled := true)
      case Data(frame) =>
        if s.authHandled then t.(received := s.received + [frame], lastSeen := Some(frame.seqNo)) else t
  }

  function Step(s: State, op: Op, cap: nat): State {
    match op
    case Broadcast(event, before, after) =>
      ElsewhereTimes(OwnIfOpen(ElsewhereTimes(s, event, before), event), event, after)
    case SendOwn(event) => OwnIfOpen(s, event)
    case SendElsewhere(event) => Elsewhere(s, event)
    case Register => if s.connected then s else RegisterStep(s, cap)
    case Authenticate => if s.pending.None? then s else AuthenticateStep(s, s.pending.value)
    case Receive => ReceiveStep(s)
    case Drop => s.(connected := false, channel := [], authHandled := false, pending := None)
    case Close => s.(open := false)
  }

  function Run(ops: seq<Op>, cap: nat): State {
    if ops == [] then INITIAL else Step(Run(ops[..|ops| - 1], cap), ops[|ops| - 1], cap)
  }

  // ---- What the client will hand on ----------------------------------------------------------

  function Visible(channel: seq<Wire>, handled: bool): seq<Frame<Event>> {
    if channel == [] then []
    else match channel[0]
      case Authenticated => Visible(channel[1..], true)
      case Data(frame) => if handled then [frame] + Visible(channel[1..], true) else Visible(channel[1..], false)
  }

  predicate Answered(channel: seq<Wire>, handled: bool) {
    handled || Authenticated in channel
  }

  lemma {:induction false} VisibleConcat(a: seq<Wire>, b: seq<Wire>, handled: bool)
    ensures Visible(a + b, handled) == Visible(a, handled) + Visible(b, Answered(a, handled))
  {
    if a == [] {
      assert a + b == b;
    } else {
      assert (a + b)[1..] == a[1..] + b;
      assert Authenticated in a <==> a[0] == Authenticated || Authenticated in a[1..];
      VisibleConcat(a[1..], b, handled || a[0] == Authenticated);
    }
  }

  lemma {:induction false} VisibleMessages(frames: seq<Frame<Event>>)
    ensures Visible(Messages(frames), true) == frames
  {
    if frames != [] {
      VisibleMessages(frames[1..]);
      assert Messages(frames)[1..] == Messages(frames[1..]);
    }
  }

  lemma {:induction false} NothingVisible(channel: seq<Wire>)
    requires Authenticated !in channel
    ensures Visible(channel, false) == []
  {
    if channel != [] {
      assert channel[0] in channel;
      NothingVisible(channel[1..]);
    }
  }

  /** The replay still to be sent. */
  function Planned(pending: Option<Resume<Event>>): seq<Frame<Event>> {
    if pending.Some? && pending.value.Replay? then pending.value.frames else []
  }

  /** Everything the client has received or will receive on this connection as things stand. */
  function All(s: State): seq<Frame<Event>> {
    s.received + Visible(s.channel, s.authHandled) + Planned(s.pending)
  }

  // ---- The invariant ---------------------------------------------------------------------

  ghost predicate Genuine(frames: seq<Frame<Event>>, history: seq<Event>) {
    forall i | 0 <= i < |frames| ::
      1 <= frames[i].seqNo <= |history| && history[frames[i].seqNo - 1] == frames[i].event
  }

  /** `b` may follow `a`: it is newer, and every number between was skipped unless `b` itself
      announces the recovery. */
  ghost predicate Follows(a: Frame<Event>, b: Frame<Event>, skipped: set<nat>) {
    && a.seqNo < b.seqNo
    && (b.event == RecoveryComplete || forall k | a.seqNo < k < b.seqNo :: k in skipped)
  }

  ghost predicate Chained(frames: seq<Frame<Event>>, skipped: set<nat>) {
    forall i | 0 <= i < |frames| - 1 :: Follows(frames[i], frames[i + 1], skipped)
  }

  /** Nothing is pending beyond the last frame but what was skipped. */
  ghost predicate UpToDate(frames: seq<Frame<Event>>, history: seq<Event>, skipped: set<nat>) {
    frames != [] ==> forall k | frames[|frames| - 1].seqNo < k <= |history| :: k in skipped
  }

  /** The facts about the frames alone; `live` says that more may arrive without a recovery. */
  ghost predicate Sound(all: seq<Frame<Event>>, history: seq<Event>, skipped: set<nat>, live: bool) {
    && Genuine(all, history) && Chained(all, skipped)
    && (live ==> UpToDate(all, history, skipped))
  }

  predicate Expecting(s: State) {
    s.connected && s.open && s.pending != Some(Recover)
  }

  /** The socket's ends agree on the state of the handshake. */
  ghost predicate Handshake(s: State) {
    && (!s.connected ==> s.channel == [] && s.pending.None? && !s.authHandled)
    && (s.pending.Some? ==> !Answered(s.channel, s.authHandled))
    && (s.connected && s.open && s.pending.None? ==> Answered(s.channel, s.authHandled))
  }

  ghost predicate Inv(s: State) {
    && Sound(All(s), s.history, s.skipped, Expecting(s))
    && Handshake(s)
    && s.lastSeen == (if s.received == [] then None else Some(s.received[|s.received| - 1].seqNo))
  }

  lemma SoundSnoc(all: seq<Frame<Event>>, f: Frame<Event>, history: seq<Event>, skipped: set<nat>)
    requires Genuine(all, history) && Chained(all, skipped) && f.seqNo == |history| + 1
    requires f.event == RecoveryComplete || UpToDate(all, history, skipped)
    ensures Sound(all + [f], history + [f.event], skipped, true)
  {
  }

  /** A number that is not sent to this client is skipped, or needs no mention. */
  lemma SoundElsewhere(all: seq<Frame<Event>>, event: Event, history: seq<Event>, skipped: set<nat>, live: bool)
    requires Sound(all, history, skipped, live)
    ensures Sound(all, history + [event], skipped + {|history| + 1}, live)
    ensures !live ==> Sound(all, history + [event], skipped, false)
  {
    var n := |history| + 1;
    forall i | 0 <= i < |all| - 1 ensures Follows(all[i], all[i + 1], skipped + {n}) {
      assert Follows(all[i], all[i + 1], skipped);
    }
  }

  lemma SoundPrefix(all: seq<Frame<Event>>, n: nat, history: seq<Event>, skipped: set<nat>, live: bool)
    requires n <= |all| && Sound(all, history, skipped, live)
    ensures Sound(all[..n], history, skipped, false)
  {
    forall i | 0 <= i < n - 1 ensures Follows(all[..n][i], all[..n][i + 1], skipped) {
      assert Follows(all[i], all[i + 1], skipped);
    }
  }

  lemma ElsewhereKeepsInv(s: State, event: Event)
    requires Inv(s)
    ensures Inv(Elsewhere(s, event))
  {
    SoundElsewhere(All(s), event, s.history, s.skipped, Expecting(s));
  }

  lemma {:induction false} ElsewhereTimesKeepsInv(s: State, event: Event, k: nat)
    requires Inv(s)
    ensures Inv(ElsewhereTimes(s, event, k))
  {
    if k > 0 {
      ElsewhereTimesKeepsInv(s, event, k - 1);
      ElsewhereKeepsInv(ElsewhereTimes(s, event, k - 1), event);
    }
  }

  /** What a frame on the socket adds to what the client will hand on. */
  lemma OwnVisible(s: State, event: Event)
    requires s.connected && Handshake(s) && s.open
    ensures var f := Frame(|s.history| + 1, event);
            All(Own(s, event)) == if s.pending.Some? then All(s) else All(s) + [f]
  {
    var f := Frame(|s.history| + 1, event);
    VisibleConcat(s.channel, [Data(f)], s.authHandled);
    assert Visible([Data(f)], true) == [f] && Visible([Data(f)], false) == [];
    assert s.received + (Visible(s.channel, s.authHandled) + [f]) + [] == All(s) + [f] || s.pending.Some?;
    assert Visible(s.channel, s.authHandled) + [] == Visible(s.channel, s.authHandled);
  }

  lemma OwnKeepsInv(s: State, event: Event)
    requires Inv(s) && s.open
    ensures Inv(Own(s, event))
  {
    hide Genuine, Chained, UpToDate, Visible;
    if s.connected {
      OwnVisible(s, event);
      if s.pending.Some? {
        SoundElsewhere(All(s), event, s.history, s.skipped, Expecting(s));
      } else {
        SoundSnoc(All(s), Frame(|s.history| + 1, event), s.history, s.skipped);
      }
    } else {
      SoundElsewhere(All(s), event, s.history, s.skipped, false);
    }
  }

  lemma ReceiveKeepsInv(s: State)
    requires Inv(s)
    ensures Inv(ReceiveStep(s))
  {
    if s.channel != [] {
      var t := ReceiveStep(s);
      assert All(t) == All(s);
      assert Authenticated in s.channel <==> s.channel[0] == Authenticated || Authenticated in s.channel[1..];
    }
  }

  lemma DropKeepsInv(s: State, cap: nat)
    requires Inv(s)
    ensures Inv(Step(s, Drop, cap))
  {
    SoundPrefix(All(s), |s.received|, s.history, s.skipped, Expecting(s));
    assert All(s)[..|s.received|] == s.received == All(Step(s, Drop, cap));
  }

  lemma SeenInRange(s: State)
    requires Inv(s)
    ensures s.lastSeen.Some? ==> s.lastSeen.value <= |s.history|
    ensures s.lastSeen.None? ==> s.received == []
  {
    if s.received != [] {
      var n := |s.received| - 1;
      assert All(s)[n] == s.received[n];
    }
  }

  /** Replaying everything after the last frame seen leaves no gap. */
  lemma ReplaySound(received: seq<Frame<Event>>, history: seq<Event>, skipped: set<nat>)
    requires received != [] && Sound(received, history, skipped, false)
    ensures Sound(received + Frames(history)[received[|received| - 1].seqNo..], history, skipped, true)
  {
    var all := received + Frames(history)[received[|received| - 1].seqNo..];
    forall i | 0 <= i < |all| - 1 ensures Follows(all[i], all[i + 1], skipped) {
      if i < |received| - 1 { assert Follows(received[i], received[i + 1], skipped); }
    }
  }

  /** The decision, in terms of what the client missed. */
  lemma DecisionShape(s: State, cap: nat)
    requires Inv(s) && cap >= 1
    ensures var decision := ResumeOf(Last(Frames(s.history), cap), s.lastSeen);
            match s.lastSeen
            case None => decision == Fresh
            case Some(n) =>
              n <= |s.history| && decision == if |s.history| > n + cap then Recover else Replay(Frames(s.history)[n..])
  {
    SeenInRange(s);
    if s.lastSeen.Some? { ResumeIff(s.history, cap, s.lastSeen.value); }
  }

  lemma RegisterKeepsInv(s: State, cap: nat)
    requires Inv(s) && cap >= 1 && !s.connected
    ensures Inv(RegisterStep(s, cap))
  {
    hide Sound, Last;
    var t := RegisterStep(s, cap);
    DecisionShape(s, cap);
    SeenInRange(s);
    assert All(s) == s.received;
    assert All(t) == s.received + Planned(t.pending);
    assert Sound(All(t), t.history, t.skipped, Expecting(t)) by {
      RegisterSound(s.received, s.lastSeen, s.history, s.skipped, t.pending, cap);
    }
  }

  lemma RegisterSound(received: seq<Frame<Event>>, lastSeen: Option<nat>, history: seq<Event>, skipped: set<nat>,
                      pending: Option<Resume<Event>>, cap: nat)
    requires Sound(received, history, skipped, false)
    requires lastSeen == if received == [] then None else Some(received[|received| - 1].seqNo)
    requires match lastSeen
             case None => pending == Some(Fresh)
             case Some(n) =>
               n <= |history| && pending == Some(if |history| > n + cap then Recover else Replay(Frames(history)[n..]))
    ensures Sound(received + Planned(pending), history, skipped, pending != Some(Recover))
  {
    assert received + [] == received;
    if received != [] { ReplaySound(received, history, skipped); }
  }

  lemma AuthenticateKeepsInv(s: State)
    requires Inv(s) && s.pending.Some?
    ensures Inv(AuthenticateStep(s, s.pending.value))
  {
    if s.open {
      AnswerKeepsInv(s, s.pending.value);
    } else {
      var n := |s.received| + |Visible(s.channel, s.authHandled)|;
      SoundPrefix(All(s), n, s.history, s.skipped, false);
      assert All(s)[..n] == All(s.(pending := None));
      SoundElsewhere(All(s)[..n], RecoveryComplete, s.history, s.skipped, false);
    }
  }

  lemma AnswerKeepsInv(s: State, decision: Resume<Event>)
    requires Inv(s) && s.pending == Some(decision) && s.open
    ensures Inv(AuthenticateStep(s, decision))
  {
    AnswerAll(s, decision);
    if decision.Recover? {
      SoundSnoc(All(s), Frame(|s.history| + 1, RecoveryComplete), s.history, s.skipped);
    }
  }

  /** The answer adds nothing but the recovery frame to what the client will hand on. */
  lemma AnswerAll(s: State, decision: Resume<Event>)
    requires Handshake(s) && s.pending == Some(decision) && s.open
    ensures All(s) == s.received + Planned(s.pending)
    ensures Handshake(AuthenticateStep(s, decision))
    ensures All(AuthenticateStep(s, decision)) ==
            if decision.Recover? then All(s) + [Frame(|s.history| + 1, RecoveryComplete)] else All(s)
  {
    NothingVisible(s.channel);
    AnswerVisible(s.channel, decision, |s.history| + 1);
    var t := AuthenticateStep(s, decision);
    var added := if decision.Recover? then [Frame(|s.history| + 1, RecoveryComplete)] else Planned(Some(decision));
    assert All(s) == s.received + Planned(s.pending);
    assert Visible(t.channel, false) == added;
    assert All(t) == s.received + added;
  }

  /** After the answer the client sees the recovery frame or the replay, and nothing sent before. */
  lemma AnswerVisible(channel: seq<Wire>, decision: Resume<Event>, n: nat)
    requires Authenticated !in channel
    ensures Visible(channel + [Authenticated], false) == []
    ensures Visible(channel + [Authenticated] + [Data(Frame(n, RecoveryComplete))], false) ==
            [Frame(n, RecoveryComplete)]
    ensures decision.Replay? ==>
              Visible(channel + [Authenticated] + Messages(decision.frames), false) == decision.frames
  {
    var answered := channel + [Authenticated];
    NothingVisible(channel);
    VisibleConcat(channel, [Authenticated], false);
    assert Visible([Authenticated], false) == [];
    assert answered[|channel|] == Authenticated;
    VisibleConcat(answered, [Data(Frame(n, RecoveryComplete))], false);
    assert Visible([Data(Frame(n, RecoveryComplete))], true) == [Frame(n, RecoveryComplete)];
    if decision.Replay? {
      VisibleConcat(answered, Messages(decision.frames), false);
      VisibleMessages(decision.frames);
    }
  }

  lemma BroadcastKeepsInv(s: State, event: Event, before: nat, after: nat)
    requires Inv(s)
    ensures Inv(ElsewhereTimes(OwnIfOpen(ElsewhereTimes(s, event, before), event), event, after))
  {
    hide Inv;
    var t := ElsewhereTimes(s, event, before);
    ElsewhereTimesKeepsInv(s, event, before);
    if t.open { OwnKeepsInv(t, event); }
    ElsewhereTimesKeepsInv(OwnIfOpen(t, event), event, after);
  }

  lemma CloseKeepsInv(s: State, cap: nat)
    requires Inv(s)
    ensures Inv(Step(s, Close, cap))
  {
  }

  lemma StepKeepsInv(s: State, op: Op, cap: nat)
    requires Inv(s) && cap >= 1
    ensures Inv(Step(s, op, cap))
  {
    hide Inv, ElsewhereTimes, Own, Elsewhere, RegisterStep, AuthenticateStep, ReceiveStep;
    match op
    case Broadcast(event, before, after) => BroadcastKeepsInv(s, event, before, after);
    case SendOwn(event) => if s.open { OwnKeepsInv(s, event); }
    case SendElsewhere(event) => ElsewhereKeepsInv(s, event);
    case Register => if !s.connected { RegisterKeepsInv(s, cap); }
    case Authenticate => if s.pending.Some? { AuthenticateKeepsInv(s); }
    case Receive => ReceiveKeepsInv(s);
    case Drop => DropKeepsInv(s, cap);
    case Close => CloseKeepsInv(s, cap);
  }

  lemma {:induction false} RunKeepsInv(ops: seq<Op>, cap: nat)
    requires cap >= 1
    ensures Inv(Run(ops, cap))
  {
    if ops != [] {
      RunKeepsInv(ops[..|ops| - 1], cap);
      StepKeepsInv(Run(ops[..|ops| - 1], cap), ops[|ops| - 1], cap);
    }
  }

  // ---- What the client can rely on -----------------------------------------------------------

  /** Over any run the client's frames are genuine and strictly increasing in number, and every
      number passed over between two of them was skipped, or is announced by a recovery frame right
      after the gap. */
  lemma NoSilentGap(ops: seq<Op>, cap: nat)
    requires cap >= 1
    ensures var s := Run(ops, cap); Genuine(s.received, s.history) && Chained(s.received, s.skipped)
  {
    var s := Run(ops, cap);
    RunKeepsInv(ops, cap);
    SoundPrefix(All(s), |s.received|, s.history, s.skipped, Expecting(s));
    assert All(s)[..|s.received|] == s.received;
  }

  /** What a reconnecting client will be given, against everything numbered that it has not seen:
      complete exactly when it reports a number and no missed frame was overwritten, or when
      nothing was numbered yet. */
  lemma ReconnectCompleteIff(ops: seq<Op>, cap: nat)
    requires cap >= 1 && !Run(ops, cap).connected
    ensures var s := Run(ops, cap);
            var t := Step(Step(s, Register, cap), Authenticate, cap);
            var seen := if s.lastSeen.Some? then s.lastSeen.value else 0;
            && seen <= |s.history|
            && (Visible(t.channel, t.authHandled) == Frames(s.history)[seen..] <==>
                if s.lastSeen.Some? then |s.history| - seen <= cap else s.history == [])
  {
    RunKeepsInv(ops, cap);
    ReconnectFrom(Run(ops, cap), cap);
  }

  lemma ReconnectFrom(s: State, cap: nat)
    requires cap >= 1 && Inv(s) && !s.connected
    ensures var t := Step(Step(s, Register, cap), Authenticate, cap);
            var seen := if s.lastSeen.Some? then s.lastSeen.value else 0;
            && seen <= |s.history|
            && (Visible(t.channel, t.authHandled) == Frames(s.history)[seen..] <==>
                if s.lastSeen.Some? then |s.history| - seen <= cap else s.history == [])
  {
    hide Inv, Last;
    DecisionShape(s, cap);
    AnswerSends(s, cap);
    assert forall x | x in Frames(s.history) :: x.seqNo <= |s.history|;
  }

  /** The client handles everything on its way. */
  lemma {:induction false} DeliverAll(ops: seq<Op>, cap: nat)
    ensures var s := Run(ops, cap);
            var t := Run(ops + Copies(Receive, |s.channel|), cap);
            && t.received == s.received + Visible(s.channel, s.authHandled)
            && t.channel == [] && t.history == s.history
    decreases |Run(ops, cap).channel|
  {
    var s := Run(ops, cap);
    var k := |s.channel|;
    if k == 0 {
      assert ops + Copies(Receive, k) == ops;
    } else {
      hide Run, Step, Visible, ReceiveStep;
      var next := ops + [Receive];
      RunSnoc(ops, Receive, cap);
      ReceiveOne(s, cap);
      DeliverAll(next, cap);
      assert next + Copies(Receive, k - 1) == ops + Copies(Receive, k);
    }
  }

  lemma ReceiveOne(s: State, cap: nat)
    requires s.channel != []
    ensures var t := Step(s, Receive, cap);
            && t.channel == s.channel[1..] && t.history == s.history
            && t.received + Visible(t.channel, t.authHandled) == s.received + Visible(s.channel, s.authHandled)
  {
  }

  /** A connected client that has been answered is handed every broadcast, under the number its own
      socket was given. */
  lemma LiveBroadcastHandedOn(ops: seq<Op>, event: Event, before: nat, after: nat, cap: nat)
    requires cap >= 1
    requires var s := Run(ops, cap); s.connected && s.open && s.pending.None?
    ensures var sent := ops + [Broadcast(event, before, after)];
            Frame(|Run(ops, cap).history| + before + 1, event) in
            Run(sent + Copies(Receive, |Run(sent, cap).channel|), cap).received
  {
    var s, op := Run(ops, cap), Broadcast(event, before, after);
    var f := Frame(|s.history| + before + 1, event);
    RunKeepsInv(ops, cap);
    RunSnoc(ops, op, cap);
    DeliverAll(ops + [op], cap);
    LiveVisible(s, event, before, after, cap);
  }

  lemma LiveVisible(s: State, event: Event, before: nat, after: nat, cap: nat)
    requires Inv(s) && s.connected && s.open && s.pending.None?
    ensures var t := Step(s, Broadcast(event, before, after), cap);
            Frame(|s.history| + before + 1, event) in t.received + Visible(t.channel, t.authHandled)
  {
    var u := ElsewhereTimes(s, event, before);
    ElsewhereTimesHistory(s, event, before);
    ElsewhereTimesKeepsInv(s, event, before);
    OwnVisible(u, event);
    ElsewhereTimesAll(OwnIfOpen(u, event), event, after);
    ElsewhereTimesHistory(OwnIfOpen(u, event), event, after);
    var t := Step(s, Broadcast(event, before, after), cap);
    var f := Frame(|s.history| + before + 1, event);
    assert All(t) == All(u) + [f] && All(t) == t.received + Visible(t.channel, t.authHandled) + [];
    assert (All(u) + [f])[|All(u)|] == f;
  }

  /** The client reconnects, is answered, and handles everything it is sent. */
  function Reconnected(ops: seq<Op>, cap: nat): seq<Op> {
    var back := ops + [Register, Authenticate];
    back + Copies(Receive, |Run(back, cap).channel|)
  }

  /** What a reconnect adds to what was handed on: the recovery frame, everything after the last
      number seen, or nothing. */
  lemma ReconnectAdds(ops: seq<Op>, cap: nat)
    requires cap >= 1 && !Run(ops, cap).connected
    ensures var s := Run(ops, cap);
            && (s.lastSeen.Some? ==> s.lastSeen.value <= |s.history|)
            && Run(Reconnected(ops, cap), cap).received ==
               s.received + (if s.lastSeen.None? then []
                             else if |s.history| - s.lastSeen.value > cap
                             then [Frame(|s.history| + 1, RecoveryComplete)]
                             else Frames(s.history)[s.lastSeen.value..])
  {
    var s := Run(ops, cap);
    var back := ops + [Register, Authenticate];
    hide Run, Step, Last, Inv;
    RunKeepsInv(ops, cap);
    DecisionShape(s, cap);
    RunTwo(ops, Register, Authenticate, cap);
    AnswerSends(s, cap);
    DeliverAll(back, cap);
  }

  lemma AnswerSends(s: State, cap: nat)
    requires cap >= 1 && !s.connected
    ensures var t := Step(Step(s, Register, cap), Authenticate, cap);
            && t.received == s.received
            && Visible(t.channel, t.authHandled) ==
               match ResumeOf(Last(Frames(s.history), cap), s.lastSeen)
               case Fresh => []
               case Recover => [Frame(|s.history| + 1, RecoveryComplete)]
               case Replay(frames) => frames
  {
    hide Last, ResumeOf;
    var decision := ResumeOf(Last(Frames(s.history), cap), s.lastSeen);
    AnswerVisible([], decision, |s.history| + 1);
    assert [] + [Authenticated] == [Authenticated];
  }

  /** A number given out, the handshake's own included, is handed on by the next reconnect exactly
      when the client reports a lower one and nothing it missed was overwritten. */
  lemma ReconnectBringsIff(ops: seq<Op>, n: nat, cap: nat)
    requires cap >= 1 && !Run(ops, cap).connected && 1 <= n <= |Run(ops, cap).history|
    ensures var s := Run(ops, cap);
            var f := Frame(n, s.history[n - 1]);
            f in Run(Reconnected(ops, cap), cap).received <==>
            f in s.received ||
            (s.lastSeen.Some? && s.lastSeen.value < n && |s.history| - s.lastSeen.value <= cap)
  {
    var s := Run(ops, cap);
    var f := Frame(n, s.history[n - 1]);
    hide Run, Reconnected;
    ReconnectAdds(ops, cap);
    if s.lastSeen.Some? && s.lastSeen.value < n {
      var v := s.lastSeen.value;
      assert Frames(s.history)[v..][n - 1 - v] == f;
    }
  }

  /** A client that connects for the first time is told nothing of what was numbered before. */
  lemma FirstConnectMisses(event: Event, cap: nat)
    requires cap >= 1
    ensures var before := Run([SendElsewhere(event)], cap);
            var after := Run(Reconnected([SendElsewhere(event)], cap), cap);
            && !before.connected && before.lastSeen == None && before.history == [event]
            && after.received == []
  {
    var ops := [SendElsewhere(event)];
    assert ops[..0] == [];
    hide Reconnected;
    ReconnectAdds(ops, cap);
  }

  // ---- When a number comes to the client -----------------------------------------------------

  predicate HasNumber(frames: seq<Frame<Event>>, n: nat) {
    exists i | 0 <= i < |frames| :: frames[i].seqNo == n
  }

  lemma HasNumberConcat(a: seq<Frame<Event>>, b: seq<Frame<Event>>, n: nat)
    ensures HasNumber(a + b, n) <==> HasNumber(a, n) || HasNumber(b, n)
  {
    if i :| 0 <= i < |a| && a[i].seqNo == n { assert (a + b)[i].seqNo == n; }
    if i :| 0 <= i < |b| && b[i].seqNo == n { assert (a + b)[|a| + i].seqNo == n; }
  }

  lemma NumbersFrom(history: seq<Event>, v: nat, n: nat)
    requires v <= |history| && 1 <= n <= |history|
    ensures HasNumber(Frames(history)[v..], n) <==> v < n
  {
    if v < n { assert Frames(history)[v..][n - 1 - v].seqNo == n; }
  }

  /** The number was handed on, is on its way, or waits to be replayed. */
  predicate Due(s: State, n: nat) {
    HasNumber(All(s), n)
  }

  /** The client connects anew, reports a number below `n`, and nothing it missed is overwritten. */
  predicate Regains(s: State, op: Op, n: nat, cap: nat) {
    && op.Register? && !s.connected
    && s.lastSeen.Some? && s.lastSeen.value < n && |s.history| - s.lastSeen.value <= cap
  }

  lemma {:induction false} ElsewhereTimesAll(s: State, event: Event, k: nat)
    ensures All(ElsewhereTimes(s, event, k)) == All(s)
  {
    if k > 0 { ElsewhereTimesAll(s, event, k - 1); }
  }

  lemma OwnIfOpenDue(s: State, event: Event, n: nat)
    requires Handshake(s) && 1 <= n <= |s.history|
    ensures Due(OwnIfOpen(s, event), n) <==> Due(s, n)
  {
    if s.open && s.connected {
      OwnVisible(s, event);
      HasNumberConcat(All(s), [Frame(|s.history| + 1, event)], n);
    }
  }

  lemma BroadcastDue(s: State, op: Op, n: nat, cap: nat)
    requires Inv(s) && op.Broadcast? && 1 <= n <= |s.history|
    ensures Due(Step(s, op, cap), n) <==> Due(s, n)
  {
    var t := ElsewhereTimes(s, op.event, op.before);
    ElsewhereTimesAll(s, op.event, op.before);
    ElsewhereTimesKeepsInv(s, op.event, op.before);
    ElsewhereTimesHistory(s, op.event, op.before);
    OwnIfOpenDue(t, op.event, n);
    ElsewhereTimesAll(OwnIfOpen(t, op.event), op.event, op.after);
  }

  lemma RegisterDue(s: State, n: nat, cap: nat)
    requires Inv(s) && cap >= 1 && !s.connected && 1 <= n <= |s.history|
    ensures Due(RegisterStep(s, cap), n) <==> Due(s, n) || Regains(s, Register, n, cap)
  {
    hide Sound, Last, HasNumber;
    var t := RegisterStep(s, cap);
    DecisionShape(s, cap);
    assert All(s) == s.received;
    assert All(t) == s.received + Planned(t.pending);
    HasNumberConcat(s.received, Planned(t.pending), n);
    NothingDue(n);
    if s.lastSeen.Some? { NumbersFrom(s.history, s.lastSeen.value, n); }
  }

  lemma NothingDue(n: nat)
    ensures !HasNumber([], n)
  {
  }

  lemma AuthenticateDue(s: State, n: nat)
    requires Inv(s) && s.pending.Some? && 1 <= n <= |s.history|
    ensures Due(AuthenticateStep(s, s.pending.value), n) ==> Due(s, n)
  {
    hide HasNumber, Sound;
    var t := AuthenticateStep(s, s.pending.value);
    if s.open {
      AnswerAll(s, s.pending.value);
      HasNumberConcat(All(s), [Frame(|s.history| + 1, RecoveryComplete)], n);
      NotDue(Frame(|s.history| + 1, RecoveryComplete), n);
    } else {
      assert All(s) == All(t) + Planned(s.pending);
      HasNumberConcat(All(t), Planned(s.pending), n);
    }
  }

  lemma NotDue(f: Frame<Event>, n: nat)
    requires f.seqNo != n
    ensures !HasNumber([f], n)
  {
  }

  lemma DropDue(s: State, n: nat, cap: nat)
    ensures Due(Step(s, Drop, cap), n) ==> Due(s, n)
  {
    assert All(Step(s, Drop, cap)) == s.received;
    HasNumberConcat(s.received, Visible(s.channel, s.authHandled), n);
    HasNumberConcat(s.received + Visible(s.channel, s.authHandled), Planned(s.pending), n);
  }

  /** A number given out that the client has not been sent comes to it in exactly one way: a
      connection on which it reports a lower number, while nothing it missed is overwritten. */
  lemma DueStepIff(s: State, op: Op, n: nat, cap: nat)
    requires Inv(s) && cap >= 1 && 1 <= n <= |s.history| && !Due(s, n)
    ensures Due(Step(s, op, cap), n) <==> Regains(s, op, n, cap)
  {
    hide Inv, Due, All, ElsewhereTimes, Own, RegisterStep, AuthenticateStep, ReceiveStep;
    match op
    case Broadcast(event, before, after) => BroadcastDue(s, op, n, cap);
    case SendOwn(event) => InvHandshake(s); OwnIfOpenDue(s, event, n);
    case SendElsewhere(event) => ElsewhereDue(s, event, n);
    case Register => if !s.connected { RegisterDue(s, n, cap); }
    case Authenticate => if s.pending.Some? { AuthenticateDue(s, n); }
    case Receive => ReceiveDue(s, n);
    case Drop => DropDue(s, n, cap);
    case Close => CloseDue(s, n, cap);
  }

  lemma InvHandshake(s: State)
    requires Inv(s)
    ensures Handshake(s)
  {
  }

  lemma ElsewhereDue(s: State, event: Event, n: nat)
    ensures Due(Elsewhere(s, event), n) <==> Due(s, n)
  {
  }

  lemma ReceiveDue(s: State, n: nat)
    ensures Due(ReceiveStep(s), n) <==> Due(s, n)
  {
    if s.channel != [] { assert All(ReceiveStep(s)) == All(s); }
  }

  lemma CloseDue(s: State, n: nat, cap: nat)
    ensures Due(Step(s, Close, cap), n) <==> Due(s, n)
  {
  }

  ghost predicate DueLater(ops: seq<Op>, more: seq<Op>, n: nat, cap: nat) {
    exists k | 0 <= k <= |more| :: Due(Run(ops + more[..k], cap), n)
  }

  ghost predicate Regained(ops: seq<Op>, more: seq<Op>, n: nat, cap: nat) {
    exists j | 0 <= j < |more| :: Regains(Run(ops + more[..j], cap), more[j], n, cap)
  }

  lemma RunMore(ops: seq<Op>, more: seq<Op>, k: nat, cap: nat)
    requires k < |more|
    ensures Run(ops + more[..k + 1], cap) == Step(Run(ops + more[..k], cap), more[k], cap)
  {
    hide Step;
    var all := ops + more[..k + 1];
    assert all[..|all| - 1] == ops + more[..k] && all[|all| - 1] == more[k];
  }

  lemma HistoryGrowsBy(ops: seq<Op>, more: seq<Op>, cap: nat)
    ensures Run(ops, cap).history <= Run(ops + more, cap).history
  {
    HistoryGrows(ops + more, |ops|, cap);
    assert (ops + more)[..|ops|] == ops;
  }

  /** Over any continuation: such a number is ever due exactly when the client at some point
      reconnects in that way. */
  lemma DueLaterIff(ops: seq<Op>, more: seq<Op>, n: nat, cap: nat)
    requires cap >= 1 && 1 <= n <= |Run(ops, cap).history| && !Due(Run(ops, cap), n)
    ensures DueLater(ops, more, n, cap) <==> Regained(ops, more, n, cap)
  {
    hide Due, Run, Regains;
    if k :| 0 <= k <= |more| && Due(Run(ops + more[..k], cap), n) {
      FirstDue(ops, more, k, n, cap);
    }
    if j :| 0 <= j < |more| && Regains(Run(ops + more[..j], cap), more[j], n, cap) {
      if !Due(Run(ops + more[..j], cap), n) {
        DueNext(ops, more, j, n, cap);
        assert Due(Run(ops + more[..j + 1], cap), n);
      }
    }
  }

  lemma DueNext(ops: seq<Op>, more: seq<Op>, k: nat, n: nat, cap: nat)
    requires cap >= 1 && k < |more| && 1 <= n <= |Run(ops, cap).history| && !Due(Run(ops + more[..k], cap), n)
    ensures Due(Run(ops + more[..k + 1], cap), n) <==> Regains(Run(ops + more[..k], cap), more[k], n, cap)
  {
    hide Due, Run, Step, Regains, Inv;
    RunKeepsInv(ops + more[..k], cap);
    HistoryGrowsBy(ops, more[..k], cap);
    RunMore(ops, more, k, cap);
    DueStepIff(Run(ops + more[..k], cap), more[k], n, cap);
  }

  lemma {:induction false} FirstDue(ops: seq<Op>, more: seq<Op>, k: nat, n: nat, cap: nat)
    requires cap >= 1 && k <= |more| && 1 <= n <= |Run(ops, cap).history|
    requires !Due(Run(ops, cap), n) && Due(Run(ops + more[..k], cap), n)
    ensures Regained(ops, more, n, cap)
  {
    hide Due, Run, Regains;
    assert ops + more[..0] == ops;
    assert k > 0;
    if Due(Run(ops + more[..k - 1], cap), n) {
      FirstDue(ops, more, k - 1, n, cap);
    } else {
      DueNext(ops, more, k - 1, n, cap);
    }
  }

  // ---- Events sent during a handshake --------------------------------------------------------

  predicate Sends(op: Op) {
    op.Broadcast? || op.SendOwn? || op.SendElsewhere?
  }

  /** What is ahead of the answer is dropped, and the replay was chosen before: nothing that is sent
      between registering a socket and answering it is due on that connection. */
  lemma HandshakeNotDue(s: State, op: Op, n: nat, cap: nat)
    requires Inv(s) && s.pending.Some? && Sends(op) && |s.history| < n
    ensures !Due(Step(s, op, cap), n) && Step(s, op, cap).connected
  {
    hide HasNumber;
    AllNumbered(s, n);
    match op
    case Broadcast(event, before, after) =>
      var t := ElsewhereTimes(s, event, before);
      ElsewhereTimesAll(s, event, before);
      ElsewhereTimesHistory(s, event, before);
      ElsewhereTimesKeepsInv(s, event, before);
      if t.open { OwnVisible(t, event); }
      ElsewhereTimesAll(OwnIfOpen(t, event), event, after);
      ElsewhereTimesHistory(OwnIfOpen(t, event), event, after);
    case SendOwn(event) => if s.open { OwnVisible(s, event); }
    case SendElsewhere(event) =>
  }

  /** What is due was given out. */
  lemma AllNumbered(s: State, n: nat)
    requires Inv(s) && |s.history| < n
    ensures !Due(s, n)
  {
  }

  /** While the connection lasts such a number does not reach the client; it is ever due again
      exactly when the client reconnects before it has handled a higher number, and nothing it missed
      is overwritten. */
  lemma HandshakeFrameIff(ops: seq<Op>, op: Op, more: seq<Op>, n: nat, cap: nat)
    requires cap >= 1 && Run(ops, cap).pending.Some? && Sends(op)
    requires |Run(ops, cap).history| < n <= |Run(ops + [op], cap).history|
    ensures DueLater(ops + [op], more, n, cap) <==> Regained(ops + [op], more, n, cap)
    ensures Drop !in more ==> !Due(Run(ops + [op] + more, cap), n)
  {
    hide Due, Run, Step;
    var sent := ops + [op];
    RunKeepsInv(ops, cap);
    RunSnoc(ops, op, cap);
    HandshakeNotDue(Run(ops, cap), op, n, cap);
    DueLaterIff(sent, more, n, cap);
    if Drop !in more {
      forall j | 0 <= j < |more| ensures !Regains(Run(sent + more[..j], cap), more[j], n, cap) {
        StaysConnected(sent, more[..j], cap);
      }
      assert more[..|more|] == more;
      assert !Regained(sent, more, n, cap);
    }
  }

  lemma RunSnoc(ops: seq<Op>, op: Op, cap: nat)
    ensures Run(ops + [op], cap) == Step(Run(ops, cap), op, cap)
  {
    hide Step;
    assert (ops + [op])[..|ops|] == ops;
  }

  lemma {:induction false} StaysConnected(ops: seq<Op>, more: seq<Op>, cap: nat)
    requires Run(ops, cap).connected && Drop !in more
    ensures Run(ops + more, cap).connected
  {
    hide Run, Step;
    if more == [] {
      assert ops + more == ops;
    } else {
      var n := |more| - 1;
      StaysConnected(ops, more[..n], cap);
      RunMore(ops, more, n, cap);
      assert more[..n + 1] == more;
      StepConnected(Run(ops + more[..n], cap), more[n], cap);
    }
  }

  lemma StepConnected(s: State, op: Op, cap: nat)
    requires s.connected && op != Drop
    ensures Step(s, op, cap).connected
  {
    if op.Broadcast? {
      ElsewhereTimesHistory(s, op.event, op.before);
      ElsewhereTimesHistory(OwnIfOpen(ElsewhereTimes(s, op.event, op.before), op.event), op.event, op.after);
    }
  }

  /** A client hears one broadcast, and the next falls into the handshake of its second connection,
      which is lost before anything newer arrives; then it reconnects. */
  function HandshakeRun(first: Event, second: Event): seq<Op> {
    [] + [Register, Authenticate] + [Receive, Broadcast(first, 0, 0)] + [Receive, Drop]
    + [Register, Broadcast(second, 0, 0)] + [Authenticate, Drop]
  }

  /** The second broadcast was not handed on, and now it is. */
  lemma HandshakeFrameReturns(first: Event, second: Event, cap: nat)
    requires cap >= 1
    ensures var ops := HandshakeRun(first, second);
            && Run(ops, cap).received == [Frame(1, first)]
            && Run(Reconnected(ops, cap), cap).received == [Frame(1, first), Frame(2, second)]
  {
    hide Last, Step, Run, Reconnected;
    var p3 := [] + [Register, Authenticate] + [Receive, Broadcast(first, 0, 0)] + [Receive, Drop];
    var p4 := p3 + [Register, Broadcast(second, 0, 0)];
    var ops := HandshakeRun(first, second);
    OneHeard(first, cap);
    RunTwo(p3, Register, Broadcast(second, 0, 0), cap);
    RunTwo(p4, Authenticate, Drop, cap);
    HandshakePairs(Run(p3, cap), first, second, cap);
    ReconnectAdds(ops, cap);
    assert Frames([first, second])[1..] == [Frame(2, second)];
  }

  lemma HandshakePairs(s: State, first: Event, second: Event, cap: nat)
    requires cap >= 1 && s == State([first], true, None, false, [], false, Some(1), [Frame(1, first)], {})
    ensures var t := Step(Step(s, Register, cap), Broadcast(second, 0, 0), cap);
            Step(Step(t, Authenticate, cap), Drop, cap) ==
            State([first, second], true, None, false, [], false, Some(1), [Frame(1, first)], {2})
  {
    hide Last;
    ResumeIff([first], cap, 1);
    assert [first] + [second] == [first, second];
  }

  // ---- Which broadcasts are numbered ---------------------------------------------------------

  function Copies<T>(x: T, n: nat): (r: seq<T>)
    ensures |r| == n && forall i | 0 <= i < n :: r[i] == x
  {
    seq(n, _ => x)
  }

  /** How many active sockets of the credential a broadcast is sent on. */
  function Sockets(s: State, op: Op): nat
    requires op.Broadcast?
  {
    op.before + (if s.open then 1 else 0) + op.after
  }

  lemma {:induction false} ElsewhereTimesHistory(s: State, event: Event, k: nat)
    ensures var t := ElsewhereTimes(s, event, k);
            && t.history == s.history + Copies(event, k)
            && t.open == s.open && t.pending == s.pending && t.connected == s.connected
  {
    if k > 0 {
      ElsewhereTimesHistory(s, event, k - 1);
      assert Copies(event, k) == Copies(event, k - 1) + [event];
    }
  }

  /** A broadcast gets one number for each active socket, in a row. */
  lemma BroadcastNumbers(s: State, op: Op, cap: nat)
    requires op.Broadcast?
    ensures Step(s, op, cap).history == s.history + Copies(op.event, Sockets(s, op))
  {
    var t := ElsewhereTimes(s, op.event, op.before);
    ElsewhereTimesHistory(s, op.event, op.before);
    ElsewhereTimesHistory(OwnIfOpen(t, op.event), op.event, op.after);
  }

  /** An answer takes a number exactly when it announces a recovery, on a socket closed meanwhile too. */
  lemma AnswerNumbers(s: State, cap: nat)
    ensures Step(s, Authenticate, cap).history ==
            s.history + (if s.pending == Some(Recover) then [RecoveryComplete] else [])
  {
  }

  lemma StepHistoryGrows(s: State, op: Op, cap: nat)
    ensures s.history <= Step(s, op, cap).history
  {
    if op.Broadcast? { BroadcastNumbers(s, op, cap); }
  }

  lemma {:induction false} HistoryGrows(ops: seq<Op>, i: nat, cap: nat)
    requires i <= |ops|
    ensures Run(ops[..i], cap).history <= Run(ops, cap).history
  {
    if i == |ops| {
      assert ops[..i] == ops;
    } else {
      var n := |ops| - 1;
      HistoryGrows(ops[..n], i, cap);
      assert ops[..n][..i] == ops[..i];
      StepHistoryGrows(Run(ops[..n], cap), ops[n], cap);
    }
  }

  /** The broadcast at position `i` has some number in the history of the whole run. */
  ghost predicate Numbered(ops: seq<Op>, i: nat, cap: nat)
    requires i < |ops| && ops[i].Broadcast?
  {
    exists k | |Run(ops[..i], cap).history| <= k < |Run(ops[..i + 1], cap).history| ::
      k < |Run(ops, cap).history| && Run(ops, cap).history[k] == ops[i].event
  }

  /** Every broadcast of a run is numbered exactly when each was made with an active socket of the
      credential. */
  lemma AllNumberedIff(ops: seq<Op>, cap: nat)
    ensures (forall i | 0 <= i < |ops| && ops[i].Broadcast? :: Numbered(ops, i, cap)) <==>
            (forall i | 0 <= i < |ops| && ops[i].Broadcast? :: Sockets(Run(ops[..i], cap), ops[i]) > 0)
  {
    forall i | 0 <= i < |ops| && ops[i].Broadcast?
      ensures Numbered(ops, i, cap) <==> Sockets(Run(ops[..i], cap), ops[i]) > 0
    {
      NumberedIff(ops, i, cap);
    }
  }

  lemma NumberedIff(ops: seq<Op>, i: nat, cap: nat)
    requires i < |ops| && ops[i].Broadcast?
    ensures Numbered(ops, i, cap) <==> Sockets(Run(ops[..i], cap), ops[i]) > 0
  {
    var s := Run(ops[..i], cap);
    assert Run(ops[..i + 1], cap) == Step(s, ops[i], cap) by { assert ops[..i + 1][..i] == ops[..i]; }
    BroadcastNumbers(s, ops[i], cap);
    HistoryGrows(ops, i + 1, cap);
    if Sockets(s, ops[i]) > 0 {
      var k := |s.history|;
      assert Run(ops[..i + 1], cap).history[k] == ops[i].event;
      assert Run(ops, cap).history[k] == ops[i].event;
    }
  }

  // ---- How often a broadcast is handed on ----------------------------------------------------

  /** How many of the frames are numbered above `lo` and up to `hi`. */
  function Handed(frames: seq<Frame<Event>>, lo: nat, hi: nat): nat {
    if frames == [] then 0 else
      var n := |frames| - 1;
      Handed(frames[..n], lo, hi) + (if lo < frames[n].seqNo <= hi then 1 else 0)
  }

  lemma {:induction false} HandedConcat(a: seq<Frame<Event>>, b: seq<Frame<Event>>, lo: nat, hi: nat)
    ensures Handed(a + b, lo, hi) == Handed(a, lo, hi) + Handed(b, lo, hi)
  {
    if b == [] {
      assert a + b == a;
    } else {
      assert (a + b)[..|a + b| - 1] == a + b[..|b| - 1];
      HandedConcat(a, b[..|b| - 1], lo, hi);
    }
  }

  lemma {:induction false} HandedConsecutive(frames: seq<Frame<Event>>, base: nat, lo: nat, hi: nat)
    requires lo <= hi <= base + |frames|
    requires forall i | 0 <= i < |frames| :: frames[i].seqNo == base + i + 1
    ensures Handed(frames, lo, hi) == if hi <= base then 0 else hi - (if lo < base then base else lo)
  {
    if frames != [] {
      var n := |frames| - 1;
      if hi <= base + n { HandedConsecutive(frames[..n], base, lo, hi); }
      else if lo < hi { HandedConsecutive(frames[..n], base, lo, hi - 1); HandedBelow(frames[..n], lo, hi - 1); }
      else { NoneHanded(frames, lo); }
    }
  }

  lemma {:induction false} HandedBelow(frames: seq<Frame<Event>>, lo: nat, hi: nat)
    requires forall i | 0 <= i < |frames| :: frames[i].seqNo <= hi
    ensures Handed(frames, lo, hi + 1) == Handed(frames, lo, hi)
    ensures hi <= lo ==> Handed(frames, lo, hi) == 0
  {
    if frames != [] { HandedBelow(frames[..|frames| - 1], lo, hi); }
  }

  lemma {:induction false} NoneHanded(frames: seq<Frame<Event>>, lo: nat)
    ensures Handed(frames, lo, lo) == 0
  {
    if frames != [] { NoneHanded(frames[..|frames| - 1], lo); }
  }

  ghost predicate Increasing(frames: seq<Frame<Event>>) {
    forall i | 0 <= i < |frames| - 1 :: frames[i].seqNo < frames[i + 1].seqNo
  }

  /** Of increasing frames each number is handed on at most once. */
  lemma {:induction false} HandedAtMost(frames: seq<Frame<Event>>, lo: nat, hi: nat)
    requires Increasing(frames) && lo <= hi
    ensures Handed(frames, lo, hi) <= hi - lo
    ensures frames != [] && frames[|frames| - 1].seqNo <= hi ==>
              Handed(frames, lo, hi) <= if frames[|frames| - 1].seqNo <= lo then 0 else frames[|frames| - 1].seqNo - lo
    ensures frames != [] && lo < frames[|frames| - 1].seqNo <= hi ==> Handed(frames, lo, hi) >= 1
  {
    if frames != [] { HandedAtMost(frames[..|frames| - 1], lo, hi); }
  }

  lemma ReceivedIncreasing(ops: seq<Op>, cap: nat)
    requires cap >= 1
    ensures Increasing(Run(ops, cap).received)
  {
    NoSilentGap(ops, cap);
    var s := Run(ops, cap);
    forall i | 0 <= i < |s.received| - 1 ensures s.received[i].seqNo < s.received[i + 1].seqNo {
      assert Follows(s.received[i], s.received[i + 1], s.skipped);
    }
  }

  /** How often the broadcast at position `i` of the run was handed on by the end of `longer`. */
  function Heard(ops: seq<Op>, i: nat, longer: seq<Op>, cap: nat): nat
    requires i < |ops|
  {
    Handed(Run(longer, cap).received, |Run(ops[..i], cap).history|, |Run(ops[..i + 1], cap).history|)
  }

  lemma BroadcastSpan(ops: seq<Op>, i: nat, cap: nat)
    requires i < |ops| && ops[i].Broadcast?
    ensures |Run(ops[..i + 1], cap).history| == |Run(ops[..i], cap).history| + Sockets(Run(ops[..i], cap), ops[i])
    ensures |Run(ops[..i + 1], cap).history| <= |Run(ops, cap).history|
  {
    assert ops[..i + 1][..i] == ops[..i];
    BroadcastNumbers(Run(ops[..i], cap), ops[i], cap);
    HistoryGrows(ops, i + 1, cap);
  }

  /** A broadcast is never handed on more often than there were active sockets. */
  lemma HandedOncePerSocket(ops: seq<Op>, i: nat, cap: nat)
    requires cap >= 1 && i < |ops| && ops[i].Broadcast?
    ensures Heard(ops, i, ops, cap) <= Sockets(Run(ops[..i], cap), ops[i])
  {
    hide Run, Handed, Increasing, Sockets;
    BroadcastSpan(ops, i, cap);
    ReceivedIncreasing(ops, cap);
    HandedAtMost(Run(ops, cap).received, |Run(ops[..i], cap).history|, |Run(ops[..i + 1], cap).history|);
  }

  /** After a reconnect with a replay, a broadcast of which some copy was newer than the number
      reported has been handed on more than once exactly when it was made on several active sockets;
      of the others nothing more is handed on. */
  lemma HandedTwiceIff(ops: seq<Op>, i: nat, cap: nat, seen: nat)
    requires cap >= 1 && i < |ops| && ops[i].Broadcast?
    requires !Run(ops, cap).connected && Run(ops, cap).lastSeen == Some(seen) && |Run(ops, cap).history| - seen <= cap
    ensures var again := Heard(ops, i, Reconnected(ops, cap), cap);
            if seen < |Run(ops[..i + 1], cap).history|
            then again > 1 <==> Sockets(Run(ops[..i], cap), ops[i]) > 1
            else again == Heard(ops, i, ops, cap)
  {
    var s := Run(ops, cap);
    var lo, hi := |Run(ops[..i], cap).history|, |Run(ops[..i + 1], cap).history|;
    LastReceived(ops, cap);
    hide Run, Handed, Sockets, Reconnected, Increasing;
    BroadcastSpan(ops, i, cap);
    ReconnectAdds(ops, cap);
    HandedConcat(s.received, Frames(s.history)[seen..], lo, hi);
    HandedConsecutive(Frames(s.history)[seen..], seen, lo, hi);
    ReceivedIncreasing(ops, cap);
    HandedAtMost(s.received, lo, hi);
  }

  lemma LastReceived(ops: seq<Op>, cap: nat)
    requires cap >= 1
    ensures var s := Run(ops, cap);
            s.lastSeen == if s.received == [] then None else Some(s.received[|s.received| - 1].seqNo)
  {
    RunKeepsInv(ops, cap);
  }

  lemma UnheardStep(s: State, event: Event, cap: nat)
    requires !s.open
    ensures Step(s, Broadcast(event, 0, 0), cap) == s
  {
  }

  /** A broadcast without any active socket leaves no trace: whatever follows, replays included,
      goes as if it had not been made. */
  lemma {:induction false} UnheardLeavesNoTrace(ops: seq<Op>, event: Event, more: seq<Op>, cap: nat)
    requires !Run(ops, cap).open
    ensures Run(ops + [Broadcast(event, 0, 0)] + more, cap) == Run(ops + more, cap)
  {
    hide Step;
    var heard := ops + [Broadcast(event, 0, 0)];
    if more == [] {
      assert heard[..|heard| - 1] == ops;
      assert heard + more == heard && ops + more == ops;
      UnheardStep(Run(ops, cap), event, cap);
    } else {
      var n := |more| - 1;
      UnheardLeavesNoTrace(ops, event, more[..n], cap);
      assert (heard + more)[..|heard + more| - 1] == heard + more[..n];
      assert (ops + more)[..|ops + more| - 1] == ops + more[..n];
    }
  }

  lemma RunTwo(ops: seq<Op>, a: Op, b: Op, cap: nat)
    ensures Run(ops + [a, b], cap) == Step(Step(Run(ops, cap), a, cap), b, cap)
  {
    hide Step;
    var two := ops + [a, b];
    assert two[..|two| - 1] == ops + [a];
    assert (ops + [a])[..|ops|] == ops;
  }

  /** A client hears one broadcast, loses its connection and is removed by the server; then there is
      another broadcast, and the client reconnects. */
  function LostRun(first: Event, second: Event): seq<Op> {
    [] + [Register, Authenticate] + [Receive, Broadcast(first, 0, 0)] + [Receive, Drop]
    + [Close, Broadcast(second, 0, 0)] + [Register, Authenticate]
  }

  /** The second broadcast has no number, and reconnecting brings the client nothing. */
  lemma LostBroadcast(first: Event, second: Event, cap: nat)
    requires cap >= 1
    ensures var t := Run(LostRun(first, second), cap);
            && t.received == [Frame(1, first)] && t.history == [first]
            && Visible(t.channel, t.authHandled) == []
  {
    hide Last, Step, Run;
    var p3 := [] + [Register, Authenticate] + [Receive, Broadcast(first, 0, 0)] + [Receive, Drop];
    var p4 := p3 + [Close, Broadcast(second, 0, 0)];
    OneHeard(first, cap);
    MiddlePairs(first, second, cap);
    RunTwo(p3, Close, Broadcast(second, 0, 0), cap);
    assert Run(p4, cap) == State([first], false, None, false, [], false, Some(1), [Frame(1, first)], {});
    RunTwo(p4, Register, Authenticate, cap);
    LastPair(Run(p4, cap), first, cap);
  }

  lemma OneHeard(first: Event, cap: nat)
    ensures Run([] + [Register, Authenticate] + [Receive, Broadcast(first, 0, 0)] + [Receive, Drop], cap) ==
            State([first], true, None, false, [], false, Some(1), [Frame(1, first)], {})
  {
    hide Last, Step, Run;
    var p1 := [] + [Register, Authenticate];
    FirstPair(cap);
    RunTwo([], Register, Authenticate, cap);
    RunTwo(p1, Receive, Broadcast(first, 0, 0), cap);
    MiddlePairs(first, first, cap);
    RunTwo(p1 + [Receive, Broadcast(first, 0, 0)], Receive, Drop, cap);
  }

  lemma FirstPair(cap: nat)
    ensures Run([], cap) == INITIAL
    ensures Step(Step(INITIAL, Register, cap), Authenticate, cap) ==
            State([], true, None, true, [Authenticated], false, None, [], {})
  {
    assert [] + [Authenticated] == [Authenticated];
  }

  lemma MiddlePairs(first: Event, second: Event, cap: nat)
    ensures var f := Frame(1, first);
            var s1 := State([], true, None, true, [Authenticated], false, None, [], {});
            var s2 := State([first], true, None, true, [Data(f)], true, None, [], {});
            var s3 := State([first], true, None, false, [], false, Some(1), [f], {});
            var s4 := State([first], false, None, false, [], false, Some(1), [f], {});
            && Step(Step(s1, Receive, cap), Broadcast(first, 0, 0), cap) == s2
            && Step(Step(s2, Receive, cap), Drop, cap) == s3
            && Step(Step(s3, Close, cap), Broadcast(second, 0, 0), cap) == s4
  {
    assert [] + [Data(Frame(1, first))] == [Data(Frame(1, first))] && [] + [first] == [first];
    assert [Authenticated][1..] == [] && [Data(Frame(1, first))][1..] == [];
    assert [] + [Frame(1, first)] == [Frame(1, first)];
  }

  lemma LastPair(s: State, first: Event, cap: nat)
    requires cap >= 1 && s == State([first], false, None, false, [], false, Some(1), [Frame(1, first)], {})
    ensures var t := Step(Step(s, Register, cap), Authenticate, cap);
            t.received == s.received && t.history == s.history && Visible(t.channel, t.authHandled) == []
  {
    hide Last;
    ResumeIff([first], cap, 1);
    assert Frames([first])[1..] == [];
    AnswerVisible([], Replay([]), 2);
    assert ResumeOf(Last(Frames([first]), cap), Some(1)) == Replay([]);
  }

  // ---- One socket ------------------------------------------------------------------------------

  /** Every event of the run, in order. */
  function Announced(ops: seq<Op>): seq<Event> {
    if ops == [] then []
    else
      var op := ops[|ops| - 1];
      var earlier := Announced(ops[..|ops| - 1]);
      if Sends(op) then earlier + [op.event] else earlier
  }

  /** The client's socket is the credential's only one, it is active and answered whenever an event
      is sent, and the client never falls behind the buffer. */
  ghost predicate Attended(s: State, op: Op) {
    match op
    case Broadcast(_, before, after) => before == 0 && after == 0 && s.open && s.pending.None?
    case SendOwn(_) => s.open && s.pending.None?
    case SendElsewhere(_) => false
    case Authenticate => s.pending != Some(Recover)
    case _ => true
  }

  ghost predicate AttendedRun(ops: seq<Op>, cap: nat) {
    ops != [] ==> AttendedRun(ops[..|ops| - 1], cap) && Attended(Run(ops[..|ops| - 1], cap), ops[|ops| - 1])
  }

  lemma AttendedStep(s: State, op: Op, cap: nat)
    requires Attended(s, op) && s.skipped == {}
    ensures var t := Step(s, op, cap);
            && t.skipped == {}
            && t.history ==
               if Sends(op) then s.history + [op.event] else s.history
  {
  }

  /** Then the numbered history is exactly what was announced. */
  lemma {:induction false} AttendedHistory(ops: seq<Op>, cap: nat)
    requires AttendedRun(ops, cap)
    ensures Run(ops, cap).history == Announced(ops) && Run(ops, cap).skipped == {}
  {
    if ops != [] {
      AttendedHistory(ops[..|ops| - 1], cap);
      AttendedStep(Run(ops[..|ops| - 1], cap), ops[|ops| - 1], cap);
    }
  }

  function EventsOf(frames: seq<Frame<Event>>): (r: seq<Event>)
    ensures |r| == |frames| && forall i | 0 <= i < |r| :: r[i] == frames[i].event
  {
    seq(|frames|, i requires 0 <= i < |frames| => frames[i].event)
  }

  lemma {:induction false} ContiguousFrom(frames: seq<Frame<Event>>, history: seq<Event>, skipped: set<nat>)
    requires frames != [] && Genuine(frames, history) && Chained(frames, skipped) && skipped == {}
    requires RecoveryComplete !in history
    ensures forall i | 0 <= i < |frames| :: frames[i].seqNo == frames[0].seqNo + i
  {
    var n := |frames| - 1;
    if n > 0 {
      ContiguousFrom(frames[..n], history, skipped);
      NextNumber(frames[n - 1], frames[n], history, skipped);
    }
  }

  lemma NextNumber(a: Frame<Event>, b: Frame<Event>, history: seq<Event>, skipped: set<nat>)
    requires Follows(a, b, skipped) && skipped == {}
    requires 1 <= b.seqNo <= |history| && history[b.seqNo - 1] == b.event && RecoveryComplete !in history
    ensures b.seqNo == a.seqNo + 1
  {
    assert b.event != RecoveryComplete;
    assert a.seqNo + 1 !in skipped;
  }

  /** Attended throughout, the client received one contiguous stretch of everything announced, each
      event once and in order, however often its connection dropped. */
  lemma ReceivedIsContiguous(ops: seq<Op>, cap: nat)
    requires cap >= 1 && AttendedRun(ops, cap) && RecoveryComplete !in Announced(ops)
    ensures var s := Run(ops, cap);
            s.received == [] ||
            (var first := s.received[0].seqNo - 1;
             && 0 <= first && first + |s.received| <= |Announced(ops)|
             && EventsOf(s.received) == Announced(ops)[first..first + |s.received|])
  {
    hide Run, AttendedRun, Announced, Chained;
    var s := Run(ops, cap);
    NoSilentGap(ops, cap);
    AttendedHistory(ops, cap);
    if s.received != [] {
      ContiguousFrom(s.received, s.history, s.skipped);
      Stretch(s.received, s.history);
    }
  }

  lemma Stretch(frames: seq<Frame<Event>>, history: seq<Event>)
    requires frames != [] && Genuine(frames, history)
    requires forall i | 0 <= i < |frames| :: frames[i].seqNo == frames[0].seqNo + i
    ensures var first := frames[0].seqNo - 1;
            0 <= first && first + |frames| <= |history| && EventsOf(frames) == history[first..first + |frames|]
  {
    var last := frames[|frames| - 1];
    assert last.seqNo <= |history|;
  }

  /** And a reconnecting client that has seen a frame, and for which nothing was overwritten, is given
      exactly the announcements it missed. */
  lemma ReconnectHearsMissed(ops: seq<Op>, cap: nat, seen: nat)
    requires cap >= 1 && AttendedRun(ops, cap)
    requires !Run(ops, cap).connected && Run(ops, cap).lastSeen == Some(seen) && |Announced(ops)| <= seen + cap
    ensures var t := Step(Step(Run(ops, cap), Register, cap), Authenticate, cap);
            seen <= |Announced(ops)| && EventsOf(Visible(t.channel, t.authHandled)) == Announced(ops)[seen..]
  {
    hide Step, AttendedRun, Announced;
    AttendedHistory(ops, cap);
    ReconnectCompleteIff(ops, cap);
  }
}
