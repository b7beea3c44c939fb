/** The core service's lifecycle and its live streams (packages/core/src/signet-core.ts). Every
    point at which a call into a client, key provider or store can fail is an input. */
module SignetCore {
  import opened Sequences

  datatype Phase = Idle | Local | Starting | Running | Stopping | Stopped | Failed
  datatype Kind = Messages | Groups | Dms
  datatype Stream = Stream(id: nat, identity: string, kind: Kind)
  datatype Result = Ok | Err | Thrown

  type Partial = k: nat | k <= 2

  /** How hydrating one identity goes: it fails before the client is registered, breaks after
      `streams` of the three streams were opened, or succeeds. */
  datatype Hydration = Fails(thrown: bool) | Breaks(streams: Partial, thrown: bool) | Succeeds

  /** `launched` counts the streams ever opened, `aborted` lists every abort call, `halfOpen` the
      identities left registered by a call that threw. */
  datatype State = State(
    phase: Phase, registry: set<string>, streams: seq<Stream>, heartbeat: bool,
    launched: nat, aborted: seq<nat>, halfOpen: set<string>)

  datatype Op =
    | StartLocal
    | Start(identities: Option<seq<(string, Hydration)>>)  // `None`: listing them throws
    | Stop(closes: bool)                                   // false: closing the store throws
    | Register(id: string, created: bool, hydration: Hydration, key: Result)
    | Attach(id: string, persisted: bool, hydration: Hydration)
    | Detach(id: string)

  const INITIAL := State(Idle, {}, [], false, 0, [], {})

  function KindAt(k: nat): Kind {
    if k == 0 then Messages else if k == 1 then Groups else Dms
  }

  function Open(s: State, id: string, k: nat): State {
    if k == 0 then s
    else
      var t := Open(s, id, k - 1);
      t.(streams := t.streams + [Stream(t.launched, id, KindAt(k - 1))], launched := t.launched + 1)
  }

  function Failure(thrown: bool): Result {
    if thrown then Thrown else Err
  }

  predicate Streaming(phase: Phase) {
    phase == Running || phase == Starting
  }

  /** `#hydrateIdentity`. */
  function Hydrate(s: State, id: string, h: Hydration): (State, Result) {
    if h.Fails? then (s, Failure(h.thrown))
    else
      var t := if Streaming(s.phase) || s.phase == Local then s.(registry := s.registry + {id}) else s;
      if !Streaming(s.phase) then (t, Ok)
      else if h.Breaks? then (Open(t, id, h.streams), Failure(h.thrown))
      else (Open(t, id, 3), Ok)
  }

  /** The loop of `start`, up to the first failure. */
  function HydrateAll(s: State, identities: seq<(string, Hydration)>): (State, Result)
    decreases |identities|
  {
    if identities == [] then (s, Ok)
    else
      var (t, r) := Hydrate(s, identities[0].0, identities[0].1);
      if r == Ok then HydrateAll(t, identities[1..]) else (t, r)
  }

  function Of(id: string): Stream -> bool {
    (x: Stream) => x.identity == id
  }

  function NotOf(id: string): Stream -> bool {
    (x: Stream) => x.identity != id
  }

  function Ids(streams: seq<Stream>): (r: seq<nat>)
    ensures |r| == |streams| && forall i | 0 <= i < |r| :: r[i] == streams[i].id
  {
    seq(|streams|, i requires 0 <= i < |streams| => streams[i].id)
  }

  function Detached(s: State, id: string): State {
    s.(streams := Filter(s.streams, NotOf(id)), aborted := s.aborted + Ids(Filter(s.streams, Of(id))),
       registry := s.registry - {id}, halfOpen := s.halfOpen - {id})
  }

  function Reset(s: State): State {
    s.(heartbeat := false, aborted := s.aborted + Ids(s.streams), streams := [], registry := {}, halfOpen := {})
  }

  function LeftHalfOpen(s: State, id: string): State {
    if id in s.registry then s.(halfOpen := s.halfOpen + {id}) else s
  }

  function StartStep(s: State, identities: Option<seq<(string, Hydration)>>): (State, Result) {
    var fallback := if s.phase == Local then Local else Failed;
    var t := s.(phase := Starting);
    if identities.None? then (Reset(t).(phase := fallback), Err)
    else
      var (u, r) := HydrateAll(t, identities.value);
      if r == Ok then (u.(heartbeat := true, phase := Running), Ok) else (Reset(u).(phase := fallback), Err)
  }

  function StopStep(s: State, closes: bool): (State, Result) {
    var t := Reset(s);
    if closes then (t.(phase := Stopped), Ok) else (t.(phase := Stopping), Thrown)
  }

  /** What the caller of `#hydrateIdentity` does with its result; `key` is the last lookup of
      `registerManagedIdentity`. */
  function Settled(s: State, id: string, hydrated: Result, key: Result): (State, Result) {
    match hydrated
    case Err => (Detached(s, id), Err)
    case Thrown => (LeftHalfOpen(s, id), Thrown)
    case Ok => if key == Err then (Detached(s, id), Err) else (s, key)
  }

  function HydrateAndSettle(s: State, id: string, h: Hydration, key: Result): (State, Result) {
    var (t, r) := Hydrate(s, id, h);
    Settled(t, id, r, key)
  }

  predicate Active(phase: Phase) {
    phase == Running || phase == Local
  }

  function Step(s: State, op: Op): (State, Result) {
    match op
    case StartLocal => if s.phase == Idle then (s.(phase := Local), Ok) else (s, Err)
    case Start(identities) => if s.phase == Idle || s.phase == Local then StartStep(s, identities) else (s, Err)
    case Stop(closes) => if Active(s.phase) || s.phase == Failed then StopStep(s, closes) else (s, Err)
    case Register(id, created, h, key) =>
      if Active(s.phase) && created then HydrateAndSettle(s, id, h, key) else (s, Err)
    case Attach(id, persisted, h) =>
      if !Active(s.phase) then (s, Err)
      else if id in s.registry then (s, Ok)
      else if !persisted then (s, Err)
      else HydrateAndSettle(s, id, h, Ok)
    case Detach(id) => (Detached(s, id), Ok)
  }

  function Run(ops: seq<Op>): State {
    if ops == [] then INITIAL else Step(Run(ops[..|ops| - 1]), ops[|ops| - 1]).0
  }

  // ---- The object ------------------------------------------------------------------------

  class Core {
    var phase: Phase
    var registry: set<string>
    var streams: seq<Stream>
    var heartbeat: bool
    ghost var launched: nat
    ghost var aborted: seq<nat>
    ghost var halfOpen: set<string>
    var nextStream: nat

    ghost function Track(): State
      reads this
    {
      State(phase, registry, streams, heartbeat, launched, aborted, halfOpen)
    }

    ghost predicate Valid()
      reads this
    {
      nextStream == launched
    }

    constructor ()
      ensures Valid() && Track() == INITIAL
    {
      phase, registry, streams, heartbeat := Idle, {}, [], false;
      launched, aborted, halfOpen, nextStream := 0, [], {}, 0;
    }

    method InitializeLocal() returns (r: Result)
      requires Valid()
      modifies this
      ensures Valid() && (Track(), r) == Step(old(Track()), StartLocal)
    {
      if phase != Idle { return Err; }
      phase := Local;
      return Ok;
    }

    method OpenStream(id: string, kind: Kind)
      requires Valid()
      modifies this
      ensures Valid()
      ensures Track() == old(Track()).(streams := old(streams) + [Stream(old(launched), id, kind)],
                                       launched := old(launched) + 1)
    {
      streams := streams + [Stream(nextStream, id, kind)];
      nextStream, launched := nextStream + 1, launched + 1;
    }

    method HydrateIdentity(id: string, h: Hydration) returns (r: Result)
      requires Valid()
      modifies this
      ensures Valid() && (Track(), r) == Hydrate(old(Track()), id, h)
    {
      if h.Fails? { return Failure(h.thrown); }
      if Streaming(phase) || phase == Local { registry := registry + {id}; }
      if Streaming(phase) {
        ghost var t := Track();
        if h.Breaks? && h.streams == 0 { return Failure(h.thrown); }
        OpenStream(id, Messages);
        assert Track() == Open(t, id, 1);
        if h.Breaks? && h.streams == 1 { return Failure(h.thrown); }
        OpenStream(id, Groups);
        assert Track() == Open(t, id, 2);
        if h.Breaks? && h.streams == 2 { return Failure(h.thrown); }
        OpenStream(id, Dms);
        assert Track() == Open(t, id, 3);
      }
      return Ok;
    }

    method DetachIdentity(id: string)
      requires Valid()
      modifies this
      ensures Valid() && Track() == Detached(old(Track()), id)
    {
      var remaining := [];
      ghost var before := aborted;
      for i := 0 to |streams|
        invariant Valid() && Track() == old(Track()).(aborted := aborted)
        invariant remaining == Filter(streams[..i], NotOf(id))
        invariant aborted == before + Ids(Filter(streams[..i], Of(id)))
      {
        FilterSnoc(streams, i, NotOf(id));
        FilterSnoc(streams, i, Of(id));
        if streams[i].identity == id {
          aborted := aborted + [streams[i].id];
        } else {
          remaining := remaining + [streams[i]];
        }
      }
      assert streams[..|streams|] == streams;
      streams := remaining;
      registry, halfOpen := registry - {id}, halfOpen - {id};
    }

    method AbortAll()
      requires Valid()
      modifies this
      ensures Valid() && Track() == Reset(old(Track()))
    {
      heartbeat := false;
      ghost var before := aborted;
      for i := 0 to |streams|
        invariant Valid() && Track() == old(Track()).(heartbeat := false, aborted := aborted)
        invariant aborted == before + Ids(streams[..i])
      {
        aborted := aborted + [streams[i].id];
        assert Ids(streams[..i + 1]) == Ids(streams[..i]) + [streams[i].id];
      }
      assert streams[..|streams|] == streams;
      streams, registry, halfOpen := [], {}, {};
    }

    method StartCore(identities: Option<seq<(string, Hydration)>>) returns (r: Result)
      requires Valid()
      modifies this
      ensures Valid() && (Track(), r) == Step(old(Track()), Start(identities))
    {
      if phase != Idle && phase != Local { return Err; }
      var fallback := if phase == Local then Local else Failed;
      phase := Starting;
      if identities.None? {
        AbortAll();
        phase := fallback;
        return Err;
      }
      ghost var t := Track();
      var i := 0;
      while i < |identities.value|
        invariant i <= |identities.value| && Valid()
        invariant HydrateAll(t, identities.value) == HydrateAll(Track(), identities.value[i..])
      {
        var hydrated := HydrateIdentity(identities.value[i].0, identities.value[i].1);
        if hydrated != Ok {
          AbortAll();
          phase := fallback;
          return Err;
        }
        assert identities.value[i..][1..] == identities.value[i + 1..];
        i := i + 1;
      }
      heartbeat := true;
      phase := Running;
      return Ok;
    }

    method StopCore(closes: bool) returns (r: Result)
      requires Valid()
      modifies this
      ensures Valid() && (Track(), r) == Step(old(Track()), Stop(closes))
    {
      if phase != Local && phase != Running && phase != Failed { return Err; }
      phase := Stopping;
      AbortAll();
      if !closes { return Thrown; }
      phase := Stopped;
      return Ok;
    }

    method RegisterIdentity(id: string, created: bool, h: Hydration, key: Result) returns (r: Result)
      requires Valid()
      modifies this
      ensures Valid() && (Track(), r) == Step(old(Track()), Register(id, created, h, key))
    {
      if phase != Running && phase != Local { return Err; }
      if !created { return Err; }
      r := HydrateIdentity(id, h);
      if r == Thrown {
        if id in registry { halfOpen := halfOpen + {id}; }
        return;
      }
      if r == Err {
        DetachIdentity(id);
        return;
      }
      if key == Err { DetachIdentity(id); }
      r := key;
    }

    method AttachIdentity(id: string, persisted: bool, h: Hydration) returns (r: Result)
      requires Valid()
      modifies this
      ensures Valid() && (Track(), r) == Step(old(Track()), Attach(id, persisted, h))
    {
      if phase != Running && phase != Local { return Err; }
      if id in registry { return Ok; }
      if !persisted { return Err; }
      r := HydrateIdentity(id, h);
      if r == Thrown && id in registry { halfOpen := halfOpen + {id}; }
      if r == Err { DetachIdentity(id); }
    }
  }

  // ---- Every stream is held or was aborted, once -------------------------------------------

  function Upto(n: nat): multiset<nat> {
    if n == 0 then multiset{} else Upto(n - 1) + multiset{n - 1}
  }

  lemma {:induction false} UptoCounts(n: nat, id: nat)
    ensures Upto(n)[id] == if id < n then 1 else 0
  {
    if n > 0 { UptoCounts(n - 1, id); }
  }

  /** The streams held and the abort calls made are together the streams ever opened, each once. */
  ghost predicate Accounted(s: State) {
    multiset(Ids(s.streams)) + multiset(s.aborted) == Upto(s.launched)
  }

  lemma {:induction false} FilterSplits(streams: seq<Stream>, id: string)
    ensures multiset(Ids(Filter(streams, NotOf(id)))) + multiset(Ids(Filter(streams, Of(id)))) == multiset(Ids(streams))
  {
    if streams != [] {
      var n := |streams| - 1;
      FilterSplits(streams[..n], id);
      assert Ids(streams) == Ids(streams[..n]) + [streams[n].id];
      IdsSnoc(Filter(streams[..n], NotOf(id)), streams[n]);
      IdsSnoc(Filter(streams[..n], Of(id)), streams[n]);
      assert Filter(streams[..n], Of(id)) + [] == Filter(streams[..n], Of(id));
      assert Filter(streams[..n], NotOf(id)) + [] == Filter(streams[..n], NotOf(id));
    }
  }

  lemma IdsSnoc(streams: seq<Stream>, x: Stream)
    ensures Ids(streams + [x]) == Ids(streams) + [x.id]
  {
  }

  lemma {:induction false} OpenFrame(s: State, id: string, k: nat)
    ensures var t := Open(s, id, k); t == s.(streams := t.streams, launched := t.launched)
  {
    if k > 0 { OpenFrame(s, id, k - 1); }
  }

  lemma {:induction false} OpenAccounted(s: State, id: string, k: nat)
    requires Accounted(s)
    ensures Accounted(Open(s, id, k))
  {
    if k > 0 {
      OpenAccounted(s, id, k - 1);
      OpenFrame(s, id, k - 1);
      OneMoreAccounted(Open(s, id, k - 1), Stream(Open(s, id, k - 1).launched, id, KindAt(k - 1)));
    }
  }

  lemma OneMoreAccounted(s: State, x: Stream)
    requires Accounted(s) && x.id == s.launched
    ensures Accounted(s.(streams := s.streams + [x], launched := s.launched + 1))
  {
    IdsSnoc(s.streams, x);
  }

  lemma DetachAccounted(s: State, id: string)
    requires Accounted(s)
    ensures Accounted(Detached(s, id))
  {
    FilterSplits(s.streams, id);
  }

  lemma ResetAccounted(s: State)
    requires Accounted(s)
    ensures Accounted(Reset(s))
  {
    assert Ids([]) == [];
  }

  /** Streams are held only while starting or running, clients are registered only then or in
      local mode, and the heartbeat runs exactly while running. */
  ghost predicate Confined(s: State) {
    && (s.streams != [] ==> Streaming(s.phase))
    && (s.registry != {} ==> Streaming(s.phase) || s.phase == Local)
    && (s.heartbeat <==> s.phase == Running)
  }

  ghost predicate Inv(s: State) {
    Accounted(s) && Confined(s)
  }

  lemma HydrateKeepsInv(s: State, id: string, h: Hydration)
    requires Inv(s)
    ensures Inv(Hydrate(s, id, h).0) && Hydrate(s, id, h).0.phase == s.phase
  {
    var t := s.(registry := s.registry + {id});
    var k: nat := if h.Breaks? then h.streams else 3;
    OpenAccounted(t, id, k);
    OpenFrame(t, id, k);
  }

  lemma {:induction false} HydrateAllKeepsInv(s: State, identities: seq<(string, Hydration)>)
    requires Inv(s)
    ensures Inv(HydrateAll(s, identities).0) && HydrateAll(s, identities).0.phase == s.phase
    decreases |identities|
  {
    if identities != [] {
      HydrateKeepsInv(s, identities[0].0, identities[0].1);
      HydrateAllKeepsInv(Hydrate(s, identities[0].0, identities[0].1).0, identities[1..]);
    }
  }

  lemma DetachKeepsInv(s: State, id: string)
    requires Inv(s)
    ensures Inv(Detached(s, id))
  {
    DetachAccounted(s, id);
  }

  lemma StartKeepsInv(s: State, identities: Option<seq<(string, Hydration)>>)
    requires Inv(s) && (s.phase == Idle || s.phase == Local)
    ensures Inv(StartStep(s, identities).0)
  {
    hide Accounted, HydrateAll, Hydrate, Ids;
    var t := s.(phase := Starting);
    AccountedFrame(s, t);
    ResetAccounted(t);
    AccountedFrame(Reset(t), Reset(t).(phase := if s.phase == Local then Local else Failed));
    if identities.Some? {
      var u := HydrateAll(t, identities.value).0;
      HydrateAllKeepsInv(t, identities.value);
      ResetAccounted(u);
      AccountedFrame(Reset(u), Reset(u).(phase := if s.phase == Local then Local else Failed));
      AccountedFrame(u, u.(heartbeat := true, phase := Running));
    }
  }

  lemma AccountedFrame(s: State, t: State)
    requires Accounted(s) && t.streams == s.streams && t.aborted == s.aborted && t.launched == s.launched
    ensures Accounted(t)
  {
  }

  lemma SettledKeepsInv(s: State, id: string, hydrated: Result, key: Result)
    requires Inv(s)
    ensures Inv(Settled(s, id, hydrated, key).0)
  {
    hide Accounted, Detached;
    DetachKeepsInv(s, id);
    if id in s.registry { AccountedFrame(s, LeftHalfOpen(s, id)); }
  }

  lemma HydrateAndSettleKeepsInv(s: State, id: string, h: Hydration, key: Result)
    requires Inv(s)
    ensures Inv(HydrateAndSettle(s, id, h, key).0)
  {
    var (t, r) := Hydrate(s, id, h);
    HydrateKeepsInv(s, id, h);
    SettledKeepsInv(t, id, r, key);
  }

  lemma StepKeepsInv(s: State, op: Op)
    requires Inv(s)
    ensures Inv(Step(s, op).0)
  {
    hide Accounted, StartStep, HydrateAndSettle, Detached;
    match op
    case StartLocal => AccountedFrame(s, s.(phase := Local));
    case Start(identities) => if s.phase == Idle || s.phase == Local { StartKeepsInv(s, identities); }
    case Stop(closes) =>
      ResetAccounted(s);
      AccountedFrame(Reset(s), Reset(s).(phase := if closes then Stopped else Stopping));
    case Register(id, created, h, key) => HydrateAndSettleKeepsInv(s, id, h, key);
    case Attach(id, persisted, h) => HydrateAndSettleKeepsInv(s, id, h, Ok);
    case Detach(id) => DetachKeepsInv(s, id);
  }

  lemma {:induction false} RunKeepsInv(ops: seq<Op>)
    ensures Inv(Run(ops))
  {
    if ops != [] {
      RunKeepsInv(ops[..|ops| - 1]);
      StepKeepsInv(Run(ops[..|ops| - 1]), ops[|ops| - 1]);
    } else {
      assert Ids([]) == [];
    }
  }

  lemma CountInSeq(s: seq<nat>, t: seq<nat>, id: nat)
    requires multiset(s)[id] + multiset(t)[id] == 1
    ensures id in s <==> id !in t
    ensures forall i, j | 0 <= i < j < |t| :: t[i] != id || t[j] != id
  {
    assert id in s <==> id in multiset(s);
    assert id in t <==> id in multiset(t);
    forall i, j | 0 <= i < j < |t| && t[i] == id ensures t[j] != id {
      assert t == t[..j] + [t[j]] + t[j + 1..];
      assert t[i] in t[..j];
    }
  }

  /** After any sequence of calls, whatever failed in them, each stream ever opened is either held
      or was aborted, never both, and never aborted twice. */
  lemma HeldOrAbortedOnce(ops: seq<Op>, id: nat)
    requires id < Run(ops).launched
    ensures var s := Run(ops);
            && (id in Ids(s.streams) <==> id !in s.aborted)
            && (forall i, j | 0 <= i < j < |s.aborted| :: s.aborted[i] != id || s.aborted[j] != id)
  {
    RunKeepsInv(ops);
    var s := Run(ops);
    UptoCounts(s.launched, id);
    assert (multiset(Ids(s.streams)) + multiset(s.aborted))[id] == 1;
    CountInSeq(Ids(s.streams), s.aborted, id);
  }

  /** Outside the running phase nothing is held between calls, and the heartbeat is off. */
  lemma NothingHeldOutsideRunning(ops: seq<Op>)
    requires Run(ops).phase != Running
    ensures var s := Run(ops); s.streams == [] && !s.heartbeat && (s.phase != Local ==> s.registry == {})
  {
    RunKeepsInv(ops);
    NeverStarting(ops);
  }

  lemma {:induction false} NeverStarting(ops: seq<Op>)
    ensures Run(ops).phase != Starting
  {
    if ops != [] {
      var s := Run(ops[..|ops| - 1]);
      NeverStarting(ops[..|ops| - 1]);
      PhaseKept(s, ops[|ops| - 1]);
    }
  }

  /** Only `start` and `stop` move between running and not running. */
  lemma PhaseKept(s: State, op: Op)
    ensures s.phase != Starting ==> Step(s, op).0.phase != Starting
    ensures (op.Register? || op.Attach? || op.Detach?) ==> Step(s, op).0.phase == s.phase
  {
    if op.Register? || op.Attach? {
      var t := s.(registry := s.registry + {op.id});
      OpenFrame(t, op.id, 3);
      if op.hydration.Breaks? { OpenFrame(t, op.id, op.hydration.streams); }
    }
  }

  // ---- Starting --------------------------------------------------------------------------

  lemma {:induction false} HydrateAllOkIff(s: State, identities: seq<(string, Hydration)>)
    requires s.phase == Starting
    ensures HydrateAll(s, identities).1 == Ok <==> forall p | p in identities :: p.1 == Succeeds
    decreases |identities|
  {
    if identities != [] {
      var (id, h) := identities[0];
      var t := Hydrate(s, id, h).0;
      OpenFrame(s.(registry := s.registry + {id}), id, 3);
      assert identities == [identities[0]] + identities[1..];
      if h == Succeeds {
        HydrateAllOkIff(t, identities[1..]);
      } else {
        assert identities[0] in identities;
      }
    }
  }

  lemma {:induction false} HydrateAllRegisters(s: State, identities: seq<(string, Hydration)>)
    requires s.phase == Starting && HydrateAll(s, identities).1 == Ok
    ensures forall id ::
              id in HydrateAll(s, identities).0.registry <==>
              id in s.registry || exists p | p in identities :: p.0 == id
    decreases |identities|
  {
    if identities != [] {
      var t := Hydrate(s, identities[0].0, identities[0].1).0;
      OpenFrame(s.(registry := s.registry + {identities[0].0}), identities[0].0, 3);
      assert identities == [identities[0]] + identities[1..];
      HydrateAllRegisters(t, identities[1..]);
      assert forall p :: p in identities <==> p == identities[0] || p in identities[1..];
    }
  }

  /** `start` succeeds exactly when listing and every hydration succeed, and then every listed identity
      is registered and the heartbeat runs; otherwise it leaves no stream, no client and no timer
      behind, in local mode if it came from there. */
  lemma StartOutcome(s: State, identities: Option<seq<(string, Hydration)>>)
    requires Inv(s) && (s.phase == Idle || s.phase == Local)
    ensures var (t, r) := Step(s, Start(identities));
            && (r == Ok <==> identities.Some? && forall p | p in identities.value :: p.1 == Succeeds)
            && (r == Ok ==>
                  && t.phase == Running && t.heartbeat
                  && forall id ::
                       id in t.registry <==> id in s.registry || exists p | p in identities.value :: p.0 == id)
            && (r != Ok ==>
                  && t.phase == (if s.phase == Local then Local else Failed)
                  && t.streams == [] && t.registry == {} && !t.heartbeat)
  {
    if identities.Some? {
      HydrateAllOkIff(s.(phase := Starting), identities.value);
      if Step(s, Start(identities)).1 == Ok { HydrateAllRegisters(s.(phase := Starting), identities.value); }
    }
  }

  // ---- Registered identities are streamed --------------------------------------------------

  function Kinds(streams: seq<Stream>, id: string): seq<Kind> {
    if streams == [] then []
    else
      var n := |streams| - 1;
      if streams[n].identity == id then Kinds(streams[..n], id) + [streams[n].kind] else Kinds(streams[..n], id)
  }

  const THREE := [Messages, Groups, Dms]

  /** Every stream belongs to a registered identity, and a registered identity has its message,
      group and direct-message streams, one of each, exactly when it is not in `partial`. */
  ghost predicate Live(streams: seq<Stream>, registry: set<string>, partial: set<string>) {
    && (forall x | x in streams :: x.identity in registry)
    && partial <= registry
    && (forall id | id in registry :: Kinds(streams, id) == THREE <==> id !in partial)
  }

  lemma {:induction false} KindsNone(streams: seq<Stream>, id: string)
    requires forall x | x in streams :: x.identity != id
    ensures Kinds(streams, id) == []
  {
    if streams != [] {
      KindsNone(streams[..|streams| - 1], id);
      assert streams[|streams| - 1] in streams;
    }
  }

  lemma {:induction false} KindsWithout(streams: seq<Stream>, id: string, other: string)
    requires other != id
    ensures Kinds(Filter(streams, NotOf(id)), other) == Kinds(streams, other)
  {
    if streams != [] {
      var n := |streams| - 1;
      KindsWithout(streams[..n], id, other);
      var kept := Filter(streams[..n], NotOf(id));
      assert (kept + [streams[n]])[..|kept|] == kept;
      assert kept + [] == kept;
    }
  }

  lemma {:induction false} OpenKinds(s: State, id: string, k: nat, other: string)
    requires k <= 3
    ensures Kinds(Open(s, id, k).streams, other) == Kinds(s.streams, other) + (if other == id then THREE[..k] else [])
    ensures forall x | x in Open(s, id, k).streams :: x in s.streams || x.identity == id
  {
    var before := Kinds(s.streams, other);
    if k > 0 {
      hide Kinds, Open;
      var t := Open(s, id, k - 1);
      OpenKinds(s, id, k - 1, other);
      OpenOne(s, id, k);
      KindsSnoc(t.streams, Stream(t.launched, id, KindAt(k - 1)), other);
      assert THREE[..k] == THREE[..k - 1] + [KindAt(k - 1)];
    } else {
      assert before + [] == before && THREE[..k] == [];
    }
  }

  lemma OpenOne(s: State, id: string, k: nat)
    requires k > 0
    ensures var t := Open(s, id, k - 1);
            Open(s, id, k).streams == t.streams + [Stream(t.launched, id, KindAt(k - 1))]
  {
  }

  lemma KindsSnoc(streams: seq<Stream>, x: Stream, other: string)
    ensures Kinds(streams + [x], other) ==
            if x.identity == other then Kinds(streams, other) + [x.kind] else Kinds(streams, other)
  {
    assert (streams + [x])[..|streams|] == streams;
  }

  lemma OpenLive(s: State, id: string, k: nat, registry: set<string>, partial: set<string>)
    requires k <= 3 && id !in registry && Live(s.streams, registry, partial)
    ensures Live(Open(s, id, k).streams, registry + {id}, if k == 3 then partial else partial + {id})
  {
    KindsNone(s.streams, id);
    OpenKinds(s, id, k, id);
    assert |THREE[..k]| == k;
    assert THREE[..|THREE|] == THREE;
    forall other | other in registry ensures Kinds(Open(s, id, k).streams, other) == Kinds(s.streams, other) {
      OpenKinds(s, id, k, other);
    }
  }

  lemma DetachLive(s: State, id: string, partial: set<string>)
    requires Live(s.streams, s.registry, partial) && s.halfOpen - {id} == partial - {id}
    ensures var t := Detached(s, id); Live(t.streams, t.registry, t.halfOpen)
  {
    var t := Detached(s, id);
    FilterMembers(s.streams, NotOf(id));
    forall other | other in t.registry ensures Kinds(t.streams, other) == Kinds(s.streams, other) {
      KindsWithout(s.streams, id, other);
    }
  }

  /** Identifiers are generated fresh, and the store lists each persisted identity once and has all
      that are registered. */
  ghost predicate Sound(s: State, op: Op) {
    match op
    case Register(id, _, _, _) => id !in s.registry
    case Start(identities) =>
      identities.Some? ==>
        && (forall i, j | 0 <= i < j < |identities.value| :: identities.value[i].0 != identities.value[j].0)
        && (forall id | id in s.registry :: exists p | p in identities.value :: p.0 == id)
    case _ => true
  }

  ghost predicate SoundRun(ops: seq<Op>) {
    ops != [] ==> SoundRun(ops[..|ops| - 1]) && Sound(Run(ops[..|ops| - 1]), ops[|ops| - 1])
  }

  lemma HydrateAndSettleLive(s: State, id: string, h: Hydration, key: Result)
    requires s.phase == Running && id !in s.registry && Live(s.streams, s.registry, s.halfOpen)
    ensures var t := HydrateAndSettle(s, id, h, key).0; t.phase == Running && Live(t.streams, t.registry, t.halfOpen)
  {
    if h.Fails? {
      DetachLive(s, id, s.halfOpen);
    } else {
      var r := s.(registry := s.registry + {id});
      var k: nat := if h.Breaks? then h.streams else 3;
      OpenFrame(r, id, k);
      OpenLive(r, id, k, s.registry, s.halfOpen);
      DetachLive(Open(r, id, k), id, if k == 3 then s.halfOpen else s.halfOpen + {id});
    }
  }

  /** The loop of `start`: `done` are the identities hydrated so far. */
  lemma {:induction false} HydrateAllLive(s: State, identities: seq<(string, Hydration)>, done: set<string>)
    requires s.phase == Starting && Live(s.streams, done, {}) && done <= s.registry
    requires forall i, j | 0 <= i < j < |identities| :: identities[i].0 != identities[j].0
    requires forall p | p in identities :: p.0 !in done
    requires forall id | id in s.registry && id !in done :: exists p | p in identities :: p.0 == id
    requires HydrateAll(s, identities).1 == Ok
    ensures var t := HydrateAll(s, identities).0; Live(t.streams, t.registry, {}) && t.halfOpen == s.halfOpen
    decreases |identities|
  {
    if identities == [] {
      assert done == s.registry;
    } else {
      var (id, h) := identities[0];
      assert identities[0] in identities;
      var r := s.(registry := s.registry + {id});
      OpenFrame(r, id, 3);
      OpenLive(r, id, 3, done, {});
      assert identities == [identities[0]] + identities[1..];
      HydrateAllLive(Hydrate(s, id, h).0, identities[1..], done + {id});
    }
  }

  lemma StartLive(s: State, identities: Option<seq<(string, Hydration)>>)
    requires Inv(s) && (s.phase == Idle || s.phase == Local) && Sound(s, Start(identities))
    requires s.halfOpen == {}
    ensures var t := StartStep(s, identities).0; t.phase == Running ==> Live(t.streams, t.registry, t.halfOpen)
  {
    var t := s.(phase := Starting);
    if identities.Some? && HydrateAll(t, identities.value).1 == Ok {
      HydrateAllLive(t, identities.value, {});
    }
  }

  /** The half-open identities are exactly the registered ones that lack a stream. */
  ghost predicate Streamed(s: State) {
    if s.phase == Running then Live(s.streams, s.registry, s.halfOpen) else s.halfOpen == {}
  }

  lemma StepLive(s: State, op: Op)
    requires Inv(s) && Sound(s, op) && Streamed(s)
    ensures Streamed(Step(s, op).0)
  {
    PhaseKept(s, op);
    if Step(s, op).0.phase != Running { StepNotRunning(s, op); }
    match op
    case StartLocal =>
    case Start(identities) => if s.phase == Idle || s.phase == Local { StartLive(s, identities); }
    case Stop(closes) =>
    case Register(id, created, h, key) => if s.phase == Running { HydrateAndSettleLive(s, id, h, key); }
    case Attach(id, persisted, h) => if s.phase == Running && id !in s.registry { HydrateAndSettleLive(s, id, h, Ok); }
    case Detach(id) => if s.phase == Running { DetachLive(s, id, s.halfOpen); }
  }

  lemma StepNotRunning(s: State, op: Op)
    requires Sound(s, op) && Streamed(s) && Step(s, op).0.phase != Running
    ensures Step(s, op).0.halfOpen == {}
  {
    PhaseKept(s, op);
  }

  /** While running, every stream belongs to a registered identity, and a registered identity lacks
      one of its three streams exactly when a call threw between registering it and opening the
      third. */
  lemma {:induction false} RegisteredAreStreamed(ops: seq<Op>)
    requires SoundRun(ops)
    ensures Streamed(Run(ops))
  {
    if ops != [] {
      var earlier := ops[..|ops| - 1];
      RegisteredAreStreamed(earlier);
      RunKeepsInv(earlier);
      StepLive(Run(earlier), ops[|ops| - 1]);
    }
  }

  /** The exemption is needed: a call that throws between two streams leaves its identity
      registered with one stream, and attaching it again reports success without opening more. */
  lemma HalfOpenStays(s: State, id: string)
    requires s.phase == Running && id !in s.registry && Live(s.streams, s.registry, s.halfOpen)
    ensures var t := Step(s, Register(id, true, Breaks(1, true), Ok)).0;
            && id in t.registry && Kinds(t.streams, id) == [Messages]
            && Step(t, Attach(id, true, Succeeds)) == (t, Ok)
  {
    var r := s.(registry := s.registry + {id});
    var one: nat := 1;
    KindsNone(s.streams, id);
    BrokenRegister(s, id);
    hide Open, Live, Kinds, Step;
    OpenKinds(r, id, one, id);
    OpenFrame(r, id, one);
    AttachRegistered(LeftHalfOpen(Open(r, id, one), id), id);
  }

  lemma BrokenRegister(s: State, id: string)
    requires s.phase == Running && id !in s.registry
    ensures var r := s.(registry := s.registry + {id});
            Step(s, Register(id, true, Breaks(1, true), Ok)) == (LeftHalfOpen(Open(r, id, 1), id), Thrown)
  {
    hide Open, LeftHalfOpen;
  }

  lemma AttachRegistered(s: State, id: string)
    requires s.phase == Running && id in s.registry
    ensures Step(s, Attach(id, true, Succeeds)) == (s, Ok)
  {
  }

  // ---- What the calls bring about ----------------------------------------------------------

  /** Nothing but the one identity is touched. */
  ghost predicate OthersKept(s: State, t: State, id: string) {
    && t.phase == s.phase && t.heartbeat == s.heartbeat
    && t.registry - {id} == s.registry - {id}
    && forall other | other != id :: Kinds(t.streams, other) == Kinds(s.streams, other)
  }

  /** A detached identity is not registered and has no stream, and no other loses one. */
  lemma DetachOutcome(s: State, id: string)
    ensures var (t, r) := Step(s, Detach(id));
            r == Ok && id !in t.registry && Kinds(t.streams, id) == [] && OthersKept(s, t, id)
  {
    DetachedKinds(s, id);
  }

  lemma DetachedKinds(s: State, id: string)
    ensures var t := Detached(s, id);
            id !in t.registry && Kinds(t.streams, id) == [] && OthersKept(s, t, id)
  {
    FilterMembers(s.streams, NotOf(id));
    KindsNone(Filter(s.streams, NotOf(id)), id);
    forall other | other != id ensures Kinds(Detached(s, id).streams, other) == Kinds(s.streams, other) {
      KindsWithout(s.streams, id, other);
    }
  }

  lemma OpenedKinds(s: State, id: string, k: nat)
    requires k <= 3 && Kinds(s.streams, id) == []
    ensures var t := Open(s.(registry := s.registry + {id}), id, k);
            && t.registry == s.registry + {id} && OthersKept(s, t, id)
            && |Kinds(t.streams, id)| == k && (k == 3 ==> Kinds(t.streams, id) == THREE)
  {
    var r := s.(registry := s.registry + {id});
    OpenFrame(r, id, k);
    OpenKinds(r, id, k, id);
    assert THREE[..|THREE|] == THREE;
    assert Kinds(Open(r, id, k).streams, id) == THREE[..k];
    forall other | other != id ensures Kinds(Open(r, id, k).streams, other) == Kinds(s.streams, other) {
      OpenKinds(r, id, k, other);
    }
  }

  /** What hydrating a new identity comes to: it is registered, with its three streams while running,
      exactly when everything succeeds; after an error it is not registered and has no stream. */
  ghost predicate Joined(s: State, t: State, r: Result, id: string, succeeds: bool) {
    && (r == Ok <==> succeeds)
    && (r == Ok ==> id in t.registry && Kinds(t.streams, id) == (if s.phase == Running then THREE else []))
    && (r == Err ==> id !in t.registry && Kinds(t.streams, id) == [])
    && OthersKept(s, t, id)
  }

  /** Nothing can break where no streams are opened, in local mode. */
  predicate Hydrates(phase: Phase, h: Hydration) {
    h.Succeeds? || (phase == Local && h.Breaks?)
  }

  lemma HydrateAndSettleOutcome(s: State, id: string, h: Hydration, key: Result)
    requires Active(s.phase) && id !in s.registry && Kinds(s.streams, id) == []
    ensures var (t, r) := HydrateAndSettle(s, id, h, key);
            Joined(s, t, r, id, Hydrates(s.phase, h) && key == Ok)
  {
    hide Open, Kinds, Detached;
    DetachedKinds(s, id);
    if !h.Fails? {
      var k: nat := if s.phase == Local then 0 else if h.Breaks? then h.streams else 3;
      OpenedKinds(s, id, 0);
      OpenedKinds(s, id, k);
      OpenNone(s.(registry := s.registry + {id}), id);
      DetachedKinds(Open(s.(registry := s.registry + {id}), id, k), id);
    }
  }

  lemma OpenNone(s: State, id: string)
    ensures Open(s, id, 0) == s
  {
  }

  lemma NewHasNoStreams(s: State, id: string)
    requires Inv(s) && Streamed(s) && s.phase != Starting && id !in s.registry
    ensures Kinds(s.streams, id) == []
  {
    KindsNone(s.streams, id);
  }

  /** Registering a new client succeeds exactly when the core is active and creating it, hydrating it
      and the key look-up succeed; otherwise, unless it throws, nothing of it is left. */
  lemma RegisterOutcome(s: State, id: string, created: bool, h: Hydration, key: Result)
    requires Inv(s) && Streamed(s) && s.phase != Starting && id !in s.registry
    ensures var (t, r) := Step(s, Register(id, created, h, key));
            Joined(s, t, r, id, Active(s.phase) && created && Hydrates(s.phase, h) && key == Ok)
  {
    NewHasNoStreams(s, id);
    hide HydrateAndSettle, Kinds;
    if Active(s.phase) { HydrateAndSettleOutcome(s, id, h, key); }
  }

  /** Attaching an identity that is not registered succeeds exactly when the core is active, the
      identity is persisted and hydrating it succeeds; a registered one is left alone. */
  lemma AttachOutcome(s: State, id: string, persisted: bool, h: Hydration)
    requires Inv(s) && Streamed(s) && s.phase != Starting
    ensures var (t, r) := Step(s, Attach(id, persisted, h));
            if Active(s.phase) && id in s.registry then (t, r) == (s, Ok)
            else if id in s.registry then (t, r) == (s, Err)
            else Joined(s, t, r, id, Active(s.phase) && persisted && Hydrates(s.phase, h))
  {
    hide HydrateAndSettle, Kinds;
    if id !in s.registry {
      NewHasNoStreams(s, id);
      if Active(s.phase) { HydrateAndSettleOutcome(s, id, h, Ok); }
    }
  }

  /** Local mode is entered from idle alone, and a start is refused except from idle and local mode. */
  lemma StartGuards(s: State, identities: Option<seq<(string, Hydration)>>)
    ensures var (t, r) := Step(s, StartLocal);
            && (r == Ok <==> s.phase == Idle) && t == s.(phase := if r == Ok then Local else s.phase)
    ensures s.phase != Idle && s.phase != Local ==> Step(s, Start(identities)) == (s, Err)
  {
  }

  /** Stopping is refused before a start and after a stop; otherwise nothing is held afterwards, and it
      succeeds exactly when the store closes. */
  lemma StopOutcome(s: State, closes: bool)
    ensures var (t, r) := Step(s, Stop(closes));
            if Active(s.phase) || s.phase == Failed
            then && t.streams == [] && t.registry == {} && !t.heartbeat
                 && (r == Ok <==> closes) && t.phase == (if closes then Stopped else Stopping)
            else (t, r) == (s, Err)
  {
  }
}
