/** The seal manager (packages/seals/src/manager.ts): four maps updated by issue, refresh and
    revoke, and a history walk over predecessor links. The invariant says that the maps describe
    one append-only log per (credential, chat) pair. */
module SealManager {
  import opened Sequences
  import opened ScopeDelta
  import opened SealChain

  /** `order` is the insertion order of `byId`, which `Map.values()` iterates. */
  datatype State = State(
    current: map<string, Chain>,
    byId: map<string, Chain>,
    order: seq<string>,
    inputs: map<string, SealInput>,
    revoked: set<string>)

  const EMPTY := State(map[], map[], [], map[], {})

  /** What the outside world answers during one call: the generated id, the clock, and whether
      the remaining schema, the signer and the publisher succeed. */
  datatype World = World(freshId: string, now: int, schemaOk: bool, signOk: bool, publishOk: bool)

  datatype Outcome =
    | Issued(chain: Chain)
    | Kept(chain: Chain)
    | Done
    | ResolveFailed | PairRevoked | BuildFailed | SignFailed | PublishFailed
    | NotFound | InputMissing | NotHead

  function PairKey(chain: Chain): string {
    ChainKey(chain.current.input.credentialId, chain.current.input.chatId)
  }

  // ---- The three transitions -------------------------------------------------------------

  function Record(s: State, key: string, chain: Chain, input: SealInput): State {
    var id := chain.current.sealId;
    State(s.current[key := chain], s.byId[id := chain],
          if id in s.byId then s.order else s.order + [id], s.inputs[id := input], s.revoked)
  }

  /** Build, sign, publish and record; any failure leaves the maps alone. */
  function Append(s: State, key: string, input: SealInput, previous: Option<Payload>, w: World): (State, Outcome) {
    match BuildSeal(input, previous, w.freshId, w.now, w.schemaOk)
    case None => (s, BuildFailed)
    case Some(chain) =>
      if !w.signOk then (s, SignFailed)
      else if !w.publishOk then (s, PublishFailed)
      else (Record(s, key, chain, input), Issued(chain))
  }

  function IssueStep(s: State, chatId: string, resolved: Option<SealInput>, w: World): (State, Outcome) {
    match resolved
    case None => (s, ResolveFailed)
    case Some(input) =>
      var key := ChainKey(input.credentialId, chatId);
      if key in s.revoked then (s, PairRevoked)
      else if key !in s.current then Append(s, key, input, None, w)
      else
        var previous := s.current[key].current;
        if previous.sealId in s.inputs && NothingToReport(previous.input.permissions, s.inputs[previous.sealId], input)
        then (s, Kept(s.current[key]))
        else Append(s, key, input, Some(previous), w)
  }

  function RefreshStep(s: State, sealId: string, w: World): (State, Outcome) {
    if sealId !in s.byId then (s, NotFound)
    else if sealId !in s.inputs then (s, InputMissing)
    else
      var key := PairKey(s.byId[sealId]);
      if key !in s.current || s.current[key].current.sealId != sealId then (s, NotHead)
      else if key in s.revoked then (s, PairRevoked)
      else Append(s, key, s.inputs[sealId], Some(s.byId[sealId].current), w)
  }

  function RevokeStep(s: State, sealId: string, w: World): (State, Outcome) {
    if sealId !in s.byId then (s, NotFound)
    else
      var key := PairKey(s.byId[sealId]);
      if key in s.revoked then (s, PairRevoked)
      else if !w.schemaOk then (s, BuildFailed)
      else if !w.signOk then (s, SignFailed)
      else if !w.publishOk then (s, PublishFailed)
      else (s.(current := s.current - {key}, revoked := s.revoked + {key}), Done)
  }

  datatype Op =
    | Issue(credentialId: string, chatId: string, resolved: Option<SealInput>, w: World)
    | Refresh(sealId: string, w: World)
    | Revoke(sealId: string, w: World)

  function Step(s: State, op: Op): (State, Outcome) {
    match op
    case Issue(_, chatId, resolved, w) => IssueStep(s, chatId, resolved, w)
    case Refresh(sealId, w) => RefreshStep(s, sealId, w)
    case Revoke(sealId, w) => RevokeStep(s, sealId, w)
  }

  function Run(s: State, ops: seq<Op>): State {
    if ops == [] then s else Step(Run(s, ops[..|ops| - 1]), ops[|ops| - 1]).0
  }

  // ---- The log of a pair -----------------------------------------------------------------

  predicate OfPair(chain: Chain, credentialId: string, chatId: string) {
    chain.current.input.credentialId == credentialId && chain.current.input.chatId == chatId
  }

  /** The seals of a pair in the order they were stored. */
  function Seals(byId: map<string, Chain>, order: seq<string>, c: string, h: string): seq<Chain> {
    if order == [] then [] else
      var n := |order| - 1;
      Seals(byId, order[..n], c, h)
      + (if order[n] in byId && OfPair(byId[order[n]], c, h) then [byId[order[n]]] else [])
  }

  lemma SealsMembers(byId: map<string, Chain>, order: seq<string>, c: string, h: string)
    ensures forall e :: e in Seals(byId, order, c, h) <==>
                        OfPair(e, c, h) && exists id | id in order && id in byId :: byId[id] == e
  {
    if order != [] {
      var n := |order| - 1;
      SealsMembers(byId, order[..n], c, h);
      assert order == order[..n] + [order[n]];
    }
  }

  lemma {:induction false} SealsFrame(m: map<string, Chain>, n: map<string, Chain>, order: seq<string>,
                                      c: string, h: string)
    requires forall id | id in order :: id in m && id in n && m[id] == n[id]
    ensures Seals(m, order, c, h) == Seals(n, order, c, h)
  {
    if order != [] { SealsFrame(m, n, order[..|order| - 1], c, h); }
  }

  /** Each seal names the one before it; the first names none. */
  ghost predicate Linked(log: seq<Chain>) {
    forall i | 0 <= i < |log| :: log[i].previous == PayloadBefore(log, i)
  }

  /** The payload of the seal before position `i`. */
  ghost function PayloadBefore(log: seq<Chain>, i: nat): Option<Payload>
    requires i <= |log|
  {
    if i == 0 then None else Some(log[i - 1].current)
  }

  /** Storage well-formedness: the id maps agree and every stored seal is properly named. */
  ghost predicate Stored(s: State) {
    && NoDup(s.order)
    && (forall id :: id in s.order <==> id in s.byId)
    && s.inputs.Keys == s.byId.Keys
    && (forall id | id in s.byId ::
          && s.byId[id].current.sealId == id != ""
          && s.byId[id].current.input == s.inputs[id]
          && ProperlyNamed(s.byId[id].current.input)
          && ValidateSealChain(s.byId[id])
          && s.byId[id].delta == ExpectedDelta(s.byId[id].previous, s.byId[id].current))
  }

  ghost predicate ProperlyNamed(input: SealInput) {
    IsResourceId("cred_", input.credentialId) && IsResourceId("conv_", input.chatId)
  }

  ghost predicate PairInv(s: State, c: string, h: string) {
    LogInv(Seals(s.byId, s.order, c, h), ChainKey(c, h), s.current, s.revoked)
  }

  ghost predicate AllPairs(s: State) {
    forall c, h :: PairInv(s, c, h)
  }

  /** Every current seal is stored under its own key, which is not revoked. */
  ghost predicate CurrentKnown(s: State) {
    forall key | key in s.current ::
      key !in s.revoked && exists id | id in s.byId :: s.byId[id] == s.current[key] && PairKey(s.byId[id]) == key
  }

  ghost predicate Owned(s: State, owner: string -> string) {
    forall id | id in s.byId :: s.byId[id].current.input.operatorId == owner(s.byId[id].current.input.credentialId)
  }

  ghost predicate Inv(s: State, owner: string -> string) {
    Stored(s) && AllPairs(s) && CurrentKnown(s) && Owned(s, owner)
  }

  // ---- What a run may assume -------------------------------------------------------------

  /** Generated ids are fresh, the clock has not gone back behind a stored seal, and the
      resolver answers for the pair it was asked about with that credential's operator. */
  ghost predicate Admissible(s: State, op: Op, owner: string -> string) {
    && op.w.freshId !in s.byId
    && (forall id | id in s.byId :: s.byId[id].current.issuedAt <= op.w.now)
    && (op.Issue? && op.resolved.Some? ==>
          && op.resolved.value.credentialId == op.credentialId
          && op.resolved.value.chatId == op.chatId
          && op.resolved.value.operatorId == owner(op.credentialId))
  }

  ghost predicate AdmissibleRun(s: State, ops: seq<Op>, owner: string -> string) {
    ops == [] ||
    (AdmissibleRun(s, ops[..|ops| - 1], owner)
     && Admissible(Run(s, ops[..|ops| - 1]), ops[|ops| - 1], owner))
  }

  // ---- Every step keeps the invariant ----------------------------------------------------

  function PairLog(s: State, c: string, h: string): seq<Chain> {
    Seals(s.byId, s.order, c, h)
  }

  lemma LogSnoc(s: State, key: string, chain: Chain, input: SealInput, c: string, h: string)
    requires Stored(s) && chain.current.sealId !in s.byId
    ensures PairLog(Record(s, key, chain, input), c, h) ==
            PairLog(s, c, h) + (if OfPair(chain, c, h) then [chain] else [])
  {
    var t := Record(s, key, chain, input);
    assert t.order[..|s.order|] == s.order;
    SealsFrame(s.byId, t.byId, s.order, c, h);
  }

  /** What a new seal must satisfy to extend the log of its pair. */
  ghost predicate Extends(s: State, owner: string -> string, chain: Chain) {
    var input := chain.current.input;
    var log := PairLog(s, input.credentialId, input.chatId);
    && chain.current.sealId !in s.byId && chain.current.sealId != ""
    && ProperlyNamed(input)
    && input.operatorId == owner(input.credentialId)
    && PairKey(chain) !in s.revoked
    && chain.previous == PayloadBefore(log, |log|)
    && ValidateSealChain(chain)
    && chain.delta == ExpectedDelta(chain.previous, chain.current)
  }

  lemma RecordKeepsStored(s: State, owner: string -> string, chain: Chain)
    requires Stored(s) && Extends(s, owner, chain)
    ensures Stored(Record(s, PairKey(chain), chain, chain.current.input))
  {
    hide ValidateSealChain, ExpectedDelta, ProperlyNamed, PairLog, PayloadBefore;
    var t := Record(s, PairKey(chain), chain, chain.current.input);
    forall i, j | 0 <= i < j < |t.order| ensures t.order[i] != t.order[j] {
      assert t.order[i] in s.order;
    }
  }

  lemma LinkedSnoc(log: seq<Chain>, chain: Chain)
    requires Linked(log)
    requires chain.previous == PayloadBefore(log, |log|)
    ensures Linked(log + [chain])
  {
    var grown := log + [chain];
    forall i | 0 <= i < |grown| ensures grown[i].previous == PayloadBefore(grown, i) {
      assert PayloadBefore(grown, i) == PayloadBefore(log, i);
      if i < |log| {
        assert grown[i] == log[i];
      }
    }
  }

  /** The invariant of a pair, as a property of its log and of the two maps at its key. */
  ghost predicate LogInv(log: seq<Chain>, key: string, current: map<string, Chain>, revoked: set<string>) {
    && Linked(log)
    && (log != [] ==>
          if key in revoked then key !in current
          else key in current && current[key] == log[|log| - 1])
  }

  lemma LogInvStep(log: seq<Chain>, key: string, current: map<string, Chain>, revoked: set<string>,
                   chain: Chain, own: bool)
    requires LogInv(log, key, current, revoked)
    requires own ==> key == PairKey(chain) && key !in revoked && chain.previous == PayloadBefore(log, |log|)
    requires !own && log != [] ==> PairKey(chain) != key
    ensures LogInv(log + (if own then [chain] else []), key, current[PairKey(chain) := chain], revoked)
  {
    if own { LinkedSnoc(log, chain); } else { assert log + [] == log; }
  }

  lemma RecordKeepsPair(s: State, owner: string -> string, chain: Chain, c: string, h: string)
    requires Stored(s) && PairInv(s, c, h) && Extends(s, owner, chain)
    ensures var t := Record(s, PairKey(chain), chain, chain.current.input);
            LogInv(PairLog(t, c, h), ChainKey(c, h), t.current, t.revoked)
  {
    LogSnoc(s, PairKey(chain), chain, chain.current.input, c, h);
    if !OfPair(chain, c, h) && PairLog(s, c, h) != [] {
      OtherPairKeeps(s, chain, c, h);
    }
    LogInvStep(PairLog(s, c, h), ChainKey(c, h), s.current, s.revoked, chain, OfPair(chain, c, h));
  }

  lemma OtherPairKeeps(s: State, chain: Chain, c: string, h: string)
    requires ProperlyNamed(chain.current.input) && !OfPair(chain, c, h)
    ensures PairKey(chain) != ChainKey(c, h)
  {
    ChainKeyInjective(c, h, chain.current.input.credentialId, chain.current.input.chatId);
  }

  lemma RecordKeepsInv(s: State, owner: string -> string, chain: Chain)
    requires Inv(s, owner) && Extends(s, owner, chain)
    ensures Inv(Record(s, PairKey(chain), chain, chain.current.input), owner)
  {
    hide Stored, AllPairs, CurrentKnown, Owned, Record, Extends;
    RecordKeepsStored(s, owner, chain);
    RecordKeepsAllPairs(s, owner, chain);
    RecordKeepsCurrent(s, owner, chain);
    RecordKeepsOwned(s, owner, chain);
  }

  lemma RecordKeepsAllPairs(s: State, owner: string -> string, chain: Chain)
    requires Stored(s) && AllPairs(s) && Extends(s, owner, chain)
    ensures AllPairs(Record(s, PairKey(chain), chain, chain.current.input))
  {
    hide Stored, Extends, Record, LogInv;
    var t := Record(s, PairKey(chain), chain, chain.current.input);
    forall c, h ensures PairInv(t, c, h) {
      assert PairInv(s, c, h);
      RecordKeepsPair(s, owner, chain, c, h);
    }
  }

  lemma RecordKeepsCurrent(s: State, owner: string -> string, chain: Chain)
    requires CurrentKnown(s) && Extends(s, owner, chain)
    ensures CurrentKnown(Record(s, PairKey(chain), chain, chain.current.input))
  {
    var t := Record(s, PairKey(chain), chain, chain.current.input);
    forall key | key in t.current
      ensures key !in t.revoked
      ensures exists id | id in t.byId :: t.byId[id] == t.current[key] && PairKey(t.byId[id]) == key
    {
      if key == PairKey(chain) {
        assert t.byId[chain.current.sealId] == t.current[key];
      } else {
        var id :| id in s.byId && s.byId[id] == s.current[key] && PairKey(s.byId[id]) == key;
        assert t.byId[id] == t.current[key];
      }
    }
  }

  lemma RecordKeepsOwned(s: State, owner: string -> string, chain: Chain)
    requires Owned(s, owner) && Extends(s, owner, chain)
    ensures Owned(Record(s, PairKey(chain), chain, chain.current.input), owner)
  {
    hide PairLog;
  }

  /** The current seal of a key is the last of its pair's log. */
  lemma CurrentIsLast(s: State, owner: string -> string, c: string, h: string)
    requires Inv(s, owner)
    ensures var log := PairLog(s, c, h);
            && (ChainKey(c, h) in s.current <==> log != [] && ChainKey(c, h) !in s.revoked)
            && (ChainKey(c, h) in s.current ==> s.current[ChainKey(c, h)] == log[|log| - 1])
  {
    hide Linked, Stored, CurrentKnown, Owned, Seals;
    assert PairInv(s, c, h);
    if ChainKey(c, h) in s.current { CurrentInLog(s, c, h); }
  }

  lemma CurrentInLog(s: State, c: string, h: string)
    requires Stored(s) && CurrentKnown(s) && ChainKey(c, h) in s.current
    ensures PairLog(s, c, h) != [] && ChainKey(c, h) !in s.revoked
  {
    var id :| id in s.byId && s.byId[id] == s.current[ChainKey(c, h)] && PairKey(s.byId[id]) == ChainKey(c, h);
    var input := s.byId[id].current.input;
    ChainKeyInjective(c, h, input.credentialId, input.chatId);
    SealsMembers(s.byId, s.order, c, h);
    assert s.byId[id] in PairLog(s, c, h);
  }

  /** A seal built on the head of its pair's log extends that log. */
  lemma BuiltExtends(s: State, owner: string -> string, input: SealInput, previous: Option<Payload>, w: World)
    requires Stored(s) && w.freshId !in s.byId
    requires forall id | id in s.byId ::
               && s.byId[id].current.issuedAt <= w.now
               && s.byId[id].current.input.operatorId == owner(s.byId[id].current.input.credentialId)
    requires input.operatorId == owner(input.credentialId)
    requires ChainKey(input.credentialId, input.chatId) !in s.revoked
    requires previous == HeadOf(s, input.credentialId, input.chatId)
    requires BuildSeal(input, previous, w.freshId, w.now, w.schemaOk).Some?
    ensures Extends(s, owner, BuildSeal(input, previous, w.freshId, w.now, w.schemaOk).value)
  {
    BuiltChainPasses(input, previous, w.freshId, w.now, w.schemaOk);
    HeadBelongs(s, input.credentialId, input.chatId);
  }

  /** The payload a new seal of the pair must name. */
  ghost function HeadOf(s: State, c: string, h: string): Option<Payload> {
    PayloadBefore(PairLog(s, c, h), |PairLog(s, c, h)|)
  }

  lemma HeadBelongs(s: State, c: string, h: string)
    requires Stored(s)
    ensures HeadOf(s, c, h).Some? ==>
      exists id | id in s.byId :: s.byId[id].current == HeadOf(s, c, h).value && OfPair(s.byId[id], c, h)
  {
    SealsMembers(s.byId, s.order, c, h);
    var log := PairLog(s, c, h);
    if log != [] {
      assert log[|log| - 1] in log;
    }
  }

  lemma AppendKeepsInv(s: State, owner: string -> string, input: SealInput, previous: Option<Payload>, w: World)
    requires Inv(s, owner) && w.freshId !in s.byId
    requires forall id | id in s.byId :: s.byId[id].current.issuedAt <= w.now
    requires input.operatorId == owner(input.credentialId)
    requires ChainKey(input.credentialId, input.chatId) !in s.revoked
    requires previous == HeadOf(s, input.credentialId, input.chatId)
    ensures Inv(Append(s, ChainKey(input.credentialId, input.chatId), input, previous, w).0, owner)
  {
    var built := BuildSeal(input, previous, w.freshId, w.now, w.schemaOk);
    if built.Some? && w.signOk && w.publishOk {
      BuiltExtends(s, owner, input, previous, w);
      BuiltInput(input, previous, w);
      RecordKeepsInv(s, owner, built.value);
    }
  }

  lemma BuiltInput(input: SealInput, previous: Option<Payload>, w: World)
    requires BuildSeal(input, previous, w.freshId, w.now, w.schemaOk).Some?
    ensures BuildSeal(input, previous, w.freshId, w.now, w.schemaOk).value.current == Payload(w.freshId, input, w.now)
  {
  }

  lemma IssueKeepsInv(s: State, owner: string -> string, op: Op)
    requires Inv(s, owner) && op.Issue? && Admissible(s, op, owner)
    ensures Inv(Step(s, op).0, owner)
  {
    hide Inv, Step, Append, PairLog;
    if Step(s, op).1.Issued? {
      IssueAppends(s, op);
      var input := op.resolved.value;
      CurrentIsLast(s, owner, input.credentialId, input.chatId);
      AppendKeepsInv(s, owner, input, HeadOf(s, input.credentialId, input.chatId), op.w);
    } else {
      NotIssuedSame(s, op);
    }
  }

  /** What `issue` appends to, when it does. */
  lemma IssueAppends(s: State, op: Op)
    requires op.Issue? && Step(s, op).1.Issued?
    ensures op.resolved.Some?
    ensures var input := op.resolved.value;
            var key := ChainKey(input.credentialId, op.chatId);
            var previous := if key in s.current then Some(s.current[key].current) else None;
            key !in s.revoked && Step(s, op).0 == Append(s, key, input, previous, op.w).0
  {
    hide BuildSeal, HasInputChanges, Record;
  }

  lemma NotIssuedSame(s: State, op: Op)
    requires op.Issue? && !Step(s, op).1.Issued?
    ensures Step(s, op).0 == s
  {
    hide BuildSeal, HasInputChanges, Record;
  }

  lemma RefreshKeepsInv(s: State, owner: string -> string, op: Op)
    requires Inv(s, owner) && op.Refresh? && Admissible(s, op, owner)
    ensures Inv(Step(s, op).0, owner)
  {
    if Step(s, op).1.Issued? {
      var existing := s.byId[op.sealId];
      var input := s.inputs[op.sealId];
      CurrentIsLast(s, owner, input.credentialId, input.chatId);
      var id :| id in s.byId && s.byId[id] == s.current[PairKey(existing)];
      assert id == op.sealId;
      AppendKeepsInv(s, owner, input, Some(existing.current), op.w);
    }
  }

  lemma RevokeKeepsInv(s: State, owner: string -> string, op: Op)
    requires Inv(s, owner) && op.Revoke?
    ensures Inv(Step(s, op).0, owner)
  {
    var t := Step(s, op).0;
    if t != s {
      forall c, h ensures PairInv(t, c, h) { assert PairInv(s, c, h); }
    }
  }

  lemma EmptyInv(owner: string -> string)
    ensures Inv(EMPTY, owner)
  {
  }

  /** Every reachable state satisfies the invariant. */
  lemma {:induction false} RunKeepsInv(s: State, ops: seq<Op>, owner: string -> string)
    requires Inv(s, owner) && AdmissibleRun(s, ops, owner)
    ensures Inv(Run(s, ops), owner)
  {
    if ops != [] {
      var n := |ops| - 1;
      RunKeepsInv(s, ops[..n], owner);
      match ops[n] {
        case Issue(_, _, _, _) => IssueKeepsInv(Run(s, ops[..n]), owner, ops[n]);
        case Refresh(_, _) => RefreshKeepsInv(Run(s, ops[..n]), owner, ops[n]);
        case Revoke(_, _) => RevokeKeepsInv(Run(s, ops[..n]), owner, ops[n]);
      }
    }
  }

  // ---- What holds over every run ---------------------------------------------------------

  /** Every stored seal is accepted by both chain checks. */
  lemma StoredChainsVerify(s: State, owner: string -> string, id: string)
    requires Inv(s, owner) && id in s.byId
    ensures ValidateSealChain(s.byId[id]) && VerifyChainDelta(s.byId[id])
  {
    VerifyChainDeltaIff(s.byId[id]);
  }

  /** One step either leaves a pair's log alone or appends the seal it reports; it appends
      nothing to a revoked pair, and never forgets a revocation. */
  lemma StepExtendsLog(s: State, op: Op, owner: string -> string, c: string, h: string)
    requires Inv(s, owner) && Admissible(s, op, owner)
    ensures var (t, outcome) := Step(s, op);
            && s.revoked <= t.revoked
            && PairLog(t, c, h) == PairLog(s, c, h)
                 + (if outcome.Issued? && OfPair(outcome.chain, c, h) then [outcome.chain] else [])
            && (ChainKey(c, h) in s.revoked ==> PairLog(t, c, h) == PairLog(s, c, h))
  {
    hide Inv, Admissible, BuildSeal, HasInputChanges, Stored, PairLog;
    var (t, outcome) := Step(s, op);
    if outcome.Issued? {
      var chain := outcome.chain;
      IsStored(s, owner);
      BuiltNames(s, op, owner);
      LogSnoc(s, PairKey(chain), chain, chain.current.input, c, h);
      RecordFrame(s, PairKey(chain), chain);
    } else {
      NotIssuedFrame(s, op, c, h);
    }
  }

  lemma IsStored(s: State, owner: string -> string)
    requires Inv(s, owner)
    ensures Stored(s)
  {
  }

  lemma RecordFrame(s: State, key: string, chain: Chain)
    ensures Record(s, key, chain, chain.current.input).revoked == s.revoked
  {
  }

  /** A step that issues nothing leaves every log alone and forgets no revocation. */
  lemma NotIssuedFrame(s: State, op: Op, c: string, h: string)
    requires !Step(s, op).1.Issued?
    ensures var t := Step(s, op).0; PairLog(t, c, h) == PairLog(s, c, h) && s.revoked <= t.revoked
  {
    hide BuildSeal, HasInputChanges, Seals;
  }

  /** An issued seal carries the fresh id, is recorded under its own key, and its pair is live. */
  lemma BuiltNames(s: State, op: Op, owner: string -> string)
    requires Inv(s, owner) && Admissible(s, op, owner) && Step(s, op).1.Issued?
    ensures var chain := Step(s, op).1.chain;
            && chain.current.sealId !in s.byId
            && PairKey(chain) !in s.revoked
            && Step(s, op).0 == Record(s, PairKey(chain), chain, chain.current.input)
            && chain.current.input == (if op.Issue? then op.resolved.value else s.inputs[op.sealId])
  {
    hide AllPairs, CurrentKnown, Owned, ValidateSealChain, ExpectedDelta, HasInputChanges, SchemaAccepts;
  }

  /** Asked about a pair with a current seal, `issue` keeps that seal exactly when the new input
      discloses what its input disclosed. */
  lemma KeptIff(s: State, owner: string -> string, chatId: string, input: SealInput, w: World)
    requires Inv(s, owner) && ChainKey(input.credentialId, chatId) in s.current
    requires WellFormedInput(input) && WellFormedInput(s.current[ChainKey(input.credentialId, chatId)].current.input)
    ensures IssueStep(s, chatId, Some(input), w).1.Kept? <==>
            SameDisclosure(s.current[ChainKey(input.credentialId, chatId)].current.input, input)
  {
    hide Inv, WellFormedInput, SameDisclosure, NothingToReport, BuildSeal;
    CurrentStored(s, owner, ChainKey(input.credentialId, chatId));
    NothingToReportIff(s.current[ChainKey(input.credentialId, chatId)].current.input, input);
  }

  lemma CurrentStored(s: State, owner: string -> string, key: string)
    requires Inv(s, owner) && key in s.current
    ensures var seal := s.current[key].current;
            key !in s.revoked && seal.sealId in s.inputs && s.inputs[seal.sealId] == seal.input
  {
    hide AllPairs, Owned;
    var id :| id in s.byId && s.byId[id] == s.current[key] && PairKey(s.byId[id]) == key;
  }

  /** So an input that differs from the current one in `bypassed` alone brings no new seal. */
  lemma BypassedIsKept(s: State, owner: string -> string, chatId: string, input: SealInput, bypassed: bool, w: World)
    requires Inv(s, owner) && ChainKey(input.credentialId, chatId) in s.current
    requires s.current[ChainKey(input.credentialId, chatId)].current.input == input && WellFormedInput(input)
    ensures IssueStep(s, chatId, Some(input.(bypassed := bypassed)), w) ==
            (s, Kept(s.current[ChainKey(input.credentialId, chatId)]))
  {
    KeptIff(s, owner, chatId, input.(bypassed := bypassed), w);
  }

  /** Over any run a log only grows at its end. */
  lemma {:induction false} RunExtendsLog(s: State, ops: seq<Op>, owner: string -> string, c: string, h: string)
    requires Inv(s, owner) && AdmissibleRun(s, ops, owner)
    ensures PairLog(s, c, h) <= PairLog(Run(s, ops), c, h)
    ensures s.revoked <= Run(s, ops).revoked
    ensures ChainKey(c, h) in s.revoked ==> PairLog(Run(s, ops), c, h) == PairLog(s, c, h)
  {
    if ops != [] {
      var n := |ops| - 1;
      RunKeepsInv(s, ops[..n], owner);
      RunExtendsLog(s, ops[..n], owner, c, h);
      StepExtendsLog(Run(s, ops[..n]), ops[n], owner, c, h);
    }
  }

  /** A revoked pair stays without a current seal and gains no further seal, whatever follows. */
  lemma RevokedForever(s: State, ops: seq<Op>, owner: string -> string, c: string, h: string)
    requires Inv(s, owner) && AdmissibleRun(s, ops, owner)
    requires ChainKey(c, h) in s.revoked
    ensures ChainKey(c, h) !in Run(s, ops).current
    ensures PairLog(Run(s, ops), c, h) == PairLog(s, c, h)
  {
    RunKeepsInv(s, ops, owner);
    RunExtendsLog(s, ops, owner, c, h);
  }

  /** `revoke` of a stored seal succeeds exactly when its pair is live and the schema, the signer and
      the publisher accept; then the pair is revoked and has no current seal, and the seals stay. */
  lemma RevokeOutcome(s: State, owner: string -> string, sealId: string, w: World)
    requires Inv(s, owner) && sealId in s.byId
    ensures var input := s.byId[sealId].current.input;
            var key := ChainKey(input.credentialId, input.chatId);
            var (t, outcome) := RevokeStep(s, sealId, w);
            && (outcome == Done <==> key !in s.revoked && w.schemaOk && w.signOk && w.publishOk)
            && (outcome != Done ==> t == s)
            && (outcome == Done ==> t.revoked == s.revoked + {key} && t.current == s.current - {key})
            && t.byId == s.byId && t.order == s.order && t.inputs == s.inputs
  {
  }

  /** From a successful `revoke` on, whatever follows, the pair of the seal has no current seal and its
      log stays as it was. */
  lemma RevokeIsFinal(s: State, owner: string -> string, sealId: string, w: World, more: seq<Op>)
    requires Inv(s, owner) && sealId in s.byId && RevokeStep(s, sealId, w).1 == Done
    requires AdmissibleRun(RevokeStep(s, sealId, w).0, more, owner)
    ensures var input := s.byId[sealId].current.input;
            var u := Run(RevokeStep(s, sealId, w).0, more);
            && ChainKey(input.credentialId, input.chatId) !in u.current
            && PairLog(u, input.credentialId, input.chatId) == PairLog(s, input.credentialId, input.chatId)
  {
    var input := s.byId[sealId].current.input;
    var op := Revoke(sealId, w);
    RevokeKeepsInv(s, owner, op);
    RevokeOutcome(s, owner, sealId, w);
    RevokedForever(Step(s, op).0, more, owner, input.credentialId, input.chatId);
  }

  /** The payload schema accepts a seal of this input under this id. */
  ghost predicate Acceptable(sealId: string, input: SealInput, w: World) {
    && w.schemaOk
    && IsResourceId("seal_", sealId) && IsResourceId("cred_", input.credentialId)
    && IsResourceId("op_", input.operatorId) && IsResourceId("conv_", input.chatId)
  }

  /** A seal for the input, linked to the last one of its pair and stamped by this call's world. */
  ghost predicate NextSeal(s: State, chain: Chain, input: SealInput, w: World) {
    && chain.current == Payload(w.freshId, input, w.now)
    && chain.previous == HeadOf(s, input.credentialId, input.chatId)
    && VerifyChainDelta(chain)
  }

  lemma AppendOutcome(s: State, key: string, input: SealInput, previous: Option<Payload>, w: World)
    ensures var (t, outcome) := Append(s, key, input, previous, w);
            && (outcome.Issued? <==> Acceptable(w.freshId, input, w) && w.signOk && w.publishOk)
            && (outcome == BuildFailed <==> !Acceptable(w.freshId, input, w))
            && (outcome == SignFailed <==> Acceptable(w.freshId, input, w) && !w.signOk)
            && (outcome == PublishFailed <==> Acceptable(w.freshId, input, w) && w.signOk && !w.publishOk)
            && (outcome.Issued? ==>
                  && outcome.chain.current == Payload(w.freshId, input, w.now)
                  && outcome.chain.previous == previous && VerifyChainDelta(outcome.chain))
            && (!outcome.Issued? ==> t == s)
  {
    hide IsResourceId, VerifyChainDelta, ExpectedDelta;
    if BuildSeal(input, previous, w.freshId, w.now, w.schemaOk).Some? {
      BuiltChainPasses(input, previous, w.freshId, w.now, w.schemaOk);
    }
  }

  /** `issue` issues a seal exactly when the pair is not revoked, the input discloses something other
      than the pair's last seal, if it has one, and schema, signer and publisher accept; the seal is
      then the next of its pair's log. Otherwise nothing changes. */
  lemma IssueOutcomeIff(s: State, op: Op, owner: string -> string)
    requires Inv(s, owner) && op.Issue? && op.resolved.Some? && Admissible(s, op, owner)
    requires WellFormedInput(op.resolved.value)
    requires var head := HeadOf(s, op.credentialId, op.chatId); head.Some? ==> WellFormedInput(head.value.input)
    ensures var (t, outcome) := Step(s, op);
            var head := HeadOf(s, op.credentialId, op.chatId);
            && (outcome.Issued? <==>
                  && ChainKey(op.credentialId, op.chatId) !in s.revoked
                  && (head.Some? ==> !SameDisclosure(head.value.input, op.resolved.value))
                  && Acceptable(op.w.freshId, op.resolved.value, op.w) && op.w.signOk && op.w.publishOk)
            && (outcome == PairRevoked <==> ChainKey(op.credentialId, op.chatId) in s.revoked)
            && (outcome.Kept? <==>
                  && ChainKey(op.credentialId, op.chatId) !in s.revoked
                  && head.Some? && SameDisclosure(head.value.input, op.resolved.value))
            && (outcome.Issued? ==>
                  && NextSeal(s, outcome.chain, op.resolved.value, op.w)
                  && PairLog(t, op.credentialId, op.chatId) == PairLog(s, op.credentialId, op.chatId) + [outcome.chain])
            && (!outcome.Issued? ==> t == s)
  {
    var input := op.resolved.value;
    var head := HeadOf(s, op.credentialId, op.chatId);
    IssueCases(s, owner, op);
    StepExtendsLog(s, op, owner, op.credentialId, op.chatId);
    hide Inv, Admissible, SameDisclosure, WellFormedInput, PairLog, HeadOf, Acceptable, VerifyChainDelta, Append;
    hide IssueStep;
    AppendOutcome(s, ChainKey(op.credentialId, op.chatId), input, head, op.w);
  }

  lemma IssueCases(s: State, owner: string -> string, op: Op)
    requires Inv(s, owner) && op.Issue? && op.resolved.Some? && Admissible(s, op, owner)
    requires WellFormedInput(op.resolved.value)
    requires var head := HeadOf(s, op.credentialId, op.chatId); head.Some? ==> WellFormedInput(head.value.input)
    ensures var input, key := op.resolved.value, ChainKey(op.credentialId, op.chatId);
            var head := HeadOf(s, op.credentialId, op.chatId);
            && op.resolved.value.credentialId == op.credentialId && op.resolved.value.chatId == op.chatId
            && var (t, outcome) := IssueStep(s, op.chatId, op.resolved, op.w);
               if key in s.revoked then (t, outcome) == (s, PairRevoked)
               else if head.Some? && SameDisclosure(head.value.input, input) then t == s && outcome.Kept?
               else (t, outcome) == Append(s, key, input, head, op.w)
  {
    var input, key := op.resolved.value, ChainKey(op.credentialId, op.chatId);
    var head := HeadOf(s, op.credentialId, op.chatId);
    LiveHead(s, owner, op.credentialId, op.chatId);
    hide Inv, Admissible, SameDisclosure, WellFormedInput, PairLog, ChainKey, IssueStep, Append, HeadOf;
    if head.Some? && key !in s.revoked { KeptIff(s, owner, op.chatId, input, op.w); }
    IssueShape(s, op.chatId, input, op.w);
  }

  /** The current seal of a live pair is the head of its log. */
  lemma LiveHead(s: State, owner: string -> string, c: string, h: string)
    requires Inv(s, owner)
    ensures ChainKey(c, h) !in s.revoked ==>
              HeadOf(s, c, h) ==
              if ChainKey(c, h) in s.current then Some(s.current[ChainKey(c, h)].current) else None
  {
    CurrentIsLast(s, owner, c, h);
    hide Inv, PairLog, ChainKey;
  }

  lemma IssueShape(s: State, chatId: string, input: SealInput, w: World)
    ensures var key, step := ChainKey(input.credentialId, chatId), IssueStep(s, chatId, Some(input), w);
            if key in s.revoked then step == (s, PairRevoked)
            else if key !in s.current then step == Append(s, key, input, None, w)
            else if step.1.Kept? then step == (s, Kept(s.current[key]))
            else step == Append(s, key, input, Some(s.current[key].current), w)
  {
    var key := ChainKey(input.credentialId, chatId);
    if key in s.current { AppendNeverKeeps(s, key, input, Some(s.current[key].current), w); }
    hide NothingToReport, Append, ChainKey;
  }

  lemma AppendNeverKeeps(s: State, key: string, input: SealInput, previous: Option<Payload>, w: World)
    ensures !Append(s, key, input, previous, w).1.Kept?
  {
    hide BuildSeal, Record;
  }

  /** Being the current seal of its pair and being the last of its log are the same. */
  lemma CurrentIffHead(s: State, owner: string -> string, id: string)
    requires Inv(s, owner) && id in s.byId
    ensures var input := s.byId[id].current.input;
            var key := ChainKey(input.credentialId, input.chatId);
            && (key in s.current && s.current[key].current.sealId == id <==>
                key !in s.revoked && HeadOf(s, input.credentialId, input.chatId) == Some(s.byId[id].current))
            && id in s.inputs && s.inputs[id] == input && s.byId[id].current.sealId == id
  {
    var input := s.byId[id].current.input;
    var key := ChainKey(input.credentialId, input.chatId);
    CurrentIsLast(s, owner, input.credentialId, input.chatId);
    hide AllPairs, Owned, PairLog, ValidateSealChain, ExpectedDelta, ProperlyNamed;
    if key in s.current {
      var other :| other in s.byId && s.byId[other] == s.current[key] && PairKey(s.byId[other]) == key;
    }
  }

  /** `refresh` issues a seal exactly when it is asked about the last seal of a live pair and schema,
      signer and publisher accept; it has the input of that seal and follows it. */
  lemma RefreshOutcomeIff(s: State, op: Op, owner: string -> string)
    requires Inv(s, owner) && op.Refresh? && Admissible(s, op, owner) && op.sealId in s.byId
    ensures var (t, outcome) := Step(s, op);
            var input := s.byId[op.sealId].current.input;
            && (outcome.Issued? <==>
                  && ChainKey(input.credentialId, input.chatId) !in s.revoked
                  && HeadOf(s, input.credentialId, input.chatId) == Some(s.byId[op.sealId].current)
                  && Acceptable(op.w.freshId, input, op.w) && op.w.signOk && op.w.publishOk)
            && (outcome == NotHead <==>
                  || ChainKey(input.credentialId, input.chatId) in s.revoked
                  || HeadOf(s, input.credentialId, input.chatId) != Some(s.byId[op.sealId].current))
            && (outcome.Issued? ==>
                  && NextSeal(s, outcome.chain, input, op.w)
                  && PairLog(t, input.credentialId, input.chatId) ==
                     PairLog(s, input.credentialId, input.chatId) + [outcome.chain])
            && (!outcome.Issued? ==> t == s)
  {
    var input := s.byId[op.sealId].current.input;
    RefreshCases(s, owner, op.sealId, op.w);
    StepExtendsLog(s, op, owner, input.credentialId, input.chatId);
    hide Inv, Admissible, PairLog, HeadOf, Acceptable, VerifyChainDelta, Append, RefreshStep;
    AppendOutcome(s, ChainKey(input.credentialId, input.chatId), input, Some(s.byId[op.sealId].current), op.w);
  }

  lemma RefreshCases(s: State, owner: string -> string, sealId: string, w: World)
    requires Inv(s, owner) && sealId in s.byId
    ensures var current := s.byId[sealId].current;
            var key := ChainKey(current.input.credentialId, current.input.chatId);
            RefreshStep(s, sealId, w) ==
            if key !in s.revoked && HeadOf(s, current.input.credentialId, current.input.chatId) == Some(current)
            then Append(s, key, current.input, Some(current), w) else (s, NotHead)
  {
    CurrentIffHead(s, owner, sealId);
    CurrentLive(s, owner);
    hide Inv, HeadOf, Append, ChainKey;
  }

  lemma CurrentLive(s: State, owner: string -> string)
    requires Inv(s, owner)
    ensures forall key | key in s.current :: key !in s.revoked
  {
  }

  // ---- History ---------------------------------------------------------------------------

  function ReferencedIds(envelopes: seq<Chain>): set<string> {
    set e | e in envelopes && e.previous.Some? :: e.previous.value.sealId
  }

  function FirstUnreferenced(envelopes: seq<Chain>, referenced: set<string>): Option<Chain> {
    if envelopes == [] then None
    else if envelopes[0].current.sealId !in referenced then Some(envelopes[0])
    else FirstUnreferenced(envelopes[1..], referenced)
  }

  /** `findHistoryHead`. */
  function FindHistoryHead(envelopes: seq<Chain>): Option<Chain> {
    FirstUnreferenced(envelopes, ReferencedIds(envelopes))
  }

  /** `envelopes.sort(compareNewestFirst)[0]`: the first of the latest. */
  function Newest(envelopes: seq<Chain>): Option<Chain> {
    if envelopes == [] then None else
      match Newest(envelopes[1..])
      case None => Some(envelopes[0])
      case Some(e) => if envelopes[0].current.issuedAt >= e.current.issuedAt then Some(envelopes[0]) else Some(e)
  }

  /** `activeHead ?? findHistoryHead(envelopes) ?? newest`. */
  function HistoryHead(active: Option<Chain>, envelopes: seq<Chain>): Option<Chain> {
    if active.Some? then active
    else if FindHistoryHead(envelopes).Some? then FindHistoryHead(envelopes)
    else Newest(envelopes)
  }

  ghost predicate DistinctIds(log: seq<Chain>) {
    forall i, j | 0 <= i < j < |log| :: log[i].current.sealId != log[j].current.sealId
  }

  lemma {:induction false} LogIdsDistinct(byId: map<string, Chain>, order: seq<string>, c: string, h: string)
    requires NoDup(order)
    requires forall id | id in order :: id in byId && byId[id].current.sealId == id
    ensures DistinctIds(Seals(byId, order, c, h))
  {
    if order != [] {
      var n := |order| - 1;
      LogIdsDistinct(byId, order[..n], c, h);
      SealsMembers(byId, order[..n], c, h);
      forall e | e in Seals(byId, order[..n], c, h) ensures e.current.sealId != order[n] {
        var id :| id in order[..n] && byId[id] == e;
        assert id != order[n];
      }
    }
  }

  lemma {:induction false} FirstUnreferencedIsLast(log: seq<Chain>, k: nat, referenced: set<string>)
    requires k < |log|
    requires forall i | k <= i < |log| - 1 :: log[i].current.sealId in referenced
    requires log[|log| - 1].current.sealId !in referenced
    ensures FirstUnreferenced(log[k..], referenced) == Some(log[|log| - 1])
    decreases |log| - k
  {
    assert log[k..][0] == log[k] && log[k..][1..] == log[k + 1..];
    if k < |log| - 1 { FirstUnreferencedIsLast(log, k + 1, referenced); }
  }

  /** In a linked log exactly the last seal is nobody's predecessor. */
  lemma HeadOfLinked(log: seq<Chain>)
    requires Linked(log) && DistinctIds(log) && log != []
    ensures FindHistoryHead(log) == Some(log[|log| - 1])
  {
    var referenced := ReferencedIds(log);
    forall i | 0 <= i < |log| - 1 ensures log[i].current.sealId in referenced {
      assert log[i + 1] in log && log[i + 1].previous == PayloadBefore(log, i + 1);
    }
    forall e | e in log && e.previous.Some? ensures e.previous.value.sealId != log[|log| - 1].current.sealId {
      var i :| 0 <= i < |log| && log[i] == e;
      assert e.previous == PayloadBefore(log, i);
    }
    assert log[0..] == log;
    FirstUnreferencedIsLast(log, 0, referenced);
  }

  /** `cursor.chain.previous?.sealId`, looked up. */
  function Predecessor(e: Chain, byId: map<string, Chain>): Option<Chain> {
    if e.previous.Some? && e.previous.value.sealId != "" && e.previous.value.sealId in byId
    then Some(byId[e.previous.value.sealId]) else None
  }

  /** What the history walk relies on: every seal leads to the one before it, and is new. */
  ghost predicate Navigable(log: seq<Chain>, byId: map<string, Chain>) {
    log == [] ||
    var n := |log| - 1;
    && Predecessor(log[n], byId) == (if n == 0 then None else Some(log[n - 1]))
    && (forall e | e in log[..n] :: e.current.sealId != log[n].current.sealId)
    && Navigable(log[..n], byId)
  }

  lemma {:induction false} LinkedNavigable(log: seq<Chain>, byId: map<string, Chain>)
    requires Linked(log) && DistinctIds(log)
    requires forall e | e in log :: e.current.sealId != "" && e.current.sealId in byId && byId[e.current.sealId] == e
    ensures Navigable(log, byId)
  {
    if log != [] {
      var n := |log| - 1;
      assert log[n].previous == PayloadBefore(log, n);
      if n > 0 { assert log[n - 1] in log; }
      LinkedPrefix(log, n);
      LinkedNavigable(log[..n], byId);
    }
  }

  lemma LinkedPrefix(log: seq<Chain>, n: nat)
    requires Linked(log) && n <= |log|
    ensures Linked(log[..n])
  {
    forall i | 0 <= i < n ensures log[..n][i].previous == PayloadBefore(log[..n], i) {
      assert log[i].previous == PayloadBefore(log, i) == PayloadBefore(log[..n], i);
    }
  }

  function Active(current: map<string, Chain>, c: string, h: string): Option<Chain> {
    if ChainKey(c, h) in current then Some(current[ChainKey(c, h)]) else None
  }

  lemma LogFacts(s: State, owner: string -> string, c: string, h: string)
    requires Inv(s, owner)
    ensures Linked(PairLog(s, c, h)) && DistinctIds(PairLog(s, c, h)) && Navigable(PairLog(s, c, h), s.byId)
  {
    assert PairInv(s, c, h);
    LogIdsDistinct(s.byId, s.order, c, h);
    SealsMembers(s.byId, s.order, c, h);
    LinkedNavigable(PairLog(s, c, h), s.byId);
  }

  /** `history` starts at the last seal of the pair, whether that is the active head or is found
      as the only seal nobody refers to. */
  lemma HistoryStarts(s: State, owner: string -> string, c: string, h: string)
    requires Inv(s, owner) && PairLog(s, c, h) != []
    ensures HistoryHead(Active(s.current, c, h), PairLog(s, c, h)) == Some(PairLog(s, c, h)[|PairLog(s, c, h)| - 1])
  {
    assert PairInv(s, c, h);
    ActiveIsLast(PairLog(s, c, h), s.current, s.revoked, c, h);
    LogFacts(s, owner, c, h);
    HeadChosen(Active(s.current, c, h), PairLog(s, c, h));
  }

  lemma ActiveIsLast(log: seq<Chain>, current: map<string, Chain>, revoked: set<string>, c: string, h: string)
    requires LogInv(log, ChainKey(c, h), current, revoked) && log != []
    ensures Active(current, c, h).Some? ==> Active(current, c, h).value == log[|log| - 1]
  {
  }

  lemma HeadChosen(active: Option<Chain>, log: seq<Chain>)
    requires Linked(log) && DistinctIds(log) && log != []
    requires active.Some? ==> active.value == log[|log| - 1]
    ensures HistoryHead(active, log) == Some(log[|log| - 1])
  {
    HeadOfLinked(log);
  }

  // ---- Folding the stored deltas ---------------------------------------------------------

  /** The permissions rebuilt from the root's lists and the first `k` deltas after it. */
  function Rebuilt(log: seq<Chain>, k: nat): Lists
    requires k < |log|
  {
    if k == 0 then ListsOf(log[0].current.input.permissions)
    else Patch(Rebuilt(log, k - 1), log[k].delta)
  }

  /** The permissions in force just before position `k`, and at it. */
  ghost predicate LinkGainsOverlap(log: seq<Chain>, k: nat)
    requires 0 < k < |log|
  {
    GainsOverlap(log[k - 1].current.input.permissions, log[k].current.input.permissions)
  }

  ghost predicate CarriesDeltas(log: seq<Chain>) {
    forall k | 0 < k < |log| ::
      log[k].delta == DeltaOf(log[k - 1].current.input.permissions, log[k].current.input.permissions)
  }

  lemma LogCarriesDeltas(s: State, owner: string -> string, c: string, h: string)
    requires Inv(s, owner)
    ensures CarriesDeltas(PairLog(s, c, h))
  {
    var log := PairLog(s, c, h);
    assert PairInv(s, c, h);
    SealsMembers(s.byId, s.order, c, h);
    forall k | 0 < k < |log|
      ensures log[k].delta == DeltaOf(log[k - 1].current.input.permissions, log[k].current.input.permissions)
    {
      assert log[k].previous == PayloadBefore(log, k);
      assert log[k] in log;
    }
  }

  ghost predicate RebuildsAt(log: seq<Chain>, k: nat)
    requires k < |log|
  {
    Rebuilt(log, k) == ListsOf(log[k].current.input.permissions)
  }

  /** One link of the fold. */
  lemma FoldStep(log: seq<Chain>, k: nat)
    requires CarriesDeltas(log) && 0 < k < |log| && RebuildsAt(log, k - 1)
    ensures RebuildsAt(log, k) <==> !LinkGainsOverlap(log, k)
  {
    PatchRebuildsIff(log[k - 1].current.input.permissions, log[k].current.input.permissions);
  }

  lemma FoldBase(log: seq<Chain>)
    requires log != []
    ensures RebuildsAt(log, 0)
  {
  }

  /** A property that starts out true and carries over every link but the bad ones holds throughout
      exactly when no link is bad. */
  lemma {:induction false} CarriesOver(holds: seq<bool>, bad: seq<bool>)
    requires |holds| == |bad| && (holds != [] ==> holds[0])
    requires forall k | 0 < k < |holds| && holds[k - 1] :: holds[k] <==> !bad[k]
    ensures (forall k | 0 <= k < |holds| :: holds[k]) <==> (forall k | 0 < k < |holds| :: !bad[k])
  {
    if holds != [] {
      var n := |holds| - 1;
      CarriesOver(holds[..n], bad[..n]);
      if forall k | 0 < k < |holds| :: !bad[k] {
        assert n > 0 ==> holds[..n][n - 1];
      }
      if forall k | 0 <= k < |holds| :: holds[k] {
        assert forall k | 0 < k < n :: !bad[..n][k];
        assert n > 0 ==> holds[n - 1];
      }
    }
  }

  /** Folding the deltas of a stored log from its root reproduces the lists of every seal on the
      way, exactly when no link makes a scope listed on one side only listed on both. */
  lemma FoldRebuildsIff(s: State, owner: string -> string, c: string, h: string)
    requires Inv(s, owner)
    ensures var log := PairLog(s, c, h);
            (forall k | 0 <= k < |log| :: RebuildsAt(log, k)) <==>
            (forall k | 0 < k < |log| :: !LinkGainsOverlap(log, k))
  {
    LogCarriesDeltas(s, owner, c, h);
    FoldIff(PairLog(s, c, h));
  }

  lemma FoldIff(log: seq<Chain>)
    requires CarriesDeltas(log)
    ensures (forall k | 0 <= k < |log| :: RebuildsAt(log, k)) <==>
            (forall k | 0 < k < |log| :: !LinkGainsOverlap(log, k))
  {
    var holds := seq(|log|, k requires 0 <= k < |log| => RebuildsAt(log, k));
    var bad := seq(|log|, k requires 0 <= k < |log| => k > 0 && LinkGainsOverlap(log, k));
    if log != [] { FoldBase(log); }
    forall k | 0 < k < |log| && holds[k - 1] ensures holds[k] <==> !bad[k] { FoldStep(log, k); }
    CarriesOver(holds, bad);
    assert forall k | 0 <= k < |log| :: holds[k] == RebuildsAt(log, k);
    assert forall k | 0 < k < |log| :: bad[k] == LinkGainsOverlap(log, k);
  }

  ghost predicate DisjointLists(log: seq<Chain>) {
    forall e, x | e in log && x in e.current.input.permissions.allow :: x !in e.current.input.permissions.deny
  }

  /** With disjoint allow and deny lists the fold always rebuilds the head. */
  lemma FoldRebuildsDisjoint(s: State, owner: string -> string, c: string, h: string, log: seq<Chain>)
    requires Inv(s, owner) && log == PairLog(s, c, h) && DisjointLists(log)
    ensures log != [] ==> RebuildsAt(log, |log| - 1)
  {
    LogCarriesDeltas(s, owner, c, h);
    if log != [] { FoldDisjoint(log); }
  }

  lemma FoldDisjoint(log: seq<Chain>)
    requires CarriesDeltas(log) && log != []
    requires DisjointLists(log)
    ensures RebuildsAt(log, |log| - 1)
  {
    forall k | 0 < k < |log| ensures !LinkGainsOverlap(log, k) { assert log[k] in log; }
    FoldIff(log);
  }

  // ---- The manager object ----------------------------------------------------------------

  class Manager {
    var currentSeals: map<string, Chain>
    var sealsById: map<string, Chain>
    var sealOrder: seq<string>
    var inputsBySealId: map<string, SealInput>
    var revokedPairs: set<string>
    /** The operator each credential belongs to, which the resolver reports. */
    ghost const owner: string -> string

    ghost function Model(): State
      reads this
    {
      State(currentSeals, sealsById, sealOrder, inputsBySealId, revokedPairs)
    }

    ghost predicate Valid()
      reads this
    {
      Inv(Model(), owner)
    }

    constructor (ghost owner: string -> string)
      ensures Valid() && Model() == EMPTY && this.owner == owner
    {
      this.owner := owner;
      currentSeals, sealsById, sealOrder, inputsBySealId, revokedPairs := map[], map[], [], map[], {};
      new;
      EmptyInv(owner);
    }

    /** The three `set` calls that follow a successful publish. */
    method Track(key: string, envelope: Chain, input: SealInput)
      modifies this
      ensures Model() == Record(old(Model()), key, envelope, input)
    {
      var id := envelope.current.sealId;
      currentSeals := currentSeals[key := envelope];
      if id !in sealsById { sealOrder := sealOrder + [id]; }
      sealsById := sealsById[id := envelope];
      inputsBySealId := inputsBySealId[id := input];
    }

    method Issue(credentialId: string, chatId: string, resolved: Option<SealInput>, w: World)
      returns (outcome: Outcome)
      requires Valid() && Admissible(Model(), Op.Issue(credentialId, chatId, resolved, w), owner)
      modifies this
      ensures Valid()
      ensures (Model(), outcome) == IssueStep(old(Model()), chatId, resolved, w)
    {
      hide Inv, BuildSeal, HasInputChanges, Admissible;
      ghost var op := Op.Issue(credentialId, chatId, resolved, w);
      IssueKeepsInv(Model(), owner, op);
      if resolved.None? { return ResolveFailed; }
      var input := resolved.value;
      var key := ChainKey(input.credentialId, chatId);
      if key in revokedPairs { return PairRevoked; }
      var previousPayload: Option<Payload> := None;
      if key in currentSeals {
        var previous := currentSeals[key];
        if previous.current.sealId in inputsBySealId {
          var delta := ComputePayloadDelta(previous.current.input.permissions, input.permissions);
          assert delta == DeltaOf(previous.current.input.permissions, input.permissions);
          if !IsMaterialChange(delta) && !HasInputChanges(inputsBySealId[previous.current.sealId], input) {
            return Kept(previous);
          }
        }
        previousPayload := Some(previous.current);
      }
      var built := BuildSeal(input, previousPayload, w.freshId, w.now, w.schemaOk);
      if built.None? { return BuildFailed; }
      if !w.signOk { return SignFailed; }
      if !w.publishOk { return PublishFailed; }
      Track(key, built.value, input);
      return Issued(built.value);
    }

    method Refresh(sealId: string, w: World) returns (outcome: Outcome)
      requires Valid() && Admissible(Model(), Op.Refresh(sealId, w), owner)
      modifies this
      ensures Valid()
      ensures (Model(), outcome) == RefreshStep(old(Model()), sealId, w)
    {
      hide Inv, BuildSeal, Admissible;
      RefreshKeepsInv(Model(), owner, Op.Refresh(sealId, w));
      if sealId !in sealsById { return NotFound; }
      if sealId !in inputsBySealId { return InputMissing; }
      var existing, input := sealsById[sealId], inputsBySealId[sealId];
      var key := PairKey(existing);
      if key !in currentSeals || currentSeals[key].current.sealId != sealId { return NotHead; }
      if key in revokedPairs { return PairRevoked; }
      var built := BuildSeal(input, Some(existing.current), w.freshId, w.now, w.schemaOk);
      if built.None? { return BuildFailed; }
      if !w.signOk { return SignFailed; }
      if !w.publishOk { return PublishFailed; }
      Track(key, built.value, input);
      return Issued(built.value);
    }

    method Revoke(sealId: string, w: World) returns (outcome: Outcome)
      requires Valid()
      modifies this
      ensures Valid()
      ensures (Model(), outcome) == RevokeStep(old(Model()), sealId, w)
    {
      hide Inv, BuildSeal;
      RevokeKeepsInv(Model(), owner, Op.Revoke(sealId, w));
      if sealId !in sealsById { return NotFound; }
      var key := PairKey(sealsById[sealId]);
      if key in revokedPairs { return PairRevoked; }
      if !w.schemaOk { return BuildFailed; }
      if !w.signOk { return SignFailed; }
      if !w.publishOk { return PublishFailed; }
      revokedPairs := revokedPairs + {key};
      currentSeals := currentSeals - {key};
      return Done;
    }

    /** The current seal of a pair is the newest of its log, unless the pair is revoked. */
    method Current(credentialId: string, chatId: string) returns (seal: Option<Chain>)
      requires Valid()
      ensures var log := PairLog(Model(), credentialId, chatId);
              seal == if log == [] || ChainKey(credentialId, chatId) in revokedPairs then None
                      else Some(log[|log| - 1])
    {
      CurrentIsLast(Model(), owner, credentialId, chatId);
      var key := ChainKey(credentialId, chatId);
      seal := if key in currentSeals then Some(currentSeals[key]) else None;
    }

    /** `history`: every seal of the pair exactly once, newest first, revoked or not. */
    method History(credentialId: string, chatId: string) returns (history: seq<Chain>)
      requires Valid()
      ensures history == Reverse(PairLog(Model(), credentialId, chatId))
    {
      var envelopes := Seals(sealsById, sealOrder, credentialId, chatId);
      if envelopes == [] { return []; }
      HistoryStarts(Model(), owner, credentialId, chatId);
      LogFacts(Model(), owner, credentialId, chatId);
      history := Walk(HistoryHead(Active(currentSeals, credentialId, chatId), envelopes), sealsById, envelopes);
    }
  }

  /** The cursor loop of `history`, from the last seal of a log. */
  method Walk(head: Option<Chain>, byId: map<string, Chain>, ghost log: seq<Chain>) returns (history: seq<Chain>)
    requires Navigable(log, byId) && log != []
    requires head == Some(log[|log| - 1])
    ensures history == Reverse(log)
  {
    hide Predecessor;
    var cursor := head;
    history := [];
    var seen: set<string> := {};
    ghost var rest := log;
    while cursor.Some? && cursor.value.current.sealId !in seen
      invariant Navigable(rest, byId)
      invariant cursor == if rest == [] then None else Some(rest[|rest| - 1])
      invariant history + Reverse(rest) == Reverse(log)
      invariant forall i | 0 <= i < |rest| :: rest[i].current.sealId !in seen
      decreases |rest|
    {
      history := history + [cursor.value];
      seen := seen + {cursor.value.current.sealId};
      assert forall i | 0 <= i < |rest| - 1 :: rest[i] in rest[..|rest| - 1];
      cursor := Predecessor(cursor.value, byId);
      rest := rest[..|rest| - 1];
    }
    assert rest == [];
  }
}
