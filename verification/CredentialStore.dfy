/** The credential manager (packages/sessions/src/credential-manager.ts): three indices over one
    set of records, a per-operator cap with eviction and deduplication, renewal, revocation and
    the expiry sweep. */
module CredentialStore {
  import opened Sequences
  import opened Ordering
  import opened ScopeDelta
  import opened Materiality

  datatype Status = Active | Expired | Revoked

  datatype Reason = PolicyViolation | HeartbeatTimeout | ReauthorizationRequired | Requested(why: string)

  datatype Record = Record(
    id: string,
    token: string,
    operatorId: string,
    chatIds: seq<string>,
    scopes: ScopeSet,
    resolved: set<Scope>,
    policyHash: string,
    status: Status,
    heartbeatInterval: int,
    lastHeartbeat: int,
    issuedAt: int,
    expiresAt: int,
    ttlMs: int,
    revokedAt: Option<int>,
    reason: Option<Reason>)

  /** The manager's settings, and `computePolicyHash`. */
  datatype Config = Config(
    defaultTtlSeconds: int,
    maxConcurrentPerOperator: int,
    renewalWindowSeconds: int,
    heartbeatGracePeriod: int,
    policyHash: (ScopeSet, seq<string>) -> string)

  /** `order` is the insertion order of `byId`; each operator's ids keep theirs. */
  datatype State = State(
    byId: map<string, Record>,
    order: seq<string>,
    byToken: map<string, string>,
    byOperator: map<string, seq<string>>)

  const EMPTY := State(map[], [], map[], map[])

  datatype Request = Request(
    operatorId: string,
    chatIds: seq<string>,
    allow: Option<seq<Scope>>,
    deny: Option<seq<Scope>>,
    ttlSeconds: Option<int>)

  datatype Answer = Found(r: Record) | NotFound | ExpiredCredential | NotInWindow

  function OrElse<T>(o: Option<T>, default: T): T {
    if o.Some? then o.value else default
  }

  // ---- Record transitions ----------------------------------------------------------------

  function RevokedRecord(r: Record, reason: Reason, now: int): Record {
    r.(status := Revoked, revokedAt := Some(now), reason := Some(reason))
  }

  function RescopedRecord(cfg: Config, r: Record, scopes: ScopeSet): Record {
    r.(scopes := scopes, resolved := Effective(scopes), policyHash := cfg.policyHash(scopes, r.chatIds))
  }

  function HeartbeatDeadline(cfg: Config, r: Record): int {
    r.lastHeartbeat + r.heartbeatInterval * 1000 + cfg.heartbeatGracePeriod * 1000
  }

  /** What one sweep does to one record. */
  function SweptRecord(cfg: Config, r: Record, now: int): Record {
    if r.status != Active then r
    else if now >= r.expiresAt then r.(status := Expired)
    else if now >= HeartbeatDeadline(cfg, r) then RevokedRecord(r, HeartbeatTimeout, now)
    else r
  }

  // ---- State transitions -----------------------------------------------------------------

  /** `mutateRecord`: the other maps are untouched. */
  function Mutate(s: State, r: Record): State {
    s.(byId := s.byId[r.id := r])
  }

  /** `upsertRecord`. */
  function Upsert(s: State, r: Record): State {
    var ids := if r.operatorId in s.byOperator then s.byOperator[r.operatorId] else [];
    State(s.byId[r.id := r],
          if r.id in s.byId then s.order else s.order + [r.id],
          s.byToken[r.token := r.id],
          s.byOperator[r.operatorId := if r.id in ids then ids else ids + [r.id]])
  }

  function ActiveAmong(byId: map<string, Record>, ids: seq<string>): seq<Record> {
    if ids == [] then [] else
      var n := |ids| - 1;
      if ids[n] in byId && byId[ids[n]].status == Active then ActiveAmong(byId, ids[..n]) + [byId[ids[n]]]
      else ActiveAmong(byId, ids[..n])
  }

  /** `getActiveForOperator`. */
  function ActiveFor(s: State, operatorId: string): seq<Record> {
    if operatorId in s.byOperator then ActiveAmong(s.byId, s.byOperator[operatorId]) else []
  }

  predicate IssuedLe(a: Record, b: Record) {
    a.issuedAt <= b.issuedAt
  }

  /** The eviction in `issueCredential`: at the cap, the oldest active credential is revoked. */
  function Evict(cfg: Config, s: State, operatorId: string, now: int): State {
    var active := ActiveFor(s, operatorId);
    if |active| >= cfg.maxConcurrentPerOperator && active != []
    then Mutate(s, RevokedRecord(SortBy(IssuedLe, active)[0], PolicyViolation, now))
    else s
  }

  function FirstWithHash(active: seq<Record>, hash: string): Option<Record> {
    if active == [] then None
    else if active[0].policyHash == hash then Some(active[0])
    else FirstWithHash(active[1..], hash)
  }

  function NewRecord(cfg: Config, request: Request, id: string, token: string, now: int): Record {
    var scopes := ScopeSet(OrElse(request.allow, []), OrElse(request.deny, []));
    var ttlMs := OrElse(request.ttlSeconds, cfg.defaultTtlSeconds) * 1000;
    Record(id, token, request.operatorId, request.chatIds, scopes, Effective(scopes),
           cfg.policyHash(scopes, request.chatIds), Active, 30, now, now, now + ttlMs, ttlMs, None, None)
  }

  /** `issueCredential`: evict, deduplicate, and otherwise insert. */
  function Issue(cfg: Config, s: State, request: Request, id: string, token: string, now: int): (State, Record) {
    var created := NewRecord(cfg, request, id, token, now);
    var evicted := Evict(cfg, s, request.operatorId, now);
    match FirstWithHash(ActiveFor(evicted, request.operatorId), created.policyHash)
    case Some(existing) => (evicted, existing)
    case None => (Upsert(evicted, created), created)
  }

  /** `getCredentialByToken`. */
  function ByToken(s: State, token: string, now: int): (State, Answer) {
    if token !in s.byToken || s.byToken[token] !in s.byId then (s, NotFound)
    else
      var r := s.byId[s.byToken[token]];
      if now >= r.expiresAt then (Mutate(s, r.(status := Expired)), ExpiredCredential)
      else if r.status != Active then (s, ExpiredCredential)
      else (s, Found(r))
  }

  function Heartbeat(s: State, id: string, now: int): (State, Answer) {
    if id !in s.byId then (s, NotFound)
    else if s.byId[id].status != Active then (s, ExpiredCredential)
    else
      var r := s.byId[id].(lastHeartbeat := now);
      (Mutate(s, r), Found(r))
  }

  function Renew(cfg: Config, s: State, id: string, now: int): (State, Answer) {
    if id !in s.byId then (s, NotFound)
    else if s.byId[id].status != Active then (s, ExpiredCredential)
    else if s.byId[id].expiresAt - now > cfg.renewalWindowSeconds * 1000 then (s, NotInWindow)
    else
      var r := s.byId[id].(expiresAt := now + s.byId[id].ttlMs);
      (Mutate(s, r), Found(r))
  }

  function UpdateScopes(cfg: Config, s: State, id: string, scopes: ScopeSet): (State, Answer) {
    if id !in s.byId then (s, NotFound)
    else if s.byId[id].status != Active then (s, ExpiredCredential)
    else
      var r := RescopedRecord(cfg, s.byId[id], scopes);
      (Mutate(s, r), Found(r))
  }

  function Revoke(s: State, id: string, reason: Reason, now: int): (State, Answer) {
    if id !in s.byId then (s, NotFound)
    else
      var r := RevokedRecord(s.byId[id], reason, now);
      (Mutate(s, r), Found(r))
  }

  /** `revokeAllCredentials`: every active credential of the operator is revoked. */
  function RevokeAll(s: State, operatorId: string, reason: Reason, now: int): State {
    s.(byId := map id | id in s.byId ::
                 if s.byId[id].operatorId == operatorId && s.byId[id].status == Active
                 then RevokedRecord(s.byId[id], reason, now) else s.byId[id])
  }

  function Sweep(cfg: Config, s: State, now: int): State {
    s.(byId := map id | id in s.byId :: SweptRecord(cfg, s.byId[id], now))
  }

  function SweptAmong(cfg: Config, s: State, ids: seq<string>, now: int): seq<Record> {
    if ids == [] then [] else
      var n := |ids| - 1;
      SweptAmong(cfg, s, ids[..n], now)
      + (if ids[n] in s.byId && SweptRecord(cfg, s.byId[ids[n]], now) != s.byId[ids[n]]
         then [SweptRecord(cfg, s.byId[ids[n]], now)] else [])
  }

  // ---- The invariant ---------------------------------------------------------------------

  ghost predicate RecordIndexed(s: State, id: string)
    requires id in s.byId
  {
    var r := s.byId[id];
    && r.id == id
    && r.token in s.byToken && s.byToken[r.token] == id
    && r.operatorId in s.byOperator && id in s.byOperator[r.operatorId]
  }

  ghost predicate TokenIndexed(s: State, token: string)
    requires token in s.byToken
  {
    s.byToken[token] in s.byId && s.byId[s.byToken[token]].token == token
  }

  ghost predicate OperatorIndexed(s: State, op: string)
    requires op in s.byOperator
  {
    && NoDup(s.byOperator[op])
    && forall id | id in s.byOperator[op] :: id in s.byId && s.byId[id].operatorId == op
  }

  /** The three indices describe the same records. */
  ghost predicate Indexed(s: State) {
    && NoDup(s.order)
    && (forall id :: id in s.order <==> id in s.byId)
    && (forall id | id in s.byId :: RecordIndexed(s, id))
    && (forall token | token in s.byToken :: TokenIndexed(s, token))
    && (forall op | op in s.byOperator :: OperatorIndexed(s, op))
  }

  ghost predicate Consistent(cfg: Config, r: Record) {
    && r.resolved == Effective(r.scopes)
    && r.policyHash == cfg.policyHash(r.scopes, r.chatIds)
  }

  ghost function ActiveSet(byId: map<string, Record>, operatorId: string): set<string> {
    set id | id in byId && byId[id].operatorId == operatorId && byId[id].status == Active
  }

  function Cap(cfg: Config): int {
    if cfg.maxConcurrentPerOperator >= 1 then cfg.maxConcurrentPerOperator else 1
  }

  ghost predicate Capped(cfg: Config, byId: map<string, Record>) {
    forall op :: |ActiveSet(byId, op)| <= Cap(cfg)
  }

  ghost predicate Inv(cfg: Config, s: State) {
    && Indexed(s)
    && (forall id | id in s.byId :: Consistent(cfg, s.byId[id]))
    && Capped(cfg, s.byId)
  }

  // ---- Active records --------------------------------------------------------------------

  lemma ActiveAmongMembers(byId: map<string, Record>, ids: seq<string>)
    ensures forall r :: r in ActiveAmong(byId, ids) <==>
              r.status == Active && exists id | id in ids :: id in byId && byId[id] == r
  {
    if ids != [] {
      ActiveAmongMembers(byId, ids[..|ids| - 1]);
      assert ids == ids[..|ids| - 1] + [ids[|ids| - 1]];
    }
  }

  lemma {:induction false} ActiveAmongCount(byId: map<string, Record>, ids: seq<string>)
    requires NoDup(ids)
    ensures |ActiveAmong(byId, ids)| == |ActiveIn(byId, ids)|
  {
    if ids == [] {
      assert ActiveIn(byId, ids) == {};
    } else {
      var n := |ids| - 1;
      ActiveAmongCount(byId, ids[..n]);
      ActiveInSnoc(byId, ids[..n], ids[n]);
      assert ids == ids[..n] + [ids[n]];
      assert ids[n] !in ids[..n];
    }
  }

  ghost function ActiveIn(byId: map<string, Record>, ids: seq<string>): set<string> {
    set id | id in ids && id in byId && byId[id].status == Active
  }

  lemma ActiveInSnoc(byId: map<string, Record>, ids: seq<string>, id: string)
    ensures ActiveIn(byId, ids + [id]) ==
            if id in byId && byId[id].status == Active then ActiveIn(byId, ids) + {id} else ActiveIn(byId, ids)
  {
  }

  /** The list the manager computes is the operator's active set. */
  lemma ActiveForExact(s: State, op: string)
    requires Indexed(s)
    ensures forall r :: r in ActiveFor(s, op) <==> r.id in ActiveSet(s.byId, op) && s.byId[r.id] == r
    ensures |ActiveFor(s, op)| == |ActiveSet(s.byId, op)|
  {
    if op in s.byOperator {
      var ids := s.byOperator[op];
      ActiveAmongMembers(s.byId, ids);
      ActiveAmongCount(s.byId, ids);
      assert ActiveSet(s.byId, op) == ActiveIn(s.byId, ids);
    } else {
      assert ActiveSet(s.byId, op) == {};
    }
  }

  /** The same, by position in the list. */
  lemma ActiveIds(s: State, op: string)
    requires Indexed(s)
    ensures forall k | 0 <= k < |ActiveFor(s, op)| ::
              ActiveFor(s, op)[k].id in s.byId && s.byId[ActiveFor(s, op)[k].id] == ActiveFor(s, op)[k]
    ensures forall id ::
              (exists k | 0 <= k < |ActiveFor(s, op)| :: ActiveFor(s, op)[k].id == id) <==> id in ActiveSet(s.byId, op)
  {
    var active := ActiveFor(s, op);
    ActiveForExact(s, op);
    forall k | 0 <= k < |active| ensures active[k].id in ActiveSet(s.byId, op) && s.byId[active[k].id] == active[k] {
      assert active[k] in active;
    }
    forall id | id in ActiveSet(s.byId, op) ensures exists k | 0 <= k < |active| :: active[k].id == id {
      assert RecordIndexed(s, id) && s.byId[id] in active;
    }
  }

  // ---- Steps that change records in place ------------------------------------------------

  /** A record may be replaced by one with the same identity whose status does not come back. */
  ghost predicate Evolves(r: Record, r': Record) {
    && r'.id == r.id && r'.token == r.token && r'.operatorId == r.operatorId
    && r'.chatIds == r.chatIds && r'.issuedAt == r.issuedAt
    && (r'.status == Active ==> r.status == Active)
  }

  /** Every record evolves, and the indices stay. */
  ghost predicate InPlace(s: State, t: State) {
    && t.byId.Keys == s.byId.Keys
    && t.order == s.order && t.byToken == s.byToken && t.byOperator == s.byOperator
    && forall id | id in s.byId :: Evolves(s.byId[id], t.byId[id])
  }

  lemma InPlaceKeepsIndex(s: State, t: State)
    requires Indexed(s) && InPlace(s, t)
    ensures Indexed(t)
  {
    forall id | id in t.byId ensures RecordIndexed(t, id) { assert RecordIndexed(s, id); }
    forall token | token in t.byToken ensures TokenIndexed(t, token) { assert TokenIndexed(s, token); }
    forall op | op in t.byOperator ensures OperatorIndexed(t, op) { assert OperatorIndexed(s, op); }
  }

  lemma InPlaceKeepsInv(cfg: Config, s: State, t: State)
    requires Inv(cfg, s) && InPlace(s, t)
    requires forall id | id in t.byId :: Consistent(cfg, t.byId[id])
    ensures Inv(cfg, t)
  {
    InPlaceKeepsIndex(s, t);
    forall op ensures |ActiveSet(t.byId, op)| <= Cap(cfg) {
      SubsetCard(ActiveSet(t.byId, op), ActiveSet(s.byId, op));
    }
  }

  lemma SubsetCard<T>(a: set<T>, b: set<T>)
    requires a <= b
    ensures |a| <= |b|
  {
    assert b == a + (b - a);
  }

  lemma MutateKeepsInv(cfg: Config, s: State, r: Record)
    requires Inv(cfg, s) && r.id in s.byId && Evolves(s.byId[r.id], r) && Consistent(cfg, r)
    ensures InPlace(s, Mutate(s, r)) && Inv(cfg, Mutate(s, r))
  {
    InPlaceKeepsInv(cfg, s, Mutate(s, r));
  }

  // ---- Issuing ---------------------------------------------------------------------------

  /** Eviction happens exactly at the cap, revokes an active record of the operator that no other
      active record of it predates, and changes nothing else. */
  lemma EvictsOldest(cfg: Config, s: State, op: string, now: int)
    requires Indexed(s)
    ensures if |ActiveSet(s.byId, op)| >= cfg.maxConcurrentPerOperator && ActiveSet(s.byId, op) != {}
            then exists id | id in ActiveSet(s.byId, op) ::
                   && Evict(cfg, s, op, now) == Mutate(s, RevokedRecord(s.byId[id], PolicyViolation, now))
                   && forall other | other in ActiveSet(s.byId, op) :: s.byId[id].issuedAt <= s.byId[other].issuedAt
            else Evict(cfg, s, op, now) == s
  {
    ActiveForExact(s, op);
    var active := ActiveFor(s, op);
    if |active| >= cfg.maxConcurrentPerOperator && active != [] {
      var sorted := SortBy(IssuedLe, active);
      SortBySorted(IssuedLe, active);
      SameMembers(sorted, active);
      assert sorted[0] in active;
      forall other | other in ActiveSet(s.byId, op) ensures sorted[0].issuedAt <= s.byId[other].issuedAt {
        assert s.byId[other].id == other;
        assert s.byId[other] in sorted;
        SortedHead(IssuedLe, sorted, s.byId[other]);
      }
      assert Evict(cfg, s, op, now) == Mutate(s, RevokedRecord(s.byId[sorted[0].id], PolicyViolation, now));
    } else if ActiveSet(s.byId, op) != {} {
      assert |ActiveSet(s.byId, op)| > 0;
    }
  }

  /** Eviction leaves room for one more active credential. */
  lemma EvictKeepsInv(cfg: Config, s: State, op: string, now: int)
    requires Inv(cfg, s)
    ensures var t := Evict(cfg, s, op, now);
            Inv(cfg, t) && InPlace(s, t) && |ActiveSet(t.byId, op)| < Cap(cfg)
  {
    EvictsOldest(cfg, s, op, now);
    if |ActiveSet(s.byId, op)| >= cfg.maxConcurrentPerOperator && ActiveSet(s.byId, op) != {} {
      var id :| id in ActiveSet(s.byId, op)
        && Evict(cfg, s, op, now) == Mutate(s, RevokedRecord(s.byId[id], PolicyViolation, now));
      RevokeOneKeepsInv(cfg, s, id, PolicyViolation, now);
      RevokeOneShrinks(s, id, PolicyViolation, now);
    }
  }

  lemma RevokeOneKeepsInv(cfg: Config, s: State, id: string, reason: Reason, now: int)
    requires Inv(cfg, s) && id in s.byId
    ensures s.byId[id].id == id
    ensures var t := Mutate(s, RevokedRecord(s.byId[id], reason, now)); Inv(cfg, t) && InPlace(s, t)
  {
    assert RecordIndexed(s, id);
    MutateKeepsInv(cfg, s, RevokedRecord(s.byId[id], reason, now));
  }

  lemma RevokeOneShrinks(s: State, id: string, reason: Reason, now: int)
    requires id in s.byId && s.byId[id].id == id && s.byId[id].status == Active
    ensures var op := s.byId[id].operatorId;
            var t := Mutate(s, RevokedRecord(s.byId[id], reason, now));
            |ActiveSet(t.byId, op)| == |ActiveSet(s.byId, op)| - 1
  {
    var t := Mutate(s, RevokedRecord(s.byId[id], reason, now));
    var op := s.byId[id].operatorId;
    assert ActiveSet(t.byId, op) == ActiveSet(s.byId, op) - {id};
  }

  lemma UpsertKeepsIndex(s: State, r: Record)
    requires Indexed(s) && r.id !in s.byId && r.token !in s.byToken
    ensures Indexed(Upsert(s, r))
  {
    var t := Upsert(s, r);
    assert r.id !in s.order;
    forall id | id in t.byId ensures RecordIndexed(t, id) {
      if id != r.id { assert RecordIndexed(s, id); }
    }
    forall op | op in t.byOperator ensures OperatorIndexed(t, op) { UpsertIndexesOperator(s, r, op); }
    forall token | token in t.byToken ensures TokenIndexed(t, token) {
      if token != r.token { assert TokenIndexed(s, token); }
    }
  }

  lemma UpsertIndexesOperator(s: State, r: Record, op: string)
    requires Indexed(s) && r.id !in s.byId && op in Upsert(s, r).byOperator
    ensures OperatorIndexed(Upsert(s, r), op)
  {
    if op in s.byOperator { assert OperatorIndexed(s, op); }
  }

  lemma UpsertKeepsCap(cfg: Config, s: State, r: Record)
    requires Capped(cfg, s.byId) && r.id !in s.byId && r.status == Active
    requires |ActiveSet(s.byId, r.operatorId)| < Cap(cfg)
    ensures Capped(cfg, Upsert(s, r).byId)
  {
    forall op ensures |ActiveSet(Upsert(s, r).byId, op)| <= Cap(cfg) { UpsertActiveSet(s.byId, r, op); }
  }

  lemma UpsertActiveSet(byId: map<string, Record>, r: Record, op: string)
    requires r.id !in byId && r.status == Active
    ensures ActiveSet(byId[r.id := r], op) ==
            if op == r.operatorId then ActiveSet(byId, op) + {r.id} else ActiveSet(byId, op)
  {
  }

  lemma FirstWithHashFound(active: seq<Record>, hash: string)
    ensures var f := FirstWithHash(active, hash);
            && (f.Some? ==> f.value in active && f.value.policyHash == hash)
            && (f.None? ==> forall r | r in active :: r.policyHash != hash)
  {
  }

  lemma InsertKeepsInv(cfg: Config, s: State, r: Record)
    requires Inv(cfg, s) && r.id !in s.byId && r.token !in s.byToken
    requires Consistent(cfg, r) && r.status == Active && |ActiveSet(s.byId, r.operatorId)| < Cap(cfg)
    ensures Inv(cfg, Upsert(s, r))
  {
    UpsertKeepsIndex(s, r);
    UpsertKeepsCap(cfg, s, r);
  }

  lemma FoundIsActive(s: State, op: string, hash: string)
    requires Indexed(s)
    ensures var f := FirstWithHash(ActiveFor(s, op), hash);
            if f.Some? then
              f.value.id in ActiveSet(s.byId, op) && s.byId[f.value.id] == f.value && f.value.policyHash == hash
            else forall id | id in ActiveSet(s.byId, op) :: s.byId[id].policyHash != hash
  {
    FirstWithHashFound(ActiveFor(s, op), hash);
    ActiveForExact(s, op);
    forall id | id in ActiveSet(s.byId, op) ensures s.byId[id] in ActiveFor(s, op) { assert RecordIndexed(s, id); }
  }

  /** What `issueCredential` promises of its answer. */
  ghost predicate Answers(cfg: Config, t: State, r: Record, request: Request) {
    && r.id in t.byId && t.byId[r.id] == r && r.status == Active && r.operatorId == request.operatorId
    && r.policyHash == cfg.policyHash(ScopeSet(OrElse(request.allow, []), OrElse(request.deny, [])), request.chatIds)
  }

  ghost predicate HasPolicy(s: State, op: string, hash: string) {
    exists id | id in ActiveSet(s.byId, op) :: s.byId[id].policyHash == hash
  }

  /** Which of the two things `issueCredential` does: it inserts exactly when, after eviction, the
      operator has no active credential with the requested policy. */
  lemma IssueInsertsIff(cfg: Config, s: State, request: Request, id: string, token: string, now: int)
    requires Inv(cfg, s) && id !in s.byId
    ensures var evicted := Evict(cfg, s, request.operatorId, now);
            var created := NewRecord(cfg, request, id, token, now);
            var (t, r) := Issue(cfg, s, request, id, token, now);
            if HasPolicy(evicted, request.operatorId, created.policyHash)
            then t == evicted && r.id in ActiveSet(t.byId, request.operatorId) && t.byId[r.id] == r
                 && r.policyHash == created.policyHash && r.id != id
            else t == Upsert(evicted, created) && r == created
  {
    var created := NewRecord(cfg, request, id, token, now);
    var evicted := Evict(cfg, s, request.operatorId, now);
    EvictKeepsInv(cfg, s, request.operatorId, now);
    FoundIsActive(evicted, request.operatorId, created.policyHash);
  }

  /** `issueCredential` keeps the invariant, and answers with an active credential of the operator
      under the requested policy. */
  lemma IssueKeepsInv(cfg: Config, s: State, request: Request, id: string, token: string, now: int)
    requires Inv(cfg, s) && id !in s.byId && token !in s.byToken
    ensures var (t, r) := Issue(cfg, s, request, id, token, now);
            && Inv(cfg, t) && Succeeds(s, t) && Answers(cfg, t, r, request)
  {
    var created := NewRecord(cfg, request, id, token, now);
    var evicted := Evict(cfg, s, request.operatorId, now);
    IssueInsertsIff(cfg, s, request, id, token, now);
    EvictKeepsInv(cfg, s, request.operatorId, now);
    if !HasPolicy(evicted, request.operatorId, created.policyHash) {
      InsertKeepsInv(cfg, evicted, created);
    }
  }

  // ---- The sweep -------------------------------------------------------------------------

  predicate PastDeadline(cfg: Config, r: Record, now: int) {
    r.expiresAt <= now || HeartbeatDeadline(cfg, r) <= now
  }

  lemma SweptEvolves(cfg: Config, r: Record, now: int)
    ensures Evolves(r, SweptRecord(cfg, r, now))
    ensures Consistent(cfg, r) ==> Consistent(cfg, SweptRecord(cfg, r, now))
  {
  }

  lemma SweepKeepsInv(cfg: Config, s: State, now: int)
    requires Inv(cfg, s)
    ensures Inv(cfg, Sweep(cfg, s, now)) && InPlace(s, Sweep(cfg, s, now))
  {
    forall id | id in s.byId
      ensures Evolves(s.byId[id], SweptRecord(cfg, s.byId[id], now))
        && Consistent(cfg, SweptRecord(cfg, s.byId[id], now))
    {
      SweptEvolves(cfg, s.byId[id], now);
    }
    InPlaceKeepsInv(cfg, s, Sweep(cfg, s, now));
  }

  lemma SweptAmongMembers(cfg: Config, s: State, ids: seq<string>, now: int)
    ensures forall r :: r in SweptAmong(cfg, s, ids, now) <==>
              exists id | id in ids :: id in s.byId && SweptRecord(cfg, s.byId[id], now) != s.byId[id]
                && r == SweptRecord(cfg, s.byId[id], now)
  {
    if ids != [] {
      SweptAmongMembers(cfg, s, ids[..|ids| - 1], now);
      assert ids == ids[..|ids| - 1] + [ids[|ids| - 1]];
    }
  }

  lemma {:induction false} SweptAmongDistinct(cfg: Config, s: State, ids: seq<string>, now: int)
    requires NoDup(ids) && forall id | id in ids && id in s.byId :: s.byId[id].id == id
    ensures DistinctRecords(SweptAmong(cfg, s, ids, now))
  {
    if ids != [] {
      var n := |ids| - 1;
      SweptAmongDistinct(cfg, s, ids[..n], now);
      SweptAmongMembers(cfg, s, ids[..n], now);
      var earlier := SweptAmong(cfg, s, ids[..n], now);
      forall i | 0 <= i < |earlier| ensures earlier[i].id != ids[n] { assert earlier[i] in earlier; }
    }
  }

  ghost predicate DistinctRecords(records: seq<Record>) {
    forall i, j | 0 <= i < j < |records| :: records[i].id != records[j].id
  }

  /** One sweep deactivates exactly the active records past a deadline, returns exactly their new
      versions, each once, leaves all other records as they were, and afterwards no active record
      is past either deadline. */
  lemma SweepExact(cfg: Config, s: State, now: int)
    requires Indexed(s)
    ensures var t, swept := Sweep(cfg, s, now), SweptAmong(cfg, s, s.order, now);
            && (forall id | id in s.byId ::
                  if s.byId[id].status == Active && PastDeadline(cfg, s.byId[id], now)
                  then t.byId[id].status != Active
                       && (t.byId[id].status == Expired <==> s.byId[id].expiresAt <= now)
                       && (t.byId[id].status == Revoked ==> t.byId[id].reason == Some(HeartbeatTimeout))
                       && t.byId[id] in swept
                  else t.byId[id] == s.byId[id])
            && (forall r | r in swept ::
                  && r.id in s.byId && t.byId[r.id] == r
                  && s.byId[r.id].status == Active && PastDeadline(cfg, s.byId[r.id], now))
            && (forall id | id in t.byId && t.byId[id].status == Active :: !PastDeadline(cfg, t.byId[id], now))
            && DistinctRecords(swept)
  {
    var t, swept := Sweep(cfg, s, now), SweptAmong(cfg, s, s.order, now);
    SweptMembers(cfg, s, now);
    forall id | id in s.byId ensures SweptOne(cfg, s.byId[id], t.byId[id], now) {
      SweptRecordExact(cfg, s.byId[id], now);
    }
    assert DistinctRecords(swept) by {
      forall id | id in s.order && id in s.byId ensures s.byId[id].id == id { assert RecordIndexed(s, id); }
      SweptAmongDistinct(cfg, s, s.order, now);
    }
  }

  /** What a sweep may do to one record. */
  predicate SweptOne(cfg: Config, r: Record, r': Record, now: int) {
    && r'.id == r.id && (r' != r <==> r.status == Active && PastDeadline(cfg, r, now))
    && (r' != r ==> r'.status != Active && (r'.status == Expired <==> r.expiresAt <= now))
    && (r' != r && r'.status == Revoked ==> r'.reason == Some(HeartbeatTimeout) && r'.revokedAt == Some(now))
    && (r'.status == Active ==> !PastDeadline(cfg, r', now))
  }

  lemma SweptRecordExact(cfg: Config, r: Record, now: int)
    ensures SweptOne(cfg, r, SweptRecord(cfg, r, now), now)
  {
  }

  /** The records returned are the new versions of those that changed. */
  lemma SweptMembers(cfg: Config, s: State, now: int)
    requires Indexed(s)
    ensures var t, swept := Sweep(cfg, s, now), SweptAmong(cfg, s, s.order, now);
            && (forall id | id in s.byId && t.byId[id] != s.byId[id] :: t.byId[id] in swept)
            && (forall r | r in swept :: r.id in s.byId && t.byId[r.id] == r && s.byId[r.id] != r)
  {
    SweptAmongMembers(cfg, s, s.order, now);
    var swept := SweptAmong(cfg, s, s.order, now);
    forall r | r in swept ensures r.id in s.byId && SweptRecord(cfg, s.byId[r.id], now) == r && s.byId[r.id] != r {
      var id :| id in s.order && id in s.byId && r == SweptRecord(cfg, s.byId[id], now) && s.byId[id] != r;
      assert RecordIndexed(s, id);
    }
  }

  /** The map after sweeping some ids in order. */
  ghost function SweepPrefix(cfg: Config, byId: map<string, Record>, ids: seq<string>, now: int)
    : (r: map<string, Record>)
    ensures r.Keys == byId.Keys
  {
    if ids == [] then byId else
      var n := |ids| - 1;
      var earlier := SweepPrefix(cfg, byId, ids[..n], now);
      if ids[n] in earlier then earlier[ids[n] := SweptRecord(cfg, earlier[ids[n]], now)] else earlier
  }

  lemma {:induction false} SweepPrefixAt(cfg: Config, byId: map<string, Record>, ids: seq<string>, now: int, id: string)
    requires id in byId
    ensures SweepPrefix(cfg, byId, ids, now)[id] == if id in ids then SweptRecord(cfg, byId[id], now) else byId[id]
  {
    if ids != [] {
      SweepPrefixAt(cfg, byId, ids[..|ids| - 1], now, id);
      assert ids == ids[..|ids| - 1] + [ids[|ids| - 1]];
    }
  }

  lemma NotEarlier(s: seq<string>, i: nat)
    requires NoDup(s) && i < |s|
    ensures s[i] !in s[..i]
  {
  }

  /** The id order lists every record once. */
  ghost predicate OrderCovers(s: State) {
    NoDup(s.order) && forall id :: id in s.order <==> id in s.byId
  }

  lemma SweepVisit(cfg: Config, s: State, i: nat, now: int)
    requires OrderCovers(s) && i < |s.order|
    ensures var id, earlier := s.order[i], SweepPrefix(cfg, s.byId, s.order[..i], now);
            && id in s.byId && earlier[id] == s.byId[id]
            && SweepPrefix(cfg, s.byId, s.order[..i + 1], now) == earlier[id := SweptRecord(cfg, s.byId[id], now)]
            && SweptAmong(cfg, s, s.order[..i + 1], now) == SweptAmong(cfg, s, s.order[..i], now)
                 + (if SweptRecord(cfg, s.byId[id], now) != s.byId[id] then [SweptRecord(cfg, s.byId[id], now)] else [])
  {
    assert s.order[i] in s.order;
    assert s.order[..i + 1][..i] == s.order[..i];
    NotEarlier(s.order, i);
    SweepPrefixAt(cfg, s.byId, s.order[..i], now, s.order[i]);
  }

  lemma NothingSwept(cfg: Config, s: State, now: int)
    ensures SweepPrefix(cfg, s.byId, s.order[..0], now) == s.byId && SweptAmong(cfg, s, s.order[..0], now) == []
  {
  }

  lemma SweepPrefixAll(cfg: Config, s: State, now: int)
    requires OrderCovers(s)
    ensures SweepPrefix(cfg, s.byId, s.order, now) == Sweep(cfg, s, now).byId
  {
    forall id | id in s.byId ensures SweepPrefix(cfg, s.byId, s.order, now)[id] == SweptRecord(cfg, s.byId[id], now) {
      SweepPrefixAt(cfg, s.byId, s.order, now, id);
    }
  }

  // ---- Revoking everything ---------------------------------------------------------------

  /** `revokeAllCredentials` leaves the operator without active credentials. */
  lemma RevokeAllKeepsInv(cfg: Config, s: State, op: string, reason: Reason, now: int)
    requires Inv(cfg, s)
    ensures var t := RevokeAll(s, op, reason, now);
            Inv(cfg, t) && InPlace(s, t) && ActiveSet(t.byId, op) == {}
  {
    hide Indexed, Capped, Cap;
    InPlaceKeepsInv(cfg, s, RevokeAll(s, op, reason, now));
  }

  /** What the revocation loop returns for a list of records. */
  function RevokedRecords(records: seq<Record>, reason: Reason, now: int): (r: seq<Record>)
    ensures |r| == |records|
  {
    seq(|records|, i requires 0 <= i < |records| => RevokedRecord(records[i], reason, now))
  }

  ghost function RevokeAmong(byId: map<string, Record>, ids: set<string>, reason: Reason, now: int)
    : map<string, Record>
  {
    map id | id in byId :: if id in ids then RevokedRecord(byId[id], reason, now) else byId[id]
  }

  lemma RevokeAmongAdd(byId: map<string, Record>, ids: set<string>, id: string, reason: Reason, now: int)
    requires id in byId
    ensures var some := RevokeAmong(byId, ids, reason, now);
            && RevokeAmong(byId, ids + {id}, reason, now) == some[id := RevokedRecord(some[id], reason, now)]
            && RevokedRecord(some[id], reason, now) == RevokedRecord(byId[id], reason, now)
  {
  }

  lemma RevokeAllByIds(s: State, op: string, reason: Reason, now: int)
    ensures RevokeAll(s, op, reason, now).byId == RevokeAmong(s.byId, ActiveSet(s.byId, op), reason, now)
  {
  }

  // ---- Runs ------------------------------------------------------------------------------

  datatype Op =
    | IssueOp(request: Request, id: string, token: string, now: int)
    | ByTokenOp(token: string, now: int)
    | HeartbeatOp(id: string, now: int)
    | RenewOp(id: string, now: int)
    | UpdateScopesOp(id: string, scopes: ScopeSet)
    | RevokeOp(id: string, reason: Reason, now: int)
    | RevokeAllOp(operatorId: string, reason: Reason, now: int)
    | SweepOp(now: int)

  function Step(cfg: Config, s: State, op: Op): State {
    match op
    case IssueOp(request, id, token, now) => Issue(cfg, s, request, id, token, now).0
    case ByTokenOp(token, now) => ByToken(s, token, now).0
    case HeartbeatOp(id, now) => Heartbeat(s, id, now).0
    case RenewOp(id, now) => Renew(cfg, s, id, now).0
    case UpdateScopesOp(id, scopes) => UpdateScopes(cfg, s, id, scopes).0
    case RevokeOp(id, reason, now) => Revoke(s, id, reason, now).0
    case RevokeAllOp(operatorId, reason, now) => RevokeAll(s, operatorId, reason, now)
    case SweepOp(now) => Sweep(cfg, s, now)
  }

  function Run(cfg: Config, s: State, ops: seq<Op>): State {
    if ops == [] then s else Step(cfg, Run(cfg, s, ops[..|ops| - 1]), ops[|ops| - 1])
  }

  /** Generated ids and tokens are fresh. */
  ghost predicate Admissible(s: State, op: Op) {
    op.IssueOp? ==> op.id !in s.byId && op.token !in s.byToken
  }

  ghost predicate AdmissibleRun(cfg: Config, s: State, ops: seq<Op>) {
    ops == [] || (AdmissibleRun(cfg, s, ops[..|ops| - 1]) && Admissible(Run(cfg, s, ops[..|ops| - 1]), ops[|ops| - 1]))
  }

  /** Old records survive, keep their identity, and never return to active. */
  ghost predicate Succeeds(s: State, t: State) {
    forall id | id in s.byId :: id in t.byId && Evolves(s.byId[id], t.byId[id])
  }

  lemma StepKeepsInv(cfg: Config, s: State, op: Op)
    requires Inv(cfg, s) && Admissible(s, op)
    ensures Inv(cfg, Step(cfg, s, op)) && Succeeds(s, Step(cfg, s, op))
  {
    match op {
      case IssueOp(request, id, token, now) => IssueKeepsInv(cfg, s, request, id, token, now);
      case RevokeAllOp(operatorId, reason, now) => RevokeAllKeepsInv(cfg, s, operatorId, reason, now);
      case SweepOp(now) => SweepKeepsInv(cfg, s, now);
      case _ => SingleStepKeepsInv(cfg, s, op);
    }
  }

  predicate Single(op: Op) {
    op.ByTokenOp? || op.HeartbeatOp? || op.RenewOp? || op.UpdateScopesOp? || op.RevokeOp?
  }

  /** The id an operation on one credential is about, if there is one. */
  function Target(s: State, op: Op): Option<string>
    requires Single(op)
  {
    if op.ByTokenOp? then (if op.token in s.byToken then Some(s.byToken[op.token]) else None) else Some(op.id)
  }

  ghost predicate TargetStored(cfg: Config, s: State, op: Op)
    requires Single(op)
  {
    Target(s, op).Some? && Target(s, op).value in s.byId ==>
      s.byId[Target(s, op).value].id == Target(s, op).value && Consistent(cfg, s.byId[Target(s, op).value])
  }

  lemma TargetIsStored(cfg: Config, s: State, op: Op)
    requires Inv(cfg, s) && Single(op)
    ensures TargetStored(cfg, s, op)
  {
    hide Step, Consistent, Capped;
    var target := Target(s, op);
    if target.Some? && target.value in s.byId { assert RecordIndexed(s, target.value); }
  }

  /** Such an operation changes at most its target's record, and that in place. */
  lemma SingleStepShape(cfg: Config, s: State, op: Op)
    requires Single(op) && TargetStored(cfg, s, op)
    ensures var t := Step(cfg, s, op);
            t == s || (Target(s, op).Some? && Target(s, op).value in s.byId && Target(s, op).value in t.byId
                       && t == Mutate(s, t.byId[Target(s, op).value])
                       && t.byId[Target(s, op).value].id == Target(s, op).value
                       && Evolves(s.byId[Target(s, op).value], t.byId[Target(s, op).value])
                       && Consistent(cfg, t.byId[Target(s, op).value]))
  {
  }

  lemma InPlaceSame(s: State)
    ensures InPlace(s, s)
  {
  }

  lemma SingleStepKeepsInv(cfg: Config, s: State, op: Op)
    requires Inv(cfg, s) && Single(op)
    ensures Inv(cfg, Step(cfg, s, op)) && InPlace(s, Step(cfg, s, op))
  {
    hide Inv, Step, InPlace, Consistent, Evolves, TargetStored;
    TargetIsStored(cfg, s, op);
    SingleStepShape(cfg, s, op);
    InPlaceSame(s);
    var t := Step(cfg, s, op);
    if t != s { MutateKeepsInv(cfg, s, t.byId[Target(s, op).value]); }
  }

  lemma EmptyInv(cfg: Config)
    ensures Inv(cfg, EMPTY)
  {
    forall op ensures |ActiveSet(EMPTY.byId, op)| <= Cap(cfg) { assert ActiveSet(EMPTY.byId, op) == {}; }
  }

  // ---- What happens to a revoked credential ------------------------------------------------

  /** A look-up by the record's own token at or after its expiry, which overwrites its status. */
  predicate LateLookup(op: Op, r: Record) {
    op.ByTokenOp? && op.token == r.token && op.now >= r.expiresAt
  }

  predicate Revokes(op: Op, id: string) {
    op.RevokeOp? && op.id == id
  }

  /** What a step does to a record that is not active. */
  ghost predicate InactiveAfter(s: State, t: State, op: Op, id: string)
    requires id in s.byId
  {
    var r := s.byId[id];
    && id in t.byId && t.byId[id].status != Active
    && t.byId[id].token == r.token && t.byId[id].expiresAt == r.expiresAt
    && (t.byId[id].status == Revoked <==> Revokes(op, id) || (r.status == Revoked && !LateLookup(op, r)))
  }

  lemma InactiveBulk(cfg: Config, s: State, op: Op, id: string)
    requires id in s.byId && s.byId[id].status != Active && (op.SweepOp? || op.RevokeAllOp?)
    ensures InactiveAfter(s, Step(cfg, s, op), op, id)
  {
  }

  /** The token index leads to a record exactly by its own token. */
  lemma TokenLeadsHome(cfg: Config, s: State, id: string, token: string)
    requires Inv(cfg, s) && id in s.byId
    ensures token in s.byToken && s.byToken[token] == id <==> token == s.byId[id].token
    ensures token in s.byToken ==> s.byToken[token] in s.byId
  {
    hide Consistent, Capped;
    assert RecordIndexed(s, id);
    if token in s.byToken { assert TokenIndexed(s, token); }
  }

  lemma InactiveSingle(cfg: Config, s: State, op: Op, id: string)
    requires Single(op) && id in s.byId && s.byId[id].status != Active && TargetStored(cfg, s, op)
    requires op.ByTokenOp? ==>
               && (op.token in s.byToken && s.byToken[op.token] == id <==> op.token == s.byId[id].token)
               && (op.token in s.byToken ==> s.byToken[op.token] in s.byId)
    ensures InactiveAfter(s, Step(cfg, s, op), op, id)
  {
    hide Consistent;
  }

  lemma InactiveStepIssue(cfg: Config, s: State, op: Op, id: string)
    requires Inv(cfg, s) && Admissible(s, op) && op.IssueOp? && id in s.byId && s.byId[id].status != Active
    ensures id in Step(cfg, s, op).byId && Step(cfg, s, op).byId[id] == s.byId[id]
  {
    EvictSparesInactive(cfg, s, op.request.operatorId, op.now, id);
    hide Inv, Evict, ActiveSet;
    IssueInsertsIff(cfg, s, op.request, op.id, op.token, op.now);
  }

  lemma EvictSparesInactive(cfg: Config, s: State, op: string, now: int, id: string)
    requires Inv(cfg, s) && id in s.byId && s.byId[id].status != Active
    ensures id in Evict(cfg, s, op, now).byId && Evict(cfg, s, op, now).byId[id] == s.byId[id]
  {
    hide Consistent, Capped, Evict;
    EvictsOldest(cfg, s, op, now);
    forall other | other in s.byId ensures s.byId[other].id == other { assert RecordIndexed(s, other); }
  }

  lemma InactiveStep(cfg: Config, s: State, op: Op, id: string)
    requires Inv(cfg, s) && Admissible(s, op) && id in s.byId && s.byId[id].status != Active
    ensures InactiveAfter(s, Step(cfg, s, op), op, id)
  {
    hide Inv, Step, TargetStored;
    if op.IssueOp? {
      InactiveStepIssue(cfg, s, op, id);
    } else if Single(op) {
      TargetIsStored(cfg, s, op);
      if op.ByTokenOp? { TokenLeadsHome(cfg, s, id, op.token); }
      InactiveSingle(cfg, s, op, id);
    } else {
      InactiveBulk(cfg, s, op, id);
    }
  }

  /** One step leaves a revoked record revoked, unless it is a late look-up by its own token, which
      turns it into an expired one. */
  lemma RevokedStepIff(cfg: Config, s: State, op: Op, id: string)
    requires Inv(cfg, s) && Admissible(s, op) && id in s.byId && s.byId[id].status == Revoked
    ensures id in Step(cfg, s, op).byId
    ensures Step(cfg, s, op).byId[id].status == Revoked <==> !LateLookup(op, s.byId[id])
  {
    InactiveStep(cfg, s, op, id);
  }

  /** Over a run a revoked credential ends up revoked exactly when every late look-up by its token
      was followed by another revocation. */
  lemma {:induction false} RevokedRunIff(cfg: Config, s: State, ops: seq<Op>, id: string)
    requires Inv(cfg, s) && AdmissibleRun(cfg, s, ops) && id in s.byId && s.byId[id].status == Revoked
    ensures var t := Run(cfg, s, ops);
            && id in t.byId && t.byId[id].status != Active
            && t.byId[id].token == s.byId[id].token && t.byId[id].expiresAt == s.byId[id].expiresAt
            && (t.byId[id].status == Revoked <==> AllRevokedAgain(ops, s.byId[id]))
  {
    hide Inv, Step;
    if ops != [] {
      var n := |ops| - 1;
      var t := Run(cfg, s, ops[..n]);
      RevokedRunIff(cfg, s, ops[..n], id);
      RunKeepsInv(cfg, s, ops[..n]);
      StoredUnder(cfg, s, id);
      RevokedAgainSnoc(ops[..n], ops[n], s.byId[id]);
      assert ops == ops[..n] + [ops[n]];
      InactiveStep(cfg, t, ops[n], id);
    }
  }

  lemma StoredUnder(cfg: Config, s: State, id: string)
    requires Inv(cfg, s) && id in s.byId
    ensures s.byId[id].id == id
  {
    assert RecordIndexed(s, id);
  }

  ghost predicate RevokedAgain(ops: seq<Op>, i: nat, id: string) {
    exists j | i < j < |ops| :: Revokes(ops[j], id)
  }

  ghost predicate AllRevokedAgain(ops: seq<Op>, r: Record) {
    forall i | 0 <= i < |ops| && LateLookup(ops[i], r) :: RevokedAgain(ops, i, r.id)
  }

  lemma RevokedAgainSnoc(ops: seq<Op>, op: Op, r: Record)
    ensures AllRevokedAgain(ops + [op], r) <==> Revokes(op, r.id) || (AllRevokedAgain(ops, r) && !LateLookup(op, r))
  {
    var more := ops + [op];
    var n := |ops|;
    if Revokes(op, r.id) {
      forall i | 0 <= i < |more| && LateLookup(more[i], r) ensures RevokedAgain(more, i, r.id) {
        assert Revokes(more[n], r.id);
      }
    } else {
      forall i | 0 <= i < n ensures RevokedAgain(more, i, r.id) <==> RevokedAgain(ops, i, r.id) {
        if j :| i < j < n && Revokes(ops[j], r.id) { assert Revokes(more[j], r.id); }
        if j :| i < j < |more| && Revokes(more[j], r.id) { assert Revokes(ops[j], r.id); }
      }
      assert !RevokedAgain(more, n, r.id);
      if AllRevokedAgain(more, r) {
        assert !LateLookup(more[n], r);
        forall i | 0 <= i < n && LateLookup(ops[i], r) ensures RevokedAgain(ops, i, r.id) {
          assert LateLookup(more[i], r);
        }
      }
      if AllRevokedAgain(ops, r) && !LateLookup(op, r) {
        forall i | 0 <= i < |more| && LateLookup(more[i], r) ensures RevokedAgain(more, i, r.id) {
          assert more[i] == ops[i];
        }
      }
    }
  }

  // ---- What ends an active credential ------------------------------------------------------

  /** The record is the one that eviction for the operator would revoke. */
  predicate Displaced(cfg: Config, s: State, operatorId: string, id: string) {
    var active := ActiveFor(s, operatorId);
    |active| >= cfg.maxConcurrentPerOperator && active != [] && SortBy(IssuedLe, active)[0].id == id
  }

  /** The calls that end an active record. Its expiry alone is not among them. */
  predicate Ends(cfg: Config, s: State, op: Op, r: Record) {
    match op
    case IssueOp(request, _, _, _) => Displaced(cfg, s, request.operatorId, r.id)
    case ByTokenOp(_, _) => LateLookup(op, r)
    case RevokeOp(id, _, _) => id == r.id
    case RevokeAllOp(operatorId, _, _) => operatorId == r.operatorId
    case SweepOp(now) => PastDeadline(cfg, r, now)
    case _ => false
  }

  ghost predicate ActiveUnlessEnded(cfg: Config, s: State, op: Op, id: string)
    requires id in s.byId
  {
    var t := Step(cfg, s, op);
    id in t.byId && (t.byId[id].status == Active <==> !Ends(cfg, s, op, s.byId[id]))
  }

  lemma ActiveBulk(cfg: Config, s: State, op: Op, id: string)
    requires id in s.byId && s.byId[id].status == Active && (op.SweepOp? || op.RevokeAllOp?)
    ensures ActiveUnlessEnded(cfg, s, op, id)
  {
  }

  lemma ActiveSingle(cfg: Config, s: State, op: Op, id: string)
    requires Single(op) && id in s.byId && s.byId[id].id == id && s.byId[id].status == Active
    requires TargetStored(cfg, s, op)
    requires op.ByTokenOp? ==>
               && (op.token in s.byToken && s.byToken[op.token] == id <==> op.token == s.byId[id].token)
               && (op.token in s.byToken ==> s.byToken[op.token] in s.byId)
    ensures ActiveUnlessEnded(cfg, s, op, id)
  {
    hide Consistent;
  }

  lemma ActiveIssue(cfg: Config, s: State, op: Op, id: string)
    requires Inv(cfg, s) && Admissible(s, op) && op.IssueOp? && id in s.byId && s.byId[id].status == Active
    ensures ActiveUnlessEnded(cfg, s, op, id)
  {
    StoredUnder(cfg, s, id);
    EvictEnds(cfg, s, op.request.operatorId, op.now, id);
    hide Inv, Evict, Displaced, ActiveSet, HasPolicy;
    IssueInsertsIff(cfg, s, op.request, op.id, op.token, op.now);
  }

  lemma EvictEnds(cfg: Config, s: State, operatorId: string, now: int, id: string)
    requires id in s.byId && s.byId[id].status == Active
    ensures var t := Evict(cfg, s, operatorId, now);
            id in t.byId && (t.byId[id].status == Active <==> !Displaced(cfg, s, operatorId, id))
  {
    hide ActiveFor, SortBy;
  }

  /** One call leaves an active record active exactly when it is not one that ends it. */
  lemma ActiveStepIff(cfg: Config, s: State, op: Op, id: string)
    requires Inv(cfg, s) && Admissible(s, op) && id in s.byId && s.byId[id].status == Active
    ensures id in Step(cfg, s, op).byId
    ensures Step(cfg, s, op).byId[id].status == Active <==> !Ends(cfg, s, op, s.byId[id])
  {
    hide Inv, Step, Ends, TargetStored;
    if op.IssueOp? {
      ActiveIssue(cfg, s, op, id);
    } else if Single(op) {
      StoredUnder(cfg, s, id);
      TargetIsStored(cfg, s, op);
      if op.ByTokenOp? { TokenLeadsHome(cfg, s, id, op.token); }
      ActiveSingle(cfg, s, op, id);
    } else {
      ActiveBulk(cfg, s, op, id);
    }
  }

  /** No call of the run ends the record. */
  predicate Undisturbed(cfg: Config, s: State, ops: seq<Op>, id: string) {
    ops != [] ==>
      var n := |ops| - 1;
      var t := Run(cfg, s, ops[..n]);
      Undisturbed(cfg, s, ops[..n], id) && (id in t.byId ==> !Ends(cfg, t, ops[n], t.byId[id]))
  }

  /** Over any run an active record stays active exactly when no call ends it, and until then, and
      only until then, it can be renewed however long past its expiry. */
  lemma {:induction false} RenewableRunIff(cfg: Config, s: State, ops: seq<Op>, id: string)
    requires Inv(cfg, s) && AdmissibleRun(cfg, s, ops) && id in s.byId && s.byId[id].status == Active
    ensures var t := Run(cfg, s, ops);
            && id in t.byId && (t.byId[id].status == Active <==> Undisturbed(cfg, s, ops, id))
            && forall now | t.byId[id].expiresAt <= now && cfg.renewalWindowSeconds >= 0 ::
                 Renew(cfg, t, id, now).1.Found? <==> Undisturbed(cfg, s, ops, id)
  {
    if ops != [] {
      hide Inv, Step, Ends, Renew;
      var n := |ops| - 1;
      var t := Run(cfg, s, ops[..n]);
      RenewableRunIff(cfg, s, ops[..n], id);
      RunKeepsInv(cfg, s, ops[..n]);
      if t.byId[id].status == Active {
        ActiveStepIff(cfg, t, ops[n], id);
      } else {
        InactiveStep(cfg, t, ops[n], id);
      }
      RunKeepsInv(cfg, s, ops);
    }
    var t := Run(cfg, s, ops);
    forall now | t.byId[id].expiresAt <= now && cfg.renewalWindowSeconds >= 0
      ensures Renew(cfg, t, id, now).1.Found? <==> t.byId[id].status == Active
    {
    }
  }

  // ---- Tokens, heartbeats and renewals against the sweep ----------------------------------

  /** A token authenticates exactly the stored record that carries it, while that record is active
      and not past its expiry, whatever the sweep has or has not done. */
  lemma TokenFindsIff(cfg: Config, s: State, token: string, now: int, r: Record)
    requires Inv(cfg, s)
    ensures ByToken(s, token, now).1 == Found(r) <==>
            r.id in s.byId && s.byId[r.id] == r && r.token == token && r.status == Active && now < r.expiresAt
    ensures ByToken(s, token, now).1 == NotFound <==> forall id | id in s.byId :: s.byId[id].token != token
  {
    forall id | id in s.byId ensures s.byId[id].token == token ==> token in s.byToken && s.byToken[token] in s.byId {
      assert RecordIndexed(s, id);
    }
    if token in s.byToken {
      assert TokenIndexed(s, token);
      assert RecordIndexed(s, s.byToken[token]);
    }
    if r.id in s.byId { assert RecordIndexed(s, r.id); }
  }

  /** A heartbeat is taken exactly for an active record. After it, a later sweep keeps the credential
      exactly until its expiry or one interval and grace period after the heartbeat, whichever comes
      first. */
  lemma HeartbeatHoldsUntil(cfg: Config, s: State, id: string, now: int, later: int)
    requires Inv(cfg, s) && id in s.byId
    ensures Heartbeat(s, id, now).1.Found? <==> s.byId[id].status == Active
    ensures Heartbeat(s, id, now).1.Found? ==>
            var t := Heartbeat(s, id, now).0;
            Sweep(cfg, t, later).byId[id].status == Active <==>
              later < s.byId[id].expiresAt
              && later < now + s.byId[id].heartbeatInterval * 1000 + cfg.heartbeatGracePeriod * 1000
  {
    assert RecordIndexed(s, id);
  }

  /** A record is renewed exactly while it is marked active and its expiry is no further off than the
      renewal window, so past its expiry exactly while it is marked active. After a renewal a sweep
      keeps it exactly until one TTL later or the heartbeat deadline. */
  lemma RenewalHoldsUntil(cfg: Config, s: State, id: string, now: int, later: int)
    requires Inv(cfg, s) && id in s.byId
    ensures Renew(cfg, s, id, now).1.Found? <==>
            s.byId[id].status == Active && s.byId[id].expiresAt <= now + cfg.renewalWindowSeconds * 1000
    ensures s.byId[id].expiresAt <= now && cfg.renewalWindowSeconds >= 0 ==>
              (Renew(cfg, s, id, now).1.Found? <==> s.byId[id].status == Active)
    ensures Renew(cfg, s, id, now).1.Found? ==>
              var t := Renew(cfg, s, id, now).0;
              (Sweep(cfg, t, later).byId[id].status == Active <==>
                later < now + s.byId[id].ttlMs && later < HeartbeatDeadline(cfg, s.byId[id]))
  {
    assert RecordIndexed(s, id);
  }

  /** A new credential is the requested operator's, for the requested chats, and allows exactly what was
      allowed and not denied; a sweep keeps it exactly until one requested TTL, or the default one, or
      30 seconds and the grace period have passed since it was issued. */
  lemma IssuedTerms(cfg: Config, s: State, request: Request, id: string, token: string, now: int, later: int)
    requires Inv(cfg, s) && id !in s.byId && Issue(cfg, s, request, id, token, now).1.id == id
    ensures var (t, r) := Issue(cfg, s, request, id, token, now);
            && id in t.byId && t.byId[id] == r && r.token == token && r.status == Active && r.reason == None
            && r.operatorId == request.operatorId && r.chatIds == request.chatIds && r.issuedAt == now
            && (forall x :: x in r.resolved <==> x in OrElse(request.allow, []) && x !in OrElse(request.deny, []))
            && (Sweep(cfg, t, later).byId[id].status == Active <==>
                && later < now + (if request.ttlSeconds.Some? then request.ttlSeconds.value
                                  else cfg.defaultTtlSeconds) * 1000
                && later < now + 30000 + cfg.heartbeatGracePeriod * 1000)
  {
    hide Inv, Evict, HasPolicy;
    IssueInsertsIff(cfg, s, request, id, token, now);
  }

  /** Revoking any stored credential succeeds and records when and why; nothing else changes. */
  lemma RevokeOutcome(cfg: Config, s: State, id: string, reason: Reason, now: int)
    requires Inv(cfg, s) && id in s.byId
    ensures var (t, a) := Revoke(s, id, reason, now);
            && id in t.byId && a == Found(t.byId[id])
            && t.byId[id] == s.byId[id].(status := Revoked, reason := Some(reason), revokedAt := Some(now))
            && t.byId - {id} == s.byId - {id}
  {
    StoredUnder(cfg, s, id);
  }

  /** Revoking all of an operator's credentials revokes exactly its active ones, for the given reason. */
  lemma RevokeAllOutcome(cfg: Config, s: State, op: string, reason: Reason, now: int)
    ensures var t := RevokeAll(s, op, reason, now);
            && t.byId.Keys == s.byId.Keys
            && forall id | id in s.byId ::
                 t.byId[id] == if s.byId[id].operatorId == op && s.byId[id].status == Active
                               then s.byId[id].(status := Revoked, reason := Some(reason), revokedAt := Some(now))
                               else s.byId[id]
  {
  }

  /** The records it returns are the new versions of those, each once. */
  lemma RevokeAllReturns(cfg: Config, s: State, op: string, reason: Reason, now: int)
    requires Inv(cfg, s)
    ensures var t, revoked := RevokeAll(s, op, reason, now), RevokedRecords(ActiveFor(s, op), reason, now);
            && |revoked| == |ActiveSet(s.byId, op)|
            && (forall id | id in ActiveSet(s.byId, op) :: t.byId[id] in revoked)
            && (forall r | r in revoked :: r.id in ActiveSet(s.byId, op) && t.byId[r.id] == r)
  {
    var active := ActiveFor(s, op);
    ActiveForExact(s, op);
    ActiveIds(s, op);
    ActiveRevoked(s, op, reason, now);
    hide Inv, ActiveFor, RevokeAll, RevokedRecord, ActiveSet;
    RevokedRecordsAt(active, reason, now);
  }

  lemma ActiveRevoked(s: State, op: string, reason: Reason, now: int)
    ensures forall id | id in ActiveSet(s.byId, op) ::
              id in s.byId && RevokeAll(s, op, reason, now).byId[id] == RevokedRecord(s.byId[id], reason, now)
    ensures forall r :: RevokedRecord(r, reason, now).id == r.id
  {
  }

  lemma RevokedRecordsAt(records: seq<Record>, reason: Reason, now: int)
    ensures forall r :: r in RevokedRecords(records, reason, now) <==>
                        exists k | 0 <= k < |records| :: RevokedRecord(records[k], reason, now) == r
  {
    var revoked := RevokedRecords(records, reason, now);
    forall r | exists k | 0 <= k < |records| :: RevokedRecord(records[k], reason, now) == r ensures r in revoked {
      var k :| 0 <= k < |records| && RevokedRecord(records[k], reason, now) == r;
      assert revoked[k] == r;
    }
  }

  /** A scope update of an active credential replaces its scopes, and what is derived from them, and
      nothing else; an inactive one is refused. */
  lemma UpdateScopesOutcome(cfg: Config, s: State, id: string, next: ScopeSet)
    requires Inv(cfg, s) && id in s.byId
    ensures var (t, a) := UpdateScopes(cfg, s, id, next);
            var hash := cfg.policyHash(next, s.byId[id].chatIds);
            if s.byId[id].status == Active
            then && id in t.byId && a == Found(t.byId[id]) && t.byId - {id} == s.byId - {id}
                 && t.byId[id] == s.byId[id].(scopes := next, resolved := t.byId[id].resolved, policyHash := hash)
                 && forall x :: x in t.byId[id].resolved <==> x in next.allow && x !in next.deny
            else t == s && a == ExpiredCredential
  {
    StoredUnder(cfg, s, id);
  }

  /** What a step may change in a stored record: the expiry by its renewal, the heartbeat by its
      heartbeat, the scopes by its scope update, the reason when it is revoked, and nothing more. */
  ghost predicate Framed(op: Op, r: Record, r': Record) {
    && r' == r.(scopes := r'.scopes, resolved := r'.resolved, policyHash := r'.policyHash, status := r'.status,
                lastHeartbeat := r'.lastHeartbeat, expiresAt := r'.expiresAt,
                revokedAt := r'.revokedAt, reason := r'.reason)
    && (r'.expiresAt != r.expiresAt ==> op.RenewOp? && op.id == r.id && r'.expiresAt == op.now + r.ttlMs)
    && (r'.lastHeartbeat != r.lastHeartbeat ==> op.HeartbeatOp? && op.id == r.id && r'.lastHeartbeat == op.now)
    && (r'.scopes != r.scopes ==> op.UpdateScopesOp? && op.id == r.id && r'.scopes == op.scopes)
    && (r'.resolved != r.resolved || r'.policyHash != r.policyHash ==> op.UpdateScopesOp? && op.id == r.id)
    && (r'.reason != r.reason || r'.revokedAt != r.revokedAt ==> r'.status == Revoked && r'.reason.Some?)
  }

  lemma SingleFramed(cfg: Config, s: State, op: Op, id: string)
    requires Single(op) && id in s.byId && s.byId[id].id == id && TargetStored(cfg, s, op)
    ensures id in Step(cfg, s, op).byId && Framed(op, s.byId[id], Step(cfg, s, op).byId[id])
  {
    hide Consistent;
  }

  lemma BulkFramed(cfg: Config, s: State, op: Op, id: string)
    requires (op.SweepOp? || op.RevokeAllOp?) && id in s.byId
    ensures id in Step(cfg, s, op).byId && Framed(op, s.byId[id], Step(cfg, s, op).byId[id])
  {
  }

  lemma IssueFramed(cfg: Config, s: State, op: Op, id: string)
    requires Inv(cfg, s) && Admissible(s, op) && op.IssueOp? && id in s.byId
    ensures id in Step(cfg, s, op).byId && Framed(op, s.byId[id], Step(cfg, s, op).byId[id])
  {
    var evicted := Evict(cfg, s, op.request.operatorId, op.now);
    EvictFramed(cfg, s, op.request.operatorId, op.now, id);
    hide Inv, Evict, HasPolicy;
    IssueInsertsIff(cfg, s, op.request, op.id, op.token, op.now);
    assert Step(cfg, s, op).byId[id] == evicted.byId[id];
  }

  lemma EvictFramed(cfg: Config, s: State, operatorId: string, now: int, id: string)
    requires Inv(cfg, s) && id in s.byId
    ensures var t := Evict(cfg, s, operatorId, now);
            id in t.byId && (t.byId[id] == s.byId[id] ||
                             t.byId[id] == RevokedRecord(s.byId[id], PolicyViolation, now))
  {
    EvictsOldest(cfg, s, operatorId, now);
    hide Evict, ActiveSet, Consistent, Capped;
    forall other | other in s.byId ensures s.byId[other].id == other { StoredUnder(cfg, s, other); }
  }

  lemma StepFramed(cfg: Config, s: State, op: Op, id: string)
    requires Inv(cfg, s) && Admissible(s, op) && id in s.byId
    ensures id in Step(cfg, s, op).byId && Framed(op, s.byId[id], Step(cfg, s, op).byId[id])
  {
    hide Inv, Step, Framed, TargetStored;
    if op.IssueOp? {
      IssueFramed(cfg, s, op, id);
    } else if Single(op) {
      StoredUnder(cfg, s, id);
      TargetIsStored(cfg, s, op);
      SingleFramed(cfg, s, op, id);
    } else {
      BulkFramed(cfg, s, op, id);
    }
  }

  /** In every reachable state the indices agree, derived fields match, and no operator is over the
      cap; and from any reachable state on, a record that left `active` never becomes active again. */
  lemma {:induction false} RunKeepsInv(cfg: Config, s: State, ops: seq<Op>)
    requires Inv(cfg, s) && AdmissibleRun(cfg, s, ops)
    ensures Inv(cfg, Run(cfg, s, ops)) && Succeeds(s, Run(cfg, s, ops))
  {
    if ops != [] {
      var n := |ops| - 1;
      RunKeepsInv(cfg, s, ops[..n]);
      StepKeepsInv(cfg, Run(cfg, s, ops[..n]), ops[n]);
    }
  }

  // ---- The manager object ----------------------------------------------------------------

  class Manager {
    const cfg: Config
    var byId: map<string, Record>
    /** The insertion order of `byId`. */
    var idOrder: seq<string>
    var byToken: map<string, string>
    var byOperator: map<string, seq<string>>

    ghost function Model(): State
      reads this
    {
      State(byId, idOrder, byToken, byOperator)
    }

    ghost predicate Valid()
      reads this
    {
      Inv(cfg, Model())
    }

    constructor (cfg: Config)
      ensures Valid() && Model() == EMPTY && this.cfg == cfg
    {
      this.cfg := cfg;
      byId, idOrder, byToken, byOperator := map[], [], map[], map[];
      new;
      EmptyInv(cfg);
    }

    method UpsertRecord(r: Record)
      modifies this
      ensures Model() == Upsert(old(Model()), r)
    {
      if r.id !in byId { idOrder := idOrder + [r.id]; }
      byId := byId[r.id := r];
      byToken := byToken[r.token := r.id];
      var operatorCreds := if r.operatorId in byOperator then byOperator[r.operatorId] else [];
      if r.id !in operatorCreds { operatorCreds := operatorCreds + [r.id]; }
      byOperator := byOperator[r.operatorId := operatorCreds];
    }

    method MutateRecord(r: Record)
      requires r.id in byId
      modifies this`byId
      ensures Model() == Mutate(old(Model()), r)
    {
      byId := byId[r.id := r];
    }

    method GetActiveForOperator(operatorId: string) returns (active: seq<Record>)
      ensures active == ActiveFor(Model(), operatorId)
    {
      if operatorId !in byOperator { return []; }
      var ids := byOperator[operatorId];
      active := [];
      for i := 0 to |ids|
        invariant active == ActiveAmong(byId, ids[..i])
      {
        assert ids[..i + 1][..i] == ids[..i];
        if ids[i] in byId && byId[ids[i]].status == Active {
          active := active + [byId[ids[i]]];
        }
      }
      assert ids[..|ids|] == ids;
    }

    method IssueCredential(request: Request, id: string, token: string, now: int) returns (r: Record)
      requires Valid() && id !in byId && token !in byToken
      modifies this
      ensures Valid() && (Model(), r) == Issue(cfg, old(Model()), request, id, token, now)
    {
      ghost var before := Model();
      IssueKeepsInv(cfg, before, request, id, token, now);
      EvictKeepsInv(cfg, before, request.operatorId, now);
      ActiveForExact(before, request.operatorId);
      var created := NewRecord(cfg, request, id, token, now);
      var active := GetActiveForOperator(request.operatorId);
      if |active| >= cfg.maxConcurrentPerOperator {
        var sorted := SortBy(IssuedLe, active);
        if sorted != [] {
          SameMembers(sorted, active);
          assert sorted[0] in active;
          MutateRecord(RevokedRecord(sorted[0], PolicyViolation, now));
        }
      }
      assert Model() == Evict(cfg, before, request.operatorId, now);
      var current := GetActiveForOperator(request.operatorId);
      var existing := FirstWithHash(current, created.policyHash);
      if existing.Some? { return existing.value; }
      UpsertRecord(created);
      return created;
    }

    /** The body of the sweep loop: the record's replacement, if it is past a deadline. */
    method SweepRecord(record: Record, now: int) returns (replacement: Option<Record>)
      ensures replacement ==
              if SweptRecord(cfg, record, now) != record then Some(SweptRecord(cfg, record, now)) else None
    {
      if record.status != Active { return None; }
      if now >= record.expiresAt { return Some(record.(status := Expired)); }
      if now >= HeartbeatDeadline(cfg, record) { return Some(RevokedRecord(record, HeartbeatTimeout, now)); }
      return None;
    }

    /** The sweep loop, over any id order that lists the records once. */
    method SweepAll(now: int, ghost before: State) returns (swept: seq<Record>)
      requires before == Model() && OrderCovers(before)
      modifies this`byId
      ensures byId == Sweep(cfg, before, now).byId
      ensures swept == SweptAmong(cfg, before, before.order, now)
    {
      hide SweepPrefix, SweptAmong, SweptRecord, OrderCovers, Sweep;
      swept := [];
      NothingSwept(cfg, before, now);
      for i := 0 to |idOrder|
        invariant byId == SweepPrefix(cfg, before.byId, before.order[..i], now)
        invariant swept == SweptAmong(cfg, before, before.order[..i], now)
      {
        SweepVisit(cfg, before, i, now);
        var id := idOrder[i];
        var replacement := SweepRecord(byId[id], now);
        if replacement.Some? {
          byId := byId[id := replacement.value];
          swept := swept + [replacement.value];
        }
      }
      assert before.order[..|idOrder|] == before.order;
      SweepPrefixAll(cfg, before, now);
    }

    method SweepExpired(now: int) returns (swept: seq<Record>)
      requires Valid()
      modifies this`byId
      ensures Valid() && Model() == Sweep(cfg, old(Model()), now)
      ensures swept == SweptAmong(cfg, old(Model()), old(idOrder), now)
    {
      SweepKeepsInv(cfg, Model(), now);
      swept := SweepAll(now, Model());
    }

    /** The revocation loop over a list of stored records. */
    method RevokeEach(active: seq<Record>, ghost ids: set<string>, reason: Reason, now: int)
      returns (revoked: seq<Record>)
      requires forall k | 0 <= k < |active| :: active[k].id in byId && byId[active[k].id] == active[k]
      requires forall id :: (exists k | 0 <= k < |active| :: active[k].id == id) <==> id in ids
      modifies this`byId
      ensures byId == RevokeAmong(old(byId), ids, reason, now)
      ensures revoked == RevokedRecords(active, reason, now)
    {
      ghost var before := byId;
      ghost var done: set<string> := {};
      revoked := [];
      for i := 0 to |active|
        invariant byId == RevokeAmong(before, done, reason, now)
        invariant forall id :: id in done <==> exists k | 0 <= k < i :: active[k].id == id
        invariant revoked == RevokedRecords(active[..i], reason, now)
      {
        var r := RevokedRecord(byId[active[i].id], reason, now);
        RevokeAmongAdd(before, done, active[i].id, reason, now);
        byId := byId[active[i].id := r];
        revoked := revoked + [r];
        done := done + {active[i].id};
      }
      assert done == ids;
      assert active[..|active|] == active;
    }

    /** Returns the new versions of the operator's active records, in index order. */
    method RevokeAllCredentials(operatorId: string, reason: Reason, now: int) returns (revoked: seq<Record>)
      requires Valid()
      modifies this`byId
      ensures Valid() && Model() == RevokeAll(old(Model()), operatorId, reason, now)
      ensures revoked == RevokedRecords(ActiveFor(old(Model()), operatorId), reason, now)
    {
      ghost var before := Model();
      RevokeAllKeepsInv(cfg, before, operatorId, reason, now);
      var active := GetActiveForOperator(operatorId);
      ActiveIds(before, operatorId);
      RevokeAllByIds(before, operatorId, reason, now);
      revoked := RevokeEach(active, ActiveSet(byId, operatorId), reason, now);
    }

    method GetCredentialByToken(token: string, now: int) returns (answer: Answer)
      requires Valid()
      modifies this
      ensures Valid() && (Model(), answer) == ByToken(old(Model()), token, now)
    {
      hide Inv;
      SingleStepKeepsInv(cfg, Model(), ByTokenOp(token, now));
      if token !in byToken || byToken[token] !in byId { return NotFound; }
      StoredUnder(cfg, Model(), byToken[token]);
      var record := byId[byToken[token]];
      if now >= record.expiresAt {
        MutateRecord(record.(status := Expired));
        return ExpiredCredential;
      }
      if record.status != Active { return ExpiredCredential; }
      return Found(record);
    }

    method RenewCredential(id: string, now: int) returns (answer: Answer)
      requires Valid()
      modifies this
      ensures Valid() && (Model(), answer) == Renew(cfg, old(Model()), id, now)
    {
      hide Inv;
      SingleStepKeepsInv(cfg, Model(), RenewOp(id, now));
      if id !in byId { return NotFound; }
      StoredUnder(cfg, Model(), id);
      var record := byId[id];
      if record.status != Active { return ExpiredCredential; }
      if record.expiresAt - now > cfg.renewalWindowSeconds * 1000 { return NotInWindow; }
      MutateRecord(record.(expiresAt := now + record.ttlMs));
      return Found(byId[id]);
    }

    method RecordHeartbeat(id: string, now: int) returns (answer: Answer)
      requires Valid()
      modifies this
      ensures Valid() && (Model(), answer) == Heartbeat(old(Model()), id, now)
    {
      hide Inv;
      SingleStepKeepsInv(cfg, Model(), HeartbeatOp(id, now));
      if id !in byId { return NotFound; }
      StoredUnder(cfg, Model(), id);
      var record := byId[id];
      if record.status != Active { return ExpiredCredential; }
      MutateRecord(record.(lastHeartbeat := now));
      return Found(byId[id]);
    }

    method UpdateCredentialScopes(id: string, scopes: ScopeSet) returns (answer: Answer)
      requires Valid()
      modifies this
      ensures Valid() && (Model(), answer) == UpdateScopes(cfg, old(Model()), id, scopes)
    {
      hide Inv;
      SingleStepKeepsInv(cfg, Model(), UpdateScopesOp(id, scopes));
      if id !in byId { return NotFound; }
      StoredUnder(cfg, Model(), id);
      var record := byId[id];
      if record.status != Active { return ExpiredCredential; }
      var resolved := ResolveScopeSet(scopes);
      var hash := cfg.policyHash(scopes, record.chatIds);
      MutateRecord(record.(scopes := scopes, resolved := resolved, policyHash := hash));
      return Found(byId[id]);
    }

    method RevokeCredential(id: string, reason: Reason, now: int) returns (answer: Answer)
      requires Valid()
      modifies this
      ensures Valid() && (Model(), answer) == Revoke(old(Model()), id, reason, now)
    {
      hide Inv;
      SingleStepKeepsInv(cfg, Model(), RevokeOp(id, reason, now));
      if id !in byId { return NotFound; }
      StoredUnder(cfg, Model(), id);
      MutateRecord(RevokedRecord(byId[id], reason, now));
      return Found(byId[id]);
    }
  }
}
