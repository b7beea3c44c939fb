/** The credential service (packages/sessions/src/service.ts) and the update-scopes action
    (packages/sessions/src/update-actions.ts) over the credential manager: over any run of these
    calls the effective scopes of a credential only shrink. */
module CredentialService {
  import opened Sequences
  import opened ScopeDelta
  import opened Materiality
  import opened Store = CredentialStore
  import Canonical

  /** The outcome of resolving an optional `policyId`. */
  datatype PolicyRef = NoPolicy | MissingPolicy | Policy(scopes: ScopeSet)

  /** `resolvePolicy`: inline lists are appended to the policy's. */
  function ResolvePolicy(policy: ScopeSet, allow: Option<seq<Scope>>, deny: Option<seq<Scope>>): ScopeSet {
    ScopeSet(policy.allow + OrElse(allow, []), policy.deny + OrElse(deny, []))
  }

  /** A partial config; `unsupported` says that operator, chats or TTL are present. */
  datatype Changes = Changes(unsupported: bool, allow: Option<seq<Scope>>, deny: Option<seq<Scope>>, policy: PolicyRef)

  datatype Reply = Ok(r: Record) | Missing | Invalid | Inactive

  function ToReply(a: Answer): Reply {
    match a
    case Found(r) => Ok(r)
    case NotFound => Missing
    case _ => Inactive
  }

  // ---- Service calls ---------------------------------------------------------------------

  function IssueCall(cfg: Config, s: State, request: Request, policy: PolicyRef, id: string, token: string, now: int)
    : (State, Reply)
  {
    var swept := Sweep(cfg, s, now);
    match policy
    case MissingPolicy => (swept, Missing)
    case NoPolicy =>
      var (t, r) := Issue(cfg, swept, request, id, token, now);
      (t, Ok(r))
    case Policy(scopes) =>
      var merged := ResolvePolicy(scopes, request.allow, request.deny);
      var (t, r) := Issue(cfg, swept, request.(allow := Some(merged.allow), deny := Some(merged.deny)), id, token, now);
      (t, Ok(r))
  }

  /** The materiality gate: escalations revoke, everything else is applied in place. */
  function Gate(cfg: Config, s: State, id: string, next: ScopeSet, now: int): (State, Answer)
    requires id in s.byId
  {
    if CheckOf(s.byId[id].scopes, next).requiresReauthorization
    then Revoke(s, id, ReauthorizationRequired, now)
    else UpdateScopes(cfg, s, id, next)
  }

  /** The scopes an update asks for. */
  function NextScopes(current: Record, changes: Changes): ScopeSet {
    if changes.policy.Policy? then ResolvePolicy(changes.policy.scopes, changes.allow, changes.deny)
    else ScopeSet(OrElse(changes.allow, current.scopes.allow), OrElse(changes.deny, current.scopes.deny))
  }

  function UpdateCall(cfg: Config, s: State, id: string, changes: Changes, now: int): (State, Reply) {
    if id !in s.byId then (s, Missing)
    else if changes.unsupported then (s, Invalid)
    else if changes.allow.None? && changes.deny.None? && changes.policy.NoPolicy? then (s, Ok(s.byId[id]))
    else if changes.policy.MissingPolicy? then (s, Missing)
    else
      var (t, a) := Gate(cfg, s, id, NextScopes(s.byId[id], changes), now);
      (t, ToReply(a))
  }

  function UpdateScopesAction(cfg: Config, s: State, id: string, scopes: ScopeSet, now: int): (State, Reply) {
    var swept := Sweep(cfg, s, now);
    if id !in swept.byId then (swept, Missing)
    else if swept.byId[id].status != Active then (swept, Inactive)
    else
      var (t, a) := Gate(cfg, swept, id, scopes, now);
      (t, ToReply(a))
  }

  /** What a gated update does to its credential: a request for any scope that was not effective
      revokes it and keeps its old scopes; otherwise an active credential takes the new scopes and
      an inactive one stays as it is. */
  lemma GateDecision(cfg: Config, s: State, id: string, next: ScopeSet, now: int)
    requires Inv(cfg, s) && id in s.byId
    ensures var r, t := s.byId[id], Gate(cfg, s, id, next, now).0;
            && t.byId[id] == (if !(Effective(next) <= r.resolved) then RevokedRecord(r, ReauthorizationRequired, now)
                              else if r.status == Active then RescopedRecord(cfg, r, next)
                              else r)
            && (forall other | other in s.byId && other != id :: t.byId[other] == s.byId[other])
  {
    ReauthorizationIffEscalation(s.byId[id].scopes, next);
    assert RecordIndexed(s, id);
  }

  // ---- Runs ------------------------------------------------------------------------------

  datatype Call =
    | IssueC(request: Request, policy: PolicyRef, id: string, token: string, now: int)
    | ListC(now: int)
    | LookupC(now: int)
    | LookupByTokenC(token: string, now: int)
    | RevokeC(id: string, reason: Reason, now: int)
    | UpdateC(id: string, changes: Changes, now: int)
    | RenewC(id: string, now: int)
    | UpdateScopesC(id: string, scopes: ScopeSet, now: int)
    | HeartbeatC(id: string, now: int)
    | RevokeAllC(operatorId: string, reason: Reason, now: int)

  function Step(cfg: Config, s: State, call: Call): State {
    match call
    case IssueC(request, policy, id, token, now) => IssueCall(cfg, s, request, policy, id, token, now).0
    case ListC(now) => Sweep(cfg, s, now)
    case LookupC(now) => Sweep(cfg, s, now)
    case LookupByTokenC(token, now) => ByToken(s, token, now).0
    case RevokeC(id, reason, now) => Revoke(s, id, reason, now).0
    case UpdateC(id, changes, now) => UpdateCall(cfg, s, id, changes, now).0
    case RenewC(id, now) => Renew(cfg, s, id, now).0
    case UpdateScopesC(id, scopes, now) => UpdateScopesAction(cfg, s, id, scopes, now).0
    case HeartbeatC(id, now) => Heartbeat(s, id, now).0
    case RevokeAllC(operatorId, reason, now) => RevokeAll(s, operatorId, reason, now)
  }

  function Run(cfg: Config, s: State, calls: seq<Call>): State {
    if calls == [] then s else Step(cfg, Run(cfg, s, calls[..|calls| - 1]), calls[|calls| - 1])
  }

  ghost predicate Admissible(s: State, call: Call) {
    call.IssueC? ==> call.id !in s.byId && call.token !in s.byToken
  }

  ghost predicate AdmissibleRun(cfg: Config, s: State, calls: seq<Call>) {
    calls == [] ||
    (AdmissibleRun(cfg, s, calls[..|calls| - 1]) && Admissible(Run(cfg, s, calls[..|calls| - 1]), calls[|calls| - 1]))
  }

  /** The credential survives, does not come back to life, and gains no effective scope. */
  ghost predicate Narrows(r: Record, r': Record) {
    Evolves(r, r') && r'.resolved <= r.resolved
  }

  ghost predicate AllNarrow(s: State, t: State) {
    forall id | id in s.byId :: id in t.byId && Narrows(s.byId[id], t.byId[id])
  }

  lemma SweepNarrows(cfg: Config, s: State, now: int)
    requires Inv(cfg, s)
    ensures Inv(cfg, Sweep(cfg, s, now)) && AllNarrow(s, Sweep(cfg, s, now))
    ensures Sweep(cfg, s, now).byId.Keys == s.byId.Keys && Sweep(cfg, s, now).byToken == s.byToken
  {
    SweepKeepsInv(cfg, s, now);
    SweptNarrow(cfg, s, now);
  }

  lemma SweptNarrow(cfg: Config, s: State, now: int)
    ensures AllNarrow(s, Sweep(cfg, s, now))
  {
    forall id | id in s.byId ensures Narrows(s.byId[id], SweptRecord(cfg, s.byId[id], now)) {
      SweptEvolves(cfg, s.byId[id], now);
    }
  }

  /** Replacing one record by a narrower one. */
  lemma MutateNarrows(s: State, r: Record)
    requires r.id in s.byId && Narrows(s.byId[r.id], r)
    ensures AllNarrow(s, Mutate(s, r))
  {
  }

  lemma StoredUnderId(cfg: Config, s: State, id: string)
    requires Inv(cfg, s) && id in s.byId
    ensures s.byId[id].id == id && Consistent(cfg, s.byId[id])
  {
    assert RecordIndexed(s, id);
  }

  lemma GateKeepsInv(cfg: Config, s: State, id: string, next: ScopeSet, now: int)
    requires Inv(cfg, s) && id in s.byId
    ensures Inv(cfg, Gate(cfg, s, id, next, now).0)
  {
    hide Inv, Gate, Store.Step;
    SingleStepKeepsInv(cfg, s, GateOp(s, id, next, now));
    GateIsStep(cfg, s, id, next, now);
  }

  /** The manager operation a gated update turns into. */
  function GateOp(s: State, id: string, next: ScopeSet, now: int): Op
    requires id in s.byId
    ensures GateOp(s, id, next, now).RevokeOp? || GateOp(s, id, next, now).UpdateScopesOp?
  {
    if CheckOf(s.byId[id].scopes, next).requiresReauthorization
    then RevokeOp(id, ReauthorizationRequired, now)
    else UpdateScopesOp(id, next)
  }

  lemma GateIsStep(cfg: Config, s: State, id: string, next: ScopeSet, now: int)
    requires id in s.byId
    ensures Gate(cfg, s, id, next, now).0 == Store.Step(cfg, s, GateOp(s, id, next, now))
  {
  }

  lemma GateNarrows(cfg: Config, s: State, id: string, next: ScopeSet, now: int)
    requires Inv(cfg, s) && id in s.byId
    ensures Inv(cfg, Gate(cfg, s, id, next, now).0) && AllNarrow(s, Gate(cfg, s, id, next, now).0)
  {
    hide Inv, Gate, AllNarrow, Consistent;
    GateKeepsInv(cfg, s, id, next, now);
    StoredUnderId(cfg, s, id);
    GateResolves(cfg, s, s.byId[id], next, now);
  }

  lemma GateResolves(cfg: Config, s: State, r: Record, next: ScopeSet, now: int)
    requires r.id in s.byId && s.byId[r.id] == r && Consistent(cfg, r)
    ensures AllNarrow(s, Gate(cfg, s, r.id, next, now).0)
  {
    ReauthorizationIffEscalation(r.scopes, next);
    if CheckOf(r.scopes, next).requiresReauthorization {
      MutateNarrows(s, RevokedRecord(r, ReauthorizationRequired, now));
    } else if r.status == Active {
      MutateNarrows(s, RescopedRecord(cfg, r, next));
    }
  }

  lemma IssueNarrows(cfg: Config, s: State, request: Request, id: string, token: string, now: int)
    requires Inv(cfg, s) && id !in s.byId && token !in s.byToken
    ensures Inv(cfg, Issue(cfg, s, request, id, token, now).0) && AllNarrow(s, Issue(cfg, s, request, id, token, now).0)
  {
    IssueKeepsInv(cfg, s, request, id, token, now);
    IssueInsertsIff(cfg, s, request, id, token, now);
    EvictKeepsInv(cfg, s, request.operatorId, now);
    EvictNarrows(cfg, s, request.operatorId, now);
  }

  lemma EvictNarrows(cfg: Config, s: State, op: string, now: int)
    requires Inv(cfg, s)
    ensures AllNarrow(s, Evict(cfg, s, op, now))
  {
    EvictsOldest(cfg, s, op, now);
    if |ActiveSet(s.byId, op)| >= cfg.maxConcurrentPerOperator && ActiveSet(s.byId, op) != {} {
      var id :| id in ActiveSet(s.byId, op)
        && Evict(cfg, s, op, now) == Mutate(s, RevokedRecord(s.byId[id], PolicyViolation, now));
      StoredUnderId(cfg, s, id);
      MutateNarrows(s, RevokedRecord(s.byId[id], PolicyViolation, now));
    }
  }

  lemma NarrowsTransitively(s: State, t: State, u: State)
    requires AllNarrow(s, t) && AllNarrow(t, u)
    ensures AllNarrow(s, u)
  {
  }

  lemma IssueCallNarrows(cfg: Config, s: State, call: Call)
    requires Inv(cfg, s) && Admissible(s, call) && call.IssueC?
    ensures Inv(cfg, Step(cfg, s, call)) && AllNarrow(s, Step(cfg, s, call))
  {
    var swept := Sweep(cfg, s, call.now);
    SweepNarrows(cfg, s, call.now);
    if !call.policy.MissingPolicy? {
      var request := if call.policy.NoPolicy? then call.request else
                     var merged := ResolvePolicy(call.policy.scopes, call.request.allow, call.request.deny);
                     call.request.(allow := Some(merged.allow), deny := Some(merged.deny));
      IssueNarrows(cfg, swept, request, call.id, call.token, call.now);
      NarrowsTransitively(s, swept, Step(cfg, s, call));
    }
  }

  lemma UpdateCallNarrows(cfg: Config, s: State, id: string, changes: Changes, now: int)
    requires Inv(cfg, s)
    ensures var t := UpdateCall(cfg, s, id, changes, now).0; Inv(cfg, t) && AllNarrow(s, t)
  {
    var t := UpdateCall(cfg, s, id, changes, now).0;
    if id !in s.byId || changes.unsupported || changes.policy.MissingPolicy?
       || (changes.allow.None? && changes.deny.None? && changes.policy.NoPolicy?) {
      assert t == s;
      AllNarrowRefl(s);
    } else {
      var next := NextScopes(s.byId[id], changes);
      assert t == Gate(cfg, s, id, next, now).0;
      GateNarrows(cfg, s, id, next, now);
    }
  }

  lemma AllNarrowRefl(s: State)
    ensures AllNarrow(s, s)
  {
  }

  lemma ActionNarrows(cfg: Config, s: State, id: string, scopes: ScopeSet, now: int)
    requires Inv(cfg, s)
    ensures var t := UpdateScopesAction(cfg, s, id, scopes, now).0; Inv(cfg, t) && AllNarrow(s, t)
  {
    var swept := Sweep(cfg, s, now);
    SweepNarrows(cfg, s, now);
    if id in swept.byId && swept.byId[id].status == Active {
      GateNarrows(cfg, swept, id, scopes, now);
      NarrowsTransitively(s, swept, Gate(cfg, swept, id, scopes, now).0);
    }
  }

  function AsOp(call: Call): Op
    requires call.LookupByTokenC? || call.RevokeC? || call.RenewC? || call.HeartbeatC?
  {
    match call
    case LookupByTokenC(token, now) => ByTokenOp(token, now)
    case RevokeC(id, reason, now) => RevokeOp(id, reason, now)
    case RenewC(id, now) => RenewOp(id, now)
    case HeartbeatC(id, now) => HeartbeatOp(id, now)
  }

  lemma OneCallNarrows(cfg: Config, s: State, call: Call, id: string)
    requires call.RevokeC? || call.RenewC? || call.HeartbeatC?
    requires id == call.id && (id in s.byId ==> s.byId[id].id == id)
    ensures AllNarrow(s, Step(cfg, s, call))
  {
    AllNarrowRefl(s);
    if id in s.byId {
      var r := s.byId[id];
      match call {
        case RevokeC(_, reason, now) => MutateNarrows(s, RevokedRecord(r, reason, now));
        case RenewC(_, now) => MutateNarrows(s, r.(expiresAt := now + r.ttlMs));
        case HeartbeatC(_, now) => MutateNarrows(s, r.(lastHeartbeat := now));
      }
    }
  }

  lemma LookupNarrows(s: State, token: string, now: int)
    requires Indexed(s)
    ensures AllNarrow(s, ByToken(s, token, now).0)
  {
    AllNarrowRefl(s);
    if token in s.byToken && s.byToken[token] in s.byId {
      var id := s.byToken[token];
      assert RecordIndexed(s, id);
      MutateNarrows(s, s.byId[id].(status := Expired));
    }
  }

  lemma StepOfCall(cfg: Config, s: State, call: Call)
    requires call.LookupByTokenC? || call.RevokeC? || call.RenewC? || call.HeartbeatC?
    ensures Step(cfg, s, call) == Store.Step(cfg, s, AsOp(call))
    ensures call.LookupByTokenC? ==> Step(cfg, s, call) == ByToken(s, call.token, call.now).0
  {
    hide ByToken, Revoke, Renew, Heartbeat;
  }

  lemma IsIndexed(cfg: Config, s: State)
    requires Inv(cfg, s)
    ensures Indexed(s)
  {
  }

  /** Calls that leave scopes alone. */
  lemma OtherCallNarrows(cfg: Config, s: State, call: Call)
    requires Inv(cfg, s)
    requires call.LookupByTokenC? || call.RevokeC? || call.RenewC? || call.HeartbeatC?
    ensures Inv(cfg, Step(cfg, s, call)) && AllNarrow(s, Step(cfg, s, call))
  {
    IsIndexed(cfg, s);
    StepOfCall(cfg, s, call);
    hide Inv, Indexed, AllNarrow, InPlace, Step, Store.Step;
    SingleStepKeepsInv(cfg, s, AsOp(call));
    if call.LookupByTokenC? {
      LookupNarrows(s, call.token, call.now);
    } else {
      if call.id in s.byId { StoredUnderId(cfg, s, call.id); }
      OneCallNarrows(cfg, s, call, call.id);
    }
  }

  lemma RevokeAllNarrows(cfg: Config, s: State, op: string, reason: Reason, now: int)
    requires Inv(cfg, s)
    ensures Inv(cfg, RevokeAll(s, op, reason, now)) && AllNarrow(s, RevokeAll(s, op, reason, now))
  {
    RevokeAllKeepsInv(cfg, s, op, reason, now);
  }

  lemma StepNarrows(cfg: Config, s: State, call: Call)
    requires Inv(cfg, s) && Admissible(s, call)
    ensures Inv(cfg, Step(cfg, s, call)) && AllNarrow(s, Step(cfg, s, call))
  {
    match call {
      case IssueC(_, _, _, _, _) => IssueCallNarrows(cfg, s, call);
      case ListC(now) => SweepNarrows(cfg, s, now);
      case LookupC(now) => SweepNarrows(cfg, s, now);
      case UpdateC(id, changes, now) => UpdateCallNarrows(cfg, s, id, changes, now);
      case UpdateScopesC(id, scopes, now) => ActionNarrows(cfg, s, id, scopes, now);
      case RevokeAllC(op, reason, now) => RevokeAllNarrows(cfg, s, op, reason, now);
      case _ => OtherCallNarrows(cfg, s, call);
    }
  }

  /** Over any run of service calls and update-scopes actions, every credential's effective scopes
      stay within those it had at any earlier point, its issuance included. */
  lemma {:induction false} ScopesOnlyShrink(cfg: Config, s: State, calls: seq<Call>)
    requires Inv(cfg, s) && AdmissibleRun(cfg, s, calls)
    ensures Inv(cfg, Run(cfg, s, calls)) && AllNarrow(s, Run(cfg, s, calls))
  {
    if calls != [] {
      var t := Run(cfg, s, calls[..|calls| - 1]);
      ScopesOnlyShrink(cfg, s, calls[..|calls| - 1]);
      StepNarrows(cfg, t, calls[|calls| - 1]);
      NarrowsTransitively(s, t, Run(cfg, s, calls));
    }
  }

  // ---- What a call grants ------------------------------------------------------------------

  /** The scopes listed by a policy, if there is one, and inline. */
  function Allowed(policy: PolicyRef, inline: Option<seq<Scope>>): set<Scope> {
    (if policy.Policy? then Elems(policy.scopes.allow) else {}) + Elems(OrElse(inline, []))
  }

  function Denied(policy: PolicyRef, inline: Option<seq<Scope>>): set<Scope> {
    (if policy.Policy? then Elems(policy.scopes.deny) else {}) + Elems(OrElse(inline, []))
  }

  lemma MergedElems(policy: ScopeSet, allow: Option<seq<Scope>>, deny: Option<seq<Scope>>)
    ensures var merged := ResolvePolicy(policy, allow, deny);
            && Elems(merged.allow) == Allowed(Policy(policy), allow)
            && Elems(merged.deny) == Denied(Policy(policy), deny)
  {
  }

  /** `issue` answers with a credential unless the policy is missing. A new one grants exactly what the
      policy and the request allow together and neither denies; every credential that was past a
      deadline is inactive afterwards. */
  lemma IssueGrants(cfg: Config, s: State, request: Request, policy: PolicyRef, id: string, token: string, now: int)
    requires Inv(cfg, s) && id !in s.byId && token !in s.byToken
    ensures var (t, reply) := IssueCall(cfg, s, request, policy, id, token, now);
            && (reply.Ok? <==> !policy.MissingPolicy?) && (!reply.Ok? ==> reply == Missing)
            && (reply.Ok? ==> reply.r.status == Active && reply.r.operatorId == request.operatorId)
            && (reply.Ok? && reply.r.id == id ==>
                  && id in t.byId && t.byId[id] == reply.r && reply.r.chatIds == request.chatIds
                  && reply.r.resolved == Allowed(policy, request.allow) - Denied(policy, request.deny))
            && (reply.Ok? && reply.r.id != id ==> reply.r.id in s.byId && t.byId.Keys == s.byId.Keys)
            && forall other | other in s.byId && PastDeadline(cfg, s.byId[other], now) ::
                 other in t.byId && t.byId[other].status != Active
  {
    var swept := Sweep(cfg, s, now);
    SweepNarrows(cfg, s, now);
    SweptInactive(cfg, s, now);
    if !policy.MissingPolicy? {
      var merged := if policy.Policy? then ResolvePolicy(policy.scopes, request.allow, request.deny)
                    else ScopeSet(OrElse(request.allow, []), OrElse(request.deny, []));
      if policy.Policy? { MergedElems(policy.scopes, request.allow, request.deny); }
      hide Inv, Sweep, Issue, AllNarrow, PastDeadline, ResolvePolicy;
      var asked := if policy.Policy? then request.(allow := Some(merged.allow), deny := Some(merged.deny)) else request;
      IssueAnswers(cfg, swept, asked, id, token, now);
    }
  }

  lemma SweptInactive(cfg: Config, s: State, now: int)
    requires Inv(cfg, s)
    ensures forall other | other in s.byId && PastDeadline(cfg, s.byId[other], now) ::
              other in Sweep(cfg, s, now).byId && Sweep(cfg, s, now).byId[other].status != Active
  {
  }

  /** What the manager answers, and that issuing brings no record back. */
  lemma IssueAnswers(cfg: Config, s: State, request: Request, id: string, token: string, now: int)
    requires Inv(cfg, s) && id !in s.byId && token !in s.byToken
    ensures var (t, r) := Issue(cfg, s, request, id, token, now);
            && r.status == Active && r.operatorId == request.operatorId
            && (r.id == id ==>
                  && id in t.byId && t.byId[id] == r && r.chatIds == request.chatIds
                  && r.resolved == Elems(OrElse(request.allow, [])) - Elems(OrElse(request.deny, [])))
            && (r.id != id ==> r.id in s.byId && t.byId.Keys == s.byId.Keys)
            && forall other | other in s.byId ::
                 other in t.byId && (t.byId[other].status == Active ==> s.byId[other].status == Active)
  {
    IssueNarrows(cfg, s, request, id, token, now);
    IssueKeepsInv(cfg, s, request, id, token, now);
    EvictKeepsInv(cfg, s, request.operatorId, now);
    IssueInsertsIff(cfg, s, request, id, token, now);
    if Issue(cfg, s, request, id, token, now).1.id == id { IssuedTerms(cfg, s, request, id, token, now, now); }
    hide Inv, Issue, Evict, HasPolicy, ActiveSet;
  }

  /** The gate, applied to an active credential: when every requested scope was effective it takes
      exactly the requested ones, and otherwise it is revoked and keeps the old. */
  lemma GateOutcome(cfg: Config, s: State, id: string, next: ScopeSet, now: int)
    requires Inv(cfg, s) && id in s.byId && s.byId[id].status == Active
    ensures var r, (t, a) := s.byId[id], Gate(cfg, s, id, next, now);
            var resolved, hash := Elems(next.allow) - Elems(next.deny), cfg.policyHash(next, r.chatIds);
            var why := Some(ReauthorizationRequired);
            && id in t.byId && a == Found(t.byId[id]) && t.byId - {id} == s.byId - {id}
            && t.byId[id] == (if resolved <= r.resolved
                              then r.(scopes := next, resolved := resolved, policyHash := hash)
                              else r.(status := Revoked, reason := why, revokedAt := Some(now)))
  {
    GateDecision(cfg, s, id, next, now);
    ReauthorizationIffEscalation(s.byId[id].scopes, next);
    StoredUnderId(cfg, s, id);
    RevokeOutcome(cfg, s, id, ReauthorizationRequired, now);
    UpdateScopesOutcome(cfg, s, id, next);
  }

  /** The scopes an update asks for: with a policy, its lists and the given ones together; without, each
      list that is given, and the current one where none is. */
  ghost function Asked(current: Record, changes: Changes): set<Scope> {
    if changes.policy.Policy? then Allowed(changes.policy, changes.allow) - Denied(changes.policy, changes.deny)
    else (if changes.allow.Some? then Elems(changes.allow.value) else Elems(current.scopes.allow))
         - (if changes.deny.Some? then Elems(changes.deny.value) else Elems(current.scopes.deny))
  }

  lemma AskedIs(current: Record, changes: Changes)
    ensures var next := NextScopes(current, changes);
            Asked(current, changes) == Elems(next.allow) - Elems(next.deny) == Effective(next)
  {
    if changes.policy.Policy? { MergedElems(changes.policy.scopes, changes.allow, changes.deny); }
  }

  /** `update` of an active credential: refused for unsupported changes and for a missing policy, empty
      changes change nothing, and otherwise it is left with exactly the scopes asked for, when all of
      them were effective, and revoked with its old scopes when not. */
  lemma UpdateOutcome(cfg: Config, s: State, id: string, changes: Changes, now: int)
    requires Inv(cfg, s) && id in s.byId && s.byId[id].status == Active
    ensures var (t, reply) := UpdateCall(cfg, s, id, changes, now);
            var empty := changes.allow.None? && changes.deny.None? && changes.policy.NoPolicy?;
            && (reply == Invalid <==> changes.unsupported)
            && (reply == Missing <==> !changes.unsupported && changes.policy.MissingPolicy?)
            && (reply.Ok? <==> !changes.unsupported && !changes.policy.MissingPolicy?)
            && (!reply.Ok? || empty ==> t == s)
            && (reply.Ok? ==> id in t.byId && reply.r == t.byId[id] && t.byId - {id} == s.byId - {id})
            && (reply.Ok? && !empty ==>
                  if Asked(s.byId[id], changes) <= s.byId[id].resolved
                  then t.byId[id].status == Active && t.byId[id].resolved == Asked(s.byId[id], changes)
                  else t.byId[id].status == Revoked && t.byId[id].resolved == s.byId[id].resolved)
  {
    AskedIs(s.byId[id], changes);
    hide Inv, Gate, ResolvePolicy, NextScopes, Asked;
    GateOutcome(cfg, s, id, NextScopes(s.byId[id], changes), now);
  }

  /** `update` of an inactive credential: a request for more than was effective revokes it all the same,
      any other is refused and changes nothing. */
  lemma UpdateInactive(cfg: Config, s: State, id: string, changes: Changes, now: int)
    requires Inv(cfg, s) && id in s.byId && s.byId[id].status != Active
    requires !changes.unsupported && !changes.policy.MissingPolicy?
    requires changes.allow.Some? || changes.deny.Some? || changes.policy.Policy?
    ensures var (t, reply) := UpdateCall(cfg, s, id, changes, now);
            if Asked(s.byId[id], changes) <= s.byId[id].resolved then t == s && reply == Inactive
            else id in t.byId && t.byId[id].status == Revoked && reply == Ok(t.byId[id])
                 && t.byId[id].resolved == s.byId[id].resolved
  {
    AskedIs(s.byId[id], changes);
    var next := NextScopes(s.byId[id], changes);
    ReauthorizationIffEscalation(s.byId[id].scopes, next);
    StoredUnderId(cfg, s, id);
    RevokeOutcome(cfg, s, id, ReauthorizationRequired, now);
    UpdateScopesOutcome(cfg, s, id, next);
    hide Inv, ResolvePolicy, Revoke, UpdateScopes, NextScopes, Asked, CheckOf;
  }

  /** The update-scopes action sweeps first: it reaches the gate exactly for a stored credential that is
      active and not past a deadline. */
  lemma ActionOutcome(cfg: Config, s: State, id: string, next: ScopeSet, now: int)
    requires Inv(cfg, s)
    ensures var (t, reply) := UpdateScopesAction(cfg, s, id, next, now);
            var resolved := Elems(next.allow) - Elems(next.deny);
            && (reply == Missing <==> id !in s.byId)
            && (reply.Ok? <==> id in s.byId && s.byId[id].status == Active && !PastDeadline(cfg, s.byId[id], now))
            && (!reply.Ok? ==> t == Sweep(cfg, s, now))
            && (reply.Ok? ==>
                  && id in t.byId && reply.r == t.byId[id]
                  && (if resolved <= s.byId[id].resolved
                      then t.byId[id].status == Active && t.byId[id].resolved == resolved
                      else t.byId[id].status == Revoked && t.byId[id].resolved == s.byId[id].resolved))
  {
    var swept := Sweep(cfg, s, now);
    SweepNarrows(cfg, s, now);
    if id in s.byId { SweptRecordExact(cfg, s.byId[id], now); }
    if id in s.byId && swept.byId[id].status == Active { GateOutcome(cfg, swept, id, next, now); }
    hide Inv, Gate;
  }

  // ---- Deduplication by policy text ------------------------------------------------------

  /** `computePolicyHash` hashes the canonical policy text. */
  ghost predicate HashesText(cfg: Config, hash: string -> string, arrays: Canonical.Arrays) {
    forall scopes, chatIds ::
      cfg.policyHash(scopes, chatIds) == hash(Canonical.PolicyText(scopes.allow, scopes.deny, chatIds, arrays))
  }

  /** Requests that list the same scopes and chats, in any order, share a policy hash, and for a hash
      without collision on the two texts only those do, if the comparison that sorts the lists ties
      no two different entries of one of them. */
  lemma SharedHashIff(cfg: Config, hash: string -> string, arrays: Canonical.Arrays,
                      s1: ScopeSet, c1: seq<string>, s2: ScopeSet, c2: seq<string>)
    requires arrays.AsBags? && Canonical.Ordered(arrays) && HashesText(cfg, hash, arrays)
    requires Canonical.UntiedStrings(s1.allow, arrays) && Canonical.UntiedStrings(s1.deny, arrays)
    requires Canonical.UntiedStrings(c1, arrays)
    requires var x, y := Canonical.PolicyText(s1.allow, s1.deny, c1, arrays),
                         Canonical.PolicyText(s2.allow, s2.deny, c2, arrays);
             hash(x) == hash(y) ==> x == y
    ensures cfg.policyHash(s1, c1) == cfg.policyHash(s2, c2) <==>
            && multiset(s1.allow) == multiset(s2.allow) && multiset(s1.deny) == multiset(s2.deny)
            && multiset(c1) == multiset(c2)
  {
    hide Canonical.PolicyText;
    Canonical.PolicyTextIff(s1.allow, s1.deny, c1, s2.allow, s2.deny, c2, arrays);
  }

  // ---- The service object ----------------------------------------------------------------

  class Service {
    const manager: Manager

    constructor (manager: Manager)
      ensures this.manager == manager
    {
      this.manager := manager;
    }

    /** The shared tail of `update` and the update-scopes action. */
    method ApplyGate(id: string, next: ScopeSet, now: int) returns (answer: Answer)
      requires manager.Valid() && id in manager.byId
      modifies manager
      ensures manager.Valid() && (manager.Model(), answer) == Gate(manager.cfg, old(manager.Model()), id, next, now)
    {
      var check := CheckMateriality(manager.byId[id].scopes, next);
      if check.requiresReauthorization {
        answer := manager.RevokeCredential(id, ReauthorizationRequired, now);
      } else {
        answer := manager.UpdateCredentialScopes(id, next);
      }
    }

    method Update(id: string, changes: Changes, now: int) returns (reply: Reply)
      requires manager.Valid()
      modifies manager
      ensures manager.Valid()
      ensures (manager.Model(), reply) == UpdateCall(manager.cfg, old(manager.Model()), id, changes, now)
    {
      if id !in manager.byId { return Missing; }
      var current := manager.byId[id];
      if changes.unsupported { return Invalid; }
      if changes.allow.None? && changes.deny.None? && changes.policy.NoPolicy? { return Ok(current); }
      if changes.policy.MissingPolicy? { return Missing; }
      var answer := ApplyGate(id, NextScopes(current, changes), now);
      return ToReply(answer);
    }

    method UpdateScopes(id: string, scopes: ScopeSet, now: int) returns (reply: Reply)
      requires manager.Valid()
      modifies manager
      ensures manager.Valid()
      ensures (manager.Model(), reply) == UpdateScopesAction(manager.cfg, old(manager.Model()), id, scopes, now)
    {
      var swept := manager.SweepExpired(now);
      if id !in manager.byId { return Missing; }
      if manager.byId[id].status != Active { return Inactive; }
      var answer := ApplyGate(id, scopes, now);
      return ToReply(answer);
    }

    method Issue(request: Request, policy: PolicyRef, id: string, token: string, now: int) returns (reply: Reply)
      requires manager.Valid() && id !in manager.byId && token !in manager.byToken
      modifies manager
      ensures manager.Valid()
      ensures (manager.Model(), reply) == IssueCall(manager.cfg, old(manager.Model()), request, policy, id, token, now)
    {
      SweepNarrows(manager.cfg, manager.Model(), now);
      var swept := manager.SweepExpired(now);
      var resolved := request;
      match policy {
        case NoPolicy =>
        case MissingPolicy => return Missing;
        case Policy(scopes) =>
          var merged := ResolvePolicy(scopes, request.allow, request.deny);
          resolved := request.(allow := Some(merged.allow), deny := Some(merged.deny));
      }
      var r := manager.IssueCredential(resolved, id, token, now);
      return Ok(r);
    }
  }
}
