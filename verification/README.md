# Signet state machines and codecs

Machine-checked models of the signet's in-memory state machines and codecs, with proofs about whole
runs and whole inputs. Run `dafny verify dfyconfig.toml` (Dafny 4.11).

Objects that the program mutates are classes whose methods are proved against a step function of
their abstract state; loops stay loops. The main results are lemmas over all runs of those step
functions, over all interleavings, or over all inputs.

- **Seals** (`ScopeDelta`, `SealChain`, `SealManager`): the permission delta between two seals, the
  link a seal makes to its predecessor, and the manager's four maps. The maps describe one
  append-only linked log per (credential, chat) pair, `history` returns it newest first, every
  stored chain passes both checks, and the stored deltas rebuild the head's permissions.
- **Credentials** (`Materiality`, `CredentialStore`, `CredentialService`): three indices, a cap with
  eviction and deduplication, sweeps, and the materiality gate. Effective scopes only shrink.
- **Invite listener** (`InviteCandidates`, `InviteTrace`, `InviteListener`): atomic steps between
  awaits, interleaved in any order with timers and shutdown. What the listener promises is stated on
  the trace of its actions.
- **Replay** (`Replay`, `ReplaySession`, `EventStream`): a ring buffer that holds the last frames, the
  resume decision, and its event queue; one client over any sequence of broadcasts, handshakes,
  deliveries and losses, against both what was numbered and what was announced.
- **Rate limiter** (`RateLimiter`): a bound on every window of every run.
- **Canonical forms** (`Json`, `Canonical`): equal texts exactly for equal meanings, for any comparison
  of array items that does not tie different ones.
- **Keys and tokens** (`Mnemonic`, `Derivation`, `Integers`, `Base64Url`): BIP-39 packing, BIP-32 paths
  and child keys, big-endian integers, base64url (section 5 of RFC 4648) and compact tokens.
- **Core, inbox links, reveals, secrets** (`SignetCore`, `InboxLinks`, `RevealState`, `SecretStore`).
- **Vocabulary** (`Sequences`, `Ordering`, `Bags`, `Strings`, `Digits`).

Assumptions throughout: generated ids and tokens are fresh; each manager call is one step, except in
the invite listener; hashes, signatures, HMAC and public-key functions are parameters; the seal input
resolver answers for the credential and chat it was asked about and a fixed operator per credential.
Where a result needs a clock that does not go back, it says so.

## What the proofs found

- A recorded delta does not always determine the next permission lists: when a scope listed on one
  side only becomes listed on both, the delta is the same as for a plain move. The fold law holds
  exactly when no link does this, and always for disjoint lists.
- `issue` keeps the current seal exactly when the new input discloses the same thing (`KeptIff`), so
  it skips a new seal when only `bypassed` differs (`BypassedIsKept`).
- A rate limit below one still lets a first request through, and a cap below one still admits a
  credential; both bounds are the maximum of one and the configured number.
- Expiry alone does not end a credential. Past it, with a renewal window that is not negative, renewal
  succeeds exactly while the record is marked active (`RenewalHoldsUntil`), which it stays until a
  sweep past a deadline, a late look-up by its token, a revocation or an eviction (`ActiveStepIff`,
  over runs `RenewableRunIff`).
- `getCredentialByToken` turns a revoked record that is past its expiry into an expired one, and no
  other modelled call changes its status (`RevokedStepIff`, over runs `RevokedRunIff`).
- A client that reconnects before it has received any frame is sent no replay, although it may have
  missed frames (`ReconnectCompleteIff`, with the input in `FirstConnectMisses`).
- An event broadcast while no active socket of its credential is open gets no number and leaves no
  trace (`UnheardLeavesNoTrace`, `LostBroadcast`); every broadcast of a run is numbered exactly when
  each was made with an active socket (`AllNumberedIff`).
- A socket is registered before its token is fingerprinted and the authenticated frame is sent. An
  event sent in between is numbered but does not reach that client while the connection lasts: the
  client drops what comes before the authenticated frame, and the replay was chosen earlier. It is
  chosen for a later replay exactly when the client reconnects with a lower number, so before it has
  handled a newer frame, and nothing it missed was overwritten (`HandshakeFrameIff`,
  `ReconnectBringsIff`, with an input in `HandshakeFrameReturns`).
- Stopping the invite listener clears its timers and its subscription, but a recovery in progress goes
  on: it may still dispatch (`PendingDispatchedIff`) and leave a retry behind (`RetriedAfterDelay`).
- An update that asks an inactive credential for more than was effective revokes it and reports success,
  where any other update of it is refused (`UpdateInactive`).
- A broadcast on several sockets of one credential gets several numbers, so a replay can hand it on
  again: after a replay to a client that reported a number below one of them, it was handed on more
  than once exactly when it was made on more than one socket (`HandedTwiceIff`).
- A call into the core that throws between registering a client and opening its third stream leaves
  the identity registered with fewer than three streams, and attaching it again reports success
  without opening the rest. No other identity lacks a stream (`RegisteredAreStreamed`).
- Exclusive inbox links rest on the inbox actions: an operator update or creation that writes
  `inboxIds` directly keeps them exclusive exactly when it lists no inbox of another operator, and a
  run keeps them exclusive exactly when every such write did (`RunExclusiveIff`).
- The policy hash sorts array items by `localeCompare`. A policy is hashed from the same text as its
  reorderings, and only those, exactly when the comparison ties no two different entries of one of its
  lists (`OrderFreeIff`). Canonical texts of arbitrary values are faithful exactly for comparisons that
  tie no two different normal items (`FaithfulIffSeparates`).
- A base64url text that decodes is restored by encoding exactly when it is unpadded, in the URL
  alphabet, of a possible length and free of surplus bits (`RestoredIffCanonical`).
- A derivation path with superfluous leading zeros is accepted and printed back without them.

## Model

| member | source | states |
|---|---|---|
| ScopeDelta.ComputePayloadDelta | packages/seals/src/compute-delta.ts:12-84 | the six loops compute exactly the specified added, removed and changed reports, in the program's order |
| ScopeDelta.CompareAllowed | packages/seals/src/compute-delta.ts:29-51 | the first two loops report scopes entering and leaving the allow set, moved scopes as changes |
| ScopeDelta.CompareToggled | packages/seals/src/compute-delta.ts:53-65 | the middle two loops report scopes allowed on both sides whose denial toggles |
| ScopeDelta.CompareDenied | packages/seals/src/compute-delta.ts:67-81 | the last two loops report scopes denied or undenied without being allowed |
| ScopeDelta.DeltaMembers | packages/seals/src/compute-delta.ts:29-81 | for every scope, exactly which report names it, by where it was and is listed |
| ScopeDelta.MaterialIffListsDiffer | packages/policy/src/materiality.ts:25-42 | a delta is non-empty exactly when the allow sets or the deny sets differ |
| ScopeDelta.PatchRebuildsIff | packages/seals/src/compute-delta.ts:29-81 | patching the predecessor with the delta gives the successor, exactly unless a scope listed on one side only becomes listed on both |
| ScopeDelta.DeltaLosesOverlap | packages/seals/src/compute-delta.ts:29-81 | one predecessor and one delta with two different successors, so no other patch could do better |
| ScopeDelta.DeltaEqualsIff | packages/seals/src/chain-validator.ts:93-123 | the comparison of sorted copies accepts exactly a permutation of the recomputed reports |
| SealChain.BuiltChainPasses | packages/seals/src/build.ts:50-102 | a built seal passes the delta check, and the structural check exactly when operator, credential, chat and time fit the predecessor |
| SealChain.VerifyChainDeltaIff | packages/seals/src/chain-validator.ts:71-91 | for any stored chain: accepted exactly when the reports are a recomputation's, for a first seal exactly the empty delta |
| SealChain.NothingToReportIff | packages/seals/src/manager.ts:364-384 | the no-change test of `issue` passes exactly when both inputs disclose the same thing, metadata up to key order, `bypassed` aside |
| SealChain.StableSerializeIff | packages/seals/src/manager.ts:381-384 | serialized optional metadata is equal exactly for equal meanings, absence included |
| SealChain.ChainKeyInjective | packages/seals/src/manager.ts:60-62 | the composite key of a well-formed credential and chat id is no other pair's key, well-formed or not |
| SealChain.ChainKeyCollides | packages/seals/src/manager.ts:60-62 | without the id format they can |
| SealManager.RunKeepsInv | packages/seals/src/manager.ts:79-290 | every run keeps the invariant: maps agree, one linked log per pair, its last seal is current unless the pair is revoked |
| SealManager.KeptIff | packages/seals/src/manager.ts:79-122 | asked about a pair with a current seal, `issue` keeps it exactly when the new input discloses what its input disclosed |
| SealManager.BypassedIsKept | packages/seals/src/manager.ts:364-384 | an input that differs from the current one in `bypassed` alone brings no new seal and changes nothing |
| SealManager.IssueOutcomeIff | packages/seals/src/manager.ts:79-158 | `issue` adds the next seal of the pair's log exactly when the pair is not revoked, the input discloses something other than its last seal, and the payload schema, the signer and the publisher accept; otherwise nothing changes |
| SealManager.RefreshOutcomeIff | packages/seals/src/manager.ts:160-229 | `refresh` adds a seal of the same input exactly when asked about the last seal of a live pair and schema, signer and publisher accept |
| SealManager.RevokeOutcome | packages/seals/src/manager.ts:231-290 | `revoke` succeeds exactly when the pair of the seal is live and schema, signer and publisher accept; then the pair is revoked and loses its current seal, and every seal stays stored |
| SealManager.RevokeIsFinal | packages/seals/src/manager.ts:231-290 | whatever follows a successful `revoke`, the pair has no current seal and its log stays as it was |
| SealManager.StoredChainsVerify | packages/seals/src/manager.ts:124-155 | every chain ever stored passes both the structural and the delta check |
| SealManager.StepExtendsLog | packages/seals/src/manager.ts:79-290 | one operation leaves each log alone or appends one seal to one of them |
| SealManager.RunExtendsLog | packages/seals/src/manager.ts:79-290 | over any run a log only grows at its end, and not at all once its pair is revoked |
| SealManager.RevokedForever | packages/seals/src/manager.ts:231-290 | a revoked pair never again has a current seal and gains no further seal |
| SealManager.CurrentIsLast | packages/seals/src/manager.ts:292-299 | the current seal of a live pair is the last of its log |
| SealManager.HeadOfLinked | packages/seals/src/manager.ts:422-434 | in a linked log the only seal that no other refers to is the last |
| SealManager.LogIdsDistinct | packages/seals/src/manager.ts:320-352 | no seal occurs twice in a log |
| SealManager.HistoryStarts | packages/seals/src/manager.ts:334-338 | the walk starts at the last seal of the pair, active or revoked |
| SealManager.Walk | packages/seals/src/manager.ts:340-351 | the cursor loop visits a linked log exactly once, newest first |
| SealManager.Manager.History | packages/seals/src/manager.ts:320-352 | every seal of the pair exactly once, newest first, before and after revocation |
| SealManager.Manager.Issue | packages/seals/src/manager.ts:79-158 | the new maps and the outcome for every branch, failures of resolver, builder, signer and publisher included |
| SealManager.Manager.Refresh | packages/seals/src/manager.ts:160-229 | the new maps and the outcome for every branch; only the head of a live pair is refreshed |
| SealManager.Manager.Revoke | packages/seals/src/manager.ts:231-290 | the pair becomes revoked and loses its current seal only when every step succeeds |
| SealManager.Manager.Current | packages/seals/src/manager.ts:292-299 | the newest seal of the pair, none if revoked, for any ids |
| SealManager.RecordKeepsInv | packages/seals/src/manager.ts:152-155 | recording a chain that extends its pair's log keeps the maps and all logs consistent |
| SealManager.FoldRebuildsIff | packages/seals/src/build.ts:88-97 | folding the stored deltas from the root reproduces the lists of every seal on the way, exactly when no link makes a one-sided scope listed on both sides |
| SealManager.FoldRebuildsDisjoint | packages/seals/src/build.ts:88-97 | with disjoint allow and deny lists the fold always rebuilds the head |
| Materiality.ResolveScopeSet | packages/schemas/src/permission-scopes.ts:169-180 | the loop computes allow minus deny |
| Materiality.CheckMateriality | packages/sessions/src/materiality.ts:23-88 | the loop computes the specified reports and both verdicts |
| Materiality.DeltaReports | packages/sessions/src/materiality.ts:47-69 | every scope that gains or loses effect is reported in exactly one place |
| Materiality.ReauthorizationIffEscalation | packages/sessions/src/materiality.ts:47-78 | reauthorization is required exactly when some scope would become newly effective |
| Materiality.MaterialIffEffectiveChanges | packages/sessions/src/materiality.ts:47-74 | an update is material exactly when the effective set changes |
| CredentialStore.RunKeepsInv | packages/sessions/src/credential-manager.ts:167-562 | in every reachable state the indices agree, derived fields match, no operator is over the cap, and a record that left active stays inactive |
| CredentialStore.EvictsOldest | packages/sessions/src/credential-manager.ts:281-299 | at the cap, and only there, one active record with minimal issue time is revoked and nothing else changes |
| CredentialStore.EvictKeepsInv | packages/sessions/src/credential-manager.ts:281-299 | eviction keeps the invariant and leaves room for one more |
| CredentialStore.IssueInsertsIff | packages/sessions/src/credential-manager.ts:301-334 | a record is inserted exactly when no active one of the operator has the requested policy hash after eviction |
| CredentialStore.IssuedTerms | packages/sessions/src/credential-manager.ts:301-334 | a new credential is the operator's, for the requested chats, allows exactly what was allowed and not denied, and survives sweeps exactly until one TTL or the first heartbeat deadline |
| CredentialStore.IssueKeepsInv | packages/sessions/src/credential-manager.ts:275-335 | issuing keeps the invariant and answers with an active credential of the operator under the requested policy |
| CredentialStore.SweepExact | packages/sessions/src/credential-manager.ts:526-562 | a sweep deactivates exactly the active records past a deadline, expired or for a missed heartbeat, returns exactly those, each once, changes no other, and leaves none past a deadline |
| CredentialStore.SweepKeepsInv | packages/sessions/src/credential-manager.ts:526-562 | a sweep keeps the invariant and every index |
| CredentialStore.RevokeAllKeepsInv | packages/sessions/src/credential-manager.ts:464-474 | revoking all of an operator's credentials keeps the invariant |
| CredentialStore.RevokeAllOutcome | packages/sessions/src/credential-manager.ts:464-474 | exactly the operator's active credentials are revoked, for the given reason |
| CredentialStore.RevokeAllReturns | packages/sessions/src/credential-manager.ts:464-474 | the records returned are the new versions of exactly those, each once |
| CredentialStore.RevokeOutcome | packages/sessions/src/credential-manager.ts:452-462 | revoking any stored credential records when and why, and changes nothing else |
| CredentialStore.UpdateScopesOutcome | packages/sessions/src/credential-manager.ts:431-450 | an active credential takes the new scopes, exactly the allowed and not denied ones in effect, and the new hash, and nothing else changes; an inactive one is refused |
| CredentialStore.StepFramed | packages/sessions/src/credential-manager.ts:275-562 | over any call a stored record's expiry moves only by its renewal, its heartbeat only by its heartbeat, its scopes only by its scope update, and its identity, chats, TTL and issue time never |
| CredentialStore.ActiveForExact | packages/sessions/src/credential-manager.ts:228-241 | the list computed from the operator index is exactly the operator's active set, each record once |
| CredentialStore.TokenFindsIff | packages/sessions/src/credential-manager.ts:337-354 | a token finds exactly the stored record that carries it, while it is active and unexpired, and is unknown exactly if none does |
| CredentialStore.RevokedStepIff | packages/sessions/src/credential-manager.ts:337-354 | any call leaves a revoked record revoked, except a look-up by its token at or after its expiry, which makes it expired |
| CredentialStore.RevokedRunIff | packages/sessions/src/credential-manager.ts:337-354 | over any run a revoked record stays inactive, and ends revoked exactly when every such look-up was followed by another revocation |
| CredentialStore.HeartbeatHoldsUntil | packages/sessions/src/credential-manager.ts:385-400 | a heartbeat is taken exactly for an active record, and a sweep then keeps it exactly until its expiry or the new heartbeat deadline |
| CredentialStore.RenewalHoldsUntil | packages/sessions/src/credential-manager.ts:402-429 | a record is renewed exactly while it is marked active and inside the renewal window, and a sweep then keeps it exactly until one TTL later or the heartbeat deadline |
| CredentialStore.ActiveStepIff | packages/sessions/src/credential-manager.ts:275-562 | one call ends an active record exactly when it is a sweep past a deadline, a late look-up by its token, a revocation of it or its operator, or an issue that evicts it |
| CredentialStore.RenewableRunIff | packages/sessions/src/credential-manager.ts:402-429 | over any run a record stays active, and can be renewed however long past its expiry, exactly until such a call |
| CredentialStore.Manager.IssueCredential | packages/sessions/src/credential-manager.ts:275-335 | new state and answer of eviction, deduplication and insertion |
| CredentialStore.Manager.SweepExpired | packages/sessions/src/credential-manager.ts:526-562 | new state and returned records of the sweep loop |
| CredentialStore.Manager.RevokeAllCredentials | packages/sessions/src/credential-manager.ts:464-474 | new state of the revocation loop, and the revoked versions of the operator's active records in index order |
| CredentialStore.Manager.GetActiveForOperator | packages/sessions/src/credential-manager.ts:228-241 | the loop lists the operator's active records in index order |
| CredentialStore.Manager.GetCredentialByToken | packages/sessions/src/credential-manager.ts:337-354 | answer by token and the expiry it records |
| CredentialStore.Manager.RecordHeartbeat | packages/sessions/src/credential-manager.ts:385-400 | new state and answer; only active records are touched |
| CredentialStore.Manager.RenewCredential | packages/sessions/src/credential-manager.ts:402-429 | new state and answer; only active records inside the renewal window are extended |
| CredentialStore.Manager.UpdateCredentialScopes | packages/sessions/src/credential-manager.ts:431-450 | new scopes, resolved set and hash together, for active records only |
| CredentialStore.Manager.RevokeCredential | packages/sessions/src/credential-manager.ts:452-462 | new state and answer of a revocation |
| CredentialStore.UpsertKeepsIndex | packages/sessions/src/credential-manager.ts:167-176 | inserting a record with a fresh id and token leaves all three indices in agreement |
| CredentialStore.MutateKeepsInv | packages/sessions/src/credential-manager.ts:178-226 | a consistent change of one record that keeps what indices depend on leaves every index right |
| CredentialService.ScopesOnlyShrink | packages/sessions/src/service.ts:128-300 | over any run of service calls and update-scopes actions every credential's effective scopes stay within those of any earlier point |
| CredentialService.GateDecision | packages/sessions/src/service.ts:256-282 | an escalating update revokes and keeps the old scopes, any other is applied in place to an active record, no other credential changes |
| CredentialService.GateOutcome | packages/sessions/src/service.ts:256-282 | an active credential takes exactly the requested scopes when all of them were effective, and is otherwise revoked with its old ones; the answer is the stored record |
| CredentialService.IssueGrants | packages/sessions/src/service.ts:128-171 | a new credential grants exactly what policy and request allow together and neither denies; credentials past a deadline are inactive afterwards |
| CredentialService.UpdateOutcome | packages/sessions/src/service.ts:205-283 | every answer of an update of an active credential, and the scopes it has afterwards: a policy's lists with the given ones, or each given list in place of the current one |
| CredentialService.UpdateInactive | packages/sessions/src/service.ts:205-283 | an inactive credential is revoked when more is asked for than was effective, and otherwise refused unchanged |
| CredentialService.ActionOutcome | packages/sessions/src/update-actions.ts:52-107 | the action reaches the gate exactly for a stored credential that is active and not past a deadline |
| CredentialService.SharedHashIff | packages/sessions/src/policy-hash.ts:13-21 | two requests share a policy hash exactly when they list the same scopes and chats in some order, for any comparison without ties among one request's entries and a hash without collision on the two texts |
| CredentialService.Service.Issue | packages/sessions/src/service.ts:128-171 | sweep, policy merge and issue, with the missing-policy error |
| CredentialService.Service.Update | packages/sessions/src/service.ts:205-283 | every branch of an update: unknown, unsupported, empty, missing policy, gated |
| CredentialService.Service.UpdateScopes | packages/sessions/src/update-actions.ts:52-107 | sweep, activity check and the same gate |
| CredentialService.Service.ApplyGate | packages/sessions/src/service.ts:256-282 | the materiality decision and the manager call it leads to |
| InviteCandidates.CollectCandidates | packages/cli/src/invite-host-listener.ts:250-312 | a scan finds for every request exactly its winner over all pages and nothing else, each page filtered by the processed sets as they are when it arrives |
| InviteCandidates.PreferReachesWinner | packages/cli/src/invite-host-listener.ts:116-135 | preferring message by message ends with the first structured message, or the first of all |
| InviteCandidates.WinnerIsFirst | packages/cli/src/invite-host-listener.ts:116-135 | the winner is the first structured message, if there is one, and the first message otherwise |
| InviteCandidates.FiledMembers | packages/cli/src/invite-host-listener.ts:284-298 | what is filed under a key: the candidates of some page with an unprocessed id whose request key, or id for want of one, is that key and unprocessed |
| InviteCandidates.CandidateIff | packages/cli/src/invite-host-listener.ts:137-150 | a candidate is not historical and is either structured or a text with one unbroken word of at least fifty characters between white space |
| InviteCandidates.RequestKeyIff | packages/cli/src/invite-host-listener.ts:104-114 | two messages have one request key exactly when one sender, ignoring case, sent one slug |
| InviteListener.RunKeepsInv | packages/cli/src/invite-host-listener.ts:323-519 | every interleaving of messages, scans, completions, timers and shutdown keeps sets, timers, tasks and trace consistent |
| InviteListener.NoTwoInFlight | packages/cli/src/invite-host-listener.ts:323-385 | no two running calls work on one message id or one request key |
| InviteListener.NothingStaysLocked | packages/cli/src/invite-host-listener.ts:380-385 | with no call inside a candidate nothing is left locked, thrown dispatches included |
| InviteListener.DispatchesNeverOverlap | packages/cli/src/invite-host-listener.ts:323-385 | in any interleaving a second dispatch for an id or key starts only after the first was released |
| InviteListener.MessageAcceptedOnce | packages/cli/src/invite-host-listener.ts:324-363 | a message id is accepted at most once ever and not dispatched afterwards |
| InviteListener.KeyNotRedispatchedWithinTtl | packages/cli/src/invite-host-listener.ts:432-441 | an accepted key is dispatched again only after its own timer fired, at least one TTL later |
| InviteListener.JoinScansAtMostFour | packages/cli/src/invite-host-listener.ts:443-484 | each join event causes at most four scans |
| InviteListener.MessageDispatchedIff | packages/cli/src/invite-host-listener.ts:323-340 | a live message is dispatched exactly when the listener is subscribed, it is a candidate, and the trace permits it: no other message in progress holds it up |
| InviteListener.PendingDispatchedIff | packages/cli/src/invite-host-listener.ts:454-468 | so is each message a scan found when its turn comes, and the call goes on with the next |
| InviteListener.DispatchRecorded | packages/cli/src/invite-host-listener.ts:342-379 | a dispatch is accepted, and its key held for one TTL, exactly when it joined somebody |
| InviteListener.DispatchReleased | packages/cli/src/invite-host-listener.ts:380-385 | once dispatch and callback are done, however they end, the call holds no lock |
| InviteListener.RetryRemembered | packages/cli/src/invite-host-listener.ts:454-468 | a recovery call remembers whether one of its dispatches is worth trying again, and goes on unless one threw |
| InviteListener.RetriedAfterDelay | packages/cli/src/invite-host-listener.ts:470-484 | a recovery worth retrying is scanned again 250 ms later and no earlier, exactly if its join event has caused fewer than four scans and no retry for the conversation waits |
| InviteListener.KeyFreedWhenDue | packages/cli/src/invite-host-listener.ts:432-441 | in every reachable state before the stop, the timer of a held key that is due can fire, and then nothing holds the key |
| InviteListener.StaysStopped | packages/cli/src/invite-host-listener.ts:510-518 | a stopped listener has no timer and is never subscribed again |
| InviteListener.Listener.BeginCandidate | packages/cli/src/invite-host-listener.ts:323-340 | the four early returns and the two locks |
| InviteListener.AcceptKeepsInv | packages/cli/src/invite-host-listener.ts:349-353 | accepting a dispatch, with the key's timer replaced, keeps sets, timers, tasks and trace consistent |
| InviteListener.ReleaseKeepsInv | packages/cli/src/invite-host-listener.ts:380-385 | releasing a candidate's two locks at its end keeps sets, timers, tasks and trace consistent |
| InviteListener.ExpireKeepsInv | packages/cli/src/invite-host-listener.ts:435-438 | a key timer that fires when due keeps sets, timers, tasks and trace consistent |
| InviteListener.Listener.FinishRecovery | packages/cli/src/invite-host-listener.ts:470-484 | when a retry is scheduled, and for when |
| InviteListener.Listener.Stop | packages/cli/src/invite-host-listener.ts:510-518 | every timer is cleared, the sets are kept |
| InviteTrace.DispatchesDoNotOverlap | packages/cli/src/invite-host-listener.ts:323-385 | what trace safety means for two conflicting dispatches |
| InviteTrace.AcceptedOnce | packages/cli/src/invite-host-listener.ts:349-363 | what trace safety means for two actions on one message id |
| InviteTrace.KeyHeldUntilExpiry | packages/cli/src/invite-host-listener.ts:432-441 | what trace safety means for an accepted key |
| InviteTrace.AtMostFourScans | packages/cli/src/invite-host-listener.ts:443-484 | what trace safety means for one join event |
| Replay.CircularBuffer.Push | packages/ws/src/replay-buffer.ts:22-28 | the contents become the last `cap` items of the old contents and the new item |
| Replay.CircularBuffer.Oldest | packages/ws/src/replay-buffer.ts:33-37 | the first item held, or nothing |
| Replay.CircularBuffer.ItemsSince | packages/ws/src/replay-buffer.ts:42-53 | exactly the matching items, in insertion order |
| Replay.CircularBuffer.ToArray | packages/ws/src/replay-buffer.ts:58-69 | all items in insertion order |
| Replay.CircularBuffer.Clear | packages/ws/src/replay-buffer.ts:71-75 | empty afterwards |
| Replay.CredentialReplay.SequenceEvent | packages/ws/src/event-broadcaster.ts:9-18 | the frame carries the next number, and the buffer stays the last frames of the history |
| Replay.CredentialReplay.ResumeFrom | packages/ws/src/server.ts:306-325 | the decision computed from oldest frame and query is the specified one |
| Replay.BufferConsecutive | packages/ws/src/replay-buffer.ts:22-69 | the last min(n, cap) frames in order, numbered consecutively up to the next number minus one |
| Replay.ResumeIff | packages/ws/src/server.ts:311-325 | recovery exactly when a missed frame was overwritten, otherwise precisely the frames after the last one seen |
| ReplaySession.NoSilentGap | packages/sdk/src/handler.ts:229-243 | over any run received frames are genuine and increasing, and every number passed over went to another socket, fell into a handshake, or is announced by a recovery frame |
| ReplaySession.HandshakeFrameIff | packages/ws/src/server.ts:303-352 | a number given out between registering a socket and answering it does not come to the client before the connection is lost, and over any continuation comes to it exactly when the client reconnects reporting a lower number while nothing it missed is overwritten |
| ReplaySession.HandshakeFrameReturns | packages/ws/src/server.ts:303-352 | a run in which a broadcast of the handshake is not handed on, and is after a second reconnect |
| ReplaySession.DueStepIff | packages/ws/src/server.ts:306-352 | of a number that is not due to the client: one step makes it due exactly if it is such a reconnect |
| ReplaySession.ReconnectBringsIff | packages/ws/src/server.ts:306-352 | after a reconnect on which everything sent is handled, a number was handed on exactly when it was before, or the client reported a lower one and nothing missed was overwritten |
| ReplaySession.HandedOncePerSocket | packages/ws/src/server.ts:504-533 | over any run a broadcast is handed on at most once for each active socket it was made on |
| ReplaySession.HandedTwiceIff | packages/ws/src/server.ts:504-533 | after a reconnect with a replay that reports a number below one of its copies, a broadcast was handed on more than once exactly when it was made on several sockets |
| ReplaySession.BroadcastNumbers | packages/ws/src/server.ts:504-533 | a broadcast gets one number in a row for each active socket of the credential |
| ReplaySession.LiveBroadcastHandedOn | packages/ws/src/server.ts:504-533 | a connected client that has been answered is handed every broadcast, under the number its own socket was given |
| ReplaySession.AllNumberedIff | packages/ws/src/server.ts:504-533 | every broadcast of a run is numbered exactly when each was made with an active socket |
| ReplaySession.UnheardLeavesNoTrace | packages/ws/src/server.ts:504-533 | whatever follows a broadcast without an active socket goes as if it had not been made |
| ReplaySession.LostBroadcast | packages/ws/src/server.ts:504-533 | a run in which the reconnecting client is told nothing of the second of two broadcasts |
| ReplaySession.ReceivedIsContiguous | packages/sdk/src/handler.ts:229-243 | when every broadcast meets exactly the client's own socket outside a handshake and no recovery is sent, the client received one contiguous stretch of everything announced, each event once, however often it reconnected |
| ReplaySession.ReconnectHearsMissed | packages/ws/src/server.ts:306-352 | such a client, reconnecting before anything was overwritten, is given exactly the announcements it missed |
| ReplaySession.ReconnectCompleteIff | packages/sdk/src/handler.ts:274-282 | a reconnect is sent everything numbered and unseen exactly when it reports a number and nothing missed was overwritten, or nothing was ever numbered |
| ReplaySession.FirstConnectMisses | packages/ws/src/server.ts:306-325 | a run in which a client that connects for the first time is told nothing of a numbered event |
| ReplaySession.RunKeepsInv | packages/ws/src/server.ts:131-139 | the invariant behind the session results, over broadcasts, both halves of the handshake, deliveries, drops and closes |
| EventStream.FirstInFirstOut | packages/sdk/src/event-stream.ts:19-69 | the answers are the events pushed before completion, in order and once each, then only done |
| EventStream.AllAnsweredIff | packages/sdk/src/event-stream.ts:45-60 | every `next` is answered, save one waiting, exactly when calls never overlapped |
| EventStream.OrphansIff | packages/sdk/src/event-stream.ts:56-59 | a promise is orphaned exactly when `next` overlapped an earlier one |
| EventStream.Stream.PushEvent | packages/sdk/src/event-stream.ts:24-33 | the waiter is resolved or the event buffered; nothing after completion |
| EventStream.Stream.CompleteStream | packages/sdk/src/event-stream.ts:35-42 | the stream is done and a waiter is told so |
| EventStream.Stream.NextEvent | packages/sdk/src/event-stream.ts:45-60 | buffered events first, then done, otherwise a waiter |
| RateLimiter.WindowBound | packages/verifier/src/rate-limiter.ts:28-59 | for every requester and every closed interval of one window length, at most the cap of checks return true |
| RateLimiter.VerdictIff | packages/verifier/src/rate-limiter.ts:28-59 | a check returns true exactly when fewer than the cap were allowed in the window ending now |
| RateLimiter.FirstValidIsFirst | packages/verifier/src/rate-limiter.ts:38-44 | the index search stops at the first entry inside the window |
| RateLimiter.Limiter.Check | packages/verifier/src/rate-limiter.ts:28-59 | new timestamps and verdict for every branch |
| RateLimiter.ResetStartsOver | packages/verifier/src/rate-limiter.ts:61-63 | the state after any calls, and so every later verdict, depends only on the checks since the last reset |
| Canonical.CanonicalIffSameMeaning | packages/seals/src/canonicalize.ts:8-29 | equal canonical text exactly for values equal up to key order, and for the policy form also up to array order, whatever the comparison, if it ties no different items of an array of one of them |
| Canonical.FaithfulIffSeparates | packages/sessions/src/policy-hash.ts:31-48 | that holds of all values exactly for comparisons that tie no two different normal items |
| Canonical.NormalIdempotent | packages/sessions/src/policy-hash.ts:31-48 | canonicalising twice changes nothing, for any total preorder, ties included |
| Canonical.NormalKeepsMeaning | packages/seals/src/canonicalize.ts:14-29 | sorting keys, and arrays where asked, keeps the meaning |
| Canonical.NormalDetermined | packages/sessions/src/policy-hash.ts:31-48 | values with one meaning and no tied items have one normal form |
| Canonical.NormalWellFormed | packages/seals/src/canonicalize.ts:14-29 | the normal form has distinct keys again |
| Canonical.NormalAscending | packages/seals/src/canonicalize.ts:14-29 | at every depth keys come in lexicographic order and, in the policy form, items in that of the comparison |
| Canonical.PolicyTextIff | packages/sessions/src/policy-hash.ts:13-21 | equal policy texts exactly for equal multisets of allow, deny and chat lists, whatever the comparison, if it ties no different entries of one of them |
| Canonical.OrderFreeIff | packages/sessions/src/policy-hash.ts:13-48 | a policy shares its text with exactly the policies that list the same in some order, if and only if the comparison ties no different entries of one of its lists |
| Canonical.Normalize | packages/sessions/src/policy-hash.ts:31-48 | the recursion over arrays and objects computes the normal form |
| Canonical.NormalizeFields | packages/seals/src/canonicalize.ts:20-28 | looking keys up in sorted order rebuilds the sorted object |
| Canonical.NormalizeItems | packages/seals/src/canonicalize.ts:16-19 | arrays are mapped item by item |
| Json.StringifyInjective | packages/seals/src/canonicalize.ts:8-11 | two well-formed values print the same only if they are the same |
| Mnemonic.IndicesAreBase2048Digits | packages/keys/src/derivation.ts:51-66 | the 24 indices are below 2048 and are the base-2048 digits of the 264-bit number of entropy and checksum |
| Mnemonic.DecodeIndices | packages/keys/src/derivation.ts:51-66 | the indices decode back to entropy and checksum |
| Mnemonic.MnemonicDeterminesEntropy | packages/keys/src/derivation.ts:42-69 | with a list of different words the sentence determines the entropy |
| Mnemonic.ExtractBits | packages/keys/src/derivation.ts:300-318 | out of bounds exactly when a read leaves the data; otherwise the number its bits denote up to 31 bits, and for any width what 32-bit `<<` and `or` make of them |
| Mnemonic.GenerateMnemonic | packages/keys/src/derivation.ts:42-69 | every read is in bounds, every index names a word, and the words are joined by spaces |
| Derivation.ParsePath | packages/keys/src/derivation.ts:183-210 | the loop accepts and rejects exactly as specified, component by component |
| Derivation.ParsePrint | packages/keys/src/derivation.ts:183-210 | parsing inverts printing for every list of segments with 31-bit indices |
| Derivation.ParsedIff | packages/keys/src/derivation.ts:183-210 | a text is parsed as these segments exactly when it is `m` and, after slashes, decimal digits denoting each index up to 2^31 - 1 with an apostrophe where hardened |
| Derivation.PrintParseIff | packages/keys/src/derivation.ts:183-210 | printing a parsed path gives it back exactly when no component has a superfluous leading zero |
| Derivation.NumeralDecimalIff | packages/keys/src/derivation.ts:199-205 | printing a parsed number gives its text back exactly without leading zeros |
| Derivation.IndexBytesFaithful | packages/keys/src/derivation.ts:232-240 | the four index bytes decode to the child index and differ for different segments |
| Derivation.ChildDataSeparates | packages/keys/src/derivation.ts:220-240 | different segments of one parent never hash the same input |
| Derivation.ChildDataLayout | packages/keys/src/derivation.ts:220-240 | the 37 bytes of BIP-32: zero byte and parent key for a hardened child, public key for a normal one, then the index, from 2^31 on for a hardened child |
| Derivation.DeriveChild | packages/keys/src/derivation.ts:215-256 | the 32 key bytes denote the sum modulo the group order, nothing is cut off |
| Integers.BytesToBigInt | packages/keys/src/derivation.ts:321-331 | the loop computes the big-endian number |
| Integers.BigIntToBytes | packages/keys/src/derivation.ts:334-342 | the loop writes the low digits in base 256 |
| Integers.BytesRoundTrip | packages/keys/src/derivation.ts:321-342 | bytes survive the trip through a number of the same width |
| Integers.NumberRoundTripIff | packages/keys/src/derivation.ts:321-342 | a number survives the trip through `length` bytes exactly when it fits |
| Base64Url.DecodeEncode | packages/keys/src/jwt.ts:107-126 | decoding inverts encoding for every byte sequence |
| Base64Url.EncodeShape | packages/keys/src/jwt.ts:107-114 | unpadded length, and neither dots nor padding in the output |
| Base64Url.EncodedLetter | packages/keys/src/jwt.ts:107-114 | each letter is the one of table 2 of RFC 4648 for its six bits of the data, zeros added at the end |
| Base64Url.EncodeInjective | packages/keys/src/jwt.ts:107-114 | different byte sequences have different encodings |
| Base64Url.RestoredIffCanonical | packages/keys/src/jwt.ts:107-126 | a text decodes and is restored by encoding exactly when it is unpadded, in the URL alphabet, of a possible length and free of surplus bits |
| Base64Url.TokenRoundTrip | packages/keys/src/jwt.ts:226-247 | a compact token splits back into exactly its own parts |
| SignetCore.HeldOrAbortedOnce | packages/core/src/signet-core.ts:231-362 | after any calls with any failures each stream ever opened is held or was aborted, never both, never twice |
| SignetCore.NothingHeldOutsideRunning | packages/core/src/signet-core.ts:265-362 | between calls nothing is held and no heartbeat runs outside the running state |
| SignetCore.StartOutcome | packages/core/src/signet-core.ts:265-317 | start succeeds exactly when everything does, with every listed identity registered and the heartbeat running; otherwise registry, streams and timer are empty in the fallback state |
| SignetCore.RegisterOutcome | packages/core/src/signet-core.ts:136-183 | a new client is registered, with its three streams while running, exactly when every step succeeds; after an error nothing of it is left, and no other identity is touched |
| SignetCore.AttachOutcome | packages/core/src/signet-core.ts:193-221 | the same for attaching a persisted identity, and a registered one is left alone |
| SignetCore.DetachOutcome | packages/core/src/signet-core.ts:231-247 | a detached identity is not registered and has no stream, and no other loses one |
| SignetCore.StopOutcome | packages/core/src/signet-core.ts:320-362 | stopping leaves nothing held, succeeds exactly when the store closes, and is refused before a start and after a stop |
| SignetCore.StartGuards | packages/core/src/signet-core.ts:250-275 | local mode is entered from idle alone, and a start is refused except from idle and local mode |
| SignetCore.RegisteredAreStreamed | packages/core/src/signet-core.ts:450-566 | while running every stream belongs to a registered identity, and a registered identity lacks one of its three streams exactly when a call threw between registering it and opening the third |
| SignetCore.HalfOpenStays | packages/core/src/signet-core.ts:193-221 | such an identity exists after a throw between two streams, and a later attach does not repair it |
| SignetCore.RunKeepsInv | packages/core/src/signet-core.ts:136-362 | the accounting and confinement invariants over any run |
| SignetCore.Core.HydrateIdentity | packages/core/src/signet-core.ts:450-566 | registration and streams opened up to any point of failure |
| SignetCore.Core.DetachIdentity | packages/core/src/signet-core.ts:231-247 | the loop aborts exactly the identity's streams and keeps the rest in order |
| SignetCore.Core.AbortAll | packages/core/src/signet-core.ts:568-575 | every stream aborted in order, registry and timer cleared |
| SignetCore.Core.StartCore | packages/core/src/signet-core.ts:265-317 | the hydration loop with its early failure |
| SignetCore.Core.StopCore | packages/core/src/signet-core.ts:320-362 | streams aborted and registry cleared, also when closing the store throws |
| SignetCore.Core.InitializeLocal | packages/core/src/signet-core.ts:250-262 | local mode from idle only |
| SignetCore.Core.RegisterIdentity | packages/core/src/signet-core.ts:136-183 | every failure branch, with its detach |
| SignetCore.Core.AttachIdentity | packages/core/src/signet-core.ts:193-221 | every branch, the already-registered one included |
| InboxLinks.RunExclusiveIff | packages/core/src/inbox-actions.ts:211-296 | over any run of the actions and of operator creations, updates and removals, no inbox is ever listed by two non-removed operators exactly when every direct write listed no inbox of another operator |
| InboxLinks.StepExclusiveIff | packages/core/src/inbox-actions.ts:211-296 | the inbox actions and removals always keep links exclusive, a direct creation or update exactly under that condition |
| InboxLinks.BuildInboxLinkMap | packages/core/src/inbox-actions.ts:162-195 | fails exactly when two operators share an inbox, otherwise maps each listed inbox to its operator and nothing else |
| InboxLinks.LinkOutcome | packages/core/src/inbox-actions.ts:211-259 | a link succeeds exactly without another owner and with a valid id, and adds that one link |
| InboxLinks.UnlinkOutcome | packages/core/src/inbox-actions.ts:261-296 | an unlink succeeds, afterwards no operator lists the inbox and every other link is as before |
| InboxLinks.UnlinkUndoesLink | packages/core/src/inbox-actions.ts:211-296 | linking an unowned inbox and unlinking it restores every link |
| InboxLinks.DirectUpdateIff | packages/sessions/src/operator-manager.ts:131-170 | an update that writes the list directly keeps links exclusive exactly when it lists no inbox of another operator |
| InboxLinks.DirectCreateIff | packages/sessions/src/operator-manager.ts:79-109 | creating an operator with inboxes keeps links exclusive exactly when none of them belongs to an operator yet |
| InboxLinks.RemoveOperatorOutcome | packages/sessions/src/operator-manager.ts:172-195 | removing an operator frees its inboxes and leaves every other link alone |
| InboxLinks.LinkActionOutcome | packages/core/src/inbox-actions.ts:465-496 | `inbox.link` adds its one link exactly for a registered inbox without another owner, a resolved operator and a valid id |
| InboxLinks.UnlinkActionOutcome | packages/core/src/inbox-actions.ts:507-524 | `inbox.unlink` succeeds exactly for a registered inbox, which nobody then lists |
| InboxLinks.CreateOutcome | packages/core/src/inbox-actions.ts:315-370 | the inbox is registered exactly when the operator asked for is resolved and registration succeeds, and stays so when the link then fails |
| InboxLinks.RemovalOutcome | packages/core/src/inbox-actions.ts:544-603 | a dry run changes nothing and reports what the executed removal does; afterwards the inbox is listed by no operator, all other links are as they were, and it is still registered exactly when the identity store refused the removal |
| InboxLinks.ResolveLive | packages/core/src/inbox-actions.ts:114-160 | a resolved operator is never a removed one |
| InboxLinks.ResolveIff | packages/core/src/inbox-actions.ts:114-160 | an id resolves exactly to the non-removed operator that has it, any other text exactly to the one non-removed operator of that label |
| InboxLinks.Inboxes.LinkInboxToOperator | packages/core/src/inbox-actions.ts:211-259 | new records and answer for every branch |
| InboxLinks.Inboxes.UnlinkInboxFromOperator | packages/core/src/inbox-actions.ts:261-296 | new records and answer for every branch |
| InboxLinks.Inboxes.CreateInbox | packages/core/src/inbox-actions.ts:315-370 | operator resolved first, linked only after registration; records, identities and answer for every branch |
| InboxLinks.Inboxes.LinkInbox | packages/core/src/inbox-actions.ts:465-496 | refused for an unknown inbox, otherwise the link and the summary |
| InboxLinks.Inboxes.UnlinkInbox | packages/core/src/inbox-actions.ts:507-524 | refused for an unknown inbox, otherwise the unlink and the summary |
| InboxLinks.Inboxes.RemoveInbox | packages/core/src/inbox-actions.ts:544-603 | records, identities and answer of a dry run, of every failure, the identity store's after the unlink included, and of the removal |
| InboxLinks.Inboxes.BuildLinks | packages/core/src/inbox-actions.ts:162-195 | over the manager's non-removed records the map is the ownership relation |
| RevealState.SweepsAreInvisible | packages/policy/src/reveal-state.ts:59-152 | whenever sweeps and restarts happen, a message is revealed exactly when something recorded matches and has not expired |
| RevealState.SweepKeepsAnswers | packages/policy/src/reveal-state.ts:114-131 | a sweep cannot change an answer at its own time or later |
| RevealState.RevealedIff | packages/policy/src/reveal-state.ts:63-112 | over any run a message is revealed exactly when something recorded is of its group, names it, its thread, its sender, its content type or a window around it, and has not ended |
| RevealState.OtherGroupsRevealNothing | packages/policy/src/reveal-state.ts:81-84 | nothing recorded for another group ever reveals a message |
| RevealState.Store.ExpireStale | packages/policy/src/reveal-state.ts:114-131 | the backwards splice loop removes exactly the expired entries, keeps the order and returns the count |
| RevealState.Store.IsRevealed | packages/policy/src/reveal-state.ts:63-112 | true exactly when an unexpired entry matches |
| RevealState.RevealedSnoc | packages/policy/src/reveal-state.ts:59-112 | recording an entry reveals exactly what it matches until it expires, besides what was revealed before |
| RevealState.Store.Restore | packages/policy/src/reveal-state.ts:142-150 | the loop restores the snapshot exactly |
| SecretStore.ActsAsOneMap | packages/keys/src/key-manager-compat.ts:321-387 | over any run the two tiers answer as one plain map, migration is never observed, and no call fails without a fault |
| SecretStore.StepRefines | packages/keys/src/key-manager-compat.ts:323-375 | each operation fails without effect or acts as on one plain map |
| SecretStore.Store.GetSecret | packages/keys/src/key-manager-compat.ts:323-344 | vault first, then migration from the files |
| SecretStore.SetIsVisible | packages/keys/src/key-manager-compat.ts:346-352 | whatever the two tiers held, setting a secret changes what a reader sees at that key and nowhere else |
| SecretStore.Store.DeleteSecret | packages/keys/src/key-manager-compat.ts:354-375 | both tiers lose the key |
| SecretStore.Store.ListSecrets | packages/keys/src/key-manager-compat.ts:377-381 | each visible key once |

## Left out

- Seals: `list`, `lookup` and `needsRenewal`; envelopes lose their signatures and key ids; a payload schema is its id formats and a verdict on the rest.
- Credentials: `setCredentialStatus` is not an operation, and direct calls to the manager's scope update, which bypass the gate, are not part of ScopesOnlyShrink; reveal state removed with a credential is not linked to the reveal store.
- Concurrent calls into the seal manager, the credential manager and the core: each call is one step.
- Invite listener: a scan delivers any list of messages, which covers every page and identity order; lower-casing and trimming are ASCII; `extractJoinRequestContent` is an input.
- Canonical.CanonicalIffSameMeaning: `localeCompare` is a parameter, required to be a total preorder; keys are sorted character by character where the program sorts by UTF-16 code units; the engine's order for integer-like keys, `__proto__`, undefined members and the UTF-8 encoding of the text are not modelled; number lexemes are opaque.
- Canonical.PolicyTextIff: repeated entries count, because the program does not remove them.
- Derivation.DeriveChild: the HMAC and the public key are parameters; the outer loop of `derivePath`, the Ed25519 path and the error for an invalid key are not modelled.
- Mnemonic.GenerateMnemonic: entropy, checksum and word list are inputs.
- Base64Url.TokenRoundTrip: JSON text of header and payload, claims and signature checks are not modelled; `btoa` and `atob` follow section 4 of RFC 4648 and HTML's forgiving decode.
- Base64Url.DecodeEncode: `String.fromCharCode(...data)` fails on very long arrays, which is not modelled.
- Replay: backpressure closes a socket like any drop; a server restart, which loses the history, is not an operation; projecting an event for a credential and queueing events during an invalidation are not modelled.
- ReplaySession.NoSilentGap: a number that went to another socket of the credential, or into this client's handshake, may be passed over without notice, because each socket gets its own number for one event.
- EventStream: promises are answers in the order of resolution.
- SignetCore.RegisteredAreStreamed: assumes fresh ids and that the store lists every registered identity once; `unregisterManagedClient`, group bindings and events are not modelled; `abort` does not throw.
- InboxLinks.RunExclusiveIff: fresh operator ids are assumed; identity registration is one step with a verdict, and the role and field checks of operator creation are not modelled.
- RevealState: date parsing is a parameter.
- SecretStore: removing a file succeeds, and file names are the keys; a vault fault is an input.
- XMTP clients, HTTP, MCP, CLI wiring, the Swift signer, key derivation functions and encryption: I/O or cryptography.
- Auto-republish, pending actions, connection phases, verdict rules, allowlists, routes and runtime ordering: they would add only easy members.
