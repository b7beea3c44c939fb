/** The managed invite host listener (packages/cli/src/invite-host-listener.ts) as atomic steps
    between its `await`s: live messages, recovery scans, dispatch completions, callbacks, timers
    and shutdown may interleave in any order. */
module InviteListener {
  import opened Sequences
  import opened InviteCandidates
  import opened InviteTrace

  const DM_RECOVERY_RETRY_DELAY_MS := 250
  const MAX_DM_RECOVERY_RETRIES := 3

  datatype Retry = Retry(joinEvent: nat, count: nat, due: int)

  /** The closure state: four sets and two timer maps. */
  datatype Shared = Shared(
    processedIds: set<string>,
    processedKeys: set<string>,
    inflightIds: set<string>,
    inflightKeys: set<string>,
    keyTimers: map<string, Hold>,
    retryTimers: map<string, Retry>)

  const NOTHING := Shared({}, {}, {}, {}, map[], map[])

  // ---- The synchronous pieces of the program ---------------------------------------------

  /** The message id and request key of a candidate. */
  function LockOf(m: Message): Lock {
    (m.id, RequestKey(m))
  }

  /** The four early returns of `processInviteCandidate`. */
  predicate AlreadyHandled(sh: Shared, lock: Lock) {
    || lock.0 in sh.processedIds
    || (lock.1.Some? && lock.1.value in sh.processedKeys)
    || lock.0 in sh.inflightIds
    || (lock.1.Some? && lock.1.value in sh.inflightKeys)
  }

  function Acquire(sh: Shared, lock: Lock): Shared {
    sh.(inflightIds := sh.inflightIds + {lock.0}, inflightKeys := sh.inflightKeys + KeySet(lock.1))
  }

  /** The `finally` block. */
  function Unlock(sh: Shared, lock: Lock): Shared {
    sh.(inflightIds := sh.inflightIds - {lock.0}, inflightKeys := sh.inflightKeys - KeySet(lock.1))
  }

  /** `markInviteKeyProcessed`: any earlier timer of the key is replaced. */
  function MarkKey(sh: Shared, key: string, timer: Hold): Shared {
    sh.(processedKeys := sh.processedKeys + {key}, keyTimers := sh.keyTimers[key := timer])
  }

  function MarkAccepted(sh: Shared, lock: Lock, timer: Hold): Shared {
    var marked := sh.(processedIds := sh.processedIds + {lock.0});
    if lock.1.Some? then MarkKey(marked, lock.1.value, timer) else marked
  }

  function ExpireKey(sh: Shared, key: string): Shared {
    sh.(processedKeys := sh.processedKeys - {key}, keyTimers := sh.keyTimers - {key})
  }

  /** The end of `recoverInviteCandidatesFromDm`. */
  function ScheduleRetry(sh: Shared, dm: string, shouldRetry: bool, joinEvent: nat, count: nat, now: int): Shared {
    if !shouldRetry || count >= MAX_DM_RECOVERY_RETRIES || dm in sh.retryTimers then sh
    else sh.(retryTimers := sh.retryTimers[dm := Retry(joinEvent, count + 1, now + DM_RECOVERY_RETRY_DELAY_MS)])
  }

  /** The listener object: its methods are the synchronous pieces. */
  class Listener {
    var processedMessageIds: set<string>
    var processedInviteKeys: set<string>
    var inflightMessageIds: set<string>
    var inflightInviteKeys: set<string>
    var processedInviteKeyTimers: map<string, Hold>
    var recoveryRetryTimers: map<string, Retry>
    const processedInviteKeyTtlMs: int

    function Model(): Shared
      reads this
    {
      Shared(processedMessageIds, processedInviteKeys, inflightMessageIds, inflightInviteKeys,
             processedInviteKeyTimers, recoveryRetryTimers)
    }

    constructor (ttlMs: int)
      ensures Model() == NOTHING && processedInviteKeyTtlMs == ttlMs
    {
      processedMessageIds, processedInviteKeys := {}, {};
      inflightMessageIds, inflightInviteKeys := {}, {};
      processedInviteKeyTimers, recoveryRetryTimers := map[], map[];
      processedInviteKeyTtlMs := ttlMs;
    }

    method BeginCandidate(m: Message) returns (dispatch: bool)
      modifies this
      ensures dispatch == !AlreadyHandled(old(Model()), LockOf(m))
      ensures Model() == if dispatch then Acquire(old(Model()), LockOf(m)) else old(Model())
    {
      var requestKey := RequestKey(m);
      if m.id in processedMessageIds { return false; }
      if requestKey.Some? && requestKey.value in processedInviteKeys { return false; }
      if m.id in inflightMessageIds { return false; }
      if requestKey.Some? && requestKey.value in inflightInviteKeys { return false; }
      inflightMessageIds := inflightMessageIds + {m.id};
      if requestKey.Some? { inflightInviteKeys := inflightInviteKeys + {requestKey.value}; }
      return true;
    }

    method MarkInviteKeyProcessed(requestKey: string, timer: nat, now: int)
      modifies this
      ensures Model() == MarkKey(old(Model()), requestKey, Hold(timer, now + processedInviteKeyTtlMs))
    {
      processedInviteKeys := processedInviteKeys + {requestKey};
      if requestKey in processedInviteKeyTimers {
        processedInviteKeyTimers := processedInviteKeyTimers - {requestKey};
      }
      processedInviteKeyTimers := processedInviteKeyTimers[requestKey := Hold(timer, now + processedInviteKeyTtlMs)];
    }

    method Accept(m: Message, timer: nat, now: int)
      modifies this
      ensures Model() == MarkAccepted(old(Model()), LockOf(m), Hold(timer, now + processedInviteKeyTtlMs))
    {
      processedMessageIds := processedMessageIds + {m.id};
      var requestKey := RequestKey(m);
      if requestKey.Some? { MarkInviteKeyProcessed(requestKey.value, timer, now); }
    }

    method Finally(m: Message)
      modifies this
      ensures Model() == Unlock(old(Model()), LockOf(m))
    {
      var requestKey := RequestKey(m);
      inflightMessageIds := inflightMessageIds - {m.id};
      if requestKey.Some? { inflightInviteKeys := inflightInviteKeys - {requestKey.value}; }
    }

    method KeyTimerFires(requestKey: string)
      modifies this
      ensures Model() == ExpireKey(old(Model()), requestKey)
    {
      processedInviteKeys := processedInviteKeys - {requestKey};
      processedInviteKeyTimers := processedInviteKeyTimers - {requestKey};
    }

    method FinishRecovery(dm: string, shouldRetry: bool, joinEvent: nat, retryCount: nat, now: int)
      modifies this
      ensures Model() == ScheduleRetry(old(Model()), dm, shouldRetry, joinEvent, retryCount, now)
    {
      if !shouldRetry || retryCount >= MAX_DM_RECOVERY_RETRIES || dm in recoveryRetryTimers { return; }
      var due := now + DM_RECOVERY_RETRY_DELAY_MS;
      recoveryRetryTimers := recoveryRetryTimers[dm := Retry(joinEvent, retryCount + 1, due)];
    }

    /** The function that stops the listener: every timer is cleared, the sets are kept. */
    method Stop()
      modifies this
      ensures Model() == old(Model()).(keyTimers := map[], retryTimers := map[])
    {
      while recoveryRetryTimers.Keys != {}
        invariant Model() == old(Model()).(retryTimers := recoveryRetryTimers)
        decreases recoveryRetryTimers.Keys
      {
        var dm :| dm in recoveryRetryTimers;
        recoveryRetryTimers := recoveryRetryTimers - {dm};
      }
      while processedInviteKeyTimers.Keys != {}
        invariant recoveryRetryTimers == map[]
        invariant Model() == old(Model()).(keyTimers := processedInviteKeyTimers, retryTimers := map[])
        decreases processedInviteKeyTimers.Keys
      {
        var key :| key in processedInviteKeyTimers;
        processedInviteKeyTimers := processedInviteKeyTimers - {key};
      }
    }
  }

  // ---- Interleavings ---------------------------------------------------------------------

  /** Where a running asynchronous call is suspended; a call in the middle of a candidate holds
      its lock. */
  datatype Phase =
    | Scanning
    | Between
    | Dispatching(lock: Lock)
    | Notifying(lock: Lock)

  datatype Origin = Live | Recovery(joinEvent: nat, dm: string, count: nat)

  datatype Task = Task(origin: Origin, phase: Phase, pending: seq<Message>, shouldRetry: bool)

  datatype State = State(
    sh: Shared,
    tasks: map<nat, Task>,
    nextId: nat,
    now: int,
    ttl: int,
    subscribed: bool,
    trace: seq<Entry>)

  function Start(ttl: int, now: int): State {
    State(NOTHING, map[], 0, now, ttl, true, [])
  }

  datatype DispatchOutcome = Joined | Failed(retry: bool) | Nobody(retry: bool) | Threw

  datatype Event =
    | MessageArrives(m: Message)
    | DmJoined(dm: string)
    | ScanDone(task: nat, messages: seq<Message>, shouldRetry: bool)
    | ScanThrows(task: nat)
    | Proceed(task: nat)
    | DispatchDone(task: nat, outcome: DispatchOutcome)
    | CallbackDone(task: nat)
    | RetryFires(dm: string)
    | KeyFires(key: string)
    | ClockAdvances(ms: nat)
    | Shutdown

  function Log(s: State, action: Action): State {
    s.(trace := s.trace + [Entry(s.now, action)])
  }

  function SetTask(s: State, id: nat, task: Task): State {
    s.(tasks := s.tasks[id := task])
  }

  function EndTask(s: State, id: nat): State {
    s.(tasks := s.tasks - {id})
  }

  /** The part of `processInviteCandidate` before its first `await`, run by a task. */
  function BeginDispatch(s: State, id: nat, task: Task, lock: Lock): State {
    Log(SetTask(s.(sh := Acquire(s.sh, lock)), id, task.(phase := Dispatching(lock))), Dispatched(lock.0, lock.1))
  }

  /** The `finally` block, after which a live task ends and a recovery task goes on. */
  function Release(s: State, id: nat, task: Task, lock: Lock, shouldRetry: bool): State {
    var released := Log(s.(sh := Unlock(s.sh, lock)), Released(lock.0, lock.1));
    if task.origin.Live? then EndTask(released, id)
    else SetTask(released, id, task.(phase := Between, shouldRetry := task.shouldRetry || shouldRetry))
  }

  function StartScan(s: State, joinEvent: nat, dm: string, count: nat): State {
    var task := Task(Recovery(joinEvent, dm, count), Scanning, [], false);
    Log(SetTask(s, s.nextId, task).(nextId := s.nextId + 1), Scanned(joinEvent))
  }

  /** One atomic step. An event that cannot happen in a state leaves it unchanged. */
  function Step(s: State, e: Event): State {
    match e
    case MessageArrives(m) =>
      if !s.subscribed || !IsCandidate(m) || AlreadyHandled(s.sh, LockOf(m)) then s
      else BeginDispatch(s, s.nextId, Task(Live, Between, [], false), LockOf(m)).(nextId := s.nextId + 1)
    case DmJoined(dm) =>
      if !s.subscribed then s else StartScan(s.(nextId := s.nextId + 1), s.nextId, dm, 0)
    case ScanDone(id, messages, shouldRetry) =>
      if id in s.tasks && s.tasks[id].phase.Scanning?
      then SetTask(s, id, s.tasks[id].(phase := Between, pending := messages, shouldRetry := shouldRetry))
      else s
    case ScanThrows(id) =>
      if id in s.tasks && s.tasks[id].phase.Scanning? then EndTask(s, id) else s
    case Proceed(id) =>
      if id in s.tasks && s.tasks[id].phase.Between? then ProceedStep(s, id, s.tasks[id]) else s
    case DispatchDone(id, outcome) =>
      if id in s.tasks && s.tasks[id].phase.Dispatching?
      then DispatchDoneStep(s, id, s.tasks[id], s.tasks[id].phase.lock, outcome) else s
    case CallbackDone(id) =>
      if id in s.tasks && s.tasks[id].phase.Notifying?
      then Release(s, id, s.tasks[id], s.tasks[id].phase.lock, false) else s
    case RetryFires(dm) =>
      if dm in s.sh.retryTimers && s.sh.retryTimers[dm].due <= s.now
      then var retry := s.sh.retryTimers[dm];
           StartScan(s.(sh := s.sh.(retryTimers := s.sh.retryTimers - {dm})), retry.joinEvent, dm, retry.count)
      else s
    case KeyFires(key) =>
      if key in s.sh.keyTimers && s.sh.keyTimers[key].due <= s.now
      then Log(s.(sh := ExpireKey(s.sh, key)), KeyExpired(key, s.sh.keyTimers[key].timer))
      else s
    case ClockAdvances(ms) => s.(now := s.now + ms)
    case Shutdown =>
      s.(subscribed := false, sh := s.sh.(keyTimers := map[], retryTimers := map[]))
  }

  /** A recovery call between messages: take the next one, or finish. */
  function ProceedStep(s: State, id: nat, task: Task): State {
    if task.pending != [] then
      var lock, rest := LockOf(task.pending[0]), task.(pending := task.pending[1..]);
      if AlreadyHandled(s.sh, lock) then SetTask(s, id, rest) else BeginDispatch(s, id, rest, lock)
    else match task.origin
      case Live => EndTask(s, id)
      case Recovery(joinEvent, dm, count) =>
        EndTask(s.(sh := ScheduleRetry(s.sh, dm, task.shouldRetry, joinEvent, count, s.now)), id)
  }

  /** A successful dispatch: mark id and key processed, start the key's timer, and notify. */
  function AcceptStep(s: State, id: nat, task: Task, lock: Lock, timer: Hold): State {
    Log(SetTask(s.(sh := MarkAccepted(s.sh, lock, timer), nextId := s.nextId + 1), id, task.(phase := Notifying(lock))),
        Accepted(lock.0, lock.1, timer.timer, timer.due))
  }

  function DispatchDoneStep(s: State, id: nat, task: Task, lock: Lock, outcome: DispatchOutcome): State {
    match outcome
    case Joined => AcceptStep(s, id, task, lock, Hold(s.nextId, s.now + s.ttl))
    case Failed(retry) =>
      if retry then Release(s, id, task, lock, true) else SetTask(s, id, task.(phase := Notifying(lock)))
    case Nobody(retry) => Release(s, id, task, lock, retry)
    case Threw => EndTask(Release(s, id, task, lock, false), id)
  }

  function Run(s: State, events: seq<Event>): State {
    if events == [] then s else Step(Run(s, events[..|events| - 1]), events[|events| - 1])
  }

  // ---- Invariants ------------------------------------------------------------------------

  predicate Active(task: Task) {
    task.phase.Dispatching? || task.phase.Notifying?
  }

  /** The locks held by running calls. */
  ghost function Held(tasks: map<nat, Task>): map<nat, Lock> {
    map id | id in tasks && Active(tasks[id]) :: tasks[id].phase.lock
  }

  /** The locks whose dispatch has not completed. */
  ghost function Undecided(tasks: map<nat, Task>): map<nat, Lock> {
    map id | id in tasks && tasks[id].phase.Dispatching? :: tasks[id].phase.lock
  }

  ghost function Recoveries(tasks: map<nat, Task>): map<nat, Origin> {
    map id | id in tasks && tasks[id].origin.Recovery? :: tasks[id].origin
  }

  /** The trace, the tasks and the in-flight sets tell the same story, without conflicts. */
  ghost predicate LockTable(held: map<nat, Lock>, flight: set<Lock>, ids: set<string>, keys: set<string>) {
    && flight == held.Values
    && (forall i, j | i in held && j in held && i != j :: !Conflict(held[i], held[j]))
    && ids == (set lock | lock in flight :: lock.0)
    && keys == (set lock | lock in flight && lock.1.Some? :: lock.1.value)
  }

  /** So do the processed sets, the key timers and the trace. */
  ghost predicate ProcessedTable(undecided: map<nat, Lock>, sh: Shared, accepted: set<string>,
                                 holds: map<string, Hold>)
  {
    && sh.processedIds == accepted
    && sh.processedKeys == holds.Keys
    && (forall key | key in sh.keyTimers :: key in holds && holds[key] == sh.keyTimers[key])
    && (forall id | id in undecided :: undecided[id].0 !in accepted && KeySet(undecided[id].1) !! holds.Keys)
  }

  /** A join event owns at most one running recovery or waiting retry, which knows how many scans
      the event has caused. */
  ghost predicate RetryTable(recoveries: map<nat, Origin>, timers: map<string, Retry>, nextId: nat, trace: seq<Entry>) {
    && (forall id | id in recoveries ::
          var o := recoveries[id];
          o.Recovery? && o.joinEvent < nextId && o.count <= 3 && ScanCount(trace, o.joinEvent) == o.count + 1)
    && (forall dm | dm in timers ::
          var r := timers[dm];
          r.joinEvent < nextId && r.count <= 3 && ScanCount(trace, r.joinEvent) == r.count)
    && (forall i, j | i in recoveries && j in recoveries && i != j ::
          recoveries[i].joinEvent != recoveries[j].joinEvent)
    && (forall d, e | d in timers && e in timers && d != e :: timers[d].joinEvent != timers[e].joinEvent)
    && (forall i, d | i in recoveries && d in timers :: recoveries[i].joinEvent != timers[d].joinEvent)
    && (forall e | e >= nextId :: ScanCount(trace, e) == 0)
  }

  ghost predicate TaskIds(s: State) {
    && (forall id | id in s.tasks :: id < s.nextId)
    && (forall id | id in s.tasks && s.tasks[id].origin.Live? :: Active(s.tasks[id]))
  }

  ghost predicate Locks(s: State) {
    LockTable(Held(s.tasks), InFlight(s.trace), s.sh.inflightIds, s.sh.inflightKeys)
  }

  ghost predicate Processed(s: State) {
    ProcessedTable(Undecided(s.tasks), s.sh, AcceptedIds(s.trace), HeldKeys(s.trace))
  }

  ghost predicate Retries(s: State) {
    RetryTable(Recoveries(s.tasks), s.sh.retryTimers, s.nextId, s.trace)
  }

  ghost predicate Inv(s: State) {
    Locks(s) && Processed(s) && Retries(s) && TaskIds(s) && Safe(s.trace)
  }

  // ---- The tables under one change -------------------------------------------------------

  lemma TableAdd(held: map<nat, Lock>, flight: set<Lock>, ids: set<string>, keys: set<string>, id: nat, lock: Lock)
    requires LockTable(held, flight, ids, keys) && id !in held
    requires lock.0 !in ids && KeySet(lock.1) !! keys
    ensures forall l | l in flight :: !Conflict(l, lock)
    ensures LockTable(held[id := lock], flight + {lock}, ids + {lock.0}, keys + KeySet(lock.1))
  {
    forall l | l in flight ensures !Conflict(l, lock) { }
    var h := held[id := lock];
    forall l ensures l in h.Values <==> l in flight + {lock} {
      if l in flight {
        var i :| i in held && held[i] == l;
        assert h[i] == l;
      }
      assert h[id] == lock;
    }
    forall i | i in held ensures !Conflict(held[i], lock) { assert held[i] in held.Values; }
  }

  lemma TableRemove(held: map<nat, Lock>, flight: set<Lock>, ids: set<string>, keys: set<string>, id: nat)
    requires LockTable(held, flight, ids, keys) && id in held
    ensures held[id] in flight
    ensures LockTable(held - {id}, flight - {held[id]}, ids - {held[id].0}, keys - KeySet(held[id].1))
  {
    var h, lock := held - {id}, held[id];
    assert lock in held.Values;
    forall l ensures l in h.Values <==> l in flight - {lock} {
      if l in flight - {lock} {
        var i :| i in held && held[i] == l;
        assert h[i] == l;
      }
      if l in h.Values {
        var i :| i in h && h[i] == l;
        assert held[i] in held.Values && !Conflict(held[i], lock);
      }
    }
    forall l | l in flight - {lock} ensures !Conflict(l, lock) {
      var i :| i in held && held[i] == l;
    }
  }

  lemma RetriesFrame(r: map<nat, Origin>, timers: map<string, Retry>, n: nat, n': nat, trace: seq<Entry>, e: Entry)
    requires RetryTable(r, timers, n, trace) && n <= n' && !e.action.Scanned?
    ensures RetryTable(r, timers, n', trace + [e])
  {
    forall j ensures ScanCount(trace + [e], j) == ScanCount(trace, j) { SnocScans(trace, e, j); }
  }

  lemma SetTaskTables(tasks: map<nat, Task>, id: nat, task: Task)
    ensures var t := tasks[id := task];
            && Held(t) == (if Active(task) then Held(tasks)[id := task.phase.lock] else Held(tasks) - {id})
            && Undecided(t) == (if task.phase.Dispatching? then Undecided(tasks)[id := task.phase.lock]
                                else Undecided(tasks) - {id})
            && Recoveries(t) == (if task.origin.Recovery? then Recoveries(tasks)[id := task.origin]
                                 else Recoveries(tasks) - {id})
  {
  }

  lemma EndTaskTables(tasks: map<nat, Task>, id: nat)
    ensures var t := tasks - {id};
            && Held(t) == Held(tasks) - {id}
            && Undecided(t) == Undecided(tasks) - {id}
            && Recoveries(t) == Recoveries(tasks) - {id}
  {
  }

  /** An accepted lock conflicts with no other, so no other undecided call can be accepted too. */
  lemma AcceptTable(held: map<nat, Lock>, undecided: map<nat, Lock>, sh: Shared, accepted: set<string>,
                    holds: map<string, Hold>, id: nat, timer: Hold)
    requires ProcessedTable(undecided, sh, accepted, holds)
    requires (forall i, j | i in held && j in held && i != j :: !Conflict(held[i], held[j]))
    requires (forall i | i in undecided :: i in held && held[i] == undecided[i]) && id in undecided
    ensures var lock := undecided[id];
            ProcessedTable(undecided - {id}, MarkAccepted(sh, lock, timer), accepted + {lock.0},
                           if lock.1.Some? then holds[lock.1.value := timer] else holds)
  {
    var lock := undecided[id];
    forall i | i in undecided && i != id ensures !Conflict(undecided[i], lock) { }
  }

  // ---- Each piece keeps the invariant ----------------------------------------------------

  lemma BeginKeepsLocks(s: State, id: nat, lock: Lock)
    requires Locks(s) && Processed(s) && !AlreadyHandled(s.sh, lock) && id !in Held(s.tasks)
    ensures LockTable(Held(s.tasks)[id := lock], InFlight(s.trace) + {lock},
                      Acquire(s.sh, lock).inflightIds, Acquire(s.sh, lock).inflightKeys)
    ensures Permitted(s.trace, s.now, Dispatched(lock.0, lock.1))
  {
    TableAdd(Held(s.tasks), InFlight(s.trace), s.sh.inflightIds, s.sh.inflightKeys, id, lock);
  }

  lemma BeginTables(s: State, id: nat, task: Task, lock: Lock)
    requires if id in s.tasks then !Active(s.tasks[id]) && task.origin == s.tasks[id].origin else task.origin.Live?
    ensures var t := s.tasks[id := task.(phase := Dispatching(lock))];
            && id !in Held(s.tasks)
            && Held(t) == Held(s.tasks)[id := lock]
            && Undecided(t) == Undecided(s.tasks)[id := lock]
            && Recoveries(t) == Recoveries(s.tasks)
  {
    SetTaskTables(s.tasks, id, task.(phase := Dispatching(lock)));
  }

  lemma BeginKeepsProcessed(s: State, id: nat, lock: Lock)
    requires Processed(s) && !AlreadyHandled(s.sh, lock)
    ensures ProcessedTable(Undecided(s.tasks)[id := lock], Acquire(s.sh, lock), AcceptedIds(s.trace), HeldKeys(s.trace))
  {
  }

  lemma BeginKeepsInv(s: State, id: nat, task: Task, lock: Lock, n: nat)
    requires Inv(s) && !AlreadyHandled(s.sh, lock)
    requires if id in s.tasks then !Active(s.tasks[id]) && task.origin == s.tasks[id].origin && n == s.nextId
             else task.origin.Live? && id == s.nextId && n == s.nextId + 1
    ensures Inv(BeginDispatch(s, id, task, lock).(nextId := n))
  {
    var t := BeginDispatch(s, id, task, lock).(nextId := n);
    var e := Entry(s.now, Dispatched(lock.0, lock.1));
    BeginTables(s, id, task, lock);
    Snoc(s.trace, e);
    BeginKeepsLocks(s, id, lock);
    BeginKeepsProcessed(s, id, lock);
    RetriesFrame(Recoveries(s.tasks), s.sh.retryTimers, s.nextId, n, s.trace, e);
    BeginKeepsIds(s, id, task, lock, n);
    assert Locks(t) && Processed(t) && Retries(t);
  }

  lemma BeginKeepsIds(s: State, id: nat, task: Task, lock: Lock, n: nat)
    requires TaskIds(s) && id < n && s.nextId <= n
    ensures TaskIds(BeginDispatch(s, id, task, lock).(nextId := n))
  {
  }

  lemma ReleaseTables(s: State, id: nat, task: Task, lock: Lock, retry: bool)
    requires id in s.tasks && s.tasks[id] == task && Active(task) && task.phase.lock == lock
    ensures var t := Release(s, id, task, lock, retry);
            && Held(s.tasks)[id] == lock
            && Held(t.tasks) == Held(s.tasks) - {id}
            && Undecided(t.tasks) == Undecided(s.tasks) - {id}
            && Recoveries(t.tasks) == Recoveries(s.tasks)
  {
    EndTaskTables(s.tasks, id);
    SetTaskTables(s.tasks, id, task.(phase := Between, shouldRetry := task.shouldRetry || retry));
  }

  lemma IsHeld(s: State, id: nat)
    requires id in s.tasks && Active(s.tasks[id])
    ensures id in Held(s.tasks)
  {
  }

  lemma ReleaseKeepsInv(s: State, id: nat, task: Task, lock: Lock, retry: bool)
    requires Inv(s) && id in s.tasks && s.tasks[id] == task && Active(task) && task.phase.lock == lock
    ensures Inv(Release(s, id, task, lock, retry))
  {
    hide LockTable, RetryTable, Held, Undecided, Recoveries, InFlight, Safe, AcceptedIds, HeldKeys;
    var t := Release(s, id, task, lock, retry);
    var e := Entry(s.now, Released(lock.0, lock.1));
    ReleaseTables(s, id, task, lock, retry);
    IsHeld(s, id);
    Snoc(s.trace, e);
    TableRemove(Held(s.tasks), InFlight(s.trace), s.sh.inflightIds, s.sh.inflightKeys, id);
    assert Locks(t);
    assert Processed(t);
    assert Retries(t) by {
      RetriesFrame(Recoveries(s.tasks), s.sh.retryTimers, s.nextId, s.nextId, s.trace, e);
    }
  }

  lemma AcceptTables(s: State, id: nat, task: Task, lock: Lock)
    requires id in s.tasks && s.tasks[id] == task && task.phase == Dispatching(lock)
    ensures var t := s.tasks[id := task.(phase := Notifying(lock))];
            && Undecided(s.tasks)[id] == lock && Held(s.tasks)[id] == lock
            && Held(t) == Held(s.tasks)
            && Undecided(t) == Undecided(s.tasks) - {id}
            && Recoveries(t) == Recoveries(s.tasks)
            && (forall i | i in Undecided(s.tasks) :: i in Held(s.tasks) && Held(s.tasks)[i] == Undecided(s.tasks)[i])
  {
    SetTaskTables(s.tasks, id, task.(phase := Notifying(lock)));
  }

  lemma AcceptPermitted(s: State, id: nat, lock: Lock, timer: Hold)
    requires Locks(s) && Processed(s) && id in Undecided(s.tasks) && id in Held(s.tasks)
    requires Undecided(s.tasks)[id] == lock && Held(s.tasks)[id] == lock
    ensures Permitted(s.trace, s.now, Accepted(lock.0, lock.1, timer.timer, timer.due))
  {
    assert lock in Held(s.tasks).Values;
  }

  lemma AcceptTrace(s: State, lock: Lock, timer: Hold)
    requires Safe(s.trace) && Permitted(s.trace, s.now, Accepted(lock.0, lock.1, timer.timer, timer.due))
    ensures var grown := s.trace + [Entry(s.now, Accepted(lock.0, lock.1, timer.timer, timer.due))];
            && InFlight(grown) == InFlight(s.trace)
            && AcceptedIds(grown) == AcceptedIds(s.trace) + {lock.0}
            && HeldKeys(grown) == (if lock.1.Some? then HeldKeys(s.trace)[lock.1.value := timer] else HeldKeys(s.trace))
            && Safe(grown)
  {
    Snoc(s.trace, Entry(s.now, Accepted(lock.0, lock.1, timer.timer, timer.due)));
  }

  lemma AcceptKeepsProcessed(s: State, id: nat, task: Task, lock: Lock, timer: Hold)
    requires Locks(s) && Processed(s) && id in s.tasks && s.tasks[id] == task && task.phase == Dispatching(lock)
    ensures ProcessedTable(Undecided(s.tasks[id := task.(phase := Notifying(lock))]), MarkAccepted(s.sh, lock, timer),
                           AcceptedIds(s.trace) + {lock.0},
                           if lock.1.Some? then HeldKeys(s.trace)[lock.1.value := timer] else HeldKeys(s.trace))
  {
    AcceptTables(s, id, task, lock);
    AcceptTable(Held(s.tasks), Undecided(s.tasks), s.sh, AcceptedIds(s.trace), HeldKeys(s.trace), id, timer);
  }

  lemma AcceptKeepsInv(s: State, id: nat, task: Task, lock: Lock, timer: Hold)
    requires Inv(s) && id in s.tasks && s.tasks[id] == task && task.phase == Dispatching(lock)
    ensures Inv(AcceptStep(s, id, task, lock, timer))
  {
    var t := AcceptStep(s, id, task, lock, timer);
    AcceptTables(s, id, task, lock);
    AcceptPermitted(s, id, lock, timer);
    AcceptTrace(s, lock, timer);
    assert Locks(t);
    assert Processed(t) by { AcceptKeepsProcessed(s, id, task, lock, timer); }
    assert Retries(t) by {
      RetriesFrame(Recoveries(s.tasks), s.sh.retryTimers, s.nextId, s.nextId + 1, s.trace,
                   Entry(s.now, Accepted(lock.0, lock.1, timer.timer, timer.due)));
    }
  }

  lemma ExpireKeepsInv(s: State, key: string)
    requires Inv(s) && key in s.sh.keyTimers && s.sh.keyTimers[key].due <= s.now
    ensures Inv(Step(s, KeyFires(key)))
  {
    hide LockTable, RetryTable, Held, Undecided, Recoveries, InFlight, Safe, AcceptedIds, HeldKeys;
    var e := Entry(s.now, KeyExpired(key, s.sh.keyTimers[key].timer));
    Snoc(s.trace, e);
    RetriesFrame(Recoveries(s.tasks), s.sh.retryTimers, s.nextId, s.nextId, s.trace, e);
  }

  lemma ScanTable(r: map<nat, Origin>, timers: map<string, Retry>, n: nat, trace: seq<Entry>,
                  joinEvent: nat, dm: string, count: nat, now: int)
    requires RetryTable(r, timers, n, trace) && n !in r
    requires count <= 3 && joinEvent < n && ScanCount(trace, joinEvent) == count
    requires forall id | id in r :: r[id].joinEvent != joinEvent
    requires forall d | d in timers :: timers[d].joinEvent != joinEvent
    ensures RetryTable(r[n := Recovery(joinEvent, dm, count)], timers, n + 1, trace + [Entry(now, Scanned(joinEvent))])
  {
    var e := Entry(now, Scanned(joinEvent));
    forall j ensures ScanCount(trace + [e], j) == ScanCount(trace, j) + (if j == joinEvent then 1 else 0) {
      SnocScans(trace, e, j);
    }
  }

  lemma ScanKeepsInv(s: State, joinEvent: nat, dm: string, count: nat)
    requires Inv(s) && count <= 3 && joinEvent < s.nextId && ScanCount(s.trace, joinEvent) == count
    requires forall id | id in Recoveries(s.tasks) :: Recoveries(s.tasks)[id].joinEvent != joinEvent
    requires forall d | d in s.sh.retryTimers :: s.sh.retryTimers[d].joinEvent != joinEvent
    ensures Inv(StartScan(s, joinEvent, dm, count))
  {
    var t := StartScan(s, joinEvent, dm, count);
    ScanTables(s, joinEvent, dm, count);
    Snoc(s.trace, Entry(s.now, Scanned(joinEvent)));
    assert Locks(t);
    assert Processed(t);
    assert Retries(t) by {
      ScanTable(Recoveries(s.tasks), s.sh.retryTimers, s.nextId, s.trace, joinEvent, dm, count, s.now);
    }
  }

  lemma ScanTables(s: State, joinEvent: nat, dm: string, count: nat)
    requires TaskIds(s)
    ensures var t := StartScan(s, joinEvent, dm, count);
            && Held(t.tasks) == Held(s.tasks) && Undecided(t.tasks) == Undecided(s.tasks)
            && s.nextId !in Recoveries(s.tasks)
            && Recoveries(t.tasks) == Recoveries(s.tasks)[s.nextId := Recovery(joinEvent, dm, count)]
            && TaskIds(t)
  {
    SetTaskTables(s.tasks, s.nextId, Task(Recovery(joinEvent, dm, count), Scanning, [], false));
  }

  /** A call outside a candidate changes its bookkeeping. */
  lemma QuietKeepsInv(s: State, id: nat, task: Task)
    requires Inv(s) && id in s.tasks && !Active(s.tasks[id])
    requires !Active(task) && task.origin == s.tasks[id].origin
    ensures Inv(SetTask(s, id, task))
  {
    var t := SetTask(s, id, task);
    SetTaskTables(s.tasks, id, task);
    assert Held(t.tasks) == Held(s.tasks) && Undecided(t.tasks) == Undecided(s.tasks);
    assert Recoveries(t.tasks) == Recoveries(s.tasks);
    hide LockTable, RetryTable, InFlight, Safe, AcceptedIds, HeldKeys, Held, Undecided, Recoveries;
    assert Locks(t) && Processed(t) && Retries(t);
  }

  /** A call outside a candidate ends, possibly leaving one retry behind. */
  lemma EndKeepsInv(s: State, id: nat, shouldRetry: bool)
    requires Inv(s) && id in s.tasks && !Active(s.tasks[id]) && s.tasks[id].origin.Recovery?
    ensures var o := s.tasks[id].origin;
            Inv(EndTask(s.(sh := ScheduleRetry(s.sh, o.dm, shouldRetry, o.joinEvent, o.count, s.now)), id))
  {
    var o := s.tasks[id].origin;
    var sh := ScheduleRetry(s.sh, o.dm, shouldRetry, o.joinEvent, o.count, s.now);
    var t := EndTask(s.(sh := sh), id);
    EndTaskTables(s.tasks, id);
    NotHeld(s, id);
    RetryMove(Recoveries(s.tasks), s.sh, s.nextId, s.trace, id, shouldRetry, s.now);
    hide LockTable, RetryTable, InFlight, Safe, AcceptedIds, HeldKeys, Held, Undecided, Recoveries;
    assert Locks(t) && Processed(t) && Retries(t);
  }

  lemma NotHeld(s: State, id: nat)
    requires id in s.tasks && !Active(s.tasks[id])
    ensures Held(s.tasks) - {id} == Held(s.tasks) && Undecided(s.tasks) - {id} == Undecided(s.tasks)
    ensures s.tasks[id].origin.Recovery? ==> id in Recoveries(s.tasks) && Recoveries(s.tasks)[id] == s.tasks[id].origin
  {
  }

  /** A recovery that ends hands its join event to the retry it leaves behind, if any. */
  lemma RetryMove(r: map<nat, Origin>, sh: Shared, n: nat, trace: seq<Entry>, id: nat, shouldRetry: bool, now: int)
    requires RetryTable(r, sh.retryTimers, n, trace) && id in r
    ensures r[id].Recovery?
    ensures var next := ScheduleRetry(sh, r[id].dm, shouldRetry, r[id].joinEvent, r[id].count, now);
            && RetryTable(r - {id}, next.retryTimers, n, trace)
            && next == sh.(retryTimers := next.retryTimers)
  {
    hide ScanCount;
  }

  lemma EndQuietly(s: State, id: nat)
    requires Inv(s) && id in s.tasks && !Active(s.tasks[id]) && s.tasks[id].origin.Recovery?
    ensures Inv(EndTask(s, id))
  {
    EndKeepsInv(s, id, false);
    assert s.(sh := s.sh) == s;
  }

  lemma ReleasedTask(s: State, id: nat, task: Task, lock: Lock)
    requires id in s.tasks
    ensures var r := Release(s, id, task, lock, false);
            if task.origin.Live? then EndTask(r, id) == r
            else id in r.tasks && !Active(r.tasks[id]) && r.tasks[id].origin == task.origin
  {
    assert (s.tasks - {id}) - {id} == s.tasks - {id};
  }

  lemma ThrowKeepsInv(s: State, id: nat, task: Task, lock: Lock)
    requires Inv(s) && id in s.tasks && s.tasks[id] == task && task.phase == Dispatching(lock)
    ensures Inv(EndTask(Release(s, id, task, lock, false), id))
  {
    ReleaseKeepsInv(s, id, task, lock, false);
    ReleasedTask(s, id, task, lock);
    if task.origin.Recovery? { EndQuietly(Release(s, id, task, lock, false), id); }
  }

  lemma DispatchDoneKeepsInv(s: State, id: nat, task: Task, lock: Lock, outcome: DispatchOutcome)
    requires Inv(s) && id in s.tasks && s.tasks[id] == task && task.phase == Dispatching(lock)
    ensures Inv(DispatchDoneStep(s, id, task, lock, outcome))
  {
    var t := DispatchDoneStep(s, id, task, lock, outcome);
    if outcome.Joined? {
      var timer := Hold(s.nextId, s.now + s.ttl);
      assert t == AcceptStep(s, id, task, lock, timer);
      AcceptKeepsInv(s, id, task, lock, timer);
    } else if outcome.Threw? {
      assert t == EndTask(Release(s, id, task, lock, false), id);
      ThrowKeepsInv(s, id, task, lock);
    } else if outcome.Failed? && !outcome.retry {
      assert t == SetTask(s, id, task.(phase := Notifying(lock)));
      RejectKeepsInv(s, id, task, lock);
    } else {
      assert t == Release(s, id, task, lock, outcome.retry);
      ReleaseKeepsInv(s, id, task, lock, outcome.retry);
    }
  }

  lemma RejectKeepsInv(s: State, id: nat, task: Task, lock: Lock)
    requires Inv(s) && id in s.tasks && s.tasks[id] == task && task.phase == Dispatching(lock)
    ensures Inv(SetTask(s, id, task.(phase := Notifying(lock))))
  {
    var t := SetTask(s, id, task.(phase := Notifying(lock)));
    AcceptTables(s, id, task, lock);
    assert Locks(t) && Processed(t) && Retries(t);
  }

  lemma ProceedKeepsInv(s: State, id: nat)
    requires Inv(s) && id in s.tasks && s.tasks[id].phase.Between?
    ensures Inv(ProceedStep(s, id, s.tasks[id]))
  {
    var task := s.tasks[id];
    if task.pending == [] {
      EndKeepsInv(s, id, task.shouldRetry);
    } else {
      var lock, rest := LockOf(task.pending[0]), task.(pending := task.pending[1..]);
      if AlreadyHandled(s.sh, lock) {
        QuietKeepsInv(s, id, rest);
      } else {
        BeginKeepsInv(s, id, rest, lock, s.nextId);
      }
    }
  }

  lemma JoinKeepsInv(s: State, dm: string)
    requires Inv(s)
    ensures Inv(Step(s, DmJoined(dm)))
  {
    if s.subscribed {
      var named := s.(nextId := s.nextId + 1);
      JoinStep(s, dm);
      NamedKeepsInv(s);
      hide Inv, StartScan, Recoveries, ScanCount, Step;
      ScanKeepsInv(named, s.nextId, dm, 0);
    }
  }

  lemma JoinStep(s: State, dm: string)
    requires s.subscribed
    ensures Step(s, DmJoined(dm)) == StartScan(s.(nextId := s.nextId + 1), s.nextId, dm, 0)
  {
    hide StartScan;
  }

  /** A join event takes the next id, which no scan has been charged to. */
  lemma NamedKeepsInv(s: State)
    requires Inv(s)
    ensures Inv(s.(nextId := s.nextId + 1)) && ScanCount(s.trace, s.nextId) == 0
    ensures forall id | id in Recoveries(s.tasks) :: Recoveries(s.tasks)[id].joinEvent != s.nextId
    ensures forall d | d in s.sh.retryTimers :: s.sh.retryTimers[d].joinEvent != s.nextId
  {
    hide LockTable, ProcessedTable, Safe, ScanCount, Recoveries;
  }

  lemma RetryKeepsInv(s: State, dm: string)
    requires Inv(s)
    ensures Inv(Step(s, RetryFires(dm)))
  {
    if dm in s.sh.retryTimers && s.sh.retryTimers[dm].due <= s.now {
      var retry := s.sh.retryTimers[dm];
      var fired := s.(sh := s.sh.(retryTimers := s.sh.retryTimers - {dm}));
      ScanKeepsInv(fired, retry.joinEvent, dm, retry.count);
    }
  }

  lemma TaskStepKeepsInv(s: State, e: Event)
    requires Inv(s) && (e.ScanDone? || e.ScanThrows? || e.Proceed? || e.DispatchDone? || e.CallbackDone?)
    ensures Inv(Step(s, e))
  {
    if e.task in s.tasks {
      var task := s.tasks[e.task];
      match e {
        case ScanDone(id, messages, retry) =>
          if task.phase.Scanning? {
            QuietKeepsInv(s, id, task.(phase := Between, pending := messages, shouldRetry := retry));
          }
        case ScanThrows(id) =>
          if task.phase.Scanning? { EndKeepsInv(s, id, false); }
        case Proceed(id) =>
          if task.phase.Between? { ProceedKeepsInv(s, id); }
        case DispatchDone(id, outcome) =>
          if task.phase.Dispatching? { DispatchDoneKeepsInv(s, id, task, task.phase.lock, outcome); }
        case CallbackDone(id) =>
          if task.phase.Notifying? { ReleaseKeepsInv(s, id, task, task.phase.lock, false); }
      }
    }
  }

  lemma StepKeepsInv(s: State, e: Event)
    requires Inv(s)
    ensures Inv(Step(s, e))
  {
    match e {
      case MessageArrives(m) =>
        if s.subscribed && IsCandidate(m) && !AlreadyHandled(s.sh, LockOf(m)) {
          BeginKeepsInv(s, s.nextId, Task(Live, Between, [], false), LockOf(m), s.nextId + 1);
        }
      case DmJoined(dm) => JoinKeepsInv(s, dm);
      case RetryFires(dm) => RetryKeepsInv(s, dm);
      case KeyFires(key) =>
        if key in s.sh.keyTimers && s.sh.keyTimers[key].due <= s.now { ExpireKeepsInv(s, key); }
      case ClockAdvances(ms) =>
      case Shutdown =>
      case _ => TaskStepKeepsInv(s, e);
    }
  }

  /** Every interleaving keeps the invariant; in particular its trace is safe. */
  lemma {:induction false} RunKeepsInv(ttl: int, now: int, events: seq<Event>)
    ensures Inv(Run(Start(ttl, now), events))
  {
    if events != [] {
      RunKeepsInv(ttl, now, events[..|events| - 1]);
      StepKeepsInv(Run(Start(ttl, now), events[..|events| - 1]), events[|events| - 1]);
    }
  }

  // ---- Main results ----------------------------------------------------------------------

  /** No two running calls work on the same message id or the same request key. */
  lemma NoTwoInFlight(ttl: int, now: int, events: seq<Event>, i: nat, j: nat)
    ensures var s := Run(Start(ttl, now), events);
            i in s.tasks && j in s.tasks && i != j && Active(s.tasks[i]) && Active(s.tasks[j]) ==>
              !Conflict(s.tasks[i].phase.lock, s.tasks[j].phase.lock)
  {
    RunKeepsInv(ttl, now, events);
    var s := Run(Start(ttl, now), events);
    if i in s.tasks && j in s.tasks && i != j && Active(s.tasks[i]) && Active(s.tasks[j]) {
      assert Held(s.tasks)[i] == s.tasks[i].phase.lock && Held(s.tasks)[j] == s.tasks[j].phase.lock;
    }
  }

  /** With no call inside a candidate, no id or key is left locked, thrown dispatches included. */
  lemma NothingStaysLocked(ttl: int, now: int, events: seq<Event>)
    ensures var s := Run(Start(ttl, now), events);
            (forall id | id in s.tasks :: !Active(s.tasks[id])) ==> s.sh.inflightIds == {} && s.sh.inflightKeys == {}
  {
    RunKeepsInv(ttl, now, events);
    var s := Run(Start(ttl, now), events);
    if forall id | id in s.tasks :: !Active(s.tasks[id]) {
      assert Held(s.tasks) == map[];
      assert InFlight(s.trace) == {};
    }
  }

  /** In the trace of any interleaving, a later dispatch for the same message id or request key
      starts only after the earlier one was released. */
  lemma DispatchesNeverOverlap(ttl: int, now: int, events: seq<Event>, i: nat, j: nat)
    requires var trace := Run(Start(ttl, now), events).trace;
             && i < j < |trace| && trace[i].action.Dispatched? && trace[j].action.Dispatched?
             && Conflict((trace[i].action.id, trace[i].action.key), (trace[j].action.id, trace[j].action.key))
    ensures var trace := Run(Start(ttl, now), events).trace;
            ReleasedBetween(trace, i, j, (trace[i].action.id, trace[i].action.key))
  {
    RunKeepsInv(ttl, now, events);
    DispatchesDoNotOverlap(Run(Start(ttl, now), events).trace, i, j);
  }

  /** A message id is accepted at most once ever, and not dispatched again afterwards. */
  lemma MessageAcceptedOnce(ttl: int, now: int, events: seq<Event>, i: nat, j: nat)
    requires var trace := Run(Start(ttl, now), events).trace;
             && i < j < |trace| && trace[i].action.Accepted?
             && (trace[j].action.Accepted? || trace[j].action.Dispatched?)
    ensures var trace := Run(Start(ttl, now), events).trace;
            trace[i].action.id != trace[j].action.id
  {
    RunKeepsInv(ttl, now, events);
    AcceptedOnce(Run(Start(ttl, now), events).trace, i, j);
  }

  /** Times in the trace do not decrease, and every key timer is due one TTL after acceptance. */
  ghost predicate Timed(s: State, ttl: int) {
    && s.ttl == ttl
    && (forall i | 0 <= i < |s.trace| :: s.trace[i].at <= s.now)
    && (forall i, j | 0 <= i < j < |s.trace| :: s.trace[i].at <= s.trace[j].at)
    && (forall i | 0 <= i < |s.trace| && s.trace[i].action.Accepted? :: s.trace[i].action.due == s.trace[i].at + ttl)
  }

  /** A step records at most one action, at the current time. */
  lemma StepRecordsOne(s: State, e: Event)
    ensures var t := Step(s, e);
            && t.ttl == s.ttl && s.now <= t.now
            && (t.trace == s.trace
                || (|t.trace| == |s.trace| + 1 && s.trace == t.trace[..|s.trace|]
                    && t.trace[|s.trace|].at == s.now
                    && (t.trace[|s.trace|].action.Accepted? ==> t.trace[|s.trace|].action.due == s.now + s.ttl)))
  {
    hide Acquire, Unlock, MarkAccepted, ExpireKey, ScheduleRetry, AlreadyHandled, LockOf, IsCandidate;
    assert forall x: Entry :: (s.trace + [x])[..|s.trace|] == s.trace;
  }

  lemma {:induction false} RunTimed(ttl: int, now: int, events: seq<Event>)
    ensures Timed(Run(Start(ttl, now), events), ttl)
  {
    if events != [] {
      var s := Run(Start(ttl, now), events[..|events| - 1]);
      RunTimed(ttl, now, events[..|events| - 1]);
      StepRecordsOne(s, events[|events| - 1]);
      TimedSnoc(s, Step(s, events[|events| - 1]), ttl);
    }
  }

  lemma TimedSnoc(s: State, t: State, ttl: int)
    requires Timed(s, ttl) && t.ttl == s.ttl && s.now <= t.now
    requires t.trace == s.trace
             || (|t.trace| == |s.trace| + 1 && s.trace == t.trace[..|s.trace|]
                 && t.trace[|s.trace|].at == s.now
                 && (t.trace[|s.trace|].action.Accepted? ==> t.trace[|s.trace|].action.due == s.now + s.ttl))
    ensures Timed(t, ttl)
  {
    assert forall i | 0 <= i < |s.trace| :: t.trace[i] == s.trace[i];
  }

  /** An accepted key is dispatched again only after its own timer has fired, at least one TTL
      after the acceptance. */
  lemma KeyNotRedispatchedWithinTtl(ttl: int, now: int, events: seq<Event>, i: nat, j: nat)
    requires var trace := Run(Start(ttl, now), events).trace;
             && i < j < |trace| && trace[i].action.Accepted? && trace[i].action.key.Some?
             && trace[j].action.Dispatched? && trace[j].action.key == trace[i].action.key
    ensures var trace := Run(Start(ttl, now), events).trace;
            ExpiredBetween(trace, i, j) && trace[i].at + ttl <= trace[j].at
  {
    var trace := Run(Start(ttl, now), events).trace;
    RunKeepsInv(ttl, now, events);
    RunTimed(ttl, now, events);
    KeyHeldUntilExpiry(trace, i, j);
    var t :| i < t < j && trace[t].action == KeyExpired(trace[i].action.key.value, trace[i].action.timer)
      && trace[i].action.due <= trace[t].at;
  }

  /** Each `raw.dm.joined` event causes at most four scans. */
  lemma JoinScansAtMostFour(ttl: int, now: int, events: seq<Event>, joinEvent: nat)
    ensures ScanCount(Run(Start(ttl, now), events).trace, joinEvent) <= 4
  {
    RunKeepsInv(ttl, now, events);
    AtMostFourScans(Run(Start(ttl, now), events).trace, joinEvent);
  }

  // ---- What the events bring about -------------------------------------------------------

  /** The early returns refuse exactly what the trace does not permit. */
  lemma PermittedIff(s: State, lock: Lock)
    requires Inv(s)
    ensures Permitted(s.trace, s.now, Dispatched(lock.0, lock.1)) <==> !AlreadyHandled(s.sh, lock)
  {
    if AlreadyHandled(s.sh, lock) && NoConflict(InFlight(s.trace), lock) {
      assert lock.0 !in s.sh.inflightIds && KeySet(lock.1) !! s.sh.inflightKeys by {
        NoConflictFree(Held(s.tasks), InFlight(s.trace), s.sh.inflightIds, s.sh.inflightKeys, lock);
      }
    }
    if !AlreadyHandled(s.sh, lock) {
      TableAdd(Held(s.tasks), InFlight(s.trace), s.sh.inflightIds, s.sh.inflightKeys, s.nextId, lock);
    }
  }

  lemma NoConflictFree(held: map<nat, Lock>, flight: set<Lock>, ids: set<string>, keys: set<string>, lock: Lock)
    requires LockTable(held, flight, ids, keys) && NoConflict(flight, lock)
    ensures lock.0 !in ids && KeySet(lock.1) !! keys
  {
  }

  /** A live message is dispatched exactly when the listener is subscribed, the message is a candidate
      and the trace permits it: nothing else in progress can hold it up. */
  lemma MessageDispatchedIff(s: State, m: Message)
    requires Inv(s)
    ensures var dispatch := Dispatched(m.id, RequestKey(m));
            Step(s, MessageArrives(m)).trace ==
            if s.subscribed && IsCandidate(m) && Permitted(s.trace, s.now, dispatch)
            then s.trace + [Entry(s.now, dispatch)] else s.trace
  {
    PermittedIff(s, LockOf(m));
  }

  /** So is each message a scan found, when its turn comes; the call goes on with the next. */
  lemma PendingDispatchedIff(s: State, id: nat)
    requires Inv(s) && id in s.tasks && s.tasks[id].phase.Between? && s.tasks[id].pending != []
    ensures var m, t := s.tasks[id].pending[0], Step(s, Proceed(id));
            var dispatch := Dispatched(m.id, RequestKey(m));
            && t.trace == (if Permitted(s.trace, s.now, dispatch) then s.trace + [Entry(s.now, dispatch)] else s.trace)
            && id in t.tasks && t.tasks[id].pending == s.tasks[id].pending[1..]
            && t.tasks[id].shouldRetry == s.tasks[id].shouldRetry
  {
    PermittedIff(s, LockOf(s.tasks[id].pending[0]));
  }

  /** A dispatch that ends is recorded as accepted exactly when it joined somebody, its key held for
      one TTL; a recovery call remembers whether it is worth trying again. */
  lemma DispatchRecorded(s: State, id: nat, outcome: DispatchOutcome)
    requires Inv(s) && id in s.tasks && s.tasks[id].phase.Dispatching?
    ensures var lock, t := s.tasks[id].phase.lock, Step(s, DispatchDone(id, outcome));
            && AcceptedIds(t.trace) == AcceptedIds(s.trace) + (if outcome.Joined? then {lock.0} else {})
            && HeldKeys(t.trace).Keys == HeldKeys(s.trace).Keys + (if outcome.Joined? then KeySet(lock.1) else {})
            && (outcome.Joined? && lock.1.Some? ==> HeldKeys(t.trace)[lock.1.value].due == s.now + s.ttl)
  {
    var lock := s.tasks[id].phase.lock;
    DispatchTrace(s, id, outcome);
    hide Inv, Step, InFlight, AcceptedIds, HeldKeys, Safe, Permitted;
    Snoc(s.trace, Entry(s.now, Accepted(lock.0, lock.1, s.nextId, s.now + s.ttl)));
    Snoc(s.trace, Entry(s.now, Released(lock.0, lock.1)));
  }

  lemma DispatchTrace(s: State, id: nat, outcome: DispatchOutcome)
    requires id in s.tasks && s.tasks[id].phase.Dispatching?
    ensures var lock := s.tasks[id].phase.lock;
            Step(s, DispatchDone(id, outcome)).trace == s.trace +
            (if outcome.Joined? then [Entry(s.now, Accepted(lock.0, lock.1, s.nextId, s.now + s.ttl))]
             else if outcome == Failed(false) then [] else [Entry(s.now, Released(lock.0, lock.1))])
  {
  }

  /** A recovery call remembers whether one of its dispatches is worth trying again; a thrown one ends
      it. */
  lemma RetryRemembered(s: State, id: nat, outcome: DispatchOutcome)
    requires id in s.tasks && s.tasks[id].phase.Dispatching? && s.tasks[id].origin.Recovery?
    ensures var t := Step(Step(s, DispatchDone(id, outcome)), CallbackDone(id));
            && (id in t.tasks <==> outcome != Threw)
            && (id in t.tasks ==>
                  && t.tasks[id].phase.Between? && t.tasks[id].pending == s.tasks[id].pending
                  && (t.tasks[id].shouldRetry <==>
                      s.tasks[id].shouldRetry || outcome == Failed(true) || outcome == Nobody(true)))
  {
  }

  /** Once its dispatch and its callback are done, however they end, a call holds no lock. */
  lemma DispatchReleased(s: State, id: nat, outcome: DispatchOutcome)
    requires Inv(s) && id in s.tasks && s.tasks[id].phase.Dispatching?
    ensures var t := Step(Step(s, DispatchDone(id, outcome)), CallbackDone(id));
            InFlight(t.trace) == InFlight(s.trace) - {s.tasks[id].phase.lock}
  {
    var lock := s.tasks[id].phase.lock;
    CompletedTrace(s, id, outcome);
    hide Inv, Step, InFlight, AcceptedIds, HeldKeys, Safe, Permitted;
    var accepted, released := Entry(s.now, Accepted(lock.0, lock.1, s.nextId, s.now + s.ttl)),
                              Entry(s.now, Released(lock.0, lock.1));
    Snoc(s.trace, accepted);
    Snoc(s.trace, released);
    Snoc(s.trace + [accepted], released);
  }

  lemma CompletedTrace(s: State, id: nat, outcome: DispatchOutcome)
    requires id in s.tasks && s.tasks[id].phase.Dispatching?
    ensures var lock := s.tasks[id].phase.lock;
            var accepted := Entry(s.now, Accepted(lock.0, lock.1, s.nextId, s.now + s.ttl));
            Step(Step(s, DispatchDone(id, outcome)), CallbackDone(id)).trace ==
            (if outcome.Joined? then s.trace + [accepted] else s.trace) + [Entry(s.now, Released(lock.0, lock.1))]
  {
  }

  /** A join event is scanned at once, and a recovery that ends worth retrying is scanned again when
      250 ms have passed, and no earlier, exactly if its event has caused fewer than four scans and no
      retry for the same conversation is waiting. */
  lemma RetriedAfterDelay(s: State, id: nat, ms: nat)
    requires Inv(s) && id in s.tasks && s.tasks[id].origin.Recovery?
    requires s.tasks[id].phase.Between? && s.tasks[id].pending == []
    ensures var o := s.tasks[id].origin;
            var t := Step(Step(Step(s, Proceed(id)), ClockAdvances(ms)), RetryFires(o.dm));
            && Step(s, Proceed(id)).trace == s.trace
            && (o.dm !in s.sh.retryTimers ==>
                  t.trace == if s.tasks[id].shouldRetry && ScanCount(s.trace, o.joinEvent) < 4 && ms >= 250
                             then s.trace + [Entry(s.now + ms, Scanned(o.joinEvent))] else s.trace)
            && (o.dm in s.sh.retryTimers ==>
                  Step(s, Proceed(id)).sh.retryTimers == s.sh.retryTimers)
  {
    assert id in Recoveries(s.tasks);
    RetryLeft(s, id);
    hide Step, ScanCount, LockTable, ProcessedTable, Safe;
    var ended := Step(Step(s, Proceed(id)), ClockAdvances(ms));
    RetryTried(ended, s.tasks[id].origin.dm);
    Waited(Step(s, Proceed(id)), ms);
  }

  lemma RetryLeft(s: State, id: nat)
    requires id in s.tasks && s.tasks[id].origin.Recovery?
    requires s.tasks[id].phase.Between? && s.tasks[id].pending == []
    ensures var o, t := s.tasks[id].origin, Step(s, Proceed(id));
            && t.trace == s.trace && t.now == s.now
            && t.sh.retryTimers ==
               if s.tasks[id].shouldRetry && o.count < 3 && o.dm !in s.sh.retryTimers
               then s.sh.retryTimers[o.dm := Retry(o.joinEvent, o.count + 1, s.now + 250)] else s.sh.retryTimers
  {
  }

  lemma Waited(s: State, ms: nat)
    ensures Step(s, ClockAdvances(ms)) == s.(now := s.now + ms)
  {
  }

  lemma RetryTried(s: State, dm: string)
    ensures Step(s, RetryFires(dm)).trace ==
            if dm in s.sh.retryTimers && s.sh.retryTimers[dm].due <= s.now
            then s.trace + [Entry(s.now, Scanned(s.sh.retryTimers[dm].joinEvent))] else s.trace
  {
  }

  /** What a scan found is what the call goes through; a scan that throws ends it. */
  lemma ScanHandsOver(s: State, id: nat, messages: seq<Message>, shouldRetry: bool)
    requires id in s.tasks && s.tasks[id].phase.Scanning?
    ensures var t := Step(s, ScanDone(id, messages, shouldRetry));
            && t.trace == s.trace && id in t.tasks && t.tasks[id].phase.Between?
            && t.tasks[id].pending == messages && t.tasks[id].shouldRetry == shouldRetry
            && t.tasks[id].origin == s.tasks[id].origin
    ensures id !in Step(s, ScanThrows(id)).tasks
  {
  }

  /** Once stopped the listener has no timer and is never subscribed again. */
  lemma {:induction false} StaysStopped(s: State, events: seq<Event>)
    ensures Step(s, Shutdown).sh.keyTimers == map[] && Step(s, Shutdown).sh.retryTimers == map[]
    ensures !Run(Step(s, Shutdown), events).subscribed
  {
    if events != [] {
      StaysStopped(s, events[..|events| - 1]);
      var t := Run(Step(s, Shutdown), events[..|events| - 1]);
      if Step(t, events[|events| - 1]).subscribed { StepTimersFollow(t, events[|events| - 1]); }
    }
  }

  lemma JoinScanned(s: State, dm: string)
    ensures Step(s, DmJoined(dm)).trace ==
            if s.subscribed then s.trace + [Entry(s.now, Scanned(s.nextId))] else s.trace
  {
  }

  /** Every accepted key whose timer has not fired has one, until the listener is stopped. */
  ghost predicate Timers(s: State) {
    s.subscribed ==> s.sh.keyTimers == HeldKeys(s.trace)
  }

  /** The timers follow the trace. */
  ghost predicate TimersFollow(s: State, t: State) {
    (t.trace == s.trace && t.sh.keyTimers == s.sh.keyTimers) ||
    (|t.trace| > |s.trace| && t.trace == s.trace + [t.trace[|s.trace|]]
     && t.sh.keyTimers == HoldsAfter(s.sh.keyTimers, t.trace[|s.trace|].action))
  }

  lemma DispatchTimersFollow(s: State, id: nat, outcome: DispatchOutcome)
    ensures TimersFollow(s, Step(s, DispatchDone(id, outcome))) && TimersFollow(s, Step(s, CallbackDone(id)))
    ensures Step(s, DispatchDone(id, outcome)).subscribed == s.subscribed == Step(s, CallbackDone(id)).subscribed
  {
    hide KeySet;
  }

  lemma StepTimersFollow(s: State, e: Event)
    requires Step(s, e).subscribed
    ensures s.subscribed && TimersFollow(s, Step(s, e))
  {
    hide AlreadyHandled, IsCandidate, LockOf, KeySet, ScheduleRetry;
    if e.DispatchDone? {
      DispatchTimersFollow(s, e.task, e.outcome);
    } else if e.CallbackDone? {
      DispatchTimersFollow(s, e.task, Threw);
    } else {
      hide DispatchDoneStep, Release, HoldsAfter;
      RetryKeepsKeys(s);
      if e.KeyFires? { KeyTimersFollow(s, e.key); }
    }
  }

  lemma KeyTimersFollow(s: State, key: string)
    ensures TimersFollow(s, Step(s, KeyFires(key))) && Step(s, KeyFires(key)).subscribed == s.subscribed
  {
  }

  lemma RetryKeepsKeys(s: State)
    ensures forall dm, retry, j, count, now :: ScheduleRetry(s.sh, dm, retry, j, count, now).keyTimers == s.sh.keyTimers
  {
  }

  lemma StepKeepsTimers(s: State, e: Event)
    requires Timers(s)
    ensures Timers(Step(s, e))
  {
    if Step(s, e).subscribed {
      StepTimersFollow(s, e);
      hide Step, HeldKeys, HoldsAfter, InFlight, AcceptedIds, Safe, Permitted;
      var t := Step(s, e);
      if t.trace != s.trace { Snoc(s.trace, t.trace[|s.trace|]); }
    }
  }

  lemma {:induction false} RunKeepsTimers(ttl: int, now: int, events: seq<Event>)
    ensures Timers(Run(Start(ttl, now), events))
  {
    if events != [] {
      RunKeepsTimers(ttl, now, events[..|events| - 1]);
      StepKeepsTimers(Run(Start(ttl, now), events[..|events| - 1]), events[|events| - 1]);
    }
  }

  /** An accepted key is free again when its timer fires, at its due time: until the listener is
      stopped, the timer of every held key that is due can fire, and then nothing holds the key. */
  lemma KeyFreedWhenDue(ttl: int, now: int, events: seq<Event>, key: string)
    requires var s := Run(Start(ttl, now), events);
             s.subscribed && key in HeldKeys(s.trace) && HeldKeys(s.trace)[key].due <= s.now
    ensures var s := Run(Start(ttl, now), events);
            var t := Step(s, KeyFires(key));
            && t.trace == s.trace + [Entry(s.now, KeyExpired(key, HeldKeys(s.trace)[key].timer))]
            && HeldKeys(t.trace) == HeldKeys(s.trace) - {key}
  {
    var s := Run(Start(ttl, now), events);
    RunKeepsTimers(ttl, now, events);
    KeyFired(s, key);
    hide Run, Step, HeldKeys, InFlight, AcceptedIds, Safe, Permitted;
    Snoc(s.trace, Entry(s.now, KeyExpired(key, HeldKeys(s.trace)[key].timer)));
  }

  lemma KeyFired(s: State, key: string)
    requires key in s.sh.keyTimers && s.sh.keyTimers[key].due <= s.now
    ensures Step(s, KeyFires(key)).trace == s.trace + [Entry(s.now, KeyExpired(key, s.sh.keyTimers[key].timer))]
  {
  }
}
