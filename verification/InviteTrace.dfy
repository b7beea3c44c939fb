/** What an observer of the invite listener may rely on, stated on the trace of its actions alone:
    monitors that replay the trace, and what their verdict means for pairs of actions. */
module InviteTrace {
  import opened Sequences

  datatype Action =
    | Dispatched(id: string, key: Option<string>)
    | Accepted(id: string, key: Option<string>, timer: nat, due: int)
    | Released(id: string, key: Option<string>)
    | KeyExpired(requestKey: string, timer: nat)
    | Scanned(joinEvent: nat)

  datatype Entry = Entry(at: int, action: Action)

  // ---- Monitors --------------------------------------------------------------------------

  ghost function Last(trace: seq<Entry>): Action
    requires trace != []
  {
    trace[|trace| - 1].action
  }

  ghost function Earlier(trace: seq<Entry>): seq<Entry>
    requires trace != []
  {
    trace[..|trace| - 1]
  }

  function KeySet(key: Option<string>): set<string> {
    if key.Some? then {key.value} else {}
  }

  /** A dispatch in progress: its message id and request key. */
  type Lock = (string, Option<string>)

  ghost predicate Conflict(a: Lock, b: Lock) {
    a.0 == b.0 || (a.1.Some? && a.1 == b.1)
  }

  ghost predicate NoConflict(locks: set<Lock>, lock: Lock) {
    forall other | other in locks :: !Conflict(other, lock)
  }

  function LocksAfter(locks: set<Lock>, action: Action): set<Lock> {
    match action
    case Dispatched(id, key) => locks + {(id, key)}
    case Released(id, key) => locks - {(id, key)}
    case _ => locks
  }

  /** Dispatches not yet released. */
  ghost function InFlight(trace: seq<Entry>): set<Lock> {
    if trace == [] then {} else LocksAfter(InFlight(Earlier(trace)), Last(trace))
  }

  ghost function AcceptedIds(trace: seq<Entry>): set<string> {
    if trace == [] then {} else
      match Last(trace)
      case Accepted(id, _, _, _) => AcceptedIds(Earlier(trace)) + {id}
      case _ => AcceptedIds(Earlier(trace))
  }

  datatype Hold = Hold(timer: nat, due: int)

  function HoldsAfter(held: map<string, Hold>, action: Action): map<string, Hold> {
    match action
    case Accepted(_, Some(key), timer, due) => held[key := Hold(timer, due)]
    case KeyExpired(key, _) => held - {key}
    case _ => held
  }

  /** Keys accepted whose own timer has not fired. */
  ghost function HeldKeys(trace: seq<Entry>): map<string, Hold> {
    if trace == [] then map[] else HoldsAfter(HeldKeys(Earlier(trace)), Last(trace))
  }

  ghost function ScanCount(trace: seq<Entry>, joinEvent: nat): nat {
    if trace == [] then 0 else
      ScanCount(Earlier(trace), joinEvent) + (if Last(trace) == Scanned(joinEvent) then 1 else 0)
  }

  /** The action may follow the trace. */
  ghost predicate Permitted(trace: seq<Entry>, now: int, action: Action) {
    match action
    case Dispatched(id, key) =>
      && NoConflict(InFlight(trace), (id, key))
      && id !in AcceptedIds(trace) && KeySet(key) !! HeldKeys(trace).Keys
    case Accepted(id, key, _, _) =>
      && (id, key) in InFlight(trace)
      && id !in AcceptedIds(trace) && KeySet(key) !! HeldKeys(trace).Keys
    case Released(id, key) => (id, key) in InFlight(trace)
    case KeyExpired(key, timer) =>
      key in HeldKeys(trace) && HeldKeys(trace)[key].timer == timer && HeldKeys(trace)[key].due <= now
    case Scanned(joinEvent) => ScanCount(trace, joinEvent) < 4
  }

  ghost predicate Safe(trace: seq<Entry>) {
    trace == [] ||
    (Safe(Earlier(trace)) && Permitted(Earlier(trace), trace[|trace| - 1].at, Last(trace)))
  }

  /** The monitors after one more action. */
  lemma Snoc(trace: seq<Entry>, e: Entry)
    ensures var grown := trace + [e];
            && InFlight(grown) == LocksAfter(InFlight(trace), e.action)
            && AcceptedIds(grown) == AcceptedIds(trace) + (if e.action.Accepted? then {e.action.id} else {})
            && HeldKeys(grown) == HoldsAfter(HeldKeys(trace), e.action)
            && (Safe(grown) <==> Safe(trace) && Permitted(trace, e.at, e.action))
  {
    assert Earlier(trace + [e]) == trace;
  }

  lemma SnocScans(trace: seq<Entry>, e: Entry, joinEvent: nat)
    ensures ScanCount(trace + [e], joinEvent) ==
            ScanCount(trace, joinEvent) + (if e.action == Scanned(joinEvent) then 1 else 0)
  {
    assert Earlier(trace + [e]) == trace;
  }

  // ---- What safety means -----------------------------------------------------------------

  ghost predicate ReleasedBetween(trace: seq<Entry>, i: nat, j: nat, lock: Lock)
    requires j <= |trace|
  {
    exists t | i < t < j :: trace[t].action == Released(lock.0, lock.1)
  }

  lemma {:induction false} InFlightUntilReleased(trace: seq<Entry>, i: nat)
    requires i < |trace| && trace[i].action.Dispatched?
    ensures var lock := (trace[i].action.id, trace[i].action.key);
            lock in InFlight(trace) || ReleasedBetween(trace, i, |trace|, lock)
  {
    var n := |trace| - 1;
    var lock := (trace[i].action.id, trace[i].action.key);
    if i < n {
      InFlightUntilReleased(trace[..n], i);
      if ReleasedBetween(trace[..n], i, n, lock) {
        var t :| i < t < n && trace[..n][t].action == Released(lock.0, lock.1);
        assert trace[t].action == Released(lock.0, lock.1);
      }
    }
  }

  lemma {:induction false} SafePrefix(trace: seq<Entry>, n: nat)
    requires Safe(trace) && n <= |trace|
    ensures Safe(trace[..n])
  {
    if n == |trace| {
      assert trace[..n] == trace;
    } else {
      SafePrefix(Earlier(trace), n);
      assert Earlier(trace)[..n] == trace[..n];
    }
  }

  /** The action at `j` was permitted by the trace before it. */
  lemma PermittedAt(trace: seq<Entry>, j: nat)
    requires Safe(trace) && j < |trace|
    ensures Permitted(trace[..j], trace[j].at, trace[j].action)
  {
    SafePrefix(trace, j + 1);
    assert Earlier(trace[..j + 1]) == trace[..j];
  }

  /** No two dispatches for one message id or one request key overlap: the earlier one has been
      released before the later one starts. */
  lemma DispatchesDoNotOverlap(trace: seq<Entry>, i: nat, j: nat)
    requires Safe(trace) && i < j < |trace|
    requires trace[i].action.Dispatched? && trace[j].action.Dispatched?
    requires Conflict((trace[i].action.id, trace[i].action.key), (trace[j].action.id, trace[j].action.key))
    ensures ReleasedBetween(trace, i, j, (trace[i].action.id, trace[i].action.key))
  {
    PermittedAt(trace, j);
    InFlightUntilReleased(trace[..j], i);
    var lock := (trace[i].action.id, trace[i].action.key);
    var t :| i < t < j && trace[..j][t].action == Released(lock.0, lock.1);
    assert trace[t].action == Released(lock.0, lock.1);
  }

  lemma {:induction false} AcceptedStays(trace: seq<Entry>, i: nat)
    requires i < |trace| && trace[i].action.Accepted?
    ensures trace[i].action.id in AcceptedIds(trace)
  {
    if i < |trace| - 1 { AcceptedStays(Earlier(trace), i); }
  }

  /** A message id is accepted at most once, and never dispatched after its acceptance. */
  lemma AcceptedOnce(trace: seq<Entry>, i: nat, j: nat)
    requires Safe(trace) && i < j < |trace| && trace[i].action.Accepted?
    ensures trace[j].action.Accepted? || trace[j].action.Dispatched? ==> trace[j].action.id != trace[i].action.id
  {
    PermittedAt(trace, j);
    AcceptedStays(trace[..j], i);
  }

  /** The key accepted at `i` is held, or its own timer has fired, no earlier than due. */
  ghost predicate ExpiredBetween(trace: seq<Entry>, i: nat, j: nat)
    requires i < j <= |trace| && trace[i].action.Accepted? && trace[i].action.key.Some?
  {
    exists t | i < t < j ::
      && trace[t].action == KeyExpired(trace[i].action.key.value, trace[i].action.timer)
      && trace[i].action.due <= trace[t].at
  }

  lemma {:induction false} HeldUntilExpired(trace: seq<Entry>, i: nat)
    requires Safe(trace) && i < |trace| && trace[i].action.Accepted? && trace[i].action.key.Some?
    ensures ExpiredBetween(trace, i, |trace|)
      || (var a := trace[i].action;
          a.key.value in HeldKeys(trace) && HeldKeys(trace)[a.key.value] == Hold(a.timer, a.due))
  {
    var n := |trace| - 1;
    if i < n {
      HeldUntilExpired(trace[..n], i);
      if ExpiredBetween(trace[..n], i, n) {
        var t :| i < t < n && trace[..n][t].action == KeyExpired(trace[i].action.key.value, trace[i].action.timer)
          && trace[i].action.due <= trace[..n][t].at;
        assert trace[t] == trace[..n][t];
      }
    }
  }

  /** An accepted key is not dispatched again until its own timer has fired, which happens no
      earlier than the due time set at acceptance. */
  lemma KeyHeldUntilExpiry(trace: seq<Entry>, i: nat, j: nat)
    requires Safe(trace) && i < j < |trace|
    requires trace[i].action.Accepted? && trace[i].action.key.Some?
    requires trace[j].action.Dispatched? && trace[j].action.key == trace[i].action.key
    ensures ExpiredBetween(trace, i, j)
  {
    PermittedAt(trace, j);
    SafePrefix(trace, j);
    HeldUntilExpired(trace[..j], i);
    var t :| i < t < j && trace[..j][t].action == KeyExpired(trace[i].action.key.value, trace[i].action.timer)
      && trace[i].action.due <= trace[..j][t].at;
    assert trace[t] == trace[..j][t];
  }

  /** Each join event causes at most four scans. */
  lemma {:induction false} AtMostFourScans(trace: seq<Entry>, joinEvent: nat)
    requires Safe(trace)
    ensures ScanCount(trace, joinEvent) <= 4
  {
    if trace != [] { AtMostFourScans(Earlier(trace), joinEvent); }
  }
}
