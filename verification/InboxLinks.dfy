/** Inbox links: each managed inbox belongs to at most one operator
    (packages/core/src/inbox-actions.ts over packages/sessions/src/operator-manager.ts). */
module InboxLinks {
  import opened Sequences

  datatype Operator = Operator(id: string, name: string, removed: bool, inboxIds: Option<seq<string>>)

  /** The operator manager's records, in insertion order. */
  type Store = seq<Operator>

  function ListOf(inboxIds: Option<seq<string>>): seq<string> {
    if inboxIds.Some? then inboxIds.value else []
  }

  function Listed(o: Operator): seq<string> {
    ListOf(o.inboxIds)
  }

  ghost predicate OwnsAt(store: Store, i: int, inbox: string, id: string) {
    0 <= i < |store| && !store[i].removed && store[i].id == id && inbox in Listed(store[i])
  }

  /** A non-removed operator `id` lists the inbox. */
  ghost predicate Owns(store: Store, inbox: string, id: string) {
    exists i :: OwnsAt(store, i, inbox, id)
  }

  /** No inbox is listed by two non-removed operators. */
  ghost predicate Exclusive(store: Store) {
    forall inbox, a, b :: Owns(store, inbox, a) && Owns(store, inbox, b) ==> a == b
  }

  /** Record ids are keys of the manager's map and never empty. */
  ghost predicate Keyed(store: Store) {
    && (forall i, j | 0 <= i < j < |store| :: store[i].id != store[j].id)
    && (forall i | 0 <= i < |store| :: store[i].id != "")
  }

  ghost predicate LiveAt(store: Store, i: int, id: string) {
    0 <= i < |store| && !store[i].removed && store[i].id == id
  }

  ghost predicate Live(store: Store, id: string) {
    exists i :: LiveAt(store, i, id)
  }

  ghost function OwnerOf(store: Store, inbox: string): Option<string> {
    if exists id :: Owns(store, inbox, id) then
      var id :| Owns(store, inbox, id);
      Some(id)
    else None
  }

  // ---- The operator manager ----------------------------------------------------------------

  /** The position of a record, removed or not. */
  function Find(store: Store, id: string): (r: Option<nat>)
    ensures r.Some? ==> r.value < |store| && store[r.value].id == id
    ensures r.None? ==> forall i | 0 <= i < |store| :: store[i].id != id
  {
    if store == [] then None
    else
      var n := |store| - 1;
      if store[n].id == id then Some(n) else Find(store[..n], id)
  }

  /** `update(id, { inboxIds })`. */
  function Put(store: Store, id: string, inboxIds: Option<seq<string>>): (r: Store)
    ensures |r| == |store| && forall i | 0 <= i < |r| :: r[i].id == store[i].id
  {
    seq(|store|, i requires 0 <= i < |store| => if store[i].id == id then store[i].(inboxIds := inboxIds) else store[i])
  }

  /** `remove(id)`. */
  function MarkRemoved(store: Store, id: string): (r: Store)
    ensures |r| == |store| && forall i | 0 <= i < |r| :: r[i].id == store[i].id
  {
    seq(|store|, i requires 0 <= i < |store| => if store[i].id == id then store[i].(removed := true) else store[i])
  }

  function NotRemoved(): Operator -> bool {
    (o: Operator) => !o.removed
  }

  /** `list()`. */
  function Listing(store: Store): seq<Operator> {
    Filter(store, NotRemoved())
  }

  function LabelIs(name: string): Operator -> bool {
    (o: Operator) => !o.removed && o.name == name
  }

  /** `resolveOperator`: an id by its prefix, anything else as an unambiguous label. */
  function Resolve(store: Store, key: string, wellFormed: bool): Option<string> {
    if "op_" <= key then
      var found := Find(store, key);
      if !wellFormed || found.None? || store[found.value].removed then None else Some(key)
    else
      var matches := Filter(store, LabelIs(key));
      if |matches| == 1 then Some(matches[0].id) else None
  }

  lemma ResolveLive(store: Store, key: string, wellFormed: bool)
    ensures Resolve(store, key, wellFormed).Some? ==> Live(store, Resolve(store, key, wellFormed).value)
  {
    if "op_" <= key {
      var found := Find(store, key);
      if found.Some? && !store[found.value].removed { assert LiveAt(store, found.value, key); }
    } else {
      var matches := Filter(store, LabelIs(key));
      if |matches| == 1 {
        FilterMembers(store, LabelIs(key));
        assert matches[0] in matches;
        var i :| 0 <= i < |store| && store[i] == matches[0];
        assert LiveAt(store, i, matches[0].id);
      }
    }
  }

  ghost predicate LabelledAt(store: Store, i: int, id: string, name: string) {
    LiveAt(store, i, id) && store[i].name == name
  }

  ghost predicate Labelled(store: Store, id: string, name: string) {
    exists i :: LabelledAt(store, i, id, name)
  }

  lemma LabelledSnoc(store: Store, o: Operator, id: string, name: string)
    ensures Labelled(store + [o], id, name) <==> Labelled(store, id, name) || (LabelIs(name)(o) && o.id == id)
  {
    if i :| LabelledAt(store, i, id, name) { assert LabelledAt(store + [o], i, id, name); }
    if LabelIs(name)(o) && o.id == id { assert LabelledAt(store + [o], |store|, id, name); }
    if i :| LabelledAt(store + [o], i, id, name) {
      if i < |store| { assert LabelledAt(store, i, id, name); }
    }
  }

  ghost predicate HasId(operators: seq<Operator>, id: string) {
    exists i | 0 <= i < |operators| :: operators[i].id == id
  }

  lemma HasIdSnoc(operators: seq<Operator>, o: Operator, id: string)
    ensures HasId(operators + [o], id) <==> HasId(operators, id) || o.id == id
  {
    if i :| 0 <= i < |operators| && operators[i].id == id { assert (operators + [o])[i].id == id; }
    if o.id == id { assert (operators + [o])[|operators|].id == id; }
  }

  /** The filtered operators are those with the label, each once. */
  lemma {:induction false} LabelledDistinct(store: Store, name: string)
    requires forall i, j | 0 <= i < j < |store| :: store[i].id != store[j].id
    ensures var matches := Filter(store, LabelIs(name));
            && (forall i, j | 0 <= i < j < |matches| :: matches[i].id != matches[j].id)
            && (forall id :: HasId(matches, id) <==> Labelled(store, id, name))
            && (forall id :: HasId(matches, id) ==> HasId(store, id))
  {
    if store != [] {
      var n := |store| - 1;
      var earlier, o := store[..n], store[n];
      assert store == earlier + [o];
      LabelledDistinct(earlier, name);
      var matches := Filter(earlier, LabelIs(name));
      forall id
        ensures Labelled(store, id, name) <==> Labelled(earlier, id, name) || (LabelIs(name)(o) && o.id == id)
        ensures HasId(matches + [o], id) <==> HasId(matches, id) || o.id == id
        ensures HasId(store, id) <==> HasId(earlier, id) || o.id == id
      {
        LabelledSnoc(earlier, o, id, name);
        HasIdSnoc(matches, o, id);
        HasIdSnoc(earlier, o, id);
      }
      FilterSnoc(store, n, LabelIs(name));
      assert store[..n + 1] == store && matches + [] == matches;
      forall i | 0 <= i < |matches| ensures matches[i].id != o.id {
        assert HasId(matches, matches[i].id);
      }
    }
  }

  /** An id is resolved exactly to the non-removed operator that has it, in a valid format; anything else
      exactly to the one non-removed operator of that label, if there is just one. */
  lemma ResolveIff(store: Store, key: string, wellFormed: bool, id: string)
    requires Keyed(store)
    ensures Resolve(store, key, wellFormed) == Some(id) <==>
            if "op_" <= key then key == id && wellFormed && Live(store, id)
            else Labelled(store, id, key) && forall other | Labelled(store, other, key) :: other == id
  {
    if "op_" <= key {
      var found := Find(store, key);
      if found.Some? && !store[found.value].removed { assert LiveAt(store, found.value, key); }
      if i :| LiveAt(store, i, key) { assert found.Some? && found.value == i; }
    } else {
      var matches := Filter(store, LabelIs(key));
      LabelledDistinct(store, key);
      if |matches| >= 1 { assert HasId(matches, matches[0].id); }
      if |matches| > 1 { assert HasId(matches, matches[1].id) && matches[0].id != matches[1].id; }
    }
  }

  // ---- `buildInboxLinkMap` -----------------------------------------------------------------

  ghost predicate SeenAt(operators: seq<Operator>, i: int, j: int, inbox: string, id: string, a: int, k: int) {
    && 0 <= a < |operators| && 0 <= k < |Listed(operators[a])| && (a < i || (a == i && k < j))
    && Listed(operators[a])[k] == inbox && operators[a].id == id
  }

  /** Operator `id` lists the inbox among what the nested loops visit before position `(i, j)`. */
  ghost predicate Seen(operators: seq<Operator>, i: int, j: int, inbox: string, id: string) {
    exists a, k :: SeenAt(operators, i, j, inbox, id, a, k)
  }

  lemma SeenNext(operators: seq<Operator>, i: nat, j: nat, inbox: string, id: string)
    requires i < |operators| && j < |Listed(operators[i])|
    ensures Seen(operators, i, j + 1, inbox, id) <==>
            Seen(operators, i, j, inbox, id) || (inbox == Listed(operators[i])[j] && id == operators[i].id)
  {
    if Seen(operators, i, j, inbox, id) {
      var a, k :| SeenAt(operators, i, j, inbox, id, a, k);
      assert SeenAt(operators, i, j + 1, inbox, id, a, k);
    }
    if inbox == Listed(operators[i])[j] && id == operators[i].id {
      assert SeenAt(operators, i, j + 1, inbox, id, i, j);
    }
    if Seen(operators, i, j + 1, inbox, id) {
      var a, k :| SeenAt(operators, i, j + 1, inbox, id, a, k);
      if !(a == i && k == j) { assert SeenAt(operators, i, j, inbox, id, a, k); }
    }
  }

  lemma SeenRow(operators: seq<Operator>, i: nat, inbox: string, id: string)
    requires i < |operators|
    ensures Seen(operators, i, |Listed(operators[i])|, inbox, id) <==> Seen(operators, i + 1, 0, inbox, id)
  {
    if Seen(operators, i, |Listed(operators[i])|, inbox, id) {
      var a, k :| SeenAt(operators, i, |Listed(operators[i])|, inbox, id, a, k);
      assert SeenAt(operators, i + 1, 0, inbox, id, a, k);
    }
    if Seen(operators, i + 1, 0, inbox, id) {
      var a, k :| SeenAt(operators, i + 1, 0, inbox, id, a, k);
      assert SeenAt(operators, i, |Listed(operators[i])|, inbox, id, a, k);
    }
  }

  ghost predicate Collected(links: map<string, string>, operators: seq<Operator>, i: int, j: int) {
    forall inbox, id :: (inbox in links && links[inbox] == id) <==> Seen(operators, i, j, inbox, id)
  }

  /** Some operator of the list has the inbox. */
  ghost predicate Lists(operators: seq<Operator>, inbox: string, id: string) {
    exists a :: 0 <= a < |operators| && operators[a].id == id && inbox in Listed(operators[a])
  }

  lemma SeenAll(operators: seq<Operator>, inbox: string, id: string)
    ensures Seen(operators, |operators|, 0, inbox, id) <==> Lists(operators, inbox, id)
  {
    if Lists(operators, inbox, id) {
      var a :| 0 <= a < |operators| && operators[a].id == id && inbox in Listed(operators[a]);
      var k :| 0 <= k < |Listed(operators[a])| && Listed(operators[a])[k] == inbox;
      assert SeenAt(operators, |operators|, 0, inbox, id, a, k);
    }
  }

  lemma SeenLists(operators: seq<Operator>, i: int, j: int, inbox: string, id: string)
    requires Seen(operators, i, j, inbox, id)
    ensures Lists(operators, inbox, id)
  {
    var a, k :| SeenAt(operators, i, j, inbox, id, a, k);
    assert inbox in Listed(operators[a]);
  }

  /** Two different operators of the list share an inbox. */
  ghost predicate Clash(operators: seq<Operator>) {
    exists inbox, a, b :: Lists(operators, inbox, a) && Lists(operators, inbox, b) && a != b
  }

  lemma CollectedNext(links: map<string, string>, operators: seq<Operator>, i: nat, j: nat)
    requires i < |operators| && j < |Listed(operators[i])| && Collected(links, operators, i, j)
    requires var inbox := Listed(operators[i])[j]; inbox in links ==> links[inbox] == operators[i].id
    ensures Collected(links[Listed(operators[i])[j] := operators[i].id], operators, i, j + 1)
  {
    var more := links[Listed(operators[i])[j] := operators[i].id];
    var next := j + 1;
    forall inbox, id ensures (inbox in more && more[inbox] == id) <==> Seen(operators, i, next, inbox, id) {
      SeenNext(operators, i, j, inbox, id);
    }
  }

  lemma CollectedRow(links: map<string, string>, operators: seq<Operator>, i: nat)
    requires i < |operators| && Collected(links, operators, i, |Listed(operators[i])|)
    ensures Collected(links, operators, i + 1, 0)
  {
    var next := i + 1;
    forall inbox, id ensures (inbox in links && links[inbox] == id) <==> Seen(operators, next, 0, inbox, id) {
      SeenRow(operators, i, inbox, id);
    }
  }

  lemma CollectedAll(links: map<string, string>, operators: seq<Operator>)
    requires Collected(links, operators, |operators|, 0)
    ensures forall inbox, id :: (inbox in links && links[inbox] == id) <==> Lists(operators, inbox, id)
    ensures !Clash(operators)
  {
    forall inbox, id ensures (inbox in links && links[inbox] == id) <==> Lists(operators, inbox, id) {
      SeenAll(operators, inbox, id);
    }
  }

  /** Fails exactly when two operators of the list share an inbox; otherwise the map sends each
      listed inbox, and nothing else, to the operator that lists it. */
  method BuildInboxLinkMap(operators: seq<Operator>) returns (r: Option<map<string, string>>)
    requires forall i | 0 <= i < |operators| :: operators[i].id != ""
    ensures r.None? <==> Clash(operators)
    ensures r.Some? ==>
              forall inbox, id :: (inbox in r.value && r.value[inbox] == id) <==> Lists(operators, inbox, id)
  {
    var links: map<string, string> := map[];
    for i := 0 to |operators|
      invariant Collected(links, operators, i, 0)
    {
      var o := operators[i];
      for j := 0 to |Listed(o)|
        invariant Collected(links, operators, i, j)
      {
        var inbox := Listed(o)[j];
        if inbox in links && links[inbox] != "" && links[inbox] != o.id {
          SeenLists(operators, i, j, inbox, links[inbox]);
          assert Lists(operators, inbox, o.id);
          return None;
        }
        assert inbox in links ==> links[inbox] == o.id by {
          if inbox in links { SeenLists(operators, i, j, inbox, links[inbox]); }
        }
        CollectedNext(links, operators, i, j);
        links := links[inbox := o.id];
      }
      CollectedRow(links, operators, i);
    }
    CollectedAll(links, operators);
    r := Some(links);
  }

  lemma ListingOwns(store: Store, inbox: string, id: string)
    ensures Lists(Listing(store), inbox, id) <==> Owns(store, inbox, id)
  {
    FilterMembers(store, NotRemoved());
    if Lists(Listing(store), inbox, id) {
      var a :| 0 <= a < |Listing(store)| && Listing(store)[a].id == id && inbox in Listed(Listing(store)[a]);
      assert Listing(store)[a] in Listing(store);
      var i :| 0 <= i < |store| && store[i] == Listing(store)[a];
      assert OwnsAt(store, i, inbox, id);
    }
    if Owns(store, inbox, id) {
      var i :| OwnsAt(store, i, inbox, id);
      assert store[i] in Listing(store);
    }
  }

  lemma ListingClash(store: Store)
    ensures Clash(Listing(store)) <==> !Exclusive(store)
  {
    forall inbox, id ensures Lists(Listing(store), inbox, id) <==> Owns(store, inbox, id) {
      ListingOwns(store, inbox, id);
    }
  }

  // ---- The actions -------------------------------------------------------------------------

  function NotInbox(inbox: string): string -> bool {
    x => x != inbox
  }

  /** `linkInboxToOperator` for a resolved operator; `valid` is the schema's verdict on the inbox id. */
  ghost function LinkStep(store: Store, operator: Option<string>, inbox: string, valid: bool): (Store, Option<string>) {
    if operator.None? || !Exclusive(store) then (store, None)
    else if OwnerOf(store, inbox).Some? && OwnerOf(store, inbox) != operator then (store, None)
    else
      var found := Find(store, operator.value);
      if found.None? || !valid then (store, None)
      else (Put(store, operator.value, Some(Dedup(Listed(store[found.value]) + [inbox]))), operator)
  }

  function Remaining(o: Operator, inbox: string): Option<seq<string>> {
    var remaining := Filter(Listed(o), NotInbox(inbox));
    if |remaining| > 0 then Some(remaining) else None
  }

  /** `unlinkInboxFromOperator`; the flag says whether it succeeds. */
  ghost function UnlinkStep(store: Store, inbox: string): (Store, bool) {
    if !Exclusive(store) then (store, false)
    else
      var owner := OwnerOf(store, inbox);
      if owner.None? then (store, true)
      else
        var found := Find(store, owner.value);
        if found.None? then (store, false) else (Put(store, owner.value, Remaining(store[found.value], inbox)), true)
  }

  /** The operator records and the ids of the registered inboxes. */
  datatype State = State(store: Store, identities: set<string>)

  const INITIAL := State([], {})

  datatype Op =
    | CreateOperator(id: string, name: string, inboxIds: Option<seq<string>>)
    | UpdateOperator(id: string, inboxIds: Option<seq<string>>)
    | RemoveOperator(id: string)
    | Create(operator: Option<string>, wellFormed: bool, registered: bool, inbox: string, valid: bool)
    | Link(key: string, wellFormed: bool, inbox: string, valid: bool)
    | Unlink(inbox: string)
    | Remove(inbox: string, execute: bool, mapped: bool, cleanup: Option<seq<string>>, removable: bool)

  datatype Answer =
    | Refused
    | Done
    | Summary(inbox: string, operator: Option<string>)
    | Report(executed: bool, actions: seq<string>)

  /** The list `inbox.rm` reports, done or not. */
  function RemovalActions(owner: Option<string>, inbox: string, mapped: bool, cleanup: seq<string>): seq<string> {
    (if owner.Some? then ["unlink operator " + owner.value] else [])
    + ["remove inbox " + inbox] + (if mapped then ["remove id mapping"] else []) + cleanup
  }

  ghost function CreateStep(s: State, op: Op): (State, Answer)
    requires op.Create?
  {
    var resolved := if op.operator.Some? then Resolve(s.store, op.operator.value, op.wellFormed) else None;
    if (op.operator.Some? && resolved.None?) || !op.registered then (s, Refused)
    else
      var t := s.(identities := s.identities + {op.inbox});
      if op.operator.None? then (t, Summary(op.inbox, None))
      else
        var (store, linked) := LinkStep(s.store, resolved, op.inbox, op.valid);
        (t.(store := store), if linked.None? then Refused else Summary(op.inbox, linked))
  }

  ghost function RemoveStep(s: State, op: Op): (State, Answer)
    requires op.Remove?
  {
    if op.inbox !in s.identities || !Exclusive(s.store) || op.cleanup.None? then (s, Refused)
    else
      var actions := RemovalActions(OwnerOf(s.store, op.inbox), op.inbox, op.mapped, op.cleanup.value);
      if !op.execute then (s, Report(false, actions))
      else
        var (store, ok) := UnlinkStep(s.store, op.inbox);
        if !ok then (s, Refused)
        else if !op.removable then (State(store, s.identities), Refused)
        else (State(store, s.identities - {op.inbox}), Report(true, actions))
  }

  /** One action. `wellFormed`, `valid`, `registered`, `cleanup` and `removable` are the verdicts of
      the schemas, the registration, the clean-up and the identity store's removal; an inbox is
      resolved when it is registered. */
  ghost function Step(s: State, op: Op): (State, Answer) {
    match op
    case CreateOperator(id, name, inboxIds) => (s.(store := s.store + [Operator(id, name, false, inboxIds)]), Done)
    case UpdateOperator(id, inboxIds) => (s.(store := Put(s.store, id, inboxIds)), Done)
    case RemoveOperator(id) => (s.(store := MarkRemoved(s.store, id)), Done)
    case Create(_, _, _, _, _) => CreateStep(s, op)
    case Link(key, wellFormed, inbox, valid) =>
      if inbox !in s.identities then (s, Refused)
      else
        var (store, linked) := LinkStep(s.store, Resolve(s.store, key, wellFormed), inbox, valid);
        (s.(store := store), if linked.None? then Refused else Summary(inbox, linked))
    case Unlink(inbox) =>
      if inbox !in s.identities then (s, Refused)
      else
        var (store, ok) := UnlinkStep(s.store, inbox);
        (s.(store := store), if ok then Summary(inbox, None) else Refused)
    case Remove(_, _, _, _, _) => RemoveStep(s, op)
  }

  ghost function Run(ops: seq<Op>): State {
    if ops == [] then INITIAL else Step(Run(ops[..|ops| - 1]), ops[|ops| - 1]).0
  }

  /** Operator ids are generated fresh. */
  ghost predicate FreshIds(ops: seq<Op>) {
    ops != [] ==>
      && FreshIds(ops[..|ops| - 1])
      && (var op := ops[|ops| - 1];
          op.CreateOperator? ==> op.id != "" && Find(Run(ops[..|ops| - 1]).store, op.id).None?)
  }

  class Inboxes {
    var store: Store
    var identities: set<string>

    constructor ()
      ensures State(store, identities) == INITIAL
    {
      store, identities := [], {};
    }

    method BuildLinks() returns (r: Option<map<string, string>>)
      requires Keyed(store)
      ensures r.Some? <==> Exclusive(store)
      ensures r.Some? ==> forall inbox, id :: (inbox in r.value && r.value[inbox] == id) <==> Owns(store, inbox, id)
    {
      ListingClash(store);
      forall inbox, id ensures Lists(Listing(store), inbox, id) <==> Owns(store, inbox, id) {
        ListingOwns(store, inbox, id);
      }
      FilterMembers(store, NotRemoved());
      assert forall i | 0 <= i < |Listing(store)| :: Listing(store)[i] in store;
      r := BuildInboxLinkMap(Listing(store));
    }

    method LookUpOwner(links: map<string, string>, inbox: string) returns (owner: Option<string>)
      requires Exclusive(store)
      requires forall x, id :: (x in links && links[x] == id) <==> Owns(store, x, id)
      ensures owner == OwnerOf(store, inbox)
    {
      owner := if inbox in links then Some(links[inbox]) else None;
      if inbox in links { assert Owns(store, inbox, links[inbox]); }
    }

    method LinkInboxToOperator(key: string, wellFormed: bool, inbox: string, valid: bool) returns (r: Option<string>)
      requires Keyed(store)
      modifies this`store
      ensures (store, r) == LinkStep(old(store), Resolve(old(store), key, wellFormed), inbox, valid)
    {
      var operator := Resolve(store, key, wellFormed);
      if operator.None? { return None; }
      var links := BuildLinks();
      if links.None? { return None; }
      var owner := LookUpOwner(links.value, inbox);
      if owner.Some? && owner != operator { return None; }
      var found := Find(store, operator.value);
      if found.None? || !valid { return None; }
      store := Put(store, operator.value, Some(Dedup(Listed(store[found.value]) + [inbox])));
      r := operator;
    }

    method UnlinkInboxFromOperator(inbox: string) returns (ok: bool)
      requires Keyed(store)
      modifies this`store
      ensures (store, ok) == UnlinkStep(old(store), inbox)
    {
      var links := BuildLinks();
      if links.None? { return false; }
      var owner := LookUpOwner(links.value, inbox);
      if owner.None? { return true; }
      var found := Find(store, owner.value);
      if found.None? { return false; }
      store := Put(store, owner.value, Remaining(store[found.value], inbox));
      ok := true;
    }

    method CreateInbox(operator: Option<string>, wellFormed: bool, registered: bool, inbox: string, valid: bool)
      returns (answer: Answer)
      requires Keyed(store)
      modifies this
      ensures (State(store, identities), answer) ==
              Step(old(State(store, identities)), Create(operator, wellFormed, registered, inbox, valid))
    {
      if operator.Some? {
        var resolved := Resolve(store, operator.value, wellFormed);
        if resolved.None? { return Refused; }
      }
      if !registered { return Refused; }
      identities := identities + {inbox};
      if operator.None? { return Summary(inbox, None); }
      var linked := LinkInboxToOperator(operator.value, wellFormed, inbox, valid);
      return if linked.None? then Refused else Summary(inbox, linked);
    }

    method LinkInbox(key: string, wellFormed: bool, inbox: string, valid: bool) returns (answer: Answer)
      requires Keyed(store)
      modifies this
      ensures (State(store, identities), answer) ==
              Step(old(State(store, identities)), Link(key, wellFormed, inbox, valid))
    {
      if inbox !in identities { return Refused; }
      var linked := LinkInboxToOperator(key, wellFormed, inbox, valid);
      return if linked.None? then Refused else Summary(inbox, linked);
    }

    method UnlinkInbox(inbox: string) returns (answer: Answer)
      requires Keyed(store)
      modifies this
      ensures (State(store, identities), answer) == Step(old(State(store, identities)), Unlink(inbox))
    {
      if inbox !in identities { return Refused; }
      var ok := UnlinkInboxFromOperator(inbox);
      return if ok then Summary(inbox, None) else Refused;
    }

    method RemoveInbox(inbox: string, execute: bool, mapped: bool, cleanup: Option<seq<string>>, removable: bool)
      returns (answer: Answer)
      requires Keyed(store)
      modifies this
      ensures (State(store, identities), answer) ==
              Step(old(State(store, identities)), Remove(inbox, execute, mapped, cleanup, removable))
    {
      if inbox !in identities { return Refused; }
      var links := BuildLinks();
      if links.None? { return Refused; }
      var owner := LookUpOwner(links.value, inbox);
      var actions := [];
      if owner.Some? { actions := actions + ["unlink operator " + owner.value]; }
      actions := actions + ["remove inbox " + inbox];
      if mapped { actions := actions + ["remove id mapping"]; }
      if cleanup.None? { return Refused; }
      actions := actions + cleanup.value;
      assert actions == RemovalActions(owner, inbox, mapped, cleanup.value);
      if !execute { return Report(false, actions); }
      var ok := UnlinkInboxFromOperator(inbox);
      if !ok || !removable { return Refused; }
      identities := identities - {inbox};
      answer := Report(true, actions);
    }
  }

  // ---- What the actions do to the links ------------------------------------------------------

  /** Rewriting one record's list changes what that operator owns and nothing else. */
  lemma PutOwns(store: Store, id: string, inboxIds: Option<seq<string>>, inbox: string, other: string)
    requires Keyed(store)
    ensures Owns(Put(store, id, inboxIds), inbox, other) <==>
            if other == id then Live(store, id) && inboxIds.Some? && inbox in inboxIds.value
            else Owns(store, inbox, other)
  {
    var next := Put(store, id, inboxIds);
    if Owns(next, inbox, other) {
      var i :| OwnsAt(next, i, inbox, other);
      if other == id { assert LiveAt(store, i, id); } else { assert OwnsAt(store, i, inbox, other); }
    }
    if other == id && Live(store, id) && inboxIds.Some? && inbox in inboxIds.value {
      var i :| LiveAt(store, i, id);
      assert OwnsAt(next, i, inbox, id);
    }
    if other != id && Owns(store, inbox, other) {
      var i :| OwnsAt(store, i, inbox, other);
      assert OwnsAt(next, i, inbox, other);
    }
  }

  /** The record found under a live id is the one whose list counts. */
  lemma FoundOwns(store: Store, id: string, inbox: string)
    requires Keyed(store) && Live(store, id)
    ensures Find(store, id).Some?
    ensures Owns(store, inbox, id) <==> inbox in Listed(store[Find(store, id).value])
  {
    var i :| LiveAt(store, i, id);
    var f := Find(store, id).value;
    assert i == f;
    if inbox in Listed(store[f]) { assert OwnsAt(store, f, inbox, id); }
  }

  lemma OwnerIsLive(store: Store, inbox: string)
    requires OwnerOf(store, inbox).Some?
    ensures Owns(store, inbox, OwnerOf(store, inbox).value) && Live(store, OwnerOf(store, inbox).value)
  {
    var i :| OwnsAt(store, i, inbox, OwnerOf(store, inbox).value);
    assert LiveAt(store, i, OwnerOf(store, inbox).value);
  }

  /** Linking to a live operator succeeds exactly when the inbox has no other owner and a valid id;
      it then adds that one link and touches no other. */
  lemma LinkOutcome(store: Store, id: string, inbox: string, valid: bool)
    requires Keyed(store) && Exclusive(store) && Live(store, id)
    ensures var (next, r) := LinkStep(store, Some(id), inbox, valid);
            && (r == Some(id) <==> valid && forall other | Owns(store, inbox, other) :: other == id)
            && (r.None? ==> next == store)
            && (r.Some? ==> forall x, o :: Owns(next, x, o) <==> Owns(store, x, o) || (x == inbox && o == id))
  {
    FoundOwns(store, id, inbox);
    if OwnerOf(store, inbox).Some? { OwnerIsLive(store, inbox); }
    var (next, r) := LinkStep(store, Some(id), inbox, valid);
    if r.Some? {
      var listed := Listed(store[Find(store, id).value]);
      DedupMembers(listed + [inbox]);
      forall x, o ensures Owns(next, x, o) <==> Owns(store, x, o) || (x == inbox && o == id) {
        PutOwns(store, id, Some(Dedup(listed + [inbox])), x, o);
        FoundOwns(store, id, x);
      }
    }
  }

  /** While links are exclusive an unlink always succeeds; afterwards no operator lists the inbox
      and every other link is as it was. */
  lemma UnlinkOutcome(store: Store, inbox: string)
    requires Keyed(store) && Exclusive(store)
    ensures var (next, ok) := UnlinkStep(store, inbox);
            ok && forall x, o :: Owns(next, x, o) <==> Owns(store, x, o) && x != inbox
  {
    var owner := OwnerOf(store, inbox);
    var (next, ok) := UnlinkStep(store, inbox);
    if owner.Some? {
      OwnerIsLive(store, inbox);
      FoundOwns(store, owner.value, inbox);
      var listed := Listed(store[Find(store, owner.value).value]);
      FilterMembers(listed, NotInbox(inbox));
      var remaining := Remaining(store[Find(store, owner.value).value], inbox);
      forall x, o ensures Owns(next, x, o) <==> Owns(store, x, o) && x != inbox {
        PutOwns(store, owner.value, remaining, x, o);
        FoundOwns(store, owner.value, x);
      }
    }
  }

  /** Linking an unowned inbox and unlinking it again restores every link. */
  lemma UnlinkUndoesLink(store: Store, id: string, inbox: string)
    requires Keyed(store) && Exclusive(store) && Live(store, id) && OwnerOf(store, inbox).None?
    ensures var linked := LinkStep(store, Some(id), inbox, true).0;
            forall x, o :: Owns(UnlinkStep(linked, inbox).0, x, o) <==> Owns(store, x, o)
  {
    var linked := LinkStep(store, Some(id), inbox, true).0;
    LinkOutcome(store, id, inbox, true);
    UnlinkOutcome(linked, inbox);
  }

  /** No non-removed operator but `id` lists the inbox. */
  ghost predicate Unclaimed(store: Store, inbox: string, id: string) {
    forall other | Owns(store, inbox, other) :: other == id
  }

  /** The one link is added, or none. */
  ghost predicate LinkedTo(store: Store, next: Store, inbox: string, operator: Option<string>) {
    forall x, o :: Owns(next, x, o) <==> Owns(store, x, o) || (x == inbox && operator == Some(o))
  }

  /** Removing an operator frees its inboxes and leaves every other link alone. */
  lemma RemoveOperatorOutcome(store: Store, id: string)
    requires Keyed(store)
    ensures !Live(MarkRemoved(store, id), id)
    ensures forall x, o :: Owns(MarkRemoved(store, id), x, o) <==> Owns(store, x, o) && o != id
  {
    var next := MarkRemoved(store, id);
    forall x, o ensures Owns(next, x, o) <==> Owns(store, x, o) && o != id {
      if i :| OwnsAt(next, i, x, o) { assert OwnsAt(store, i, x, o); }
      if i :| OwnsAt(store, i, x, o) && o != id { assert OwnsAt(next, i, x, o); }
    }
  }

  /** `inbox.link` succeeds exactly for a registered inbox, a resolved operator, no other owner and a
      valid id. */
  lemma LinkActionOutcome(s: State, key: string, wellFormed: bool, inbox: string, valid: bool)
    requires Keyed(s.store) && Exclusive(s.store)
    ensures var operator := Resolve(s.store, key, wellFormed);
            var (t, answer) := Step(s, Link(key, wellFormed, inbox, valid));
            var links := inbox in s.identities && operator.Some? && valid && Unclaimed(s.store, inbox, operator.value);
            && answer == (if links then Summary(inbox, operator) else Refused)
            && t.identities == s.identities
            && LinkedTo(s.store, t.store, inbox, if links then operator else None)
  {
    var operator := Resolve(s.store, key, wellFormed);
    ResolveLive(s.store, key, wellFormed);
    if operator.Some? { LinkOutcome(s.store, operator.value, inbox, valid); }
  }

  /** `inbox.unlink` succeeds exactly for a registered inbox, which nobody then lists. */
  lemma UnlinkActionOutcome(s: State, inbox: string)
    requires Keyed(s.store) && Exclusive(s.store)
    ensures var (t, answer) := Step(s, Unlink(inbox));
            && answer == (if inbox in s.identities then Summary(inbox, None) else Refused)
            && t.identities == s.identities
            && forall x, o ::
                 Owns(t.store, x, o) <==> Owns(s.store, x, o) && !(x == inbox && inbox in s.identities)
  {
    UnlinkOutcome(s.store, inbox);
  }

  /** `inbox.create` registers the inbox exactly when the operator asked for, if any, is resolved and
      registration succeeds; it stays registered when the link then fails. */
  lemma CreateOutcome(s: State, operator: Option<string>, wellFormed: bool, registered: bool, inbox: string,
                      valid: bool)
    requires Keyed(s.store) && Exclusive(s.store)
    ensures var resolved := if operator.Some? then Resolve(s.store, operator.value, wellFormed) else None;
            var (t, answer) := Step(s, Create(operator, wellFormed, registered, inbox, valid));
            var added := registered && (operator.Some? ==> resolved.Some?);
            var links := added && resolved.Some? && valid && Unclaimed(s.store, inbox, resolved.value);
            && t.identities == (if added then s.identities + {inbox} else s.identities)
            && answer == (if links then Summary(inbox, resolved)
                          else if added && operator.None? then Summary(inbox, None) else Refused)
            && LinkedTo(s.store, t.store, inbox, if links then resolved else None)
  {
    if operator.Some? {
      ResolveLive(s.store, operator.value, wellFormed);
      var resolved := Resolve(s.store, operator.value, wellFormed);
      if resolved.Some? { LinkOutcome(s.store, resolved.value, inbox, valid); }
    }
  }

  /** A dry run of `inbox.rm` changes nothing and reports exactly what the executed removal does;
      afterwards no operator lists the inbox, and all other links are as they were. It is registered
      still exactly when the identity store refused to remove it, and then there is no report. */
  lemma RemovalOutcome(s: State, inbox: string, mapped: bool, cleanup: seq<string>, removable: bool)
    requires Keyed(s.store) && Exclusive(s.store) && inbox in s.identities
    ensures var (dry, plan) := Step(s, Remove(inbox, false, mapped, Some(cleanup), removable));
            var (t, report) := Step(s, Remove(inbox, true, mapped, Some(cleanup), removable));
            && dry == s && plan.Report? && report == (if removable then plan.(executed := true) else Refused)
            && t.identities == (if removable then s.identities - {inbox} else s.identities)
            && forall x, o :: Owns(t.store, x, o) <==> Owns(s.store, x, o) && x != inbox
  {
    UnlinkOutcome(s.store, inbox);
  }

  // ---- Whole runs --------------------------------------------------------------------------

  ghost predicate Inv(store: Store) {
    Keyed(store) && Exclusive(store)
  }

  lemma LinkKeepsInv(store: Store, operator: Option<string>, inbox: string, valid: bool)
    requires Inv(store) && (operator.Some? ==> Live(store, operator.value))
    ensures Inv(LinkStep(store, operator, inbox, valid).0)
  {
    if operator.Some? { LinkOutcome(store, operator.value, inbox, valid); }
  }

  lemma UnlinkKeepsInv(store: Store, inbox: string)
    requires Inv(store)
    ensures Inv(UnlinkStep(store, inbox).0)
  {
    UnlinkOutcome(store, inbox);
  }

  /** None of the inboxes is listed by a non-removed operator other than `id`. */
  ghost predicate FreeFor(store: Store, id: string, inboxIds: seq<string>) {
    forall inbox, other | inbox in inboxIds && Owns(store, inbox, other) :: other == id
  }

  /** An operator update that writes `inboxIds` directly keeps links exclusive exactly when none of
      the inboxes it lists belongs to another operator. */
  lemma DirectUpdateIff(store: Store, id: string, inboxIds: Option<seq<string>>)
    requires Inv(store) && Live(store, id)
    ensures Exclusive(Put(store, id, inboxIds)) <==> FreeFor(store, id, ListOf(inboxIds))
  {
    var next, listed := Put(store, id, inboxIds), ListOf(inboxIds);
    forall x, o ensures Owns(next, x, o) <==> if o == id then x in listed else Owns(store, x, o) {
      PutOwns(store, id, inboxIds, x, o);
    }
    OverwriteIff(store, next, id, listed);
  }

  /** Giving one operator a new list keeps ownership single exactly when the list is free for it. */
  lemma OverwriteIff(store: Store, next: Store, id: string, listed: seq<string>)
    requires Exclusive(store)
    requires forall x, o :: Owns(next, x, o) <==> if o == id then x in listed else Owns(store, x, o)
    ensures Exclusive(next) <==> FreeFor(store, id, listed)
  {
    if Exclusive(next) {
      forall inbox, other | inbox in listed && Owns(store, inbox, other) ensures other == id {
        assert Owns(next, inbox, id);
        assert other != id ==> Owns(next, inbox, other);
      }
    }
  }

  lemma CreateOwns(store: Store, o: Operator, inbox: string, other: string)
    requires !o.removed && Find(store, o.id).None?
    ensures Owns(store + [o], inbox, other) <==> if other == o.id then inbox in Listed(o) else Owns(store, inbox, other)
  {
    var next := store + [o];
    if Owns(next, inbox, other) {
      var i :| OwnsAt(next, i, inbox, other);
      if i < |store| { assert OwnsAt(store, i, inbox, other); }
    }
    if other == o.id && inbox in Listed(o) { assert OwnsAt(next, |store|, inbox, other); }
    if Owns(store, inbox, other) {
      var i :| OwnsAt(store, i, inbox, other);
      assert OwnsAt(next, i, inbox, other);
    }
  }

  /** Creating an operator with inboxes keeps links exclusive exactly when none of them belongs to
      an operator yet. */
  lemma DirectCreateIff(store: Store, o: Operator)
    requires Inv(store) && !o.removed && Find(store, o.id).None?
    ensures Exclusive(store + [o]) <==> FreeFor(store, o.id, Listed(o))
  {
    forall x, other
      ensures Owns(store + [o], x, other) <==> if other == o.id then x in Listed(o) else Owns(store, x, other)
    {
      CreateOwns(store, o, x, other);
    }
    OverwriteIff(store, store + [o], o.id, Listed(o));
  }

  lemma RemoveKeepsInv(store: Store, id: string)
    requires Inv(store)
    ensures Inv(MarkRemoved(store, id))
  {
    var next := MarkRemoved(store, id);
    forall inbox, o | Owns(next, inbox, o) ensures Owns(store, inbox, o) {
      var i :| OwnsAt(next, i, inbox, o);
      assert OwnsAt(store, i, inbox, o);
    }
  }

  lemma UpdateUnknown(store: Store, id: string, inboxIds: Option<seq<string>>)
    requires Inv(store) && !Live(store, id)
    ensures Inv(Put(store, id, inboxIds))
  {
    forall x, o | Owns(Put(store, id, inboxIds), x, o) ensures Owns(store, x, o) { PutOwns(store, id, inboxIds, x, o); }
  }

  /** A direct creation or update lists no inbox of another operator. */
  ghost predicate Careful(store: Store, op: Op) {
    match op
    case CreateOperator(id, _, inboxIds) => FreeFor(store, id, ListOf(inboxIds))
    case UpdateOperator(id, inboxIds) => Live(store, id) ==> FreeFor(store, id, ListOf(inboxIds))
    case _ => true
  }

  lemma StepKeepsKeyed(s: State, op: Op)
    requires Keyed(s.store) && (op.CreateOperator? ==> op.id != "" && Find(s.store, op.id).None?)
    ensures Keyed(Step(s, op).0.store)
  {
    hide Exclusive, Resolve, Put, MarkRemoved, OwnerOf, Remaining, RemovalActions, Find;
  }

  /** The inbox actions and operator removal always keep links exclusive; a direct creation or
      update does exactly when it lists no inbox of another operator. */
  lemma StepExclusiveIff(s: State, op: Op)
    requires Inv(s.store) && (op.CreateOperator? ==> op.id != "" && Find(s.store, op.id).None?)
    ensures Exclusive(Step(s, op).0.store) <==> Careful(s.store, op)
  {
    hide Exclusive, Keyed, LinkStep, UnlinkStep, Put, MarkRemoved, Find, Resolve, FreeFor, Live;
    match op
    case CreateOperator(id, name, inboxIds) => DirectCreateIff(s.store, Operator(id, name, false, inboxIds));
    case UpdateOperator(id, inboxIds) =>
      if Live(s.store, id) { DirectUpdateIff(s.store, id, inboxIds); } else { UpdateUnknown(s.store, id, inboxIds); }
    case RemoveOperator(id) => RemoveKeepsInv(s.store, id);
    case Create(operator, wellFormed, registered, inbox, valid) =>
      if operator.Some? {
        ResolveLive(s.store, operator.value, wellFormed);
        LinkKeepsInv(s.store, Resolve(s.store, operator.value, wellFormed), inbox, valid);
      }
    case Link(key, wellFormed, inbox, valid) =>
      ResolveLive(s.store, key, wellFormed);
      LinkKeepsInv(s.store, Resolve(s.store, key, wellFormed), inbox, valid);
    case Unlink(inbox) => UnlinkKeepsInv(s.store, inbox);
    case Remove(inbox, _, _, _, _) => UnlinkKeepsInv(s.store, inbox);
  }

  ghost predicate CarefulRun(ops: seq<Op>) {
    ops != [] ==> CarefulRun(ops[..|ops| - 1]) && Careful(Run(ops[..|ops| - 1]).store, ops[|ops| - 1])
  }

  /** After every prefix of the run the links are exclusive. */
  ghost predicate AlwaysExclusive(ops: seq<Op>) {
    Exclusive(Run(ops).store) && (ops != [] ==> AlwaysExclusive(ops[..|ops| - 1]))
  }

  /** Over any run of operator creations, updates and removals and inbox create, link, unlink and rm
      actions: no inbox is ever listed by two non-removed operators exactly when every direct
      creation and update was careful. */
  lemma {:induction false} RunExclusiveIff(ops: seq<Op>)
    requires FreshIds(ops)
    ensures AlwaysExclusive(ops) <==> CarefulRun(ops)
    ensures CarefulRun(ops) ==> Inv(Run(ops).store)
  {
    if ops != [] {
      var n := |ops| - 1;
      RunExclusiveIff(ops[..n]);
      if CarefulRun(ops[..n]) { StepKeepsKeyed(Run(ops[..n]), ops[n]); StepExclusiveIff(Run(ops[..n]), ops[n]); }
    }
  }
}
