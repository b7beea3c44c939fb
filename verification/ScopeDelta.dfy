/** Permission deltas between two seal payloads: the six-loop set difference
    (packages/seals/src/compute-delta.ts), its verification against a stored delta
    (packages/seals/src/chain-validator.ts), and the patch that undoes it. */
module ScopeDelta {
  import opened Sequences
  import opened Ordering

  type Scope = string

  /** Allow and deny lists as they are stored; either may repeat or overlap. */
  datatype ScopeSet = ScopeSet(allow: seq<Scope>, deny: seq<Scope>)

  datatype Side = Allow | Deny

  datatype Change = Change(scope: Scope, from: Side, to: Side)

  datatype Delta = Delta(added: seq<Scope>, removed: seq<Scope>, changed: seq<Change>)

  const EMPTY_DELTA := Delta([], [], [])

  // ---- Specification of the delta --------------------------------------------------------

  function ChangesOf(scopes: seq<Scope>, p: Scope -> bool, from: Side, to: Side): seq<Change>
  {
    if scopes == [] then [] else
      var n := |scopes| - 1;
      ChangesOf(scopes[..n], p, from, to)
      + (if p(scopes[n]) then [Change(scopes[n], from, to)] else [])
  }

  lemma ChangesMembers(scopes: seq<Scope>, p: Scope -> bool, from: Side, to: Side)
    ensures forall c ::
              c in ChangesOf(scopes, p, from, to) <==>
              c.from == from && c.to == to && c.scope in scopes && p(c.scope)
  {
    if scopes != [] {
      var n := |scopes| - 1;
      ChangesMembers(scopes[..n], p, from, to);
      assert scopes == scopes[..n] + [scopes[n]];
    }
  }

  lemma ChangesSnoc(scopes: seq<Scope>, i: nat, p: Scope -> bool, from: Side, to: Side)
    requires i < |scopes|
    ensures ChangesOf(scopes[..i + 1], p, from, to)
      == ChangesOf(scopes[..i], p, from, to)
       + (if p(scopes[i]) then [Change(scopes[i], from, to)] else [])
  {
    assert scopes[..i + 1][..i] == scopes[..i];
  }

  function NotIn(scopes: ScopeSet): Scope -> bool {
    s => s !in scopes.allow && s !in scopes.deny
  }

  function DenyOnly(scopes: ScopeSet): Scope -> bool {
    s => s !in scopes.allow && s in scopes.deny
  }

  /** Listed in allow on both sides, and absent from the given deny list. */
  function StaysAllowed(prev: ScopeSet, next: ScopeSet, deny: seq<Scope>): Scope -> bool {
    s => s !in deny && s in prev.allow && s in next.allow
  }

  function Added(prev: ScopeSet, next: ScopeSet): seq<Scope> {
    Filter(Dedup(next.allow), NotIn(prev)) + Filter(Dedup(prev.deny), NotIn(next))
  }

  function Removed(prev: ScopeSet, next: ScopeSet): seq<Scope> {
    Filter(Dedup(prev.allow), NotIn(next)) + Filter(Dedup(next.deny), NotIn(prev))
  }

  function Changed(prev: ScopeSet, next: ScopeSet): seq<Change> {
    ChangesOf(Dedup(next.allow), DenyOnly(prev), Deny, Allow)
    + ChangesOf(Dedup(prev.allow), DenyOnly(next), Allow, Deny)
    + ChangesOf(Dedup(next.deny), StaysAllowed(prev, next, prev.deny), Allow, Deny)
    + ChangesOf(Dedup(prev.deny), StaysAllowed(prev, next, next.deny), Deny, Allow)
  }

  function DeltaOf(prev: ScopeSet, next: ScopeSet): Delta {
    Delta(Added(prev, next), Removed(prev, next), Changed(prev, next))
  }

  lemma NoScopeYet(scopes: seq<Scope>, other: ScopeSet, from: Side, to: Side)
    ensures Filter(scopes[..0], NotIn(other)) == [] && ChangesOf(scopes[..0], DenyOnly(other), from, to) == []
  {
  }

  /** One more scope of a list, compared with the two lists of `other`. */
  lemma NextScope(scopes: seq<Scope>, i: nat, other: ScopeSet, from: Side, to: Side)
    requires i < |scopes|
    ensures var x, allow, deny := scopes[i], Dedup(other.allow), Dedup(other.deny);
            && Filter(scopes[..i + 1], NotIn(other))
               == Filter(scopes[..i], NotIn(other)) + (if x !in allow && x !in deny then [x] else [])
            && ChangesOf(scopes[..i + 1], DenyOnly(other), from, to)
               == ChangesOf(scopes[..i], DenyOnly(other), from, to)
                + (if x !in allow && x in deny then [Change(x, from, to)] else [])
  {
    FilterSnoc(scopes, i, NotIn(other));
    ChangesSnoc(scopes, i, DenyOnly(other), from, to);
    DedupMember(other.allow, scopes[i]);
    DedupMember(other.deny, scopes[i]);
  }

  /** The first two loops: scopes entering and leaving the allow set. */
  method CompareAllowed(prev: ScopeSet, next: ScopeSet)
    returns (added: seq<Scope>, removed: seq<Scope>, changed: seq<Change>)
    ensures added == Filter(Dedup(next.allow), NotIn(prev))
    ensures removed == Filter(Dedup(prev.allow), NotIn(next))
    ensures changed == ChangesOf(Dedup(next.allow), DenyOnly(prev), Deny, Allow)
                     + ChangesOf(Dedup(prev.allow), DenyOnly(next), Allow, Deny)
  {
    hide *;
    var prevAllow, nextAllow := Dedup(prev.allow), Dedup(next.allow);
    var prevDeny, nextDeny := Dedup(prev.deny), Dedup(next.deny);
    added, removed, changed := [], [], [];
    NoScopeYet(nextAllow, prev, Deny, Allow);
    NoScopeYet(prevAllow, next, Allow, Deny);
    for i := 0 to |nextAllow|
      invariant added == Filter(nextAllow[..i], NotIn(prev))
      invariant changed == ChangesOf(nextAllow[..i], DenyOnly(prev), Deny, Allow)
    {
      var scope := nextAllow[i];
      NextScope(nextAllow, i, prev, Deny, Allow);
      if scope !in prevAllow {
        if scope in prevDeny {
          changed := changed + [Change(scope, Deny, Allow)];
        } else {
          added := added + [scope];
        }
      }
    }
    assert nextAllow[..|nextAllow|] == nextAllow;
    ghost var entering := changed;
    for i := 0 to |prevAllow|
      invariant removed == Filter(prevAllow[..i], NotIn(next))
      invariant changed == entering + ChangesOf(prevAllow[..i], DenyOnly(next), Allow, Deny)
    {
      ghost var leaving := ChangesOf(prevAllow[..i], DenyOnly(next), Allow, Deny);
      var scope := prevAllow[i];
      NextScope(prevAllow, i, next, Allow, Deny);
      if scope !in nextAllow {
        if scope in nextDeny {
          changed := changed + [Change(scope, Allow, Deny)];
          assert changed == entering + (leaving + [Change(scope, Allow, Deny)]);
        } else {
          removed := removed + [scope];
        }
      }
    }
    assert prevAllow[..|prevAllow|] == prevAllow;
  }

  /** The middle two loops: scopes that stay in allow and toggle their denial. */
  method CompareToggled(prev: ScopeSet, next: ScopeSet) returns (changed: seq<Change>)
    ensures changed == ChangesOf(Dedup(next.deny), StaysAllowed(prev, next, prev.deny), Allow, Deny)
                     + ChangesOf(Dedup(prev.deny), StaysAllowed(prev, next, next.deny), Deny, Allow)
  {
    var prevAllow, nextAllow := Dedup(prev.allow), Dedup(next.allow);
    var prevDeny, nextDeny := Dedup(prev.deny), Dedup(next.deny);
    changed := [];
    for i := 0 to |nextDeny|
      invariant changed == ChangesOf(nextDeny[..i], StaysAllowed(prev, next, prev.deny), Allow, Deny)
    {
      var scope := nextDeny[i];
      ChangesSnoc(nextDeny, i, StaysAllowed(prev, next, prev.deny), Allow, Deny);
      DedupMember(prev.deny, scope);
      DedupMember(prev.allow, scope);
      DedupMember(next.allow, scope);
      if scope !in prevDeny && scope in prevAllow && scope in nextAllow {
        changed := changed + [Change(scope, Allow, Deny)];
      }
    }
    assert nextDeny[..|nextDeny|] == nextDeny;
    ghost var denied := changed;
    for i := 0 to |prevDeny|
      invariant changed == denied + ChangesOf(prevDeny[..i], StaysAllowed(prev, next, next.deny), Deny, Allow)
    {
      var scope := prevDeny[i];
      ChangesSnoc(prevDeny, i, StaysAllowed(prev, next, next.deny), Deny, Allow);
      DedupMember(next.deny, scope);
      DedupMember(prev.allow, scope);
      DedupMember(next.allow, scope);
      if scope !in nextDeny && scope in prevAllow && scope in nextAllow {
        changed := changed + [Change(scope, Deny, Allow)];
      }
    }
    assert prevDeny[..|prevDeny|] == prevDeny;
  }

  /** The last two loops: scopes that appear in or vanish from deny without being allowed. */
  method CompareDenied(prev: ScopeSet, next: ScopeSet) returns (added: seq<Scope>, removed: seq<Scope>)
    ensures removed == Filter(Dedup(next.deny), NotIn(prev))
    ensures added == Filter(Dedup(prev.deny), NotIn(next))
  {
    var prevAllow, nextAllow := Dedup(prev.allow), Dedup(next.allow);
    var prevDeny, nextDeny := Dedup(prev.deny), Dedup(next.deny);
    added, removed := [], [];
    for i := 0 to |nextDeny|
      invariant removed == Filter(nextDeny[..i], NotIn(prev))
    {
      var scope := nextDeny[i];
      FilterSnoc(nextDeny, i, NotIn(prev));
      DedupMember(prev.deny, scope);
      DedupMember(prev.allow, scope);
      if scope !in prevDeny && scope !in prevAllow {
        removed := removed + [scope];
      }
    }
    assert nextDeny[..|nextDeny|] == nextDeny;
    for i := 0 to |prevDeny|
      invariant added == Filter(prevDeny[..i], NotIn(next))
    {
      var scope := prevDeny[i];
      FilterSnoc(prevDeny, i, NotIn(next));
      DedupMember(next.deny, scope);
      DedupMember(next.allow, scope);
      if scope !in nextDeny && scope !in nextAllow {
        added := added + [scope];
      }
    }
    assert prevDeny[..|prevDeny|] == prevDeny;
  }

  /** `computePayloadDelta`: all six loops, in the program's order. */
  method ComputePayloadDelta(prev: ScopeSet, next: ScopeSet) returns (delta: Delta)
    ensures delta == DeltaOf(prev, next)
  {
    var added, removed, changed := CompareAllowed(prev, next);
    var toggled := CompareToggled(prev, next);
    var undenied, denied := CompareDenied(prev, next);
    delta := Delta(added + undenied, removed + denied, changed + toggled);
  }

  // ---- What a delta says about each scope ------------------------------------------------

  /** The scope is reported with this new side. */
  predicate ChangedTo(delta: Delta, s: Scope, to: Side) {
    Change(s, Allow, to) in delta.changed || Change(s, Deny, to) in delta.changed
  }

  /** Membership of each report, by where the scope was and is listed. */
  lemma DeltaMembers(prev: ScopeSet, next: ScopeSet)
    ensures forall s :: s in Added(prev, next) <==>
      (s in next.allow && s !in prev.allow && s !in prev.deny)
      || (s in prev.deny && s !in next.deny && s !in next.allow)
    ensures forall s :: s in Removed(prev, next) <==>
      (s in prev.allow && s !in next.allow && s !in next.deny)
      || (s in next.deny && s !in prev.deny && s !in prev.allow)
    ensures forall c :: c in Changed(prev, next) <==>
      ((c.from == Deny && c.to == Allow
        && ((c.scope in next.allow && c.scope !in prev.allow && c.scope in prev.deny)
          || (c.scope in prev.deny && c.scope !in next.deny && c.scope in prev.allow && c.scope in next.allow)))
      || (c.from == Allow && c.to == Deny
        && ((c.scope in prev.allow && c.scope !in next.allow && c.scope in next.deny)
          || (c.scope in next.deny && c.scope !in prev.deny && c.scope in prev.allow && c.scope in next.allow))))
  {
    var na, pa, nd, pd := Dedup(next.allow), Dedup(prev.allow), Dedup(next.deny), Dedup(prev.deny);
    DedupMembers(prev.allow);
    DedupMembers(prev.deny);
    DedupMembers(next.allow);
    DedupMembers(next.deny);
    FilterMembers(na, NotIn(prev));
    FilterMembers(pd, NotIn(next));
    FilterMembers(pa, NotIn(next));
    FilterMembers(nd, NotIn(prev));
    ChangesMembers(na, DenyOnly(prev), Deny, Allow);
    ChangesMembers(pa, DenyOnly(next), Allow, Deny);
    ChangesMembers(nd, StaysAllowed(prev, next, prev.deny), Allow, Deny);
    ChangesMembers(pd, StaysAllowed(prev, next, next.deny), Deny, Allow);
  }

  /** A delta is empty exactly when both payloads list the same allow and deny sets, so the
      manager's "no material change" test never hides a listed difference. */
  lemma MaterialIffListsDiffer(prev: ScopeSet, next: ScopeSet)
    ensures IsMaterialChange(DeltaOf(prev, next)) <==>
      Elems(prev.allow) != Elems(next.allow) || Elems(prev.deny) != Elems(next.deny)
  {
    DeltaMembers(prev, next);
    var d := DeltaOf(prev, next);
    if !IsMaterialChange(d) {
      forall s ensures s in prev.allow <==> s in next.allow {
        assert s !in d.added && s !in d.removed;
        assert Change(s, Allow, Deny) !in d.changed && Change(s, Deny, Allow) !in d.changed;
      }
      forall s ensures s in prev.deny <==> s in next.deny {
        assert s !in d.added && s !in d.removed;
        assert Change(s, Allow, Deny) !in d.changed && Change(s, Deny, Allow) !in d.changed;
      }
    } else if d.added != [] {
      assert d.added[0] in d.added;
    } else if d.removed != [] {
      assert d.removed[0] in d.removed;
    } else {
      assert d.changed[0] in d.changed;
    }
  }

  /** packages/policy/src/materiality.ts: any entry makes a delta material. */
  predicate IsMaterialChange(delta: Delta) {
    |delta.added| > 0 || |delta.removed| > 0 || |delta.changed| > 0
  }

  // ---- Patching --------------------------------------------------------------------------

  /** A permission state: which scopes are listed on each side. */
  datatype Lists = Lists(allow: set<Scope>, deny: set<Scope>)

  function ListsOf(p: ScopeSet): Lists {
    Lists(Elems(p.allow), Elems(p.deny))
  }

  /** Applies a delta: a changed scope moves to its new side; an added scope loses its denial
      if it had one and is allowed otherwise; a removed scope loses its allowance if it had one
      and is denied otherwise. */
  function Patch(p: Lists, d: Delta): Lists {
    var touched := Elems(d.added) + Elems(d.removed) + (set c | c in d.changed :: c.scope);
    Lists(
      set s | s in p.allow + touched &&
        (ChangedTo(d, s, Allow)
        || (s in p.allow && s !in d.removed && !ChangedTo(d, s, Deny))
        || (s !in p.allow && s in d.added && s !in p.deny)),
      set s | s in p.deny + touched &&
        (ChangedTo(d, s, Deny)
        || (s in p.deny && s !in d.added && !ChangedTo(d, s, Allow))
        || (s !in p.deny && s in d.removed && s !in p.allow)))
  }

  /** Some scope listed on one side only becomes listed on both. */
  predicate GainsOverlap(prev: ScopeSet, next: ScopeSet) {
    exists s | s in next.allow ::
      s in next.deny && (s in prev.allow) != (s in prev.deny)
  }

  /** Patching the predecessor with the recorded delta gives the successor, exactly unless a
      scope listed on one side only becomes listed on both. */
  lemma PatchRebuildsIff(prev: ScopeSet, next: ScopeSet)
    ensures Patch(ListsOf(prev), DeltaOf(prev, next)) == ListsOf(next) <==> !GainsOverlap(prev, next)
  {
    var r := Patch(ListsOf(prev), DeltaOf(prev, next));
    if s :| s in next.allow && s in next.deny && (s in prev.allow) != (s in prev.deny) {
      PatchMisses(prev, next, s);
    } else {
      forall s ensures s in r.allow <==> s in next.allow { PatchPoint(prev, next, s); }
      forall s ensures s in r.deny <==> s in next.deny { PatchPoint(prev, next, s); }
    }
  }

  /** A patch never lists a scope on both sides that was listed on one. */
  lemma PatchMisses(prev: ScopeSet, next: ScopeSet, s: Scope)
    requires s in next.allow && s in next.deny && (s in prev.allow) != (s in prev.deny)
    ensures var r := Patch(ListsOf(prev), DeltaOf(prev, next)); !(s in r.allow && s in r.deny)
  {
    DeltaMembers(prev, next);
    var d := DeltaOf(prev, next);
    assert ChangedTo(d, s, Allow) ==> Change(s, Deny, Allow) in d.changed || Change(s, Allow, Allow) in d.changed;
    assert ChangedTo(d, s, Deny) ==> Change(s, Allow, Deny) in d.changed || Change(s, Deny, Deny) in d.changed;
  }

  lemma PatchPoint(prev: ScopeSet, next: ScopeSet, s: Scope)
    requires !GainsOverlap(prev, next)
    ensures s in Patch(ListsOf(prev), DeltaOf(prev, next)).allow <==> s in next.allow
    ensures s in Patch(ListsOf(prev), DeltaOf(prev, next)).deny <==> s in next.deny
  {
    DeltaMembers(prev, next);
    var d := DeltaOf(prev, next);
    assert Change(s, Allow, Allow) !in d.changed && Change(s, Deny, Deny) !in d.changed;
    assert ChangedTo(d, s, Allow) <==> Change(s, Deny, Allow) in d.changed;
    assert ChangedTo(d, s, Deny) <==> Change(s, Allow, Deny) in d.changed;
  }

  /** No other patch could do better: one predecessor and one delta, two different successors. */
  lemma DeltaLosesOverlap(s: Scope)
    ensures var prev, one, both := ScopeSet([s], []), ScopeSet([], [s]), ScopeSet([s], [s]);
            && DeltaOf(prev, one) == DeltaOf(prev, both)
            && ListsOf(one) != ListsOf(both)
  {
    var prev, one, both := ScopeSet([s], []), ScopeSet([], [s]), ScopeSet([s], [s]);
    assert [s][..0] == [] && Dedup([s]) == [s];
    assert Added(prev, one) == [] == Added(prev, both);
    assert Removed(prev, one) == [] == Removed(prev, both);
    assert ChangesOf([s], DenyOnly(one), Allow, Deny) == [Change(s, Allow, Deny)];
    assert ChangesOf([s], StaysAllowed(prev, both, []), Allow, Deny) == [Change(s, Allow, Deny)];
    assert ChangesOf([s], StaysAllowed(prev, one, []), Allow, Deny) == [];
    assert ChangesOf([s], DenyOnly(both), Allow, Deny) == [];
    assert ChangesOf([s], DenyOnly(prev), Deny, Allow) == [];
    assert Changed(prev, one) == [Change(s, Allow, Deny)] == Changed(prev, both);
    assert s in ListsOf(both).allow && s !in ListsOf(one).allow;
  }

  // ---- Comparing deltas ------------------------------------------------------------------

  predicate ScopeLe(x: Change, y: Change) {
    StringLe(x.scope, y.scope)
  }

  /** `deltaEquals`: lengths, then pointwise comparison of sorted copies. */
  predicate DeltaEquals(a: Delta, b: Delta) {
    && |a.added| == |b.added|
    && |a.removed| == |b.removed|
    && |a.changed| == |b.changed|
    && SortBy(StringLe, a.added) == SortBy(StringLe, b.added)
    && SortBy(StringLe, a.removed) == SortBy(StringLe, b.removed)
    && SortBy(ScopeLe, a.changed) == SortBy(ScopeLe, b.changed)
  }

  lemma ScopeLeOrder(prev: ScopeSet, next: ScopeSet)
    ensures TotalPreorder(ScopeLe)
    ensures AntisymmetricOn(ScopeLe, Changed(prev, next))
  {
    StringOrder();
    DeltaMembers(prev, next);
    forall x, y ensures ScopeLe(x, y) || ScopeLe(y, x) { StringLeTotal(x.scope, y.scope); }
    forall x, y, z | ScopeLe(x, y) && ScopeLe(y, z) ensures ScopeLe(x, z) {
      StringLeTransitive(x.scope, y.scope, z.scope);
    }
    forall x, y | x in Changed(prev, next) && y in Changed(prev, next) && ScopeLe(x, y) && ScopeLe(y, x)
      ensures x == y
    {
      StringLeTotal(x.scope, y.scope);
    }
  }

  ghost predicate SameReports(a: Delta, b: Delta) {
    && multiset(a.added) == multiset(b.added)
    && multiset(a.removed) == multiset(b.removed)
    && multiset(a.changed) == multiset(b.changed)
  }

  /** A stored delta passes the comparison exactly when it reports what a recomputation
      reports, in any order: nothing dropped, repeated or invented. */
  lemma DeltaEqualsIff(prev: ScopeSet, next: ScopeSet, stored: Delta)
    ensures DeltaEquals(DeltaOf(prev, next), stored) <==> SameReports(DeltaOf(prev, next), stored)
  {
    var d := DeltaOf(prev, next);
    StringOrder();
    ScopeLeOrder(prev, next);
    if SameReports(d, stored) {
      assert AntisymmetricOn(StringLe, d.added) && AntisymmetricOn(StringLe, d.removed);
      SortCanonical(StringLe, d.added, stored.added);
      SortCanonical(StringLe, d.removed, stored.removed);
      SortCanonical(ScopeLe, d.changed, stored.changed);
      SameMembers(d.added, stored.added);
      SameMembers(d.removed, stored.removed);
      SameMembers(d.changed, stored.changed);
    }
  }
}
