/** Effective scopes (packages/schemas/src/permission-scopes.ts) and the gate that decides whether
    a scope update may be applied in place (packages/sessions/src/materiality.ts). */
module Materiality {
  import opened Sequences
  import opened ScopeDelta

  /** Deny wins: the scopes that are allowed and not denied. */
  function Effective(s: ScopeSet): set<Scope> {
    Elems(s.allow) - Elems(s.deny)
  }

  /** `resolveScopeSet`. */
  method ResolveScopeSet(s: ScopeSet) returns (result: set<Scope>)
    ensures result == Effective(s)
  {
    result := {};
    for i := 0 to |s.allow|
      invariant result == Elems(s.allow[..i]) - Elems(s.deny)
    {
      assert s.allow[..i + 1] == s.allow[..i] + [s.allow[i]];
      if s.allow[i] !in s.deny {
        result := result + {s.allow[i]};
      }
    }
    assert s.allow[..|s.allow|] == s.allow;
  }

  datatype Check = Check(isMaterial: bool, delta: Delta, requiresReauthorization: bool)

  /** The four sets in insertion order, without repetition. */
  function AllScopes(before: ScopeSet, after: ScopeSet): seq<Scope> {
    Dedup(before.allow + before.deny + after.allow + after.deny)
  }

  predicate Listed(s: ScopeSet, x: Scope) {
    x in s.allow || x in s.deny
  }

  function GrantedUnlisted(before: ScopeSet, after: ScopeSet): Scope -> bool {
    x => x in Effective(after) && x !in Effective(before) && !Listed(before, x)
  }

  function LostUndenied(before: ScopeSet, after: ScopeSet): Scope -> bool {
    x => x in Effective(before) && x !in Effective(after) && x !in after.deny
  }

  /** The report on one scope that changes sides. */
  function Flip(before: ScopeSet, after: ScopeSet, x: Scope): seq<Change> {
    if x in Effective(after) && x !in Effective(before) && Listed(before, x) then [Change(x, Deny, Allow)]
    else if x in Effective(before) && x !in Effective(after) && x in after.deny then [Change(x, Allow, Deny)]
    else []
  }

  function Flips(before: ScopeSet, after: ScopeSet, scopes: seq<Scope>): seq<Change> {
    if scopes == [] then [] else
      Flips(before, after, scopes[..|scopes| - 1]) + Flip(before, after, scopes[|scopes| - 1])
  }

  function EffectiveDelta(before: ScopeSet, after: ScopeSet): Delta {
    var all := AllScopes(before, after);
    Delta(Filter(all, GrantedUnlisted(before, after)), Filter(all, LostUndenied(before, after)),
          Flips(before, after, all))
  }

  function Escalations(changed: seq<Change>): seq<Change> {
    Filter(changed, Upward())
  }

  function CheckOf(before: ScopeSet, after: ScopeSet): Check {
    var delta := EffectiveDelta(before, after);
    Check(IsMaterialChange(delta), delta, |delta.added| > 0 || |Escalations(delta.changed)| > 0)
  }

  /** `checkMateriality`. */
  method CheckMateriality(before: ScopeSet, after: ScopeSet) returns (check: Check)
    ensures check == CheckOf(before, after)
  {
    var all := AllScopes(before, after);
    var added: seq<Scope>, removed: seq<Scope>, changed: seq<Change> := [], [], [];
    for i := 0 to |all|
      invariant added == Filter(all[..i], GrantedUnlisted(before, after))
      invariant removed == Filter(all[..i], LostUndenied(before, after))
      invariant changed == Flips(before, after, all[..i])
    {
      var x := all[i];
      FilterSnoc(all, i, GrantedUnlisted(before, after));
      FilterSnoc(all, i, LostUndenied(before, after));
      assert all[..i + 1][..i] == all[..i];
      var oldAllowed := x in before.allow && x !in before.deny;
      var newAllowed := x in after.allow && x !in after.deny;
      if oldAllowed != newAllowed {
        if newAllowed {
          if x in before.allow || x in before.deny {
            changed := changed + [Change(x, Deny, Allow)];
          } else {
            added := added + [x];
          }
        } else if x in after.deny {
          changed := changed + [Change(x, Allow, Deny)];
        } else {
          removed := removed + [x];
        }
      }
    }
    assert all[..|all|] == all;
    var delta := Delta(added, removed, changed);
    check := Check(IsMaterialChange(delta), delta, |added| > 0 || |Escalations(changed)| > 0);
  }

  lemma FlipsMembers(before: ScopeSet, after: ScopeSet, scopes: seq<Scope>)
    ensures forall c :: c in Flips(before, after, scopes) <==> c.scope in scopes && c in Flip(before, after, c.scope)
  {
    if scopes != [] {
      var n := |scopes| - 1;
      FlipsMembers(before, after, scopes[..n]);
      assert scopes == scopes[..n] + [scopes[n]];
    }
  }

  function Upward(): Change -> bool {
    (c: Change) => c.to == Allow
  }

  /** Every scope that gains or loses effect is reported in exactly one place. */
  lemma DeltaReports(before: ScopeSet, after: ScopeSet)
    ensures var d := EffectiveDelta(before, after);
            && (forall x :: x in d.added <==> x in Effective(after) - Effective(before) && !Listed(before, x))
            && (forall x :: x in d.removed <==> x in Effective(before) - Effective(after) && x !in after.deny)
            && (forall c :: c in d.changed <==>
                  || (c == Change(c.scope, Deny, Allow) && c.scope in Effective(after) - Effective(before)
                      && Listed(before, c.scope))
                  || (c == Change(c.scope, Allow, Deny) && c.scope in Effective(before) - Effective(after)
                      && c.scope in after.deny))
  {
    var all := AllScopes(before, after);
    DedupMembers(before.allow + before.deny + after.allow + after.deny);
    FilterMembers(all, GrantedUnlisted(before, after));
    FilterMembers(all, LostUndenied(before, after));
    FlipsMembers(before, after, all);
  }

  lemma NonEmpty<T(!new)>(s: seq<T>)
    ensures |s| > 0 <==> exists x :: x in s
  {
    if |s| > 0 { assert s[0] in s; }
  }

  /** The gate closes exactly when the update would make some scope newly effective. */
  lemma ReauthorizationIffEscalation(before: ScopeSet, after: ScopeSet)
    ensures CheckOf(before, after).requiresReauthorization <==> !(Effective(after) <= Effective(before))
  {
    hide EffectiveDelta, Effective, Listed, Filter;
    var d := EffectiveDelta(before, after);
    DeltaReports(before, after);
    FilterMembers(d.changed, Upward());
    NonEmpty(d.added);
    NonEmpty(Escalations(d.changed));
    if !(Effective(after) <= Effective(before)) {
      var x :| x in Effective(after) && x !in Effective(before);
      assert x in d.added || Change(x, Deny, Allow) in d.changed;
    }
  }

  /** An update is reported as material exactly when it changes the effective set. */
  lemma MaterialIffEffectiveChanges(before: ScopeSet, after: ScopeSet)
    ensures CheckOf(before, after).isMaterial <==> Effective(after) != Effective(before)
  {
    hide EffectiveDelta, Effective, Listed, Filter;
    var d := EffectiveDelta(before, after);
    DeltaReports(before, after);
    NonEmpty(d.added);
    NonEmpty(d.removed);
    NonEmpty(d.changed);
    if x :| x in Effective(after) - Effective(before) {
      assert x in d.added || Change(x, Deny, Allow) in d.changed;
    } else if x :| x in Effective(before) - Effective(after) {
      assert x in d.removed || Change(x, Allow, Deny) in d.changed;
    }
  }
}
