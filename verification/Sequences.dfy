/** Sequence vocabulary shared by the models: options, filtering, JavaScript `Set`
    insertion order, and reversal. */
module Sequences {

  datatype Option<+T> = None | Some(value: T)

  /** `Array.prototype.filter`. */
  function Filter<T>(s: seq<T>, p: T -> bool): seq<T> {
    if s == [] then [] else
      Filter(s[..|s| - 1], p) + (if p(s[|s| - 1]) then [s[|s| - 1]] else [])
  }

  lemma FilterMembers<T(!new)>(s: seq<T>, p: T -> bool)
    ensures forall x :: x in Filter(s, p) <==> x in s && p(x)
  {
    if s != [] {
      var n := |s| - 1;
      FilterMembers(s[..n], p);
      assert s == s[..n] + [s[n]];
    }
  }

  /** One step of a filtering loop. */
  lemma FilterSnoc<T>(s: seq<T>, i: nat, p: T -> bool)
    requires i < |s|
    ensures Filter(s[..i + 1], p) == Filter(s[..i], p) + (if p(s[i]) then [s[i]] else [])
  {
    assert s[..i + 1][..i] == s[..i];
  }

  ghost predicate NoDup<T>(s: seq<T>) {
    forall i, j :: 0 <= i < j < |s| ==> s[i] != s[j]
  }

  /** The elements of `new Set(s)`, in insertion order. */
  function Dedup<T(==)>(s: seq<T>): seq<T> {
    if s == [] then [] else
      var n := |s| - 1;
      if s[n] in s[..n] then Dedup(s[..n]) else Dedup(s[..n]) + [s[n]]
  }

  lemma DedupMembers<T(!new)>(s: seq<T>)
    ensures forall x :: x in Dedup(s) <==> x in s
  {
    if s != [] {
      var n := |s| - 1;
      DedupMembers(s[..n]);
      assert s == s[..n] + [s[n]];
    }
  }

  lemma DedupMember<T(!new)>(s: seq<T>, x: T)
    ensures x in Dedup(s) <==> x in s
  {
    DedupMembers(s);
  }

  lemma {:induction false} DedupNoDup<T(!new)>(s: seq<T>)
    ensures NoDup(Dedup(s))
  {
    if s != [] {
      DedupNoDup(s[..|s| - 1]);
      DedupMembers(s[..|s| - 1]);
    }
  }

  /** The set of elements of a sequence. */
  function Elems<T(!new)>(s: seq<T>): (r: set<T>)
    ensures forall x :: x in r <==> x in s
  {
    set x | x in s
  }

  function Reverse<T>(s: seq<T>): (r: seq<T>)
    ensures |r| == |s|
    ensures forall i :: 0 <= i < |s| ==> r[i] == s[|s| - 1 - i]
  {
    if s == [] then [] else [s[|s| - 1]] + Reverse(s[..|s| - 1])
  }
}
