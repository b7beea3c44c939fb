/** Sequences seen as bags: mapping respects permutation, and an association list with distinct
    keys is determined, as a bag, by the map it denotes. */
module Bags {
  import opened Ordering

  function MapSeq<T, U>(f: T -> U, s: seq<T>): (r: seq<U>)
    ensures |r| == |s|
  {
    if s == [] then [] else [f(s[0])] + MapSeq(f, s[1..])
  }

  lemma {:induction false} MapSeqAt<T, U>(f: T -> U, s: seq<T>, i: nat)
    requires i < |s|
    ensures MapSeq(f, s)[i] == f(s[i])
  {
    if i > 0 { MapSeqAt(f, s[1..], i - 1); }
  }

  lemma {:induction false} MapSeqConcat<T, U>(f: T -> U, s: seq<T>, t: seq<T>)
    ensures MapSeq(f, s + t) == MapSeq(f, s) + MapSeq(f, t)
  {
    if s == [] {
      assert s + t == t;
    } else {
      assert (s + t)[1..] == s[1..] + t;
      MapSeqConcat(f, s[1..], t);
    }
  }

  function Without<T>(s: seq<T>, j: nat): seq<T>
    requires j < |s|
  {
    s[..j] + s[j + 1..]
  }

  lemma WithoutBag<T>(s: seq<T>, j: nat)
    requires j < |s|
    ensures multiset(Without(s, j)) == multiset(s) - multiset{s[j]}
  {
    assert s == s[..j] + [s[j]] + s[j + 1..];
  }

  lemma MapWithout<T, U>(f: T -> U, s: seq<T>, j: nat)
    requires j < |s|
    ensures MapSeq(f, Without(s, j)) == Without(MapSeq(f, s), j)
    ensures MapSeq(f, s)[j] == f(s[j])
  {
    hide MapSeq;
    MapSeqAt(f, s, j);
    forall i | 0 <= i < |s| - 1 ensures MapSeq(f, Without(s, j))[i] == Without(MapSeq(f, s), j)[i] {
      var k := if i < j then i else i + 1;
      WithoutAt(s, j, i);
      WithoutAt(MapSeq(f, s), j, i);
      MapSeqAt(f, Without(s, j), i);
      MapSeqAt(f, s, k);
    }
  }

  lemma WithoutAt<T>(s: seq<T>, j: nat, i: nat)
    requires j < |s| && i < |s| - 1
    ensures |Without(s, j)| == |s| - 1 && Without(s, j)[i] == s[if i < j then i else i + 1]
  {
  }

  /** An element that occurs at two positions is counted twice, one of pairwise different elements
      at most once. */
  lemma DoubleCount<T>(s: seq<T>, i: nat, j: nat)
    requires i < j < |s| && s[i] == s[j]
    ensures multiset(s)[s[i]] >= 2
  {
    assert s == s[..j] + [s[j]] + s[j + 1..];
    assert s[..j][i] == s[j];
  }

  lemma {:induction false} SingleCount<T>(s: seq<T>, x: T)
    requires forall i, j | 0 <= i < j < |s| :: s[i] != s[j]
    ensures multiset(s)[x] <= 1
  {
    if s != [] {
      var n := |s| - 1;
      SingleCount(s[..n], x);
      assert s == s[..n] + [s[n]];
      if multiset(s[..n])[x] == 1 { assert x in s[..n]; }
    }
  }

  lemma MapUncons<T, U>(f: T -> U, s: seq<T>)
    requires s != []
    ensures multiset(MapSeq(f, s)) == multiset{f(s[0])} + multiset(MapSeq(f, s[1..]))
  {
  }

  lemma MapWithoutBag<T, U>(f: T -> U, s: seq<T>, j: nat)
    requires j < |s|
    ensures multiset(MapSeq(f, s)) == multiset{f(s[j])} + multiset(MapSeq(f, Without(s, j)))
  {
    MapWithout(f, s, j);
    WithoutBag(MapSeq(f, s), j);
  }

  /** Some element of `b` looks like the first of `a`. */
  lemma MatchHead<T(!new), U(!new)>(f: T -> U, a: seq<T>, b: seq<T>) returns (j: nat)
    requires a != [] && multiset(MapSeq(f, a)) == multiset(MapSeq(f, b))
    ensures j < |b| && f(b[j]) == f(a[0])
  {
    var mb := MapSeq(f, b);
    SameMembers(MapSeq(f, a), mb);
    assert MapSeq(f, a)[0] in mb;
    j :| 0 <= j < |mb| && mb[j] == f(a[0]);
    MapSeqAt(f, b, j);
  }

  /** `f` separates every pair that `g` separates. */
  ghost predicate Finer<T, U(!new), V(!new)>(f: T -> U, g: T -> V, a: seq<T>, b: seq<T>) {
    forall i, j | 0 <= i < |a| && 0 <= j < |b| && f(a[i]) == f(b[j]) :: g(a[i]) == g(b[j])
  }

  lemma FinerWithout<T, U(!new), V(!new)>(f: T -> U, g: T -> V, a: seq<T>, b: seq<T>, j: nat)
    requires Finer(f, g, a, b) && a != [] && j < |b|
    ensures Finer(f, g, a[1..], Without(b, j))
    ensures f(a[0]) == f(b[j]) ==> g(a[0]) == g(b[j])
  {
  }

  lemma CancelHead<U(!new)>(x: U, m: multiset<U>, n: multiset<U>)
    requires multiset{x} + m == multiset{x} + n
    ensures m == n
  {
    assert m == multiset{x} + m - multiset{x};
    assert n == multiset{x} + n - multiset{x};
  }

  /** If `f` separates everything `g` separates, equal bags under `f` are equal bags under `g`. */
  lemma {:induction false} BagMatch<T(!new), U(!new), V(!new)>(f: T -> U, g: T -> V, a: seq<T>, b: seq<T>)
    requires multiset(MapSeq(f, a)) == multiset(MapSeq(f, b))
    requires Finer(f, g, a, b)
    ensures multiset(MapSeq(g, a)) == multiset(MapSeq(g, b))
  {
    if a == [] {
      SameMembers(MapSeq(f, a), MapSeq(f, b));
    } else {
      hide Without, MapSeq, Finer;
      var j := MatchHead(f, a, b);
      var tail, rest := a[1..], Without(b, j);
      MapUncons(f, a);
      MapUncons(g, a);
      MapWithoutBag(f, b, j);
      MapWithoutBag(g, b, j);
      CancelHead(f(a[0]), multiset(MapSeq(f, tail)), multiset(MapSeq(f, rest)));
      FinerWithout(f, g, a, b, j);
      BagMatch(f, g, tail, rest);
    }
  }

  lemma MapPermutation<T(!new), U(!new)>(f: T -> U, a: seq<T>, b: seq<T>)
    requires multiset(a) == multiset(b)
    ensures multiset(MapSeq(f, a)) == multiset(MapSeq(f, b))
  {
    var id := (x: T) => x;
    MapIdentity(id, a);
    MapIdentity(id, b);
    assert Finer(id, f, a, b) by {
      forall i, j | 0 <= i < |a| && 0 <= j < |b| && id(a[i]) == id(b[j]) ensures f(a[i]) == f(b[j]) { }
    }
    BagMatch(id, f, a, b);
  }

  lemma {:induction false} MapIdentity<T(!new)>(id: T -> T, s: seq<T>)
    requires forall x :: id(x) == x
    ensures MapSeq(id, s) == s
  {
    if s != [] {
      MapIdentity(id, s[1..]);
      assert s == [s[0]] + s[1..];
    }
  }

  // ---- Association lists -----------------------------------------------------------------

  ghost predicate DistinctFirst<K, V>(s: seq<(K, V)>) {
    forall i, j | 0 <= i < j < |s| :: s[i].0 != s[j].0
  }

  function ToMap<K, V>(s: seq<(K, V)>): map<K, V> {
    if s == [] then map[] else ToMap(s[1..])[s[0].0 := s[0].1]
  }

  lemma {:induction false} ToMapEntries<K(!new), V(!new)>(s: seq<(K, V)>)
    requires DistinctFirst(s)
    ensures forall p :: p in s <==> p.0 in ToMap(s) && ToMap(s)[p.0] == p.1
  {
    if s != [] {
      assert forall i | 0 <= i < |s[1..]| :: s[1..][i] == s[i + 1];
      ToMapEntries(s[1..]);
      assert forall p :: p in s <==> p == s[0] || p in s[1..];
      forall p | p in s[1..] ensures p.0 != s[0].0 {
        var i :| 0 <= i < |s[1..]| && s[1..][i] == p;
      }
    }
  }

  lemma {:induction false} DistinctBag<K(!new), V(!new)>(s: seq<(K, V)>)
    requires DistinctFirst(s)
    ensures forall p :: multiset(s)[p] == if p in s then 1 else 0
  {
    if s != [] {
      assert forall i | 0 <= i < |s[1..]| :: s[1..][i] == s[i + 1];
      DistinctBag(s[1..]);
      assert s == [s[0]] + s[1..];
      assert s[0] !in s[1..];
    }
  }

  /** Distinct-key association lists denote the same map exactly when they are permutations. */
  lemma ToMapIffBag<K(!new), V(!new)>(a: seq<(K, V)>, b: seq<(K, V)>)
    requires DistinctFirst(a) && DistinctFirst(b)
    ensures ToMap(a) == ToMap(b) <==> multiset(a) == multiset(b)
  {
    ToMapEntries(a);
    ToMapEntries(b);
    if ToMap(a) == ToMap(b) {
      DistinctBag(a);
      DistinctBag(b);
      assert forall p :: p in a <==> p in b;
      assert forall p :: multiset(a)[p] == multiset(b)[p];
    }
    if multiset(a) == multiset(b) {
      SameMembers(a, b);
      var m, n := ToMap(a), ToMap(b);
      forall k | k in m ensures k in n && m[k] == n[k] { assert (k, m[k]) in b; }
      forall k | k in n ensures k in m { assert (k, n[k]) in a; }
    }
  }
}
