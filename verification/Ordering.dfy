/** Sorting with a comparison function, and the lexicographic order on strings, character by
    character. */
module Ordering {

  ghost predicate TotalPreorder<T(!new)>(le: (T, T) -> bool) {
    && (forall x, y :: le(x, y) || le(y, x))
    && (forall x, y, z :: le(x, y) && le(y, z) ==> le(x, z))
  }

  ghost predicate AntisymmetricOn<T>(le: (T, T) -> bool, s: seq<T>) {
    forall x, y | x in s && y in s && le(x, y) && le(y, x) :: x == y
  }

  ghost predicate Sorted<T>(le: (T, T) -> bool, s: seq<T>) {
    s == [] || ((forall x | x in s[1..] :: le(s[0], x)) && Sorted(le, s[1..]))
  }

  function Insert<T>(le: (T, T) -> bool, x: T, s: seq<T>): (r: seq<T>)
    ensures multiset(r) == multiset(s) + multiset{x}
    ensures |r| == |s| + 1
  {
    if s == [] || le(x, s[0]) then [x] + s else
      assert s == [s[0]] + s[1..];
      [s[0]] + Insert(le, x, s[1..])
  }

  /** A stable sort; every stable sorting algorithm computes the same sequence. */
  function SortBy<T>(le: (T, T) -> bool, s: seq<T>): (r: seq<T>)
    ensures multiset(r) == multiset(s)
    ensures |r| == |s|
  {
    if s == [] then [] else
      assert s == [s[0]] + s[1..];
      Insert(le, s[0], SortBy(le, s[1..]))
  }

  lemma SameMembers<T(!new)>(a: seq<T>, b: seq<T>)
    requires multiset(a) == multiset(b)
    ensures |a| == |b|
    ensures forall x :: x in a <==> x in b
  {
    assert |a| == |multiset(a)| == |multiset(b)| == |b|;
    forall x ensures x in a <==> x in b {
      assert x in a <==> x in multiset(a);
    }
  }

  lemma {:induction false} InsertSorted<T(!new)>(le: (T, T) -> bool, x: T, s: seq<T>)
    requires TotalPreorder(le) && Sorted(le, s)
    ensures Sorted(le, Insert(le, x, s))
  {
    if s == [] {
    } else if le(x, s[0]) {
      assert ([x] + s)[1..] == s;
      forall y | y in s ensures le(x, y) {
        assert y == s[0] || y in s[1..];
      }
    } else {
      InsertSorted(le, x, s[1..]);
      var t := Insert(le, x, s[1..]);
      SameMembers(t, s[1..] + [x]);
      assert ([s[0]] + t)[1..] == t;
    }
  }

  lemma {:induction false} SortBySorted<T(!new)>(le: (T, T) -> bool, s: seq<T>)
    requires TotalPreorder(le)
    ensures Sorted(le, SortBy(le, s))
  {
    if s != [] {
      SortBySorted(le, s[1..]);
      InsertSorted(le, s[0], SortBy(le, s[1..]));
    }
  }

  /** Sorting leaves a sorted sequence alone. */
  lemma {:induction false} SortSorted<T(!new)>(le: (T, T) -> bool, s: seq<T>)
    requires Sorted(le, s)
    ensures SortBy(le, s) == s
  {
    if s != [] {
      SortSorted(le, s[1..]);
      assert s[1..] != [] ==> s[1] in s[1..];
      assert s == [s[0]] + s[1..];
    }
  }

  lemma SortedHead<T(!new)>(le: (T, T) -> bool, s: seq<T>, x: T)
    requires TotalPreorder(le) && Sorted(le, s) && x in s
    ensures le(s[0], x)
  {
    assert x == s[0] || x in s[1..];
  }

  lemma {:induction false} SortedAt<T(!new)>(le: (T, T) -> bool, s: seq<T>, i: nat, j: nat)
    requires Sorted(le, s) && i < j < |s|
    ensures le(s[i], s[j])
  {
    if i == 0 { assert s[j] in s[1..]; } else { SortedAt(le, s[1..], i - 1, j - 1); }
  }

  /** A sorted sequence is determined by its elements when the order separates them. */
  lemma {:induction false} SortedUnique<T(!new)>(le: (T, T) -> bool, a: seq<T>, b: seq<T>)
    requires TotalPreorder(le) && Sorted(le, a) && Sorted(le, b)
    requires multiset(a) == multiset(b)
    requires AntisymmetricOn(le, a)
    ensures a == b
  {
    SameMembers(a, b);
    if a != [] {
      assert a[0] == b[0] by {
        assert a[0] in a && b[0] in b;
        SortedHead(le, a, b[0]);
        SortedHead(le, b, a[0]);
      }
      assert a == [a[0]] + a[1..] && b == [b[0]] + b[1..];
      assert multiset(a[1..]) == multiset(a) - multiset{a[0]};
      assert multiset(b[1..]) == multiset(b) - multiset{b[0]};
      assert forall x :: x in a[1..] ==> x in a;
      SortedUnique(le, a[1..], b[1..]);
    }
  }

  /** Two permutations sort to the same sequence when the order separates their elements. */
  lemma SortCanonical<T(!new)>(le: (T, T) -> bool, a: seq<T>, b: seq<T>)
    requires multiset(a) == multiset(b)
    requires TotalPreorder(le) && AntisymmetricOn(le, a)
    ensures SortBy(le, a) == SortBy(le, b)
  {
    SortBySorted(le, a);
    SortBySorted(le, b);
    SameMembers(SortBy(le, a), a);
    SortedUnique(le, SortBy(le, a), SortBy(le, b));
  }

  // ---- Ties ------------------------------------------------------------------------------

  /** Of two tied elements, the one inserted last comes first. */
  lemma {:induction false} InsertTied<T(!new)>(le: (T, T) -> bool, x: T, y: T, s: seq<T>)
    requires TotalPreorder(le) && le(x, y) && le(y, x) && x != y
    ensures Insert(le, x, Insert(le, y, s)) != Insert(le, y, Insert(le, x, s))
  {
    if s == [] || le(y, s[0]) {
      assert Insert(le, x, Insert(le, y, s))[0] == x;
      assert Insert(le, y, Insert(le, x, s))[0] == y;
    } else {
      InsertTied(le, x, y, s[1..]);
      var xs, ys := Insert(le, x, s[1..]), Insert(le, y, s[1..]);
      assert Insert(le, x, s) == [s[0]] + xs && ([s[0]] + xs)[1..] == xs;
      assert Insert(le, y, s) == [s[0]] + ys && ([s[0]] + ys)[1..] == ys;
      assert Insert(le, x, [s[0]] + ys)[1..] == Insert(le, x, ys);
      assert Insert(le, y, [s[0]] + xs)[1..] == Insert(le, y, xs);
    }
  }

  lemma SortCons<T>(le: (T, T) -> bool, x: T, s: seq<T>)
    ensures SortBy(le, [x] + s) == Insert(le, x, SortBy(le, s))
  {
    hide Insert;
    assert ([x] + s)[1..] == s;
  }

  /** So sorting tells the two orders of tied elements apart. */
  lemma SortTied<T(!new)>(le: (T, T) -> bool, x: T, y: T, s: seq<T>)
    requires TotalPreorder(le) && le(x, y) && le(y, x) && x != y
    ensures SortBy(le, [x] + ([y] + s)) != SortBy(le, [y] + ([x] + s))
  {
    hide Insert, SortBy;
    InsertTied(le, x, y, SortBy(le, s));
    SortCons(le, y, s);
    SortCons(le, x, [y] + s);
    SortCons(le, x, s);
    SortCons(le, y, [x] + s);
  }

  // ---- Strings ---------------------------------------------------------------------------

  /** Lexicographic order, character by character. */
  predicate StringLe(a: string, b: string) {
    a == "" || (b != "" && (a[0] < b[0] || (a[0] == b[0] && StringLe(a[1..], b[1..]))))
  }

  /** A prefix comes first; otherwise the first difference decides. */
  lemma {:induction false} StringLeIff(a: string, b: string)
    ensures StringLe(a, b) <==>
            a <= b || exists k | 0 <= k < |a| && k < |b| :: a[..k] == b[..k] && a[k] < b[k]
  {
    forall k | 0 < k < |a| && k < |b| && a[..k] == b[..k] ensures a[0] == b[0] {
      assert a[..k][0] == a[0] && b[..k][0] == b[0];
    }
    if a != "" && b != "" && a[0] == b[0] {
      StringLeIff(a[1..], b[1..]);
      assert a <= b <==> a[1..] <= b[1..] by { assert a == [a[0]] + a[1..] && b == [b[0]] + b[1..]; }
      if k :| 0 <= k < |a[1..]| && k < |b[1..]| && a[1..][..k] == b[1..][..k] && a[1..][k] < b[1..][k] {
        assert a[..k + 1] == [a[0]] + a[1..][..k] && b[..k + 1] == [b[0]] + b[1..][..k];
      }
      if k :| 0 <= k < |a| && k < |b| && a[..k] == b[..k] && a[k] < b[k] {
        assert k > 0 && a[1..][..k - 1] == a[..k][1..] && b[1..][..k - 1] == b[..k][1..];
        assert a[1..][k - 1] == a[k] && b[1..][k - 1] == b[k];
      }
    } else if a != "" && b != "" {
      if a[0] < b[0] { assert a[..0] == b[..0]; }
    }
  }

  lemma {:induction false} StringLeTotal(a: string, b: string)
    ensures StringLe(a, b) || StringLe(b, a)
    ensures StringLe(a, b) && StringLe(b, a) ==> a == b
  {
    if a != "" && b != "" && a[0] == b[0] {
      StringLeTotal(a[1..], b[1..]);
      assert a == [a[0]] + a[1..] && b == [b[0]] + b[1..];
    }
  }

  lemma {:induction false} StringLeTransitive(a: string, b: string, c: string)
    requires StringLe(a, b) && StringLe(b, c)
    ensures StringLe(a, c)
  {
    if a != "" && a[0] == b[0] == c[0] {
      StringLeTransitive(a[1..], b[1..], c[1..]);
    }
  }

  lemma StringOrder()
    ensures TotalPreorder(StringLe)
    ensures forall s: seq<string> :: AntisymmetricOn(StringLe, s)
  {
    forall x, y ensures StringLe(x, y) || StringLe(y, x) { StringLeTotal(x, y); }
    forall x, y | StringLe(x, y) && StringLe(y, x) ensures x == y { StringLeTotal(x, y); }
    forall x, y, z | StringLe(x, y) && StringLe(y, z) ensures StringLe(x, z) {
      StringLeTransitive(x, y, z);
    }
  }
}
