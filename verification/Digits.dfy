/** Positional notation, most significant digit first. */
module Digits {

  function Pow(b: nat, n: nat): (r: nat)
    ensures b > 0 ==> r > 0
  {
    if n == 0 then 1 else b * Pow(b, n - 1)
  }

  predicate AreDigits(b: nat, s: seq<nat>) {
    forall i | 0 <= i < |s| :: s[i] < b
  }

  /** The number a digit sequence denotes. */
  function FromDigits(b: nat, s: seq<nat>): nat {
    if s == [] then 0 else FromDigits(b, s[..|s| - 1]) * b + s[|s| - 1]
  }

  /** The lowest digit; never negative. */
  function Low(v: int, b: nat): nat
    requires b > 0
  {
    v % b
  }

  /** The `n` low digits of a number. */
  function ToDigits(b: nat, v: int, n: nat): seq<nat>
    requires b > 0
    decreases n
  {
    if n == 0 then [] else ToDigits(b, v / b, n - 1) + [Low(v, b)]
  }

  lemma MulAssociative(x: int, y: int, z: int)
    ensures (x * y) * z == x * (y * z)
  {
  }

  lemma MulDistributes(x: int, y: int, z: int)
    ensures (x + y) * z == x * z + y * z
    ensures z * (x + y) == z * x + z * y
  {
  }

  lemma {:induction false} PowAdd(b: nat, m: nat, n: nat)
    ensures Pow(b, m + n) == Pow(b, m) * Pow(b, n)
  {
    if m > 0 {
      PowAdd(b, m - 1, n);
      MulAssociative(b, Pow(b, m - 1), Pow(b, n));
    }
  }

  /** Euclidean division is determined by its two results. */
  lemma DivModUnique(d: nat, q: int, r: nat)
    requires d > 0 && r < d
    ensures (q * d + r) / d == q && (q * d + r) % d == r
  {
    var v := q * d + r;
    var q', r' := v / d, v % d;
    assert v == q' * d + r' && 0 <= r' < d;
    if q' < q { MulOrder(q' + 1, q, d); MulDistributes(q', 1, d); }
    if q < q' { MulOrder(q + 1, q', d); MulDistributes(q, 1, d); }
  }

  lemma MulOrder(x: int, y: int, d: nat)
    requires x <= y
    ensures x * d <= y * d
  {
  }

  lemma {:induction false} FromDigitsConcat(b: nat, s: seq<nat>, t: seq<nat>)
    ensures FromDigits(b, s + t) == FromDigits(b, s) * Pow(b, |t|) + FromDigits(b, t)
  {
    if t == [] {
      assert s + t == s;
    } else {
      var n := |t| - 1;
      assert (s + t)[..|s + t| - 1] == s + t[..n];
      FromDigitsConcat(b, s, t[..n]);
      MulDistributes(FromDigits(b, s) * Pow(b, n), FromDigits(b, t[..n]), b);
      MulAssociative(FromDigits(b, s), Pow(b, n), b);
    }
  }

  lemma {:induction false} FromDigitsBound(b: nat, s: seq<nat>)
    requires AreDigits(b, s)
    ensures FromDigits(b, s) < Pow(b, |s|)
  {
    if s != [] {
      FromDigitsBound(b, s[..|s| - 1]);
      MulOrder(FromDigits(b, s[..|s| - 1]) + 1, Pow(b, |s| - 1), b);
      MulDistributes(FromDigits(b, s[..|s| - 1]), 1, b);
    }
  }

  lemma DivMod(v: int, d: nat)
    requires d > 0
    ensures v == (v / d) * d + v % d && 0 <= v % d < d
  {
  }

  /** Remainders in two stages. */
  lemma ModProduct(v: int, b: nat, p: nat)
    requires b > 0 && p > 0 && b * p > 0
    ensures v % (b * p) == Low(v / b, p) * b + Low(v, b)
  {
    var q, r, d := (v / b) / p, Low(v / b, p), Low(v, b);
    DivMod(v, b);
    DivMod(v / b, p);
    MulDistributes(q * p, r, b);
    MulAssociative(q, p, b);
    assert p * b == b * p;
    assert v == q * (b * p) + (r * b + d);
    MulOrder(r + 1, p, b);
    MulDistributes(r, 1, b);
    DivModUnique(b * p, q, r * b + d);
  }

  /** Quotients in two stages. */
  lemma DivNested(v: int, p: nat, b: nat)
    requires p > 0 && b > 0 && p * b > 0
    ensures v / (p * b) == (v / p) / b
  {
    var q, r := (v / p) / b, Low(v / p, b);
    DivMod(v, p);
    DivMod(v / p, b);
    MulDistributes(q * b, r, p);
    MulAssociative(q, b, p);
    assert b * p == p * b;
    assert v == q * (p * b) + (r * p + Low(v, p));
    MulOrder(r + 1, b, p);
    MulDistributes(r, 1, p);
    DivModUnique(p * b, q, r * p + Low(v, p));
  }

  /** Reading back what was written gives the number modulo the width. */
  lemma {:induction false} FromToDigits(b: nat, v: int, n: nat)
    requires b > 1
    ensures |ToDigits(b, v, n)| == n && AreDigits(b, ToDigits(b, v, n))
    ensures Pow(b, n) > 0 && FromDigits(b, ToDigits(b, v, n)) == Low(v, Pow(b, n))
    decreases n
  {
    if n > 0 {
      FromToDigits(b, v / b, n - 1);
      DivMod(v, b);
      assert ToDigits(b, v, n)[..n - 1] == ToDigits(b, v / b, n - 1);
      ModProduct(v, b, Pow(b, n - 1));
    }
  }

  /** Writing back what was read gives the digits. */
  lemma {:induction false} ToFromDigits(b: nat, s: seq<nat>)
    requires b > 1 && AreDigits(b, s)
    ensures ToDigits(b, FromDigits(b, s), |s|) == s
  {
    if s != [] {
      var n := |s| - 1;
      ToFromDigits(b, s[..n]);
      DivModUnique(b, FromDigits(b, s[..n]), s[n]);
      assert s == s[..n] + [s[n]];
    }
  }

  // ---- Regrouping ------------------------------------------------------------------------

  function Flatten(groups: seq<seq<nat>>): seq<nat> {
    if groups == [] then [] else Flatten(groups[..|groups| - 1]) + groups[|groups| - 1]
  }

  function GroupValues(b: nat, groups: seq<seq<nat>>): (r: seq<nat>)
    ensures |r| == |groups|
    ensures forall i | 0 <= i < |groups| :: r[i] == FromDigits(b, groups[i])
  {
    if groups == [] then [] else
      GroupValues(b, groups[..|groups| - 1]) + [FromDigits(b, groups[|groups| - 1])]
  }

  /** Digits taken in groups of `k` are digits in base `b^k` of the same number. */
  lemma {:induction false} Regroup(b: nat, k: nat, groups: seq<seq<nat>>)
    requires forall i | 0 <= i < |groups| :: |groups[i]| == k
    ensures FromDigits(b, Flatten(groups)) == FromDigits(Pow(b, k), GroupValues(b, groups))
  {
    if groups != [] {
      var n := |groups| - 1;
      Regroup(b, k, groups[..n]);
      FromDigitsConcat(b, Flatten(groups[..n]), groups[n]);
      assert GroupValues(b, groups)[..n] == GroupValues(b, groups[..n]);
    }
  }
}
