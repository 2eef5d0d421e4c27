/** Small shared vocabulary: optional values, powers of two and unique sequences. */
module Prelude {

  datatype Option<+T> = None | Some(value: T)

  function Pow2(n: nat): (r: nat)
    ensures r > 0
  {
    if n == 0 then 1 else 2 * Pow2(n - 1)
  }

  lemma {:induction false} Pow2Split(a: nat, b: nat)
    ensures Pow2(a + b) == Pow2(a) * Pow2(b)
  {
    if a == 0 {
    } else {
      Pow2Split(a - 1, b);
      assert Pow2(a + b) == 2 * Pow2((a - 1) + b);
    }
  }

  lemma {:induction false} Pow2Strict(a: nat, b: nat)
    requires a < b
    ensures Pow2(a) < Pow2(b)
    decreases b
  {
    if a + 1 < b {
      Pow2Strict(a, b - 1);
    }
  }

  /** An index below a * b falls, after division by a, below b. */
  lemma QuotientBound(x: nat, a: nat, b: nat)
    requires a > 0 && x < a * b
    ensures x / a < b
  {
    if x / a >= b {
      MulMono(a, b, x / a);
    }
  }

  lemma MulMono(k: nat, x: nat, y: nat)
    requires x <= y
    ensures k * x <= k * y
  {
    assert k * y == k * x + k * (y - x);
  }

  predicate Distinct<T(==)>(s: seq<T>) {
    forall i, j :: 0 <= i < j < |s| ==> s[i] != s[j]
  }

  /** The first place of a member. */
  function IndexOf<T(==)>(q: seq<T>, x: T): (k: nat)
    requires x in q
    ensures k < |q| && q[k] == x && x !in q[..k]
  {
    if q[0] == x then 0 else 1 + IndexOf(q[1..], x)
  }

  /** A list without an entry; a list that does not hold it is left alone. */
  function Without<T(==)>(q: seq<T>, x: T): (r: seq<T>)
    ensures forall y :: y in r ==> y in q
    ensures forall y :: y in q && y != x ==> y in r
    ensures Distinct(q) ==> x !in r && Distinct(r)
  {
    if x !in q then q
    else
      var k := IndexOf(q, x);
      WithoutFacts(q, x, k);
      q[..k] + q[k + 1..]
  }

  lemma WithoutFacts<T>(q: seq<T>, x: T, k: nat)
    requires k < |q| && q[k] == x
    ensures var r := q[..k] + q[k + 1..];
      && (forall y :: y in r ==> y in q)
      && (forall y :: y in q && y != x ==> y in r)
      && (Distinct(q) ==> x !in r && Distinct(r))
  {
    var r := q[..k] + q[k + 1..];
    forall y | y in q && y != x ensures y in r {
      var m :| 0 <= m < |q| && q[m] == y;
      if m < k { assert r[m] == y; } else { assert r[m - 1] == y; }
    }
  }
}
