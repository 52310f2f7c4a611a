/** What every component shares: results, sums over maps, least elements and the order of strings. */
module Basics {

  datatype Option<+T> = None | Some(value: T)

  datatype Result<+T, +E> = Ok(value: T) | Err(error: E)

  function Max(a: real, b: real): real {
    if a >= b then a else b
  }

  function Min(a: int, b: int): int {
    if a <= b then a else b
  }

  // ----- rounding up ----------------------------------------------------------------------

  /** How many groups of `size` it takes to hold `n`, a partial one counted whole. */
  function CeilDiv(n: nat, size: nat): nat
    requires size > 0
  {
    (n + size - 1) / size
  }

  lemma Scaled(m: int, n: int, size: nat)
    requires m <= n
    ensures m * size <= n * size
  {}

  lemma CeilDivIs(n: nat, size: nat, k: nat)
    requires size > 0
    ensures CeilDiv(n, size) == k <==> (k - 1) * size < n <= k * size
  {
    var q := CeilDiv(n, size);
    assert n + size - 1 == q * size + (n + size - 1) % size;
    if k < q { Scaled(k, q - 1, size); }
    if q < k { Scaled(q, k - 1, size); }
  }

  // ----- whole quotients -------------------------------------------------------------------

  lemma Division(a: nat, b: nat, q: nat)
    requires b > 0 && q == a / b
    ensures q * b <= a < q * b + b
  {
    assert a == (a / b) * b + a % b;
  }

  lemma Quotient(a: nat, b: nat, q: nat)
    requires b > 0 && q * b <= a < q * b + b
    ensures a / b == q
  {
    Division(a, b, a / b);
    var r := a / b;
    if r < q { Steps(r, q, b); }
    if q < r { Steps(q, r, b); }
  }

  lemma Steps(r: nat, q: nat, b: nat)
    requires r < q
    ensures r * b + b <= q * b
  {
    assert (r + 1) * b <= q * b;
  }

  // ----- sums over a map's values ---------------------------------------------------------

  /** Sum of the values; `SumRemove` says the order they are taken in does not matter. */
  ghost function Sum<K(!new)>(m: map<K, int>): int
    decreases |m|
  {
    if m == map[] then 0 else
      var k :| k in m;
      m[k] + Sum(m - {k})
  }

  lemma {:induction false} SumRemove<K(!new)>(m: map<K, int>, k: K)
    requires k in m
    ensures Sum(m) == m[k] + Sum(m - {k})
    decreases |m|
  {
    var j :| j in m && Sum(m) == m[j] + Sum(m - {j});
    if j != k {
      SumRemove(m - {j}, k);
      SumRemove(m - {k}, j);
      assert m - {j} - {k} == m - {k} - {j};
    }
  }

  lemma {:induction false} SumNonNegative<K(!new)>(m: map<K, int>)
    requires forall k :: k in m ==> m[k] >= 0
    ensures Sum(m) >= 0
    ensures forall k :: k in m ==> m[k] <= Sum(m)
    decreases |m|
  {
    forall k | k in m
      ensures 0 <= m[k] <= Sum(m)
    {
      SumRemove(m, k);
      SumNonNegative(m - {k});
    }
    if m != map[] {
      var k :| k in m;
      assert 0 <= m[k] <= Sum(m);
    }
  }

  /** The same sum over reals. */
  ghost function SumReal(m: map<nat, real>): real
    decreases |m|
  {
    if m == map[] then 0.0 else
      var k :| k in m;
      m[k] + SumReal(m - {k})
  }

  lemma {:induction false} SumRealRemove(m: map<nat, real>, k: nat)
    requires k in m
    ensures SumReal(m) == m[k] + SumReal(m - {k})
    decreases |m|
  {
    var j :| j in m && SumReal(m) == m[j] + SumReal(m - {j});
    if j != k {
      SumRealRemove(m - {j}, k);
      SumRealRemove(m - {k}, j);
      assert m - {j} - {k} == m - {k} - {j};
    }
  }

  // ----- the order of strings -------------------------------------------------------------

  /** Strictly before, code point by code point, a proper prefix first. */
  predicate StringLt(a: string, b: string) {
    b != "" && (a == "" || a[0] < b[0] || (a[0] == b[0] && StringLt(a[1..], b[1..])))
  }

  lemma {:induction false} StringLtTotal(a: string, b: string)
    ensures StringLt(a, b) || a == b || StringLt(b, a)
    ensures !(StringLt(a, b) && StringLt(b, a))
    ensures StringLt(a, b) ==> a != b
  {
    if a != "" && b != "" && a[0] == b[0] {
      StringLtTotal(a[1..], b[1..]);
      assert a == [a[0]] + a[1..] && b == [b[0]] + b[1..];
    }
  }

  lemma {:induction false} StringLtTransitive(a: string, b: string, c: string)
    requires StringLt(a, b) && StringLt(b, c)
    ensures StringLt(a, c)
  {
    if a != "" && a[0] == b[0] == c[0] {
      StringLtTransitive(a[1..], b[1..], c[1..]);
    }
  }

  /** Where two strings first differ decides. */
  lemma {:induction false} FirstDifferenceDecides(a: string, b: string, k: nat)
    requires k <= |a| && k <= |b| && (forall i: nat :: i < k ==> a[i] == b[i])
    requires k < |a| && k < |b| ==> a[k] != b[k]
    ensures StringLt(a, b) <==> k < |b| && (k == |a| || a[k] < b[k])
  {
    if k > 0 {
      assert forall i: nat :: i < k - 1 ==> a[1..][i] == a[i + 1] && b[1..][i] == b[i + 1];
      FirstDifferenceDecides(a[1..], b[1..], k - 1);
    }
  }

  // ----- the least of a set ---------------------------------------------------------------

  lemma {:induction false} LeastExists(s: set<nat>) returns (i: nat)
    requires s != {}
    ensures i in s && forall j :: j in s ==> i <= j
    decreases |s|
  {
    i :| i in s;
    var rest := s - {i};
    assert s == rest + {i};
    if rest != {} {
      var least := LeastExists(rest);
      i := if least < i then least else i;
    }
  }

  ghost function Least(s: set<nat>): (i: nat)
    requires s != {}
    ensures i in s && forall j :: j in s ==> i <= j
  {
    assert exists i :: i in s && forall j :: j in s ==> i <= j by {
      var least := LeastExists(s);
    }
    var i :| i in s && forall j :: j in s ==> i <= j;
    i
  }

  lemma BothOrNeither<T>(a: seq<T>, b: seq<T>)
    requires forall x :: x in a <==> x in b
    ensures a == [] <==> b == []
  {
    if a != [] { assert a[0] in a; }
    if b != [] { assert b[0] in b; }
  }
}
