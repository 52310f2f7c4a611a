/** Inserting into and sorting by a strict order: queues in the order they pop, stable sorts. */
module Sorting {

  /** Into a sorted list, after its equals. */
  function Insert<T>(lt: (T, T) -> bool, sorted: seq<T>, x: T): (r: seq<T>)
    ensures |r| == |sorted| + 1
    decreases |sorted|
  {
    if sorted == [] || lt(x, sorted[0]) then [x] + sorted else [sorted[0]] + Insert(lt, sorted[1..], x)
  }

  /** The stable sort. */
  function Sort<T>(lt: (T, T) -> bool, xs: seq<T>): (r: seq<T>)
    ensures |r| == |xs|
    decreases |xs|
  {
    if xs == [] then [] else Insert(lt, Sort(lt, xs[..|xs| - 1]), xs[|xs| - 1])
  }

  /** Where what is inserted lands. */
  lemma {:induction false} InsertIs<T>(lt: (T, T) -> bool, sorted: seq<T>, x: T) returns (k: nat)
    ensures k <= |sorted| && Insert(lt, sorted, x) == sorted[..k] + [x] + sorted[k..]
    ensures forall i: nat :: i < k ==> !lt(x, sorted[i])
    ensures k < |sorted| ==> lt(x, sorted[k])
    decreases |sorted|
  {
    if sorted == [] || lt(x, sorted[0]) {
      k := 0;
    } else {
      k := InsertIs(lt, sorted[1..], x);
      k := k + 1;
      assert sorted[..k] == [sorted[0]] + sorted[1..][..k - 1];
    }
  }

  /** Nothing comes before what stands ahead of it. */
  ghost predicate Ordered<T>(lt: (T, T) -> bool, xs: seq<T>) {
    forall i, j :: 0 <= i < j < |xs| ==> !lt(xs[j], xs[i])
  }

  /** An order up to ties. */
  ghost predicate Strict<T(!new)>(lt: (T, T) -> bool) {
    && (forall p, q :: !(lt(p, q) && lt(q, p)))
    && (forall p, q, r :: !lt(q, p) && !lt(r, q) ==> !lt(r, p))
  }

  /** Whatever stands at or behind something worse is no better. */
  lemma StandsBehind<T(!new)>(lt: (T, T) -> bool, sorted: seq<T>, x: T, k: nat, m: nat)
    requires Strict(lt) && Ordered(lt, sorted) && k <= m < |sorted| && lt(x, sorted[k])
    ensures !lt(sorted[m], x)
  {
    assert !lt(sorted[k], x);
    assert m > k ==> !lt(sorted[m], sorted[k]);
  }

  lemma InsertOrders<T(!new)>(lt: (T, T) -> bool, sorted: seq<T>, x: T)
    requires Strict(lt) && Ordered(lt, sorted)
    ensures Ordered(lt, Insert(lt, sorted, x))
  {
    hide Strict, Insert;
    var k := InsertIs(lt, sorted, x);
    var r := Insert(lt, sorted, x);
    forall i: nat, j: nat | i < j < |r|
      ensures !lt(r[j], r[i])
    {
      if i == k {
        StandsBehind(lt, sorted, x, k, j - 1);
        assert r[j] == sorted[j - 1] && r[i] == x;
      } else {
        assert r[i] == sorted[if i < k then i else i - 1];
        assert r[j] == if j == k then x else sorted[if j < k then j else j - 1];
      }
    }
  }

  lemma {:induction false} InsertAdds<T>(lt: (T, T) -> bool, sorted: seq<T>, x: T)
    ensures multiset(Insert(lt, sorted, x)) == multiset(sorted) + multiset{x}
    decreases |sorted|
  {
    if sorted != [] {
      assert sorted == [sorted[0]] + sorted[1..];
      InsertAdds(lt, sorted[1..], x);
    }
  }

  /** Sorting reorders the list so that nothing comes before what stands ahead of it. */
  lemma {:induction false} SortOrders<T(!new)>(lt: (T, T) -> bool, xs: seq<T>)
    requires Strict(lt)
    ensures Ordered(lt, Sort(lt, xs)) && multiset(Sort(lt, xs)) == multiset(xs)
    decreases |xs|
  {
    if xs != [] {
      var last := |xs| - 1;
      assert xs == xs[..last] + [xs[last]];
      SortOrders(lt, xs[..last]);
      hide Ordered, Strict;
      InsertOrders(lt, Sort(lt, xs[..last]), xs[last]);
      InsertAdds(lt, Sort(lt, xs[..last]), xs[last]);
    }
  }
}
