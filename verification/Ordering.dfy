/** Ordering, cutting and bounding selections: `_comparable`, `_ordered`, `_best`, `Bounded` and `pipe`. */
module Ordering {
  import opened Basics
  import opened Selectors
  import Sorting

  // ----- the order ------------------------------------------------------------------------

  /** Comparables are compared figure by figure. */
  predicate FiguresLt(a: seq<real>, b: seq<real>) {
    b != [] && (a == [] || a[0] < b[0] || (a[0] == b[0] && FiguresLt(a[1..], b[1..])))
  }

  lemma {:induction false} FiguresLtTotal(a: seq<real>, b: seq<real>)
    ensures FiguresLt(a, b) || a == b || FiguresLt(b, a)
    ensures !(FiguresLt(a, b) && FiguresLt(b, a)) && (FiguresLt(a, b) ==> a != b)
  {
    if a != [] && b != [] && a[0] == b[0] {
      FiguresLtTotal(a[1..], b[1..]);
      assert a == [a[0]] + a[1..] && b == [b[0]] + b[1..];
    }
  }

  lemma {:induction false} FiguresLtTransitive(a: seq<real>, b: seq<real>, c: seq<real>)
    requires FiguresLt(a, b) && FiguresLt(b, c)
    ensures FiguresLt(a, c)
  {
    if a != [] && a[0] == b[0] == c[0] { FiguresLtTransitive(a[1..], b[1..], c[1..]); }
  }

  function Figures(dims: seq<Reading>): seq<real> {
    if dims == [] then [] else [if dims[0].Figure? then dims[0].value else 0.0] + Figures(dims[1..])
  }

  /** What one source is compared by: its folded dimensions, or the dimensions as they stand. */
  function Rank(s: Selection, id: Id): seq<real> {
    if s.fold.Some? then s.fold.value(DimsOf(s, id)) else Figures(DimsOf(s, id))
  }

  /** An order needs figures: dimensions that hold something else are only ordered by a fold that reads them. */
  ghost predicate Comparable(s: Selection) {
    s.key.Some? && s.fold.None? ==> forall id, r :: id in SourcesOr(s) && r in DimsOf(s, id) ==> r.Figure?
  }

  /** Best first, the id compared last. */
  predicate Lt(s: Selection, a: Id, b: Id) {
    FiguresLt(Rank(s, a), Rank(s, b)) || (Rank(s, a) == Rank(s, b) && StringLt(a, b))
  }

  /** Where two lists of figures first differ decides. */
  lemma {:induction false} FirstFigureDecides(a: seq<real>, b: seq<real>, k: nat)
    requires k <= |a| && k <= |b| && (forall i: nat :: i < k ==> a[i] == b[i])
    requires k < |a| && k < |b| ==> a[k] != b[k]
    ensures FiguresLt(a, b) <==> k < |b| && (k == |a| || a[k] < b[k])
  {
    if k > 0 {
      assert forall i: nat :: i < k - 1 ==> a[1..][i] == a[i + 1] && b[1..][i] == b[i + 1];
      FirstFigureDecides(a[1..], b[1..], k - 1);
    }
  }

  lemma LtTotal(s: Selection, a: Id, b: Id)
    ensures Lt(s, a, b) || a == b || Lt(s, b, a)
    ensures !(Lt(s, a, b) && Lt(s, b, a)) && (Lt(s, a, b) ==> a != b)
  {
    FiguresLtTotal(Rank(s, a), Rank(s, b));
    StringLtTotal(a, b);
  }

  lemma LtTransitive(s: Selection, a: Id, b: Id, c: Id)
    requires Lt(s, a, b) && Lt(s, b, c)
    ensures Lt(s, a, c)
  {
    if FiguresLt(Rank(s, a), Rank(s, b)) && FiguresLt(Rank(s, b), Rank(s, c)) {
      FiguresLtTransitive(Rank(s, a), Rank(s, b), Rank(s, c));
    }
    if StringLt(a, b) && StringLt(b, c) { StringLtTransitive(a, b, c); }
  }

  // ----- the stages -----------------------------------------------------------------------

  function Sort(s: Selection, ids: seq<Id>): (r: seq<Id>)
    ensures |r| == |ids|
  {
    Sorting.Sort((a, b) => Lt(s, a, b), ids)
  }

  /** `min`: the first of the least. */
  function Least(s: Selection, ids: seq<Id>): (id: Id)
    requires ids != []
    ensures id in ids
    decreases |ids|
  {
    if |ids| == 1 then ids[0] else
      var rest := Least(s, ids[..|ids| - 1]);
      var last := ids[|ids| - 1];
      if Lt(s, last, rest) then last else rest
  }

  /** Nothing says what best is: no source named, or none keyed. */
  predicate Unordered(s: Selection) {
    SourcesOr(s) == [] || s.key.None?
  }

  function Ordered(s: Selection): Selection
    requires Comparable(s)
  {
    if Unordered(s) then s else s.(sources := Some(Sort(s, SourcesOr(s))))
  }

  function Best(s: Selection): Answer
    requires Comparable(s)
  {
    if SourcesOr(s) == [] then Ok(s)
    else Only(s, [if s.key.None? then SourcesOr(s)[0] else Least(s, SourcesOr(s))])
  }

  function Inside(s: Selection, bound: Bound, ids: seq<Id>): seq<Id> {
    if ids == [] then [] else (if bound(DimsOf(s, ids[0])) then [ids[0]] else []) + Inside(s, bound, ids[1..])
  }

  /** Cut to the sources inside the bound; everyone's selection is refused, and so is one no stage keyed. */
  function Bounded(s: Selection, bound: Bound): Answer {
    if Abstains(s) then Ok(s)
    else if s.sources.None? then Err(CutsEveryone)
    else if s.key.None? then Err(Unkeyed)
    else Only(s, Inside(s, bound, s.sources.value))
  }

  type Stage = Answer -> Answer

  /** `pipe`: each stage applied in turn, left to right. */
  function Pipe(base: Answer, stages: seq<Stage>): Answer
    decreases |stages|
  {
    if stages == [] then base else Pipe(stages[0](base), stages[1..])
  }

  lemma {:induction false} PipeInTwo(base: Answer, a: seq<Stage>, b: seq<Stage>)
    ensures Pipe(base, a + b) == Pipe(Pipe(base, a), b)
    ensures |a| == 1 ==> Pipe(base, a) == a[0](base)
    decreases |a|
  {
    if a == [] {
      assert a + b == b;
    } else {
      assert (a + b)[1..] == a[1..] + b;
      PipeInTwo(a[0](base), a[1..], b);
    }
  }

  // ----- sorting --------------------------------------------------------------------------

  ghost predicate InOrder(s: Selection, ids: seq<Id>) {
    forall i, j :: 0 <= i < j < |ids| ==> Lt(s, ids[i], ids[j])
  }

  /** Sorting reorders the sources, each before everything worse. */
  lemma SortOrders(s: Selection, ids: seq<Id>)
    requires Once(ids)
    ensures InOrder(s, Sort(s, ids)) && multiset(Sort(s, ids)) == multiset(ids) && |Sort(s, ids)| == |ids|
    ensures forall id :: id in Sort(s, ids) <==> id in ids
  {
    hide Lt, Once;
    var lt, r := (a, b) => Lt(s, a, b), Sort(s, ids);
    LtIsStrict(s);
    Sorting.SortOrders(lt, ids);
    SameMembers(r, ids);
    OnceMoves(ids, r);
    forall i, j | 0 <= i < j < |r|
      ensures Lt(s, r[i], r[j])
    {
      assert !lt(r[j], r[i]);
      OnceApart(r, i, j);
      LtTotal(s, r[i], r[j]);
    }
  }

  lemma LtIsStrict(s: Selection)
    ensures Sorting.Strict((a, b) => Lt(s, a, b))
  {
    hide Lt;
    forall p, q, r
      ensures !Lt(s, q, p) && !Lt(s, r, q) ==> !Lt(s, r, p)
      ensures !(Lt(s, p, q) && Lt(s, q, p))
    {
      LtTotal(s, p, q);
      LtTotal(s, q, r);
      LtTotal(s, p, r);
      if Lt(s, p, q) && Lt(s, q, r) { LtTransitive(s, p, q, r); }
    }
  }

  lemma OnceApart(ids: seq<Id>, i: nat, j: nat)
    requires Once(ids) && i < j < |ids|
    ensures ids[i] != ids[j]
  {}

  lemma OnceMoves(a: seq<Id>, b: seq<Id>)
    requires Once(a) && multiset(a) == multiset(b)
    ensures Once(b)
  {
    forall i, j | 0 <= i < j < |b|
      ensures b[i] != b[j]
    {
      OnceCounts(a, b[i]);
      assert b == b[..i] + [b[i]] + b[i + 1..j] + [b[j]] + b[j + 1..];
    }
  }

  lemma {:induction false} OnceCounts(ids: seq<Id>, id: Id)
    requires Once(ids)
    ensures multiset(ids)[id] <= 1
  {
    if ids != [] {
      assert ids == [ids[0]] + ids[1..];
      OnceCounts(ids[1..], id);
      if id == ids[0] { assert id !in ids[1..]; }
    }
  }

  lemma SameMembers(a: seq<Id>, b: seq<Id>)
    requires multiset(a) == multiset(b)
    ensures |a| == |b| && forall id :: id in a <==> id in b
  {
    assert |a| == |multiset(a)| && |b| == |multiset(b)|;
    assert forall id :: id in a <==> id in multiset(a);
    assert forall id :: id in b <==> id in multiset(b);
  }

  /** One order: two sorted lists of the same sources are the same list. */
  lemma {:induction false} OrderIsUnique(s: Selection, a: seq<Id>, b: seq<Id>)
    requires InOrder(s, a) && InOrder(s, b) && forall id :: id in a <==> id in b
    ensures a == b
    decreases |a|
  {
    hide Lt;
    BothOrNeither(a, b);
    if a != [] {
      FirstIsLeast(s, a, b[0]);
      FirstIsLeast(s, b, a[0]);
      LtTotal(s, a[0], b[0]);
      RestWithout(s, a);
      RestWithout(s, b);
      OrderIsUnique(s, a[1..], b[1..]);
      assert a == [a[0]] + a[1..] && b == [b[0]] + b[1..];
    }
  }

  lemma FirstIsLeast(s: Selection, a: seq<Id>, id: Id)
    requires InOrder(s, a) && id in a
    ensures id == a[0] || Lt(s, a[0], id)
  {}

  lemma RestWithout(s: Selection, a: seq<Id>)
    requires InOrder(s, a) && a != []
    ensures InOrder(s, a[1..]) && forall id :: id in a[1..] <==> id in a && id != a[0]
  {
    hide Lt;
    forall j: nat | 0 < j < |a|
      ensures a[j] != a[0]
    {
      LtTotal(s, a[0], a[j]);
    }
    assert a == [a[0]] + a[1..];
  }

  lemma {:induction false} LeastIsLeast(s: Selection, ids: seq<Id>)
    requires ids != []
    ensures forall id :: id in ids ==> id == Least(s, ids) || Lt(s, Least(s, ids), id)
    decreases |ids|
  {
    hide Lt;
    if |ids| > 1 {
      var init, last := ids[..|ids| - 1], ids[|ids| - 1];
      assert ids == init + [last];
      LeastIsLeast(s, init);
      var rest := Least(s, init);
      LtTotal(s, last, rest);
      if Lt(s, last, rest) {
        forall id | id in init
          ensures id == last || Lt(s, last, id)
        {
          if id != rest { LtTransitive(s, last, rest, id); }
        }
      }
    } else {
      assert forall id :: id in ids ==> id == ids[0];
    }
  }

  // ----- the laws -------------------------------------------------------------------------

  lemma SameOrder(s: Selection, r: Selection, a: Id, b: Id)
    requires r.key == s.key && r.fold == s.fold
    ensures Lt(s, a, b) == Lt(r, a, b)
  {}

  /** The single pass of `Best` finds the head of `Ordered`. */
  lemma BestIsHeadOfOrdered(s: Selection)
    requires Covered(s) && Comparable(s) && SourcesOr(s) != []
    ensures Best(s).Ok? && Best(s).value.sources == Some([Head(Ordered(s)).value])
    ensures Head(Best(s).value) == Head(Ordered(s))
  {
    if s.key.Some? {
      var ids := SourcesOr(s);
      SortOrders(s, ids);
      LeastIsLeast(s, ids);
      FirstIsLeast(s, Sort(s, ids), Least(s, ids));
      LtTotal(s, Least(s, ids), Sort(s, ids)[0]);
      assert Sort(s, ids)[0] in ids;
    }
  }

  /** `best` is compared by less than anyone else, or by no more and its id comes first. */
  ghost predicate Leads(s: Selection, best: Id, other: Id) {
    || FiguresLt(Rank(s, best), Rank(s, other))
    || (Rank(s, best) == Rank(s, other) && (best == other || StringLt(best, other)))
  }

  /** The pick of a keyed selection leads everyone it names. */
  lemma BestLeads(s: Selection) returns (best: Id)
    requires Covered(s) && Comparable(s) && s.key.Some? && SourcesOr(s) != []
    ensures best in SourcesOr(s) && Best(s).Ok? && Best(s).value.sources == Some([best])
    ensures forall other :: other in SourcesOr(s) ==> Leads(s, best, other)
  {
    best := Least(s, SourcesOr(s));
    LeastIsLeast(s, SourcesOr(s));
    BestIs(s);
  }

  /** What nothing keys stands as its producer listed it: ordering leaves it be, and the leader is the pick. */
  lemma UnkeyedStands(s: Selection)
    requires s.key.None?
    ensures Comparable(s) && Ordered(s) == s
    ensures SourcesOr(s) == [] ==> Best(s) == Ok(s)
    ensures SourcesOr(s) != [] ==> Best(s).Ok? && Best(s).value == s.(sources := Some([s.sources.value[0]]))
  {}

  /** A bound cuts whoever is named and keyed, lets nobody through as nobody, and is refused on all else. */
  lemma BoundedErrsIff(s: Selection, bound: Bound)
    ensures Bounded(s, bound) == Err(CutsEveryone) <==> s.sources.None?
    ensures Bounded(s, bound) == Err(Unkeyed) <==> s.sources.Some? && s.sources.value != [] && s.key.None?
    ensures Bounded(s, bound).Err? ==> Bounded(s, bound).error.CutsEveryone? || Bounded(s, bound).error.Unkeyed?
    ensures s.sources == Some([]) ==> Bounded(s, bound) == Ok(s)
  {
    InsideIs(s, bound, SourcesOr(s));
    if s.sources.Some? {
      var kept := Inside(s, bound, s.sources.value);
      assert forall i: nat :: i < |kept| ==> kept[i] in kept;
    }
  }

  /** Whoever is kept of a list in order is ahead of whoever is not. */
  lemma FrontIsBest(s: Selection, all: seq<Id>, k: nat, x: Id, y: Id)
    requires InOrder(s, all) && k <= |all| && x in all[..k] && y in all && y !in all[..k]
    ensures Lt(s, x, y)
  {
    hide Lt;
    assert forall m: nat :: m < k ==> all[..k][m] == all[m];
    var i: nat :| i < |all[..k]| && all[..k][i] == x;
    var j: nat :| j < |all| && all[j] == y;
    assert i < k <= j;
  }

  lemma TakeIs(s: Selection, n: nat)
    requires Covered(s) && s.sources.Some?
    ensures var kept := SourcesOr(s)[..Min(n, |SourcesOr(s)|)];
      Take(s, n) == CutTo(s, kept) && Covered(Take(s, n).value)
      && forall x :: x in kept ==> x in SourcesOr(s) && DimsOf(Take(s, n).value, x) == DimsOf(s, x)
  {
    var all := SourcesOr(s);
    assert all[..|all|] == all;
    assert forall x :: x in all[..Min(n, |all|)] ==> x in all;
  }

  /** The leading sources of an ordered selection are the best ones, and the leading one is `Best`. */
  lemma TakeKeepsTheBest(s: Selection, n: nat)
    requires Covered(s) && Comparable(s) && !Unordered(s)
    ensures Take(Ordered(s), 1) == Best(s)
    ensures var a := Take(Ordered(s), n);
      && a.Ok? && |SourcesOr(a.value)| == Min(n, |SourcesOr(s)|) && Covered(a.value)
      && (forall x :: x in SourcesOr(a.value) ==> x in SourcesOr(s) && DimsOf(a.value, x) == DimsOf(s, x))
      && (forall x, y :: x in SourcesOr(a.value) && y in SourcesOr(s) && y !in SourcesOr(a.value) ==> Lt(s, x, y))
  {
    var all := SourcesOr(Ordered(s));
    SortOrders(s, SourcesOr(s));
    OrderedPermutes(s);
    BestIsHeadOfOrdered(s);
    hide Lt, Sort, Least, Take, InOrder, Once, Comparable, Restricted, DimsOf;
    TakeIs(Ordered(s), n);
    TakeIs(Ordered(s), 1);
    assert all[..1] == [all[0]];
    assert Take(Ordered(s), 1) == Best(s) by { BestIs(s); }
    SameDims(s, Ordered(s));
    forall x, y | x in all[..Min(n, |all|)] && y in all && y !in all[..Min(n, |all|)]
      ensures Lt(s, x, y)
    {
      FrontIsBest(s, all, Min(n, |all|), x, y);
    }
  }

  lemma BestIs(s: Selection)
    requires Comparable(s) && !Unordered(s)
    ensures Best(s).Ok? && Best(s) == CutTo(s, [Least(s, SourcesOr(s))])
  {}

  lemma SameDims(s: Selection, r: Selection)
    requires r.key == s.key
    ensures forall id :: DimsOf(r, id) == DimsOf(s, id)
  {}

  /** The same keyed sources, listed in another order. */
  ghost predicate Reordered(s: Selection, r: Selection) {
    && s.key.Some? && s.sources.Some? && r.sources.Some?
    && r == s.(sources := r.sources) && multiset(s.sources.value) == multiset(r.sources.value)
  }

  /** Ordering permutes the sources and changes nothing else. */
  lemma OrderedPermutes(s: Selection)
    requires Covered(s) && Comparable(s)
    ensures multiset(SourcesOr(Ordered(s))) == multiset(SourcesOr(s)) && Ordered(s) == s.(sources := Ordered(s).sources)
    ensures forall id :: id in SourcesOr(Ordered(s)) <==> id in SourcesOr(s)
    ensures Covered(Ordered(s)) && Comparable(Ordered(s))
    ensures !Unordered(s) ==> InOrder(s, SourcesOr(Ordered(s)))
  {
    hide Lt, Sort, InOrder, Once, Comparable;
    SortOrders(s, SourcesOr(s));
    InOrderOnce(s, Sort(s, SourcesOr(s)));
    SameReadings(s, Ordered(s));
  }

  lemma SameReadings(s: Selection, r: Selection)
    requires Comparable(s) && r.key == s.key && r.fold == s.fold
    requires forall id :: id in SourcesOr(r) ==> id in SourcesOr(s)
    ensures Comparable(r)
  {}

  /** Ordering what is ordered does nothing. */
  lemma OrderedTwice(s: Selection)
    requires Covered(s) && Comparable(s)
    ensures Covered(Ordered(s)) && Comparable(Ordered(s)) && Ordered(Ordered(s)) == Ordered(s)
  {
    hide Lt, Sort, InOrder;
    OrderedPermutes(s);
    var o := Ordered(s);
    OrderedPermutes(o);
    if !Unordered(s) {
      InOrderMoves(o, s, SourcesOr(Ordered(o)));
      OrderIsUnique(s, SourcesOr(Ordered(o)), SourcesOr(o));
    }
  }

  /** The producer's own listing has no say in the order. */
  lemma OrderedIgnoresListing(s: Selection, r: Selection)
    requires Covered(s) && Comparable(s) && Covered(r) && Comparable(r) && Reordered(s, r)
    ensures Ordered(s) == Ordered(r)
  {
    hide Lt, Sort, InOrder;
    OrderedPermutes(s);
    OrderedPermutes(r);
    SameMembers(SourcesOr(s), SourcesOr(r));
    BothOrNeither(SourcesOr(s), SourcesOr(r));
    if !Unordered(s) {
      InOrderMoves(r, s, SourcesOr(Ordered(r)));
      OrderIsUnique(s, SourcesOr(Ordered(s)), SourcesOr(Ordered(r)));
    }
  }

  lemma InOrderMoves(s: Selection, r: Selection, ids: seq<Id>)
    requires InOrder(s, ids) && r.key == s.key && r.fold == s.fold
    ensures InOrder(r, ids)
  {
    forall i, j | 0 <= i < j < |ids|
      ensures Lt(r, ids[i], ids[j])
    {
      SameOrder(s, r, ids[i], ids[j]);
    }
  }

  lemma InOrderOnce(s: Selection, ids: seq<Id>)
    requires InOrder(s, ids)
    ensures Once(ids)
  {
    forall i, j | 0 <= i < j < |ids|
      ensures ids[i] != ids[j]
    {
      LtTotal(s, ids[i], ids[j]);
    }
  }

  // ----- where a bound sits ---------------------------------------------------------------

  lemma {:induction false} InsideIs(s: Selection, bound: Bound, ids: seq<Id>)
    ensures forall id :: id in Inside(s, bound, ids) <==> id in ids && bound(DimsOf(s, id))
    ensures Once(ids) ==> Once(Inside(s, bound, ids))
    ensures InOrder(s, ids) ==> InOrder(s, Inside(s, bound, ids))
  {
    hide Lt;
    if ids != [] {
      var rest := ids[1..];
      assert ids == [ids[0]] + rest;
      InsideIs(s, bound, rest);
      var inside := Inside(s, bound, rest);
      if Once(ids) { OnceCons(ids, inside); }
      if InOrder(s, ids) { InOrderCons(s, ids, inside); }
    }
  }

  lemma OnceCons(ids: seq<Id>, part: seq<Id>)
    requires Once(ids) && ids != [] && forall id :: id in part ==> id in ids[1..]
    ensures Once(ids[1..]) && (Once(part) ==> Once([ids[0]] + part))
  {
    assert forall i: nat :: i < |part| ==> part[i] in part;
    assert forall i: nat :: 0 < i < |ids| ==> ids[i] != ids[0];
  }

  lemma InOrderCons(s: Selection, ids: seq<Id>, part: seq<Id>)
    requires InOrder(s, ids) && ids != [] && forall id :: id in part ==> id in ids[1..]
    ensures InOrder(s, ids[1..]) && (InOrder(s, part) ==> InOrder(s, [ids[0]] + part))
  {
    hide Lt;
    forall id | id in part
      ensures Lt(s, ids[0], id)
    {
      var i: nat :| i < |ids[1..]| && ids[1..][i] == id;
      assert ids[i + 1] == id;
    }
  }

  /** Bounding keeps order, keys and gate, and exactly the sources inside. */
  lemma BoundedIs(s: Selection, bound: Bound)
    requires Covered(s) && s.sources.Some? && s.key.Some?
    ensures Bounded(s, bound) == Ok(s.(sources := Some(Inside(s, bound, s.sources.value)),
                                       key := if Abstains(s) then s.key
                                           else Restricted(s.key, Inside(s, bound, s.sources.value))))
    ensures Covered(Bounded(s, bound).value)
    ensures forall id :: id in SourcesOr(Bounded(s, bound).value) ==>
      DimsOf(Bounded(s, bound).value, id) == DimsOf(s, id)
  {
    InsideIs(s, bound, s.sources.value);
  }

  /** Best of the bounded, and the bounded best: the two places a bound can sit. */
  ghost function BoundBelow(s: Selection, bound: Bound): Answer
    requires Covered(s) && Comparable(s) && s.sources.Some? && s.key.Some?
  {
    BoundedIs(s, bound);
    Best(Bounded(s, bound).value)
  }

  ghost function BoundAbove(s: Selection, bound: Bound): Answer
    requires Covered(s) && Comparable(s) && s.sources.Some? && s.key.Some?
  {
    if SourcesOr(s) == [] then Bounded(Best(s).value, bound) else
      BestIsHeadOfOrdered(s);
      Bounded(Best(s).value, bound)
  }

  /** A selection cut to one of its sources, or to none. */
  function CutTo(s: Selection, kept: seq<Id>): Answer {
    Ok(s.(sources := Some(kept), key := Restricted(s.key, kept)))
  }

  lemma AboveIs(s: Selection, bound: Bound)
    requires Covered(s) && Comparable(s) && s.sources.Some? && s.key.Some? && SourcesOr(s) != []
    ensures var best := Least(s, SourcesOr(s));
      BoundAbove(s, bound) == CutTo(s, if bound(DimsOf(s, best)) then [best] else [])
  {
    hide Lt, Least;
    var best := Least(s, SourcesOr(s));
    var cut := Best(s).value;
    assert cut.sources == Some([best]) && DimsOf(cut, best) == DimsOf(s, best);
    var inside := Inside(cut, bound, [best]);
    InsideOne(cut, bound, best);
    RestrictTwice(s.key, [best], inside);
  }

  lemma InsideOne(s: Selection, bound: Bound, id: Id)
    ensures Inside(s, bound, [id]) == if bound(DimsOf(s, id)) then [id] else []
  {
    assert Inside(s, bound, [id][1..]) == [];
  }

  lemma RestrictTwice(key: Option<map<Id, seq<Reading>>>, a: seq<Id>, b: seq<Id>)
    requires forall id :: id in b ==> id in a
    ensures Restricted(Restricted(key, a), b) == Restricted(key, b)
  {
    if key.Some? { assert Restricted(Restricted(key, a), b).value == Restricted(key, b).value; }
  }

  lemma BelowIs(s: Selection, bound: Bound)
    requires Covered(s) && Comparable(s) && s.sources.Some? && s.key.Some? && SourcesOr(s) != []
    ensures var inside := Inside(s, bound, SourcesOr(s));
      BoundBelow(s, bound) == CutTo(s, if inside == [] then [] else [Least(s, inside)])
  {
    hide Lt, Least, Inside;
    var inside := Inside(s, bound, SourcesOr(s));
    BoundedIs(s, bound);
    var r := Bounded(s, bound).value;
    if inside != [] {
      LeastOfCut(s, r, inside);
      RestrictTwice(s.key, inside, [Least(s, inside)]);
    }
  }

  /** Restricting the key to who is kept does not change who is least. */
  lemma LeastOfCut(s: Selection, r: Selection, ids: seq<Id>)
    requires ids != [] && r.fold == s.fold && forall id :: id in ids ==> DimsOf(r, id) == DimsOf(s, id)
    ensures Least(s, ids) == Least(r, ids)
  {
    LeastIsLeast(s, ids);
    LeastIsLeast(r, ids);
    var a, b := Least(s, ids), Least(r, ids);
    assert Lt(s, a, b) == Lt(r, a, b) && Lt(s, b, a) == Lt(r, b, a);
    LtTotal(s, a, b);
    LtTotal(s, b, a);
  }

  /** On one selection the bound may sit on either side exactly when the best source is inside or none is. */
  lemma BoundCommutesIff(s: Selection, bound: Bound)
    requires Covered(s) && Comparable(s) && s.sources.Some? && s.key.Some? && SourcesOr(s) != []
    ensures BoundBelow(s, bound) == BoundAbove(s, bound)
      <==> bound(DimsOf(s, Least(s, SourcesOr(s)))) || forall id :: id in SourcesOr(s) ==> !bound(DimsOf(s, id))
  {
    var ids := SourcesOr(s);
    var inside, best := Inside(s, bound, ids), Least(s, ids);
    AboveIs(s, bound);
    BelowIs(s, bound);
    InsideIs(s, bound, ids);
    if bound(DimsOf(s, best)) {
      LeastIsLeast(s, ids);
      LeastIsLeast(s, inside);
      LtTotal(s, best, Least(s, inside));
    } else if inside != [] {
      assert inside[0] in inside;
      assert [Least(s, inside)] != [];
    }
  }

  /** The dimensions a ranking's sources are keyed at: how many, and which of them are figures. */
  type Arity = seq<Reading> -> bool

  ghost predicate At(s: Selection, arity: Arity) {
    forall id :: id in SourcesOr(s) ==> arity(DimsOf(s, id))
  }

  /** Whatever is no worse than something inside the bound is inside it. */
  ghost predicate DownwardClosed(fold: Fold, bound: Bound, arity: Arity) {
    forall d: seq<Reading>, e: seq<Reading> ::
      arity(d) && arity(e) && bound(e) && !FiguresLt(fold(e), fold(d)) ==> bound(d)
  }

  /** How a selection's dimensions are read: by its fold, or as they stand. */
  function Reads(s: Selection): Fold {
    if s.fold.Some? then s.fold.value else dims => Figures(dims)
  }

  ghost predicate Commutes(s: Selection, bound: Bound) {
    Covered(s) && Comparable(s) && s.sources.Some? && s.key.Some? ==> BoundBelow(s, bound) == BoundAbove(s, bound)
  }

  lemma ClosedCommutes(s: Selection, bound: Bound, arity: Arity)
    requires DownwardClosed(Reads(s), bound, arity) && At(s, arity)
    ensures Commutes(s, bound)
  {
    if Covered(s) && Comparable(s) && s.sources.Some? && s.key.Some? && SourcesOr(s) != [] {
      var best := Least(s, SourcesOr(s));
      forall id | id in SourcesOr(s) && bound(DimsOf(s, id))
        ensures bound(DimsOf(s, best))
      {
        LeastIsLeast(s, SourcesOr(s));
        LtTotal(s, best, id);
        FiguresLtTotal(Rank(s, best), Rank(s, id));
        assert Rank(s, id) == Reads(s)(DimsOf(s, id)) && Rank(s, best) == Reads(s)(DimsOf(s, best));
      }
      BoundCommutesIff(s, bound);
    }
  }

  /** Two sources that tell the places apart when the bound is not closed. */
  function Witness(fold: Fold, d: seq<Reading>, e: seq<Reading>): Selection {
    Selection(Some(["a", "b"]), Some(map["a" := d, "b" := e]), None, Some(fold))
  }

  lemma OpenDiffers(fold: Fold, bound: Bound, d: seq<Reading>, e: seq<Reading>)
    requires bound(e) && !bound(d) && !FiguresLt(fold(e), fold(d))
    ensures !Commutes(Witness(fold, d, e), bound)
  {
    var s := Witness(fold, d, e);
    assert SourcesOr(s)[1] == "b" && "b" in SourcesOr(s);
    assert DimsOf(s, "a") == d && DimsOf(s, "b") == e;
    LeastIsLeast(s, SourcesOr(s));
    BoundCommutesIff(s, bound);
    FiguresLtTotal(fold(d), fold(e));
    assert Lt(s, "a", "b");
    LtTotal(s, "a", "b");
  }

  /** A bound may be moved past the cut on every selection exactly when it is downward-closed in the fold. */
  lemma BoundCommutesIffClosed(fold: Fold, bound: Bound, arity: Arity)
    ensures (forall s: Selection :: s.fold == Some(fold) && At(s, arity) ==> Commutes(s, bound))
      <==> DownwardClosed(fold, bound, arity)
  {
    if DownwardClosed(fold, bound, arity) {
      forall s: Selection | s.fold == Some(fold) && At(s, arity)
        ensures Commutes(s, bound)
      {
        ClosedCommutes(s, bound, arity);
      }
    } else {
      var d: seq<Reading>, e: seq<Reading> :|
        arity(d) && arity(e) && bound(e) && !FiguresLt(fold(e), fold(d)) && !bound(d);
      OpenDiffers(fold, bound, d, e);
      var s := Witness(fold, d, e);
      assert s.fold == Some(fold) && DimsOf(s, "a") == d && DimsOf(s, "b") == e;
    }
  }

  /** Bounding an ordered selection is ordering the bounded one, whatever the bound. */
  lemma BoundedOrdered(s: Selection, bound: Bound)
    requires Covered(s) && Comparable(s) && s.sources.Some? && s.key.Some?
    ensures Covered(Ordered(s)) && Bounded(s, bound).Ok? && Comparable(Bounded(s, bound).value)
    ensures Bounded(Ordered(s), bound) == Ok(Ordered(Bounded(s, bound).value))
  {
    hide Lt, Inside, Sort, InOrder;
    BoundedIs(s, bound);
    OrderedPermutes(s);
    BothOrNeither(SourcesOr(s), SourcesOr(Ordered(s)));
    if SourcesOr(s) != [] {
      var o, r := Ordered(s), Bounded(s, bound).value;
      BoundedIs(o, bound);
      OrderedPermutes(r);
      InsideMoves(s, o, bound, SourcesOr(o));
      InsideIs(s, bound, SourcesOr(o));
      InsideIs(s, bound, SourcesOr(s));
      BothOrNeither(SourcesOr(r), Inside(s, bound, SourcesOr(o)));
      if SourcesOr(r) != [] {
        SameRanks(r, s, SourcesOr(Ordered(r)));
        OrderIsUnique(s, Inside(s, bound, SourcesOr(o)), SourcesOr(Ordered(r)));
        RestrictSame(s.key, SourcesOr(r), SourcesOr(Ordered(r)));
      }
    }
  }

  lemma RestrictSame(key: Option<map<Id, seq<Reading>>>, a: seq<Id>, b: seq<Id>)
    requires forall id :: id in a <==> id in b
    ensures Restricted(key, a) == Restricted(key, b)
  {
    if key.Some? { assert Restricted(key, a).value == Restricted(key, b).value; }
  }

  lemma {:induction false} InsideMoves(s: Selection, r: Selection, bound: Bound, ids: seq<Id>)
    requires r.key == s.key
    ensures Inside(s, bound, ids) == Inside(r, bound, ids)
  {
    if ids != [] { InsideMoves(s, r, bound, ids[1..]); }
  }

  lemma SameRanks(s: Selection, r: Selection, ids: seq<Id>)
    requires InOrder(s, ids) && r.fold == s.fold && forall id :: id in ids ==> DimsOf(r, id) == DimsOf(s, id)
    ensures InOrder(r, ids)
  {}

  // ----- whole chains ---------------------------------------------------------------------

  /** What a chain may do to a selection. */
  datatype Op =
    | Annotating(readings: Id -> Reading)
    | Folding(fold: Fold)
    | Sorting
    | CuttingToBest
    | Bounding(bound: Bound)
    | Requiring(ok: Id -> bool)
    | Taking(n: nat)

  /** Only an order asks anything of the dimensions. */
  ghost predicate Askable(s: Selection, op: Op) {
    op.Sorting? || op.CuttingToBest? ==> Comparable(s)
  }

  ghost function After(s: Selection, op: Op): Answer
    requires Askable(s, op)
  {
    match op
    case Annotating(readings) => Ok(Annotated(s, readings))
    case Folding(fold) => Ok(s.(fold := Some(fold)))
    case Sorting => Ok(Ordered(s))
    case CuttingToBest => Best(s)
    case Bounding(bound) => Bounded(s, bound)
    case Requiring(ok) => Require(s, ok)
    case Taking(n) => Take(s, n)
  }

  ghost predicate AllAskable(s: Selection, ops: seq<Op>)
    decreases |ops|
  {
    ops == [] || (Askable(s, ops[0]) && (After(s, ops[0]).Ok? ==> AllAskable(After(s, ops[0]).value, ops[1..])))
  }

  ghost function Outcome(s: Selection, ops: seq<Op>): Answer
    requires AllAskable(s, ops)
    decreases |ops|
  {
    if ops == [] then Ok(s) else
      var next := After(s, ops[0]);
      if next.Err? then next else Outcome(next.value, ops[1..])
  }

  function Annotations(ops: seq<Op>): nat {
    if ops == [] then 0 else (if ops[0].Annotating? then 1 else 0) + Annotations(ops[1..])
  }

  /** `r` names nobody `s` did not, and each is keyed by what it was, `more` readings appended. */
  ghost predicate Narrows(s: Selection, r: Selection, more: nat) {
    && Covered(r)
    && forall id :: id in SourcesOr(r) ==>
         id in SourcesOr(s) && DimsOf(s, id) <= DimsOf(r, id) && |DimsOf(r, id)| == |DimsOf(s, id)| + more
  }

  lemma CutNarrows(s: Selection, kept: seq<Id>)
    requires Covered(s) && Once(kept) && Only(s, kept).Ok?
    ensures Narrows(s, Only(s, kept).value, 0)
  {
    OnlyCuts(s, kept);
  }

  lemma AnnotatingNarrows(s: Selection, readings: Id -> Reading)
    requires Covered(s)
    ensures Narrows(s, Annotated(s, readings), 1)
  {
    forall id | id in SourcesOr(s)
      ensures DimsOf(Annotated(s, readings), id) == DimsOf(s, id) + [readings(id)]
    {
      AnnotatedCovers(s, readings, id);
    }
  }

  lemma SortingNarrows(s: Selection)
    requires Covered(s) && Comparable(s)
    ensures Narrows(s, Ordered(s), 0)
  {
    hide Sort, Comparable, InOrder;
    OrderedPermutes(s);
    SameDims(s, Ordered(s));
  }

  /** Every step only cuts, reorders or appends. */
  lemma StepNarrows(s: Selection, op: Op)
    requires Covered(s) && Askable(s, op) && After(s, op).Ok?
    ensures Narrows(s, After(s, op).value, if op.Annotating? then 1 else 0)
  {
    hide Only, Annotated, Ordered, Least, Inside;
    var all := SourcesOr(s);
    match op
    case Annotating(readings) => AnnotatingNarrows(s, readings);
    case Folding(_) => {}
    case Sorting => SortingNarrows(s);
    case CuttingToBest => if all != [] { CutNarrows(s, [if s.key.None? then all[0] else Least(s, all)]); }
    case Bounding(bound) =>
      if s.sources.Some? && s.key.Some? {
        InsideIs(s, bound, all);
        if all != [] { CutNarrows(s, Inside(s, bound, all)); }
      }
    case Requiring(ok) => RequireKeepsOrAbstains(s, ok);
    case Taking(n) => CutNarrows(s, if n <= |all| then all[..n] else all);
  }

  /**
   Whatever stages a chain strings together: it names each source once and none its producer did not,
   keys exactly those it names, and only annotating changes what orders one: the readings a source
   came with still lead its key, followed by one for each annotation.
   */
  lemma {:induction false} EveryChainNarrows(s: Selection, ops: seq<Op>)
    requires Covered(s) && AllAskable(s, ops) && Outcome(s, ops).Ok?
    ensures Narrows(s, Outcome(s, ops).value, Annotations(ops))
    decreases |ops|
  {
    hide Covered, After;
    if ops != [] {
      StepNarrows(s, ops[0]);
      EveryChainNarrows(After(s, ops[0]).value, ops[1..]);
    }
  }
}
