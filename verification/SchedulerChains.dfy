/** The folds and bounds of `kvcache_sim/control/scheduler.py` and `_selector.py`, and where each chain bounds. */
module SchedulerChains {
  import opened Basics
  import opened Selectors
  import opened Ordering

  // ----- the three chains -----------------------------------------------------------------

  predicate PlanOnly(dims: seq<Reading>) {
    |dims| == 1 && dims[0].Held?
  }

  predicate PlanAndQueue(dims: seq<Reading>) {
    |dims| == 2 && dims[0].Held? && dims[1].Figure?
  }

  predicate BatchOnly(dims: seq<Reading>) {
    |dims| == 1 && dims[0].Figure?
  }

  function TtftOf(dims: seq<Reading>): real {
    if dims != [] && dims[0].Held? then dims[0].plan.ttft else 0.0
  }

  function ByTtft(dims: seq<Reading>): seq<real> {
    [TtftOf(dims)]
  }

  function ByQueue(dims: seq<Reading>): seq<real> {
    [if |dims| > 1 && dims[1].Figure? then dims[1].value else 0.0]
  }

  /** What a decision must meet; without one set, anything does. */
  datatype Limit = Unlimited | AtMost(most: real)

  predicate Within(x: real, limit: Limit) {
    limit.Unlimited? || x <= limit.most
  }

  function TtftAtMost(slo: Limit): Bound {
    dims => Within(TtftOf(dims), slo)
  }

  /** The gap a request joining a batch sees; none where no decode is modelled. */
  function PredTbt(batch: real, stepTime: real -> real, enabled: bool): real {
    if enabled then stepTime(batch + 1.0) else 0.0
  }

  function BatchOf(dims: seq<Reading>): real {
    if dims != [] && dims[0].Figure? then dims[0].value else 0.0
  }

  function TbtAtMost(slo: Limit, stepTime: real -> real, enabled: bool): Bound {
    (dims: seq<Reading>) => Within(PredTbt(BatchOf(dims), stepTime, enabled), slo)
  }

  /** A step takes no less time in a bigger batch. */
  ghost predicate Rising(stepTime: real -> real) {
    forall a: real, b: real :: a <= b ==> stepTime(a) <= stepTime(b)
  }

  /** Cache-aware prefill orders by what it bounds, so bounding first judges the pick. */
  lemma CacheAwareBoundCommutes(s: Selection, slo: Limit)
    requires s.fold == Some(ByTtft) && At(s, PlanOnly)
    ensures Commutes(s, TtftAtMost(slo))
  {
    ClosedCommutes(s, TtftAtMost(slo), PlanOnly);
  }

  /** So does decode, whose gap rises with the batch it orders by. */
  lemma DecodeBoundCommutes(s: Selection, slo: Limit, stepTime: real -> real, enabled: bool)
    requires s.fold == None && At(s, BatchOnly) && Rising(stepTime)
    ensures Commutes(s, TbtAtMost(slo, stepTime, enabled))
  {
    var bound := TbtAtMost(slo, stepTime, enabled);
    forall d: seq<Reading>, e: seq<Reading> |
      BatchOnly(d) && BatchOnly(e) && bound(e) && !FiguresLt(Reads(s)(e), Reads(s)(d))
      ensures bound(d)
    {
      assert Figures(d) == [d[0].value] && Figures(e) == [e[0].value];
      assert d[0].value + 1.0 <= e[0].value + 1.0;
    }
    ClosedCommutes(s, bound, BatchOnly);
  }

  /**
   The baseline orders by the queue alone, so it must judge the pick: bounding first would answer
   otherwise somewhere, whatever the limit, unless there is none.
   */
  lemma BaselineBoundCommutesIff(slo: Limit)
    ensures (forall s: Selection :: s.fold == Some(ByQueue) && At(s, PlanAndQueue) ==> Commutes(s, TtftAtMost(slo)))
      <==> slo.Unlimited?
  {
    BoundCommutesIffClosed(ByQueue, TtftAtMost(slo), PlanAndQueue);
    QueueClosedIff(slo);
    hide *;
  }

  /** A plan just inside the limit behind a longer queue, and one just outside it behind none. */
  lemma QueueClosedIff(slo: Limit)
    ensures DownwardClosed(ByQueue, TtftAtMost(slo), PlanAndQueue) <==> slo.Unlimited?
  {
    if slo.AtMost? {
      var late, soon := [Held(Plan(slo.most + 1.0)), Figure(0.0)], [Held(Plan(slo.most)), Figure(1.0)];
      assert PlanAndQueue(late) && PlanAndQueue(soon) && TtftAtMost(slo)(soon) && !TtftAtMost(slo)(late);
      OneFigure(1.0, 0.0);
      assert !FiguresLt(ByQueue(soon), ByQueue(late));
    }
  }

  /** A plan that takes longer than the limit allows. */
  predicate TooLate(dims: seq<Reading>, slo: Limit) {
    |dims| == 1 && dims[0].Held? && slo.AtMost? && dims[0].plan.ttft > slo.most
  }

  /** Cache-aware admission refuses exactly when the cheapest plan is over the limit, or the pool is empty. */
  lemma CacheAwareRefusesIff(s: Selection, slo: Limit)
    requires Covered(s) && s.sources.Some? && s.key.Some? && s.fold == Some(ByTtft) && At(s, PlanOnly)
    ensures BoundBelow(s, TtftAtMost(slo)).Ok?
    ensures Abstains(BoundBelow(s, TtftAtMost(slo)).value)
      <==> forall id :: id in SourcesOr(s) ==> TooLate(DimsOf(s, id), slo)
  {
    BoundedAwayIff(s, TtftAtMost(slo));
  }

  /** A batch in which one more request would wait longer for a token than the limit allows. */
  predicate TooSlow(dims: seq<Reading>, slo: Limit, stepTime: real -> real, enabled: bool) {
    && |dims| == 1 && dims[0].Figure? && slo.AtMost?
    && (if enabled then stepTime(dims[0].value + 1.0) else 0.0) > slo.most
  }

  /** Decode admission refuses exactly when every batch is that slow, or the pool is empty. */
  lemma DecodeRefusesIff(s: Selection, slo: Limit, stepTime: real -> real, enabled: bool)
    requires Covered(s) && s.sources.Some? && s.key.Some? && s.fold == None && At(s, BatchOnly)
    ensures Comparable(s) && BoundBelow(s, TbtAtMost(slo, stepTime, enabled)).Ok?
    ensures Abstains(BoundBelow(s, TbtAtMost(slo, stepTime, enabled)).value)
      <==> forall id :: id in SourcesOr(s) ==> TooSlow(DimsOf(s, id), slo, stepTime, enabled)
  {
    hide TooSlow, TbtAtMost, BoundBelow, Covered, Once, BatchOnly, Comparable;
    BatchesCompare(s);
    BoundedAwayIff(s, TbtAtMost(slo, stepTime, enabled));
    forall id | id in SourcesOr(s)
      ensures TbtAtMost(slo, stepTime, enabled)(DimsOf(s, id)) <==> !TooSlow(DimsOf(s, id), slo, stepTime, enabled)
    {
      TbtIs(DimsOf(s, id), slo, stepTime, enabled);
    }
  }

  lemma BatchesCompare(s: Selection)
    requires At(s, BatchOnly)
    ensures Comparable(s)
  {}

  lemma TbtIs(dims: seq<Reading>, slo: Limit, stepTime: real -> real, enabled: bool)
    requires BatchOnly(dims)
    ensures TbtAtMost(slo, stepTime, enabled)(dims) <==> !TooSlow(dims, slo, stepTime, enabled)
  {}

  lemma BoundedAwayIff(s: Selection, bound: Bound)
    requires Covered(s) && Comparable(s) && s.sources.Some? && s.key.Some?
    ensures BoundBelow(s, bound).Ok?
    ensures Abstains(BoundBelow(s, bound).value) <==> forall id :: id in SourcesOr(s) ==> !bound(DimsOf(s, id))
  {
    hide Ordering.Least, Inside, Lt, At;
    if SourcesOr(s) != [] {
      BelowIs(s, bound);
      InsideIs(s, bound, SourcesOr(s));
      hide BoundBelow, Covered, Once;
      var inside := Inside(s, bound, SourcesOr(s));
      if inside != [] { assert inside[0] in inside; }
    }
  }

  // ----- who is picked --------------------------------------------------------------------

  /** The lower of two figures comes first, and of equal ones the lower id. */
  predicate First(x: real, a: Id, y: real, b: Id) {
    x < y || (x == y && (a == b || StringLt(a, b)))
  }

  /** Cache-aware prefill goes to the earliest first token. */
  lemma CacheAwarePicksEarliest(s: Selection) returns (best: Id)
    requires Covered(s) && s.key.Some? && SourcesOr(s) != [] && s.fold == Some(ByTtft) && At(s, PlanOnly)
    ensures best in SourcesOr(s) && Best(s).Ok? && Best(s).value.sources == Some([best])
    ensures forall other :: other in SourcesOr(s) ==>
      First(DimsOf(s, best)[0].plan.ttft, best, DimsOf(s, other)[0].plan.ttft, other)
  {
    best := BestLeads(s);
    forall other | other in SourcesOr(s)
      ensures First(DimsOf(s, best)[0].plan.ttft, best, DimsOf(s, other)[0].plan.ttft, other)
    {
      assert Leads(s, best, other);
      OneFigure(DimsOf(s, best)[0].plan.ttft, DimsOf(s, other)[0].plan.ttft);
    }
  }

  /** The baseline goes to the shortest queue, whatever the plans. */
  lemma BaselinePicksShortestQueue(s: Selection) returns (best: Id)
    requires Covered(s) && s.key.Some? && SourcesOr(s) != [] && s.fold == Some(ByQueue) && At(s, PlanAndQueue)
    ensures best in SourcesOr(s) && Best(s).Ok? && Best(s).value.sources == Some([best])
    ensures forall other :: other in SourcesOr(s) ==>
      First(DimsOf(s, best)[1].value, best, DimsOf(s, other)[1].value, other)
  {
    best := BestLeads(s);
    forall other | other in SourcesOr(s)
      ensures First(DimsOf(s, best)[1].value, best, DimsOf(s, other)[1].value, other)
    {
      assert Leads(s, best, other);
      OneFigure(DimsOf(s, best)[1].value, DimsOf(s, other)[1].value);
    }
  }

  /** Decode goes to the smallest batch. */
  lemma DecodePicksSmallestBatch(s: Selection) returns (best: Id)
    requires Covered(s) && s.key.Some? && SourcesOr(s) != [] && s.fold == None && At(s, BatchOnly)
    ensures Comparable(s) && best in SourcesOr(s) && Best(s).Ok? && Best(s).value.sources == Some([best])
    ensures forall other :: other in SourcesOr(s) ==>
      First(DimsOf(s, best)[0].value, best, DimsOf(s, other)[0].value, other)
  {
    best := BestLeads(s);
    forall other | other in SourcesOr(s)
      ensures First(DimsOf(s, best)[0].value, best, DimsOf(s, other)[0].value, other)
    {
      assert Leads(s, best, other);
      assert Figures(DimsOf(s, best)) == [DimsOf(s, best)[0].value] by { assert DimsOf(s, best)[1..] == []; }
      assert Figures(DimsOf(s, other)) == [DimsOf(s, other)[0].value] by { assert DimsOf(s, other)[1..] == []; }
      OneFigure(DimsOf(s, best)[0].value, DimsOf(s, other)[0].value);
    }
  }

  // ----- spreading reads over replicas ----------------------------------------------------

  /** A source keyed at its negated prefix run and the reads lately routed at it. */
  function RunAndLoad(run: nat, load: nat): seq<Reading> {
    [Figure(-(run as real)), Figure(load as real)]
  }

  /** The fold of `by_prefix_and_load`: one block of run a read, up to `most`, then the load itself. */
  function ByPrefixAndLoad(most: nat): Fold {
    (dims: seq<Reading>) =>
      if |dims| == 2 && dims[0].Figure? && dims[1].Figure? then
        [dims[0].value + (if dims[1].value <= most as real then dims[1].value else most as real), dims[1].value]
      else []
  }

  lemma DockedRank(run: nat, load: nat, most: nat)
    ensures ByPrefixAndLoad(most)(RunAndLoad(run, load)) == [(Min(load, most) - run) as real, load as real]
  {}

  /** Whether a source with this run and load is put before another by the fold. */
  predicate Before(most: nat, run: nat, load: nat, otherRun: nat, otherLoad: nat) {
    FiguresLt(ByPrefixAndLoad(most)(RunAndLoad(run, load)), ByPrefixAndLoad(most)(RunAndLoad(otherRun, otherLoad)))
  }

  lemma OneFigure(x: real, y: real)
    ensures FiguresLt([x], [y]) <==> x < y
  {
    assert !FiguresLt([x][1..], [y][1..]);
  }

  lemma BeforeIs(most: nat, run: nat, load: nat, otherRun: nat, otherLoad: nat)
    ensures Before(most, run, load, otherRun, otherLoad)
      <==> (Min(load, most) - run < Min(otherLoad, most) - otherRun
            || (Min(load, most) - run == Min(otherLoad, most) - otherRun && load < otherLoad))
  {
    DockedRank(run, load, most);
    DockedRank(otherRun, otherLoad, most);
    var a, b := ByPrefixAndLoad(most)(RunAndLoad(run, load)), ByPrefixAndLoad(most)(RunAndLoad(otherRun, otherLoad));
    assert a[1..] == [load as real] && b[1..] == [otherLoad as real];
    OneFigure(load as real, otherLoad as real);
  }

  /** A run longer by more than `most` wins whatever the loads, and no shorter lead always does. */
  lemma LongerPrefixWinsIff(most: nat, run: nat, otherRun: nat)
    ensures (forall load: nat, otherLoad: nat :: Before(most, run, load, otherRun, otherLoad))
      <==> run > otherRun + most
  {
    forall load: nat, otherLoad: nat
      ensures run > otherRun + most ==> Before(most, run, load, otherRun, otherLoad)
    {
      BeforeIs(most, run, load, otherRun, otherLoad);
    }
    BeforeIs(most, run, most, otherRun, 0);
  }

  /** Replicas of one prefix are told apart by load alone. */
  lemma LoadSettlesTies(most: nat, run: nat, load: nat, otherLoad: nat)
    ensures Before(most, run, load, run, otherLoad) <==> load < otherLoad
  {
    BeforeIs(most, run, load, run, otherLoad);
  }
}
