/**
 Work conservation. The equal-share channel spends its whole capacity while anything is active, so
 a burst registered together ends when the serialize channel would end it, at the sum of the solo
 costs.
 */
module Makespan {
  import opened Basics
  import opened Progressive
  import opened ProgressiveRuns
  import opened FairSharing
  import Serial

  // ----- the bytes outstanding ------------------------------------------------------------

  ghost function Remaining(s: State): map<nat, real> {
    map i | i in s.active :: s.active[i].remaining
  }

  ghost function Warming(w: World): map<nat, real>
    requires Phases(w)
  {
    map i | i in w.warming :: w.asked[i].nbytes
  }

  /** Bytes registered and not yet moved. */
  ghost function Backlog(w: World): real
    requires Phases(w)
  {
    SumReal(Remaining(w.s)) + SumReal(Warming(w))
  }

  /** `k` times `d`, by addition. */
  function Copies(k: nat, d: real): real {
    if k == 0 then 0.0 else Copies(k - 1, d) + d
  }

  lemma {:induction false} CopiesMultiply(k: nat, d: real)
    ensures Copies(k, d) == k as real * d
  {
    if k > 0 {
      CopiesMultiply(k - 1, d);
      assert k as real * d == (k - 1) as real * d + d;
    }
  }

  lemma CountRemove(m: map<nat, real>, i: nat)
    requires i in m
    ensures |m| == |m - {i}| + 1
  {
    assert (m - {i}).Keys == m.Keys - {i};
    assert |m - {i}| == |(m - {i}).Keys| && |m| == |m.Keys|;
  }

  /** Taking `d` from each value takes as many copies of it from the sum. */
  lemma {:induction false} SumLess(m: map<nat, real>, r: map<nat, real>, d: real)
    requires r.Keys == m.Keys && forall i :: i in m ==> r[i] == m[i] - d
    ensures SumReal(r) == SumReal(m) - Copies(|m|, d)
    decreases |m|
  {
    if m == map[] {
      assert r == map[];
    } else {
      hide SumReal;
      var i :| i in m;
      SumRealRemove(m, i);
      SumRealRemove(r, i);
      SumLess(m - {i}, r - {i}, d);
      CountRemove(m, i);
    }
  }

  lemma PortionsMakeAll(since: real, until: real, capacity: real, k: nat)
    requires k > 0
    ensures Copies(k, Flowed(since, until, Portion(capacity, k))) == (until - since) * capacity
  {
    var elapsed := until - since;
    var r := Portion(capacity, k);
    CopiesMultiply(k, elapsed * r);
    assert k as real * r == capacity;
    assert k as real * (elapsed * r) == elapsed * (k as real * r);
    assert Flowed(since, until, r) == elapsed * r;
  }

  lemma RemainingCount(s: State)
    ensures |Remaining(s)| == |s.active|
  {
    assert Remaining(s).Keys == s.active.Keys;
    assert |Remaining(s)| == |Remaining(s).Keys| && |s.active| == |s.active.Keys|;
  }

  /**
   While any transfer is active the channel moves bytes at exactly `capacity`: the sum of what is
   left falls by `capacity` times the time to the next timer.
   */
  lemma WorkConserved(s: State)
    requires ChannelInv(s) && s.timers != map[] && s.active != map[]
    ensures SumReal(Remaining(Reached(s))) == SumReal(Remaining(s)) - (Popped(s).clock - s.lastUpdate) * s.capacity
  {
    hide Linked, Clocked, Portion, Flowed, Copies, SumReal, Reached, Settled;
    ReachedIsSettled(s);
    RemainingCount(s);
    SumLess(Remaining(s), Remaining(Reached(s)), Moved(Popped(s)));
    PortionsMakeAll(s.lastUpdate, Popped(s).clock, s.capacity, |s.active|);
  }

  // ----- one event against the backlog ----------------------------------------------------

  lemma SumPut(m: map<nat, real>, i: nat, v: real)
    requires i !in m
    ensures SumReal(m[i := v]) == SumReal(m) + v
  {
    SumRealRemove(m[i := v], i);
    assert m[i := v] - {i} == m;
  }

  lemma CapacityPositive(w: World)
    requires Inv(w)
    ensures w.s.capacity > 0.0
  {}

  /** What one firing leaves, when it ends a transfer's latency. */
  lemma EnterShape(w: World)
    requires Inv(w) && w.s.timers != map[] && w.s.timers[Soonest(w.s.timers)].callback.Enter?
    ensures w.s.capacity > 0.0
    ensures var i := w.s.timers[Soonest(w.s.timers)].callback.id;
      var r := Fire(w);
      && i in w.warming && i in w.asked && i !in w.s.active
      && r.asked == w.asked && r.warming == w.warming - {i} && r.done == w.done && r.s.timers != map[]
      && r.s.active.Keys == w.s.active.Keys + {i} && r.s.active[i].remaining == w.asked[i].nbytes
      && (forall j :: j in w.s.active ==> r.s.active[j].remaining == Reached(w.s).active[j].remaining)
      && Reached(w.s).active.Keys == w.s.active.Keys
  {
    hide Join, Moved, Share, Linked, NoneFasterThanSolo, Clocked, Reached, Settled;
    CapacityPositive(w);
    var i := w.s.timers[Soonest(w.s.timers)].callback.id;
    assert Soonest(w.s.timers) in Enters(w.s);
    JoinKeeps(w.s, i, w.asked[i].nbytes);
    ReachedIsSettled(w.s);
    ActiveHasTimer(Join(Popped(w.s), i, w.asked[i].nbytes, Some(Soonest(w.s.timers))), i);
  }

  lemma ActiveHasTimer(s: State, i: nat)
    requires Clocked(s) && i in s.active
    ensures s.timers != map[]
  {
    assert Due(s, i);
  }

  /** What one firing leaves, when it ends a transfer. */
  lemma CompleteShape(w: World)
    requires Inv(w) && w.s.timers != map[] && w.s.timers[Soonest(w.s.timers)].callback.Complete?
    ensures w.s.capacity > 0.0
    ensures var i := w.s.timers[Soonest(w.s.timers)].callback.id;
      var r := Fire(w);
      && i in w.s.active && Reached(w.s).active.Keys == w.s.active.Keys && Reached(w.s).active[i].remaining == 0.0
      && r.asked == w.asked && r.warming == w.warming && r.done == w.done[i := r.s.clock]
      && r.s.active.Keys == w.s.active.Keys - {i}
      && (forall j :: j in r.s.active ==> r.s.active[j].remaining == Reached(w.s).active[j].remaining)
  {
    hide Leave, Moved, Share, Linked, NoneFasterThanSolo, Clocked, Reached, Settled;
    CapacityPositive(w);
    LeaveKeeps(w.s);
    ReachedIsSettled(w.s);
  }

  lemma EnterSpends(w: World)
    requires Inv(w) && w.s.timers != map[] && w.s.timers[Soonest(w.s.timers)].callback.Enter?
    ensures w.s.capacity > 0.0 && Inv(Fire(w))
    ensures Backlog(Fire(w)) == SumReal(Remaining(Reached(w.s))) + SumReal(Warming(w))
  {
    hide Inv, Phases, Fire, SumReal, Reached, Remaining, Warming;
    FireInv(w);
    EnterMaps(w);
    var i := w.s.timers[Soonest(w.s.timers)].callback.id;
    SumPut(Remaining(Reached(w.s)), i, w.asked[i].nbytes);
    SumRealRemove(Warming(w), i);
  }

  /** What entering moves from the bytes still warming to the bytes left. */
  lemma EnterMaps(w: World)
    requires Inv(w) && w.s.timers != map[] && w.s.timers[Soonest(w.s.timers)].callback.Enter? && Inv(Fire(w))
    ensures w.s.capacity > 0.0 && Phases(w) && Phases(Fire(w))
    ensures var i := w.s.timers[Soonest(w.s.timers)].callback.id;
      && i in w.asked && i in Warming(w) && Warming(w)[i] == w.asked[i].nbytes
      && i !in Remaining(Reached(w.s))
      && Remaining(Fire(w).s) == Remaining(Reached(w.s))[i := w.asked[i].nbytes]
      && Warming(Fire(w)) == Warming(w) - {i}
  {
    PhasesOf(w);
    PhasesOf(Fire(w));
    hide Inv, Phases, Fire, Reached, Remaining, Warming;
    EnterShape(w);
    var i := w.s.timers[Soonest(w.s.timers)].callback.id;
    RemainingPlus(Reached(w.s), Fire(w).s, i, w.asked[i].nbytes);
    WarmingMinus(w, Fire(w), i);
  }

  lemma PhasesOf(w: World)
    requires Inv(w)
    ensures Phases(w)
  {}

  lemma RemainingPlus(s: State, r: State, i: nat, nbytes: real)
    requires r.active.Keys == s.active.Keys + {i} && i !in s.active && r.active[i].remaining == nbytes
    requires forall j :: j in s.active ==> r.active[j].remaining == s.active[j].remaining
    ensures Remaining(r) == Remaining(s)[i := nbytes] && i !in Remaining(s)
  {}

  lemma WarmingMinus(w: World, r: World, i: nat)
    requires Phases(w) && Phases(r) && r.asked == w.asked && i in w.warming && r.warming == w.warming - {i}
    ensures i in w.asked && i in Warming(w) && Warming(w)[i] == w.asked[i].nbytes && Warming(r) == Warming(w) - {i}
  {
    hide Phases;
    WarmingWereAsked(w);
    WarmingWereAsked(r);
  }

  lemma CompleteSpends(w: World)
    requires Inv(w) && w.s.timers != map[] && w.s.timers[Soonest(w.s.timers)].callback.Complete?
    ensures w.s.capacity > 0.0 && Inv(Fire(w))
    ensures Backlog(Fire(w)) == SumReal(Remaining(Reached(w.s))) + SumReal(Warming(w))
  {
    hide Fire, SumReal, Reached, ChannelInv, NoneFasterThanSolo;
    CompleteShape(w);
    FireInv(w);
    var i := w.s.timers[Soonest(w.s.timers)].callback.id;
    assert Remaining(Fire(w).s) == Remaining(Reached(w.s)) - {i};
    SumRealRemove(Remaining(Reached(w.s)), i);
    assert Warming(Fire(w)) == Warming(w);
  }

  lemma IdleReached(s: State)
    requires ChannelInv(s) && s.timers != map[] && s.active == map[]
    ensures Remaining(Reached(s)) == Remaining(s)
  {
    ReachedIsSettled(s);
  }

  /** A firing takes from the backlog what the whole capacity moves while anything is active. */
  lemma FireSpends(w: World)
    requires Inv(w) && w.s.timers != map[]
    ensures w.s.capacity > 0.0 && Inv(Fire(w))
    ensures Backlog(Fire(w)) ==
      Backlog(w) - (if w.s.active == map[] then 0.0 else (Fire(w).s.clock - w.s.lastUpdate) * w.s.capacity)
  {
    hide Fire, ChannelInv, NoneFasterThanSolo, SumReal, Reached, Remaining, Warming;
    CapacityPositive(w);
    if w.s.timers[Soonest(w.s.timers)].callback.Enter? { EnterSpends(w); } else { CompleteSpends(w); }
    FireMoves(w);
    if w.s.active != map[] {
      WorkConserved(w.s);
    } else {
      IdleReached(w.s);
    }
  }

  // ----- a burst --------------------------------------------------------------------------

  /** Everything registered so far entered at `start`, and the channel has been busy since. */
  ghost predicate Burst(w: World, start: real, total: real) {
    && Inv(w) && start <= w.s.clock
    && (forall i :: i in w.asked ==> Entry(w.asked[i]) == start)
    && (w.s.active != map[] ==> w.s.lastUpdate == w.s.clock)
    && w.s.capacity * (w.s.clock - start) + Backlog(w) == total
    && (w.s.timers == map[] && w.asked != map[] ==> EndsNow(w))
  }

  /** Some transfer completed at this very instant. */
  ghost predicate EndsNow(w: World) {
    exists i :: i in w.done && w.done[i] == w.s.clock
  }

  lemma IdleIsAtStart(w: World, start: real, total: real)
    requires Burst(w, start, total) && w.s.timers != map[] && w.s.active == map[]
    ensures Fire(w).s.clock == w.s.clock
  {
    hide Share, NoneFasterThanSolo, Backlog;
    FireMoves(w);
    var h := Soonest(w.s.timers);
    if w.s.timers[h].callback.Enter? { assert h in Enters(w.s); }
  }

  /** Transfers left, each counted once for every phase it has to go. */
  ghost function ToGo(w: World): nat {
    |w.warming| * 2 + |w.s.active|
  }

  lemma FireShrinks(w: World)
    requires Inv(w) && w.s.timers != map[]
    ensures w.s.capacity > 0.0 && ToGo(Fire(w)) < ToGo(w)
  {
    hide Fire, Reached, ChannelInv, NoneFasterThanSolo, Phases;
    var i := w.s.timers[Soonest(w.s.timers)].callback.id;
    if w.s.timers[Soonest(w.s.timers)].callback.Enter? {
      EnterShape(w);
      CountKeys(w.warming - {i}, w.warming, i);
      CountKeys(w.s.active, Fire(w).s.active, i);
    } else {
      CompleteShape(w);
      CountKeys(Fire(w).s.active, w.s.active, i);
    }
  }

  lemma FireEndsNow(w: World)
    requires Inv(w) && w.s.timers != map[]
    ensures w.s.capacity > 0.0 && Fire(w).asked == w.asked
    ensures Fire(w).s.timers == map[] ==> EndsNow(Fire(w))
  {
    hide Fire, Reached, ChannelInv, NoneFasterThanSolo, Phases;
    if w.s.timers[Soonest(w.s.timers)].callback.Enter? {
      EnterShape(w);
    } else {
      CompleteShape(w);
      assert w.s.timers[Soonest(w.s.timers)].callback.id in Fire(w).done;
    }
  }

  lemma CountKeys<V, W>(small: map<nat, V>, big: map<nat, W>, i: nat)
    requires i !in small && big.Keys == small.Keys + {i}
    ensures |big| == |small| + 1
  {
    assert |big| == |big.Keys| && |small| == |small.Keys|;
  }

  lemma Spent(capacity: real, start: real, a: real, b: real)
    ensures capacity * (b - start) == capacity * (a - start) + (b - a) * capacity
  {}

  lemma FireKeepsBurst(w: World, start: real, total: real)
    requires Burst(w, start, total) && w.s.timers != map[]
    ensures w.s.capacity > 0.0 && Burst(Fire(w), start, total)
  {
    hide Inv, Fire, Backlog, EndsNow, Entry;
    CapacityPositive(w);
    CapacityStays(w, Fires);
    FireMoves(w);
    FireUpdates(w);
    FireSpends(w);
    FireEndsNow(w);
    if w.s.active == map[] {
      IdleIsAtStart(w, start, total);
    } else {
      Spent(w.s.capacity, start, w.s.clock, Fire(w).s.clock);
    }
  }

  // ----- running out ----------------------------------------------------------------------

  /** The loop left to itself: fire timers until none is left. */
  ghost function Drained(w: World): World
    requires Inv(w)
    decreases ToGo(w)
  {
    if w.s.timers == map[] then w else
      CapacityPositive(w);
      FireInv(w);
      FireShrinks(w);
      Drained(Fire(w))
  }

  lemma PendingHasTimer(w: World, i: nat)
    requires Inv(w) && (i in w.s.active || i in w.warming)
    ensures w.s.timers != map[]
  {
    if i in w.s.active {
      assert Due(w.s, i);
    } else {
      assert w.warming[i] in Enters(w.s);
    }
  }

  lemma NoTimersAllDone(w: World)
    requires Inv(w) && w.s.timers == map[]
    ensures w.s.active == map[] && w.warming == map[] && forall i :: i in w.asked ==> i in w.done
  {
    hide ChannelInv;
    forall i: nat ensures i !in w.s.active && i !in w.warming {
      if i in w.s.active || i in w.warming { PendingHasTimer(w, i); }
    }
  }

  /** With no further registration every transfer completes. */
  lemma {:induction false} AllComplete(w: World)
    requires Inv(w)
    ensures Inv(Drained(w)) && Drained(w).asked == w.asked
    ensures forall i :: i in w.asked ==> i in Drained(w).done
    decreases ToGo(w)
  {
    hide Inv, Fire, ToGo;
    if w.s.timers == map[] {
      NoTimersAllDone(w);
    } else {
      FireInv(w);
      FireShrinks(w);
      FireEndsNow(w);
      AllComplete(Fire(w));
    }
  }

  /** Every transfer of `w` is done by `end`, and one of them at `end`. */
  ghost predicate EndsAt(w: World, end: real) {
    && (forall i :: i in w.asked ==> i in w.done && w.done[i] <= end)
    && exists i :: i in w.asked && i in w.done && w.done[i] == end
  }

  lemma NothingLeft(w: World)
    requires Inv(w) && w.s.timers == map[]
    ensures Backlog(w) == 0.0
  {
    NoTimersAllDone(w);
    assert Remaining(w.s) == map[] && Warming(w) == map[];
  }

  lemma BurstOver(w: World, start: real, total: real)
    requires Burst(w, start, total) && w.s.timers == map[] && w.asked != map[]
    ensures w.s.capacity > 0.0 && EndsAt(w, start + total / w.s.capacity)
  {
    hide Inv, Backlog;
    CapacityPositive(w);
    NothingLeft(w);
    NoTimersAllDone(w);
    DividedOut(w.s.capacity, w.s.clock - start, total);
    forall i | i in w.asked ensures i in w.done && w.done[i] <= w.s.clock { DoneByNow(w, i); }
    var i :| i in w.done && w.done[i] == w.s.clock;
    DoneByNow(w, i);
  }

  lemma DividedOut(capacity: real, span: real, total: real)
    requires capacity > 0.0 && capacity * span == total
    ensures span == total / capacity
  {}

  /** A burst of `total` bytes ends after exactly `total / capacity`, however it is re-rated. */
  lemma {:induction false} BurstEnds(w: World, start: real, total: real)
    requires Burst(w, start, total) && w.asked != map[]
    ensures w.s.capacity > 0.0 && EndsAt(Drained(w), start + total / w.s.capacity)
    decreases ToGo(w)
  {
    hide Burst, Fire, Inv, ToGo, EndsAt;
    BurstInv(w, start, total);
    CapacityPositive(w);
    if w.s.timers == map[] {
      BurstOver(w, start, total);
    } else {
      FireKeepsBurst(w, start, total);
      FireInv(w);
      FireShrinks(w);
      FireEndsNow(w);
      CapacityStays(w, Fires);
      BurstEnds(Fire(w), start, total);
    }
  }

  lemma BurstInv(w: World, start: real, total: real)
    requires Burst(w, start, total)
    ensures Inv(w)
  {}

  // ----- against the serialize channel ----------------------------------------------------

  function Total(bytes: seq<real>): real {
    if bytes == [] then 0.0 else bytes[0] + Total(bytes[1..])
  }

  /** Zero-latency transfers of these sizes, numbered from `first`, all registered at `now`. */
  function Together(now: real, bytes: seq<real>, first: nat): seq<Event>
    decreases |bytes|
  {
    if bytes == [] then [] else
      [Asks(first, Ask(now, 0.0, bytes[0]))] + Together(now, bytes[1..], first + 1)
  }

  lemma FreshBurst(capacity: real, now: real)
    requires capacity > 0.0
    ensures Burst(Fresh(capacity, now), now, 0.0)
  {
    hide Inv, NoneFasterThanSolo, ChannelInv;
    FreshInv(capacity, now);
    NothingLeft(Fresh(capacity, now));
  }

  lemma AskAddsBacklog(w: World, i: nat, ask: Ask)
    requires Inv(w) && Enabled(w, Asks(i, ask))
    ensures var r := Step(w, Asks(i, ask));
      Inv(r) && Backlog(r) == Backlog(w) + ask.nbytes
  {
    hide Inv, SumReal, Warming, Phases;
    StepKeepsInv(w, Asks(i, ask));
    AskAddsWarming(w, i, ask);
    assert Remaining(Step(w, Asks(i, ask)).s) == Remaining(w.s);
  }

  lemma AskAddsWarming(w: World, i: nat, ask: Ask)
    requires Inv(w) && Enabled(w, Asks(i, ask)) && Inv(Step(w, Asks(i, ask)))
    ensures Phases(w) && Phases(Step(w, Asks(i, ask)))
    ensures SumReal(Warming(Step(w, Asks(i, ask)))) == SumReal(Warming(w)) + ask.nbytes
  {
    hide ChannelInv, NoneFasterThanSolo, SumReal, Warming, Phases;
    WarmingPlus(w, Step(w, Asks(i, ask)), i, ask, w.s.next);
    SumPut(Warming(w), i, ask.nbytes);
  }

  lemma WarmingPlus(w: World, r: World, i: nat, ask: Ask, h: nat)
    requires Phases(w) && Phases(r) && i !in w.asked
    requires r.warming == w.warming[i := h] && r.asked == w.asked[i := ask]
    ensures Warming(r) == Warming(w)[i := ask.nbytes] && i !in Warming(w)
  {
    hide Phases;
    WarmingWereAsked(w);
    WarmingWereAsked(r);
    forall j | j in w.warming
      ensures Warming(r)[j] == Warming(w)[j]
    {
      assert r.asked[j] == w.asked[j];
    }
  }

  lemma WarmingWereAsked(w: World)
    requires Phases(w)
    ensures forall j :: j in w.warming ==> j in w.asked
  {}

  lemma WarmTimersLater(w: World, now: real)
    requires Inv(w) && w.s.active == map[] && forall i :: i in w.asked ==> Entry(w.asked[i]) == now
    ensures forall h :: h in w.s.timers ==> now <= w.s.timers[h].when
  {
    forall h | h in w.s.timers ensures now <= w.s.timers[h].when {
      assert h in Enters(w.s);
    }
  }

  /** Every transfer asked so far was asked at `now`, and none has entered. */
  ghost predicate Opening(w: World, now: real, total: real, first: nat) {
    && Burst(w, now, total) && w.s.clock == now && w.s.active == map[]
    && forall i: nat :: i in w.asked <==> i < first
  }

  lemma AskJoinsBurst(w: World, now: real, total: real, first: nat, nbytes: real)
    requires Opening(w, now, total, first) && nbytes >= 0.0
    ensures var e := Asks(first, Ask(now, 0.0, nbytes));
      Enabled(w, e) && Opening(Step(w, e), now, total + nbytes, first + 1) && Step(w, e).s.capacity == w.s.capacity
  {
    hide Inv, Backlog, EndsNow;
    WarmTimersLater(w, now);
    AskAddsBacklog(w, first, Ask(now, 0.0, nbytes));
    assert w.s.next in Step(w, Asks(first, Ask(now, 0.0, nbytes))).s.timers;
  }

  lemma {:induction false} BurstIsLegal(w: World, now: real, total: real, first: nat, bytes: seq<real>)
    requires Opening(w, now, total, first) && forall k :: 0 <= k < |bytes| ==> bytes[k] >= 0.0
    ensures var es := Together(now, bytes, first);
      && Legal(w, es) && Run(w, es).s.capacity == w.s.capacity
      && Opening(Run(w, es), now, total + Total(bytes), first + |bytes|)
    decreases |bytes|
  {
    hide Opening, Enabled, Step;
    if bytes != [] {
      AskJoinsBurst(w, now, total, first, bytes[0]);
      var e := Asks(first, Ask(now, 0.0, bytes[0]));
      BurstIsLegal(Step(w, e), now, total + bytes[0], first + 1, bytes[1..]);
      assert Together(now, bytes, first)[1..] == Together(now, bytes[1..], first + 1);
    }
  }

  /** The same burst as the serialize channel is handed it. */
  function Payloads(capacity: real, bytes: seq<real>): (ts: seq<Serial.Transfer>)
    requires capacity > 0.0 && forall k :: 0 <= k < |bytes| ==> bytes[k] >= 0.0
    ensures |ts| == |bytes| && forall k: nat :: k < |ts| ==> ts[k] == Serial.Request(k, 0.0, bytes[k], capacity)
  {
    seq(|bytes|, (k: nat) requires k < |bytes| && bytes[k] >= 0.0 && capacity > 0.0 =>
      Serial.Request(k, 0.0, bytes[k], capacity))
  }

  lemma {:induction false} TotalAppend(bytes: seq<real>, b: real)
    ensures Total(bytes + [b]) == Total(bytes) + b
  {
    if bytes != [] {
      assert (bytes + [b])[1..] == bytes[1..] + [b];
      TotalAppend(bytes[1..], b);
    }
  }

  lemma SumOfCosts(a: real, b: real, capacity: real)
    requires capacity > 0.0
    ensures (a + b) / capacity == a / capacity + b / capacity
  {}

  lemma CostIsNonNegative(a: real, capacity: real)
    requires capacity > 0.0 && a >= 0.0
    ensures a / capacity >= 0.0
  {}

  lemma {:induction false} SerialEnds(capacity: real, now: real, bytes: seq<real>)
    requires capacity > 0.0 && bytes != [] && forall k :: 0 <= k < |bytes| ==> bytes[k] >= 0.0
    ensures Serial.Ends(Serial.Logged(now, Payloads(capacity, bytes)))[|bytes| - 1] == now + Total(bytes) / capacity
    ensures Total(bytes) >= 0.0
  {
    var k := |bytes| - 1;
    var log := Serial.Logged(now, Payloads(capacity, bytes));
    assert log[..k] == Serial.Logged(now, Payloads(capacity, bytes[..k]));
    assert bytes == bytes[..k] + [bytes[k]];
    TotalAppend(bytes[..k], bytes[k]);
    SumOfCosts(Total(bytes[..k]), bytes[k], capacity);
    if k > 0 {
      SerialEnds(capacity, now, bytes[..k]);
      CostIsNonNegative(Total(bytes[..k]), capacity);
    }
  }

  /** A new serialize channel handed the burst, once it has run out of transfers. */
  ghost function SerialBurst(capacity: real, now: real, bytes: seq<real>): (r: Serial.World)
    requires capacity > 0.0 && forall k :: 0 <= k < |bytes| ==> bytes[k] >= 0.0
    ensures Serial.AllServed(r) && r.log == Serial.Logged(now, Payloads(capacity, bytes))
  {
    var ts := Payloads(capacity, bytes);
    Serial.FreshInv(now);
    Serial.ArrivalsAreLegal(Serial.Fresh(now), ts);
    assert [] + Serial.Logged(now, ts) == Serial.Logged(now, ts);
    Serial.Drained(Serial.Run(Serial.Fresh(now), Serial.Arrivals(now, ts)))
  }

  lemma SerialBurstEnds(capacity: real, now: real, bytes: seq<real>)
    requires capacity > 0.0 && bytes != [] && forall k :: 0 <= k < |bytes| ==> bytes[k] >= 0.0
    ensures var done := SerialBurst(capacity, now, bytes).q.done;
      |done| == |bytes| && done[|bytes| - 1] == (|bytes| - 1, now + Total(bytes) / capacity)
  {
    hide SerialBurst, Serial.Ends, Total;
    SerialEnds(capacity, now, bytes);
  }

  lemma FreshOpening(capacity: real, now: real)
    requires capacity > 0.0
    ensures Opening(Fresh(capacity, now), now, 0.0, 0)
  {
    hide Burst;
    FreshBurst(capacity, now);
  }

  lemma OpeningIsBurst(w: World, now: real, total: real, count: nat)
    requires Opening(w, now, total, count) && count > 0
    ensures Burst(w, now, total) && Inv(w) && 0 in w.asked
  {}

  /**
   Sharing costs nothing overall: for zero-latency transfers of equal capacity registered together,
   the equal-share channel's last completion is the serialize channel's, the sum of the solo costs.
   */
  lemma SameMakespan(capacity: real, now: real, bytes: seq<real>)
    requires capacity > 0.0 && bytes != [] && forall k :: 0 <= k < |bytes| ==> bytes[k] >= 0.0
    ensures var end := now + Total(bytes) / capacity;
      && (var es := Together(now, bytes, 0);
          && Legal(Fresh(capacity, now), es) && Inv(Run(Fresh(capacity, now), es))
          && EndsAt(Drained(Run(Fresh(capacity, now), es)), end))
      && var done := SerialBurst(capacity, now, bytes).q.done;
         |done| == |bytes| && done[|bytes| - 1] == (|bytes| - 1, end)
  {
    hide Burst, EndsAt, Opening, Inv, Drained, Run, Legal, Together, Total, SerialBurst;
    FreshOpening(capacity, now);
    BurstIsLegal(Fresh(capacity, now), now, 0.0, 0, bytes);
    var w := Run(Fresh(capacity, now), Together(now, bytes, 0));
    OpeningIsBurst(w, now, Total(bytes), |bytes|);
    BurstEnds(w, now, Total(bytes));
    SerialBurstEnds(capacity, now, bytes);
  }

  // ----- a transfer alone -----------------------------------------------------------------

  lemma EnterIsWarming(w: World, h: nat)
    requires Phases(w) && h in w.s.timers && w.s.timers[h].callback.Enter?
    ensures w.warming != map[]
  {
    assert h in Enters(w.s);
  }

  /** The one active transfer of a channel with nothing warming up is due after its bytes at full capacity. */
  lemma OnlyOneIsDue(w: World, i: nat)
    requires Inv(w) && w.s.active.Keys == {i} && w.warming == map[]
    ensures w.s.timers != map[] && w.s.timers[Soonest(w.s.timers)].callback == Complete(i)
    ensures w.s.capacity > 0.0
    ensures w.s.timers[Soonest(w.s.timers)].when == w.s.lastUpdate + w.s.active[i].remaining / w.s.capacity
  {
    hide Phases, NoneFasterThanSolo, Share;
    assert Due(w.s, i);
    if w.s.timers[Soonest(w.s.timers)].callback.Enter? { EnterIsWarming(w, Soonest(w.s.timers)); }
    LoneShare(w.s, i);
  }

  lemma LoneShare(s: State, i: nat)
    requires s.active.Keys == {i}
    ensures Share(s) == s.capacity
  {
    assert |s.active| == |s.active.Keys| == 1;
    assert s.capacity / 1.0 == s.capacity;
  }

  lemma LoneEnters(w: World, i: nat)
    requires Inv(w) && w.s.active == map[] && w.warming.Keys == {i} && i in w.asked
    ensures w.s.timers != map[] && w.s.capacity > 0.0
    ensures var r := Fire(w);
      && Inv(r) && r.s.active.Keys == {i} && r.warming == map[] && r.s.capacity == w.s.capacity && r.asked == w.asked
      && r.s.active[i].remaining == w.asked[i].nbytes && r.s.lastUpdate == Entry(w.asked[i])
  {
    hide ChannelInv, NoneFasterThanSolo, Fire, Reached;
    LoneTimer(w, i);
    EnterShape(w);
    FireInv(w);
    FireUpdates(w);
    FireMoves(w);
    CapacityStays(w, Fires);
    assert Fire(w).warming.Keys == {};
  }

  lemma LoneTimer(w: World, i: nat)
    requires Inv(w) && w.s.active == map[] && w.warming.Keys == {i} && i in w.asked
    ensures w.s.timers != map[]
    ensures w.s.timers[Soonest(w.s.timers)] == Timer(Entry(w.asked[i]), Enter(i))
  {
    assert w.warming[i] in Enters(w.s);
    var h := Soonest(w.s.timers);
    assert w.s.timers[h].callback.Enter?;
    assert h in Enters(w.s) && Enters(w.s)[h].callback.id in w.warming;
  }

  lemma LoneLeaves(w: World, i: nat)
    requires Inv(w) && w.s.active.Keys == {i} && w.warming == map[]
    ensures w.s.timers != map[] && w.s.capacity > 0.0
    ensures var r := Fire(w);
      && Inv(r) && r.s.timers == map[] && i in r.done
      && r.done[i] == w.s.lastUpdate + w.s.active[i].remaining / w.s.capacity
  {
    hide ChannelInv, NoneFasterThanSolo, Fire, Reached, Phases;
    OnlyOneIsDue(w, i);
    CompleteShape(w);
    FireInv(w);
    FireMoves(w);
    var r := Fire(w);
    assert r.s.active.Keys == {};
    if r.s.timers != map[] { NothingPending(r); }
  }

  lemma NothingPending(w: World)
    requires Inv(w) && w.s.timers != map[]
    ensures w.s.active != map[] || w.warming != map[]
  {
    var h :| h in w.s.timers;
    if w.s.timers[h].callback.Enter? { assert h in Enters(w.s); }
  }

  /**
   A transfer that has an idle channel to itself completes after exactly its latency plus its bytes
   at full capacity.
   */
  lemma AloneCostsSolo(w: World, i: nat, ask: Ask)
    requires Inv(w) && w.s.timers == map[] && Enabled(w, Asks(i, ask))
    ensures w.s.capacity > 0.0 && Inv(Step(w, Asks(i, ask)))
    ensures var end := Drained(Step(w, Asks(i, ask)));
      i in end.done && end.done[i] == ask.at + ask.latency + ask.nbytes / w.s.capacity
  {
    hide Inv, Fire, ToGo, Solo;
    var v := Step(w, Asks(i, ask));
    StepKeepsInv(w, Asks(i, ask));
    NoTimersAllDone(w);
    assert v.warming.Keys == {i};
    LoneEnters(v, i);
    LoneLeaves(Fire(v), i);
    assert Drained(v) == Drained(Fire(v)) == Drained(Fire(Fire(v))) == Fire(Fire(v)) by {
      DrainedOnce(v);
      DrainedOnce(Fire(v));
    }
    assert Solo(ask, w.s.capacity) == Entry(ask) + ask.nbytes / w.s.capacity by { SoloIs(ask, w.s.capacity); }
  }

  lemma SoloIs(ask: Ask, capacity: real)
    requires capacity > 0.0
    ensures Solo(ask, capacity) == Entry(ask) + ask.nbytes / capacity
  {}

  lemma DrainedOnce(w: World)
    requires Inv(w) && w.s.timers != map[]
    ensures w.s.capacity > 0.0 && Inv(Fire(w)) && Drained(w) == Drained(Fire(w))
  {
    hide Inv, Fire, ToGo;
    CapacityPositive(w);
    FireInv(w);
    FireShrinks(w);
  }
}
