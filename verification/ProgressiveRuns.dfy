/**
 Whole runs of the equal-share channel: any registrations at any instants, with the loop firing
 the least `(when, number)` timer in between.
 */
module ProgressiveRuns {
  import opened Basics
  import opened Progressive

  /** What a transfer was registered with. */
  datatype Ask = Ask(at: real, latency: real, nbytes: real)

  /**
   The channel and every transfer ever registered on it: `warming` ones still in their latency
   (with the number of their timer), active ones, and `done` ones with their completion instant.
   */
  datatype World = World(s: State, asked: map<nat, Ask>, warming: map<nat, nat>, done: map<nat, real>)

  datatype Event = Asks(id: nat, ask: Ask) | Fires

  // ----- one event ------------------------------------------------------------------------

  predicate Sooner(timers: map<nat, Timer>, h: nat, k: nat)
    requires h in timers && k in timers
  {
    timers[h].when < timers[k].when || (timers[h].when == timers[k].when && h <= k)
  }

  lemma {:induction false} SoonestExists(timers: map<nat, Timer>) returns (h: nat)
    requires timers != map[]
    ensures h in timers && forall k :: k in timers ==> Sooner(timers, h, k)
    decreases |timers|
  {
    h :| h in timers;
    var rest := timers - {h};
    assert forall k :: k in timers ==> k == h || k in rest;
    if rest != map[] {
      var k := SoonestExists(rest);
      assert forall j :: j in rest ==> Sooner(rest, k, j) && Sooner(timers, k, j);
      h := if Sooner(timers, h, k) then h else k;
    }
  }

  /** The live timer the loop runs next. */
  ghost function Soonest(timers: map<nat, Timer>): (h: nat)
    requires timers != map[]
    ensures h in timers && forall k :: k in timers ==> Sooner(timers, h, k)
  {
    assert exists h :: h in timers && forall k :: k in timers ==> Sooner(timers, h, k) by {
      var h := SoonestExists(timers);
    }
    var h :| h in timers && forall k :: k in timers ==> Sooner(timers, h, k);
    h
  }

  /** The loop has jumped to the next timer's instant and taken it off the schedule. */
  ghost function Popped(s: State): State
    requires s.timers != map[]
  {
    var h := Soonest(s.timers);
    s.(clock := s.timers[h].when, timers := s.timers - {h})
  }

  ghost predicate Enabled(w: World, e: Event) {
    match e
    case Fires => w.s.timers != map[] && w.s.capacity > 0.0
    case Asks(i, ask) =>
      && i !in w.asked && ask.latency >= 0.0 && ask.nbytes >= 0.0
      && w.s.clock <= ask.at && forall h :: h in w.s.timers ==> ask.at <= w.s.timers[h].when
  }

  ghost function Fire(w: World): World
    requires Enabled(w, Fires)
  {
    var p := Popped(w.s);
    match w.s.timers[Soonest(w.s.timers)].callback
    case Enter(i) =>
      w.(s := Join(p, i, if i in w.asked then w.asked[i].nbytes else 0.0, Some(Soonest(w.s.timers))),
         warming := w.warming - {i})
    case Complete(i) =>
      w.(s := Leave(p, i), done := if i in p.active then w.done[i := p.clock] else w.done)
  }

  ghost function Step(w: World, e: Event): World
    requires Enabled(w, e)
  {
    match e
    case Fires => Fire(w)
    case Asks(i, ask) =>
      w.(s := Register(w.s.(clock := ask.at), i, ask.latency), asked := w.asked[i := ask],
         warming := w.warming[i := w.s.next])
  }

  ghost predicate Legal(w: World, es: seq<Event>)
    decreases |es|
  {
    es == [] || (Enabled(w, es[0]) && Legal(Step(w, es[0]), es[1..]))
  }

  ghost function Run(w: World, es: seq<Event>): World
    requires Legal(w, es)
    decreases |es|
  {
    if es == [] then w else Run(Step(w, es[0]), es[1..])
  }

  /** A channel just created at `now`. */
  function Fresh(capacity: real, now: real): World {
    World(State(capacity, map[], 0.0, now, now, map[], 0), map[], map[], map[])
  }

  // ----- what every run keeps -------------------------------------------------------------

  /** Transfer `i` has one live completion timer, at `lastUpdate + remaining / rate`. */
  ghost predicate Due(s: State, i: nat)
    requires i in s.active
  {
    && s.rate > 0.0 && s.active[i].handle.Some?
    && s.active[i].handle.value in s.timers
    && s.timers[s.active[i].handle.value] == Timer(s.lastUpdate + s.active[i].remaining / s.rate, Complete(i))
  }

  /** No timer is overdue and every active transfer's own is exactly where its bytes say. */
  ghost predicate Clocked(s: State) {
    && s.lastUpdate <= s.clock
    && (forall h :: h in s.timers ==> s.clock <= s.timers[h].when)
    && (forall i :: i in s.active ==> s.active[i].remaining >= 0.0 && Due(s, i))
  }

  ghost predicate ChannelInv(s: State) {
    s.capacity > 0.0 && Linked(s) && s.rate == Share(s) && Clocked(s)
  }

  /** Each transfer is in exactly one phase, and its latency timer is live while it warms up. */
  ghost predicate Phases(w: World) {
    && (forall i :: i in w.asked <==> i in w.warming || i in w.s.active || i in w.done)
    && (forall i :: i in w.warming ==> i !in w.s.active && i !in w.done)
    && (forall i :: i in w.s.active ==> i !in w.done)
    && (forall i :: i in w.warming ==>
          w.warming[i] in Enters(w.s) && Enters(w.s)[w.warming[i]]
              == Timer(w.asked[i].at + w.asked[i].latency, Enter(i)))
    && (forall h :: h in Enters(w.s) ==>
          Enters(w.s)[h].callback.id in w.warming && w.warming[Enters(w.s)[h].callback.id] == h)
    && (forall i :: i in w.asked ==> w.asked[i].latency >= 0.0 && w.asked[i].nbytes >= 0.0)
  }

  /** When transfer `i` has finished if it had the channel to itself. */
  function Entry(ask: Ask): real { ask.at + ask.latency }

  function Solo(ask: Ask, capacity: real): real
    requires capacity > 0.0
  {
    Entry(ask) + ask.nbytes / capacity
  }

  /** What the whole capacity moves in a time. */
  function Whole(capacity: real, elapsed: real): real {
    capacity * elapsed
  }

  /** No transfer has moved more than the whole capacity could have, nor finished before it could. */
  ghost predicate NoneFasterThanSolo(w: World) {
    && (forall i :: i in w.s.active && i in w.asked ==>
          w.s.active[i].remaining + Whole(w.s.capacity, w.s.lastUpdate - Entry(w.asked[i])) >= w.asked[i].nbytes)
    && (w.s.capacity > 0.0 ==>
          forall i :: i in w.done && i in w.asked ==> Solo(w.asked[i], w.s.capacity) <= w.done[i] <= w.s.clock)
  }

  ghost predicate Inv(w: World) {
    ChannelInv(w.s) && Phases(w) && NoneFasterThanSolo(w)
  }

  // ----- one event keeps it ---------------------------------------------------------------

  lemma QuotientNonNegative(a: real, r: real)
    requires r > 0.0 && a >= 0.0
    ensures a / r >= 0.0
  {}

  lemma MovedAtMost(elapsed: real, left: real, r: real)
    requires r > 0.0 && 0.0 <= elapsed <= left / r
    ensures 0.0 <= elapsed * r <= left
    ensures elapsed == left / r ==> elapsed * r == left
  {
    assert (left / r) * r == left;
    assert (left / r - elapsed) * r == left - elapsed * r;
  }

  /** The next timer fires no later than any active transfer runs out. */
  lemma NextTimerWithin(s: State, i: nat)
    requires Clocked(s) && i in s.active && s.timers != map[]
    ensures s.rate > 0.0 && 0.0 <= Popped(s).clock - s.lastUpdate <= s.active[i].remaining / s.rate
  {
    assert Due(s, i);
    assert Sooner(s.timers, Soonest(s.timers), s.active[i].handle.value);
  }

  /** The bytes each active transfer moves between the last update and the clock. */
  function Moved(s: State): real {
    Flowed(s.lastUpdate, s.clock, s.rate)
  }

  lemma AdvanceDebits(p: State, i: nat)
    requires i in p.active && p.rate > 0.0
    requires 0.0 <= p.clock - p.lastUpdate <= p.active[i].remaining / p.rate
    ensures Advance(p).active[i] == Flow(p.active[i].remaining - Moved(p), p.active[i].handle)
    ensures 0.0 <= Moved(p) <= p.active[i].remaining
  {
    var elapsed := p.clock - p.lastUpdate;
    MovedAtMost(elapsed, p.active[i].remaining, p.rate);
    if elapsed > 0.0 {
      assert Advance(p).active[i] == Debit(p.active[i], elapsed * p.rate);
    } else {
      assert Advance(p).active[i] == p.active[i] && elapsed * p.rate == 0.0;
    }
  }

  /**
   Up to the instant of the next timer `_advance` debits each transfer exactly what moved: the
   clamp at zero throws no bytes away.
   */
  lemma ClampNeverDiscards(s: State, i: nat)
    requires Clocked(s) && i in s.active && s.timers != map[]
    ensures var p := Popped(s);
      && Advance(p).active[i] == Flow(s.active[i].remaining - Moved(p), s.active[i].handle)
      && 0.0 <= Moved(p) <= s.active[i].remaining
  {
    NextTimerWithin(s, i);
    AdvanceDebits(Popped(s), i);
  }

  lemma RunsOut(p: State, i: nat)
    requires i in p.active && p.rate > 0.0
    requires p.clock - p.lastUpdate == p.active[i].remaining / p.rate
    ensures Moved(p) == p.active[i].remaining
  {}

  /** The transfer whose completion timer fires has exactly nothing left. */
  lemma CompletesAtZero(s: State)
    requires Clocked(s) && Linked(s) && s.timers != map[]
    requires s.timers[Soonest(s.timers)].callback.Complete?
    ensures var i := s.timers[Soonest(s.timers)].callback.id;
      && i in s.active && Advance(Popped(s)).active[i].remaining == 0.0
      && s.active[i].handle == Some(Soonest(s.timers))
  {
    var i := s.timers[Soonest(s.timers)].callback.id;
    assert Due(s, i);
    RunsOut(Popped(s), i);
    ClampNeverDiscards(s, i);
  }

  lemma SharePositive(s: State)
    requires s.capacity > 0.0 && s.active != map[]
    ensures Share(s) > 0.0
  {
    assert |s.active| > 0;
  }

  /** The timers and phases of `s` at the current rate, with the accounting brought up to date. */
  ghost predicate Settled(s: State) {
    && s.lastUpdate == s.clock && Linked(s)
    && (forall i :: i in s.active ==> s.active[i].remaining >= 0.0)
    && (forall h :: h in s.timers && s.timers[h].callback.Enter? ==> s.clock <= s.timers[h].when)
  }

  lemma RetimedIsClocked(s: State)
    requires Settled(s) && s.rate > 0.0
    ensures var r := RetimeAll(s, s.active.Keys);
      Clocked(r) && Linked(r) && SameFlows(s, r)
  {
    RetimeAllExact(s, s.active.Keys);
    var r := RetimeAll(s, s.active.Keys);
    forall i | i in r.active ensures r.active[i].remaining >= 0.0 && Due(r, i) {
      assert i in s.active && Timed(r, i);
    }
    forall h | h in r.timers
      ensures r.clock <= r.timers[h].when
    {
      if r.timers[h].callback.Enter? {
        assert h in Enters(r);
      } else {
        var i := r.timers[h].callback.id;
        assert Timed(r, i);
        QuotientNonNegative(r.active[i].remaining, r.rate);
      }
    }
  }

  /** Recomputing after an advance leaves every active transfer due where its bytes say. */
  lemma RecomputeTimes(s: State)
    requires s.capacity > 0.0 && Settled(s)
    ensures var r := Recompute(s);
      ChannelInv(r) && SameFlows(s.(rate := Share(s)), r)
  {
    var r0 := s.(rate := Share(s));
    if r0.active == map[] {
      assert forall h :: h in r0.timers ==> r0.timers[h].callback.Enter?;
    } else {
      SharePositive(s);
      RetimedIsClocked(r0);
      var r := Recompute(s);
      assert r.active.Keys == s.active.Keys;
      assert |r.active| == |r.active.Keys| && |s.active| == |s.active.Keys|;
      assert Share(r) == Share(s);
    }
  }

  /** The channel as the next timer finds it: everything debited up to its instant. */
  ghost function Reached(s: State): State
    requires s.timers != map[]
  {
    Advance(Popped(s))
  }

  lemma ReachedIsSettled(s: State)
    requires ChannelInv(s) && s.timers != map[]
    ensures var a := Reached(s);
      && Settled(a) && a.active.Keys == s.active.Keys && a.capacity == s.capacity
      && a.timers == s.timers - {Soonest(s.timers)} && a.clock == s.timers[Soonest(s.timers)].when
      && (forall i :: i in s.active ==>
            a.active[i] == Flow(s.active[i].remaining - Moved(Popped(s)), s.active[i].handle))
  {
    hide Share, Due, Moved;
    var p := Popped(s);
    var a := Reached(s);
    assert forall k :: k in p.timers ==> Sooner(s.timers, Soonest(s.timers), k);
    assert p.clock >= s.clock;
    assert a.active.Keys == s.active.Keys;
    forall i | i in s.active
      ensures a.active[i] == Flow(s.active[i].remaining - Moved(p), s.active[i].handle) && a.active[i].remaining >= 0.0
    {
      ClampNeverDiscards(s, i);
    }
  }

  /** One transfer more, with a handle that is no live timer, is nothing the timers mind. */
  lemma JoinSettles(a: State, i: nat, nbytes: real, h: nat)
    requires Settled(a) && i !in a.active && nbytes >= 0.0 && h < a.next && h !in a.timers
    ensures var b := a.(active := a.active[i := Flow(nbytes, Some(h))]);
      Settled(b) && Enters(b.(rate := Share(b))) == Enters(a)
  {}

  lemma PoppedEnters(s: State, a: State)
    requires s.timers != map[] && a.timers == s.timers - {Soonest(s.timers)}
    ensures Enters(a) == Enters(s) - {Soonest(s.timers)}
  {}

  /** A transfer joins with its bytes; every other one keeps what it had left. */
  lemma JoinKeeps(s: State, i: nat, nbytes: real)
    requires ChannelInv(s) && s.timers != map[] && i !in s.active && nbytes >= 0.0
    ensures var r := Join(Popped(s), i, nbytes, Some(Soonest(s.timers)));
      && ChannelInv(r) && r.active.Keys == s.active.Keys + {i} && r.active[i].remaining == nbytes
      && r.clock == r.lastUpdate == s.timers[Soonest(s.timers)].when && r.capacity == s.capacity
      && Enters(r) == Enters(s) - {Soonest(s.timers)}
      && (forall j :: j in s.active ==> r.active[j].remaining == s.active[j].remaining - Moved(Popped(s)))
  {
    hide RetimeAll, Share, Due, Enters;
    ReachedIsSettled(s);
    var a, h := Reached(s), Soonest(s.timers);
    assert h < a.next && h !in a.timers && a.lastUpdate == a.clock;
    hide Settled;
    JoinSettles(a, i, nbytes, h);
    PoppedEnters(s, a);
    hide Linked, Clocked;
    RecomputeTimes(a.(active := a.active[i := Flow(nbytes, Some(h))]));
  }

  /** The transfer whose timer fired leaves with nothing left; every other one keeps its bytes. */
  lemma LeaveKeeps(s: State)
    requires ChannelInv(s) && s.timers != map[] && s.timers[Soonest(s.timers)].callback.Complete?
    ensures var i := s.timers[Soonest(s.timers)].callback.id;
      var r := Leave(Popped(s), i);
      && ChannelInv(r) && i in s.active && r.active.Keys == s.active.Keys - {i}
      && s.active[i].remaining == Moved(Popped(s))
      && r.clock == r.lastUpdate == s.timers[Soonest(s.timers)].when && r.capacity == s.capacity
      && Enters(r) == Enters(s)
      && (forall j :: j in r.active ==> r.active[j].remaining == s.active[j].remaining - Moved(Popped(s)))
  {
    hide RetimeAll, Share, Due, Settled;
    ReachedIsSettled(s);
    CompletesAtZero(s);
    LeaveSettles(s);
    var i := s.timers[Soonest(s.timers)].callback.id;
    RecomputeTimes(Reached(s).(active := Reached(s).active - {i}));
  }

  lemma LeaveSettles(s: State)
    requires ChannelInv(s) && s.timers != map[] && s.timers[Soonest(s.timers)].callback.Complete?
    ensures var i := s.timers[Soonest(s.timers)].callback.id;
      var b := Reached(s).(active := Reached(s).active - {i});
      Settled(b) && Enters(b) == Enters(s)
  {
    hide Share, Due, Moved, Reached;
    ReachedIsSettled(s);
  }

  lemma ShareAtMostCapacity(s: State)
    requires s.capacity > 0.0
    ensures 0.0 <= Share(s) <= s.capacity
  {
    if |s.active| > 0 {
      var k := |s.active| as real;
      assert k >= 1.0 && (s.capacity / k) * k == s.capacity;
    }
  }

  lemma SlowerThanCapacity(left: real, moved: real, elapsed: real, rate: real, capacity: real, since: real,
      nbytes: real)
    requires 0.0 <= rate <= capacity && elapsed >= 0.0 && moved == elapsed * rate
    requires left + capacity * since >= nbytes
    ensures left - moved + capacity * (since + elapsed) >= nbytes
  {
    FasterMovesMore(rate, capacity, elapsed);
    assert capacity * (since + elapsed) == capacity * since + elapsed * capacity;
  }

  lemma FasterMovesMore(a: real, b: real, r: real)
    requires a <= b && r >= 0.0
    ensures r * a <= r * b
  {}

  lemma FinishBound(capacity: real, span: real, nbytes: real)
    requires capacity > 0.0 && capacity * span >= nbytes
    ensures nbytes / capacity <= span
  {
    var q := nbytes / capacity;
    assert capacity * q == nbytes;
    if q > span {
      assert capacity * (q - span) > 0.0;
      assert capacity * (q - span) == capacity * q - capacity * span;
    }
  }

  /** One timer later an active transfer still obeys its bound. */
  lemma BoundCarries(p: State, left: real, entry: real, nbytes: real)
    requires 0.0 <= p.rate <= p.capacity && p.lastUpdate <= p.clock
    requires left + Whole(p.capacity, p.lastUpdate - entry) >= nbytes
    ensures left - Moved(p) + Whole(p.capacity, p.clock - entry) >= nbytes
  {
    SlowerThanCapacity(left, Moved(p), p.clock - p.lastUpdate, p.rate, p.capacity, p.lastUpdate - entry, nbytes);
    assert p.lastUpdate - entry + (p.clock - p.lastUpdate) == p.clock - entry;
  }

  lemma PoppedRate(s: State)
    requires ChannelInv(s) && s.timers != map[]
    ensures 0.0 <= s.rate <= s.capacity && s.lastUpdate <= s.clock <= Popped(s).clock
    ensures s.capacity > 0.0
  {
    ShareAtMostCapacity(s);
  }

  lemma WholeOfNothing(capacity: real)
    ensures Whole(capacity, 0.0) == 0.0
  {}

  lemma BoundsAfterEnter(w: World, r: State, i: nat, p: State)
    requires NoneFasterThanSolo(w) && w.s.capacity > 0.0 && w.s.clock <= r.clock
    requires p.active == w.s.active && p.rate == w.s.rate && p.capacity == w.s.capacity
      && p.lastUpdate == w.s.lastUpdate
    requires 0.0 <= p.rate <= p.capacity && p.lastUpdate <= p.clock == r.clock == r.lastUpdate
      && r.capacity == p.capacity
    requires i in w.asked && r.active.Keys == w.s.active.Keys + {i}
    requires r.clock == Entry(w.asked[i]) && r.active[i].remaining == w.asked[i].nbytes && i !in w.s.active
    requires forall j :: j in w.s.active ==> r.active[j].remaining == w.s.active[j].remaining - Moved(p)
    ensures NoneFasterThanSolo(World(r, w.asked, w.warming - {i}, w.done))
  {
    hide Moved, Whole;
    WholeOfNothing(r.capacity);
    forall j | j in r.active && j in w.asked
      ensures r.active[j].remaining + Whole(r.capacity, r.lastUpdate - Entry(w.asked[j])) >= w.asked[j].nbytes
    {
      if j == i {
        assert r.lastUpdate - Entry(w.asked[j]) == 0.0;
      } else {
        BoundCarries(p, w.s.active[j].remaining, Entry(w.asked[j]), w.asked[j].nbytes);
      }
    }
  }

  lemma PhasesAfterEnter(w: World, r: State, h: nat)
    requires Phases(w) && h in Enters(w.s)
    requires Enters(r) == Enters(w.s) - {h}
    requires r.active.Keys == w.s.active.Keys + {Enters(w.s)[h].callback.id}
    ensures Phases(World(r, w.asked, w.warming - {Enters(w.s)[h].callback.id}, w.done))
  {
    hide Enters;
    var i := Enters(w.s)[h].callback.id;
    assert w.warming[i] == h;
    forall j | j in w.warming && j != i
      ensures w.warming[j] in Enters(r) && Enters(r)[w.warming[j]] == Enters(w.s)[w.warming[j]]
    {
      assert Enters(w.s)[w.warming[j]].callback == Enter(j);
    }
  }

  /** A transfer leaves its latency for the byte phase. */
  lemma EnterKeepsInv(w: World)
    requires Inv(w) && w.s.timers != map[] && w.s.timers[Soonest(w.s.timers)].callback.Enter?
    ensures Inv(Fire(w))
  {
    hide Join, Moved, Share, Linked, Clocked, NoneFasterThanSolo;
    var h := Soonest(w.s.timers);
    var i := w.s.timers[h].callback.id;
    assert h in Enters(w.s) && Enters(w.s)[h] == w.s.timers[h];
    assert i in w.warming && w.warming[i] == h;
    assert i in w.asked && i !in w.s.active;
    PoppedRate(w.s);
    JoinKeeps(w.s, i, w.asked[i].nbytes);
    PhasesAfterEnter(w, Join(Popped(w.s), i, w.asked[i].nbytes, Some(h)), h);
    BoundsAfterEnter(w, Join(Popped(w.s), i, w.asked[i].nbytes, Some(h)), i, Popped(w.s));
  }

  lemma SoloBound(ask: Ask, capacity: real, end: real)
    requires capacity > 0.0 && Whole(capacity, end - Entry(ask)) >= ask.nbytes
    ensures Solo(ask, capacity) <= end
  {
    FinishBound(capacity, end - Entry(ask), ask.nbytes);
  }

  lemma BoundsAfterLeave(w: World, r: State, i: nat, p: State)
    requires NoneFasterThanSolo(w) && w.s.capacity > 0.0 && w.s.clock <= r.clock
    requires p.active == w.s.active && p.rate == w.s.rate && p.capacity == w.s.capacity
      && p.lastUpdate == w.s.lastUpdate
    requires 0.0 <= p.rate <= p.capacity && p.lastUpdate <= p.clock == r.clock == r.lastUpdate
      && r.capacity == p.capacity
    requires i in w.asked && i in w.s.active && r.active.Keys == w.s.active.Keys - {i}
    requires w.s.active[i].remaining == Moved(p)
    requires forall j :: j in r.active ==> r.active[j].remaining == w.s.active[j].remaining - Moved(p)
    ensures NoneFasterThanSolo(World(r, w.asked, w.warming, w.done[i := r.clock]))
  {
    hide Moved, Solo, Entry, Whole;
    BoundCarries(p, w.s.active[i].remaining, Entry(w.asked[i]), w.asked[i].nbytes);
    SoloBound(w.asked[i], p.capacity, p.clock);
    forall j | j in r.active && j in w.asked
      ensures r.active[j].remaining + Whole(r.capacity, r.lastUpdate - Entry(w.asked[j])) >= w.asked[j].nbytes
    {
      BoundCarries(p, w.s.active[j].remaining, Entry(w.asked[j]), w.asked[j].nbytes);
    }
  }

  lemma PhasesAfterLeave(w: World, r: State, i: nat)
    requires Phases(w) && i in w.s.active
    requires Enters(r) == Enters(w.s) && r.active.Keys == w.s.active.Keys - {i}
    ensures Phases(World(r, w.asked, w.warming, w.done[i := r.clock]))
  {
    hide Enters;
  }

  /** A transfer's bytes are exhausted and it leaves. */
  lemma CompleteKeepsInv(w: World)
    requires Inv(w) && w.s.timers != map[] && w.s.timers[Soonest(w.s.timers)].callback.Complete?
    ensures Inv(Fire(w))
  {
    hide Leave, Moved, Share, Linked, Clocked, NoneFasterThanSolo;
    var i := w.s.timers[Soonest(w.s.timers)].callback.id;
    PoppedRate(w.s);
    LeaveKeeps(w.s);
    PhasesAfterLeave(w, Leave(Popped(w.s), i), i);
    BoundsAfterLeave(w, Leave(Popped(w.s), i), i, Popped(w.s));
  }

  lemma PhasesAfterAsk(w: World, r: State, i: nat, ask: Ask, h: nat)
    requires Phases(w) && i !in w.asked && h !in Enters(w.s) && ask.latency >= 0.0 && ask.nbytes >= 0.0
    requires Enters(r) == Enters(w.s)[h := Timer(ask.at + ask.latency, Enter(i))] && r.active == w.s.active
    ensures Phases(World(r, w.asked[i := ask], w.warming[i := h], w.done))
  {
    hide Enters;
  }

  lemma RegisterKeepsChannel(s: State, i: nat, ask: Ask)
    requires ChannelInv(s) && ask.latency >= 0.0
    requires s.clock <= ask.at && forall h :: h in s.timers ==> ask.at <= s.timers[h].when
    ensures var r := Register(s.(clock := ask.at), i, ask.latency);
      ChannelInv(r) && Enters(r) == Enters(s)[s.next := Timer(ask.at + ask.latency, Enter(i))]
  {
    hide Share;
    var r := Register(s.(clock := ask.at), i, ask.latency);
    ShareDepends(s, r);
    forall j | j in r.active ensures r.active[j].remaining >= 0.0 && Due(r, j) {
      assert Due(s, j);
    }
  }

  lemma BoundsAfterAsk(w: World, r: State, i: nat, ask: Ask, h: nat)
    requires NoneFasterThanSolo(w) && i !in w.s.active && i !in w.done
    requires r.active == w.s.active && r.lastUpdate == w.s.lastUpdate && r.capacity == w.s.capacity
      && w.s.clock <= r.clock
    ensures NoneFasterThanSolo(World(r, w.asked[i := ask], w.warming[i := h], w.done))
  {
    hide Solo, Entry;
  }

  /** A registration only adds a latency timer. */
  lemma AskKeepsInv(w: World, i: nat, ask: Ask)
    requires Inv(w) && Enabled(w, Asks(i, ask))
    ensures Inv(Step(w, Asks(i, ask)))
  {
    hide Share, Clocked, Linked, NoneFasterThanSolo, Enters;
    RegisterKeepsChannel(w.s, i, ask);
    assert w.s.next !in Enters(w.s) by { NextIsFresh(w.s); }
    BoundsAfterAsk(w, Step(w, Asks(i, ask)).s, i, ask, w.s.next);
    PhasesAfterAsk(w, Step(w, Asks(i, ask)).s, i, ask, w.s.next);
  }

  lemma NextIsFresh(s: State)
    requires Linked(s)
    ensures s.next !in Enters(s)
  {}

  lemma ShareDepends(s: State, r: State)
    requires s.active == r.active && s.capacity == r.capacity
    ensures Share(s) == Share(r)
  {}

  lemma StepKeepsInv(w: World, e: Event)
    requires Inv(w) && Enabled(w, e)
    ensures Inv(Step(w, e))
  {
    hide Inv, Fire;
    match e
    case Asks(i, ask) => AskKeepsInv(w, i, ask);
    case Fires =>
      if w.s.timers[Soonest(w.s.timers)].callback.Enter? { EnterKeepsInv(w); } else { CompleteKeepsInv(w); }
  }

  /**
   Over every run: each active transfer has one live timer, at `lastUpdate + remaining / rate`
   with `rate = capacity / k`; no timer is overdue; and no transfer ends before it could have
   alone.
   */
  lemma {:induction false} EveryRunKeepsInv(w: World, es: seq<Event>)
    requires Inv(w) && Legal(w, es)
    ensures Inv(Run(w, es))
    decreases |es|
  {
    hide Inv, Step, Enabled;
    if es != [] {
      StepKeepsInv(w, es[0]);
      EveryRunKeepsInv(Step(w, es[0]), es[1..]);
    }
  }

  lemma FreshInv(capacity: real, now: real)
    requires capacity > 0.0
    ensures Inv(Fresh(capacity, now))
  {}
}
