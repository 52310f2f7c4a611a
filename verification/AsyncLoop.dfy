/**
 The virtual-clock event loop of `sim_common/async_engine.py`, in its FIFO mode: timers popped in
 `(when, seq)` order, a clock that only jumps when nothing is ready, and one drain a tick. A callback
 is what it does to the loop: schedule, cancel, stop.
 */
module AsyncLoop {
  import opened Basics
  import Sorting

  /** A scheduled callback: a timer, or a `call_soon` in the order of its calling. */
  datatype Handle = Timer(when: real, order: nat) | Soon(n: nat)

  datatype Ran = Ran(handle: Handle, at: real)

  /**
   The loop. `scheduled` is the heap in the order it pops; `batch` is the rest of the tick's drain;
   `timers` is when each timer so far was set for, and `ran` which callbacks ran and when.
   */
  datatype Loop = Loop(
    clock: real,
    scheduled: seq<Handle>,
    ready: seq<Handle>,
    batch: seq<Handle>,
    cancelled: set<Handle>,
    timers: seq<real>,
    soons: nat,
    stopping: bool,
    ran: seq<Ran>)

  /** The sort key `(when, seq)`; only timers are scheduled. */
  predicate Lt(a: Handle, b: Handle) {
    a.Timer? && b.Timer? && (a.when < b.when || (a.when == b.when && a.order < b.order))
  }

  /** `heappush`. */
  function Push(scheduled: seq<Handle>, h: Handle): (r: seq<Handle>)
    ensures |r| == |scheduled| + 1
  {
    Sorting.Insert(Lt, scheduled, h)
  }

  // ----- what a callback can do -----------------------------------------------------------

  datatype Effect = CallAt(when: real) | CallSoon | Cancel(handle: Handle) | Stop

  function Do(l: Loop, e: Effect): Loop {
    match e
    case CallAt(when) =>
      l.(scheduled := Push(l.scheduled, Timer(when, |l.timers|)), timers := l.timers + [when])
    case CallSoon => l.(ready := l.ready + [Soon(l.soons)], soons := l.soons + 1)
    case Cancel(h) => l.(cancelled := l.cancelled + {h})
    case Stop => l.(stopping := true)
  }

  // ----- one tick -------------------------------------------------------------------------

  /** Cancelled timers at the head of the schedule go. */
  function Drop(l: Loop): Loop
    decreases |l.scheduled|
  {
    if l.scheduled == [] || l.scheduled[0] !in l.cancelled then l else Drop(l.(scheduled := l.scheduled[1..]))
  }

  function WhenOf(h: Handle): real {
    if h.Timer? then h.when else 0.0
  }

  /** With nothing ready the clock jumps to the earliest timer; with none of those either, it is a deadlock. */
  function Advance(l: Loop): Option<Loop> {
    if l.ready != [] || l.stopping then Some(l)
    else if l.scheduled == [] then None
    else Some(l.(clock := Max(l.clock, WhenOf(l.scheduled[0]))))
  }

  /** Every timer now due becomes ready. */
  function Due(l: Loop): Loop
    decreases |l.scheduled|
  {
    if l.scheduled == [] || WhenOf(l.scheduled[0]) > l.clock then l else
      Due(l.(scheduled := l.scheduled[1..], ready := l.ready + [l.scheduled[0]]))
  }

  /** The head of a tick: what it will drain is fixed, and what callbacks add waits for the next. */
  function Begin(l: Loop): Option<Loop> {
    match Advance(Drop(l))
    case None => None
    case Some(a) =>
      var d := Due(a);
      Some(d.(batch := d.ready, ready := []))
  }

  /** The next callback of the drain, unless it was cancelled. */
  function RunNext(l: Loop): Loop
    requires l.batch != []
  {
    var h := l.batch[0];
    var r := l.(batch := l.batch[1..]);
    if h in l.cancelled then r else r.(ran := l.ran + [Ran(h, l.clock)])
  }

  datatype Event = Does(effect: Effect) | Tick | Runs

  /** Timers are never set in the past; a tick begins once the last one has drained. */
  predicate Legal(l: Loop, ev: Event) {
    match ev
    case Does(CallAt(when)) => when >= l.clock
    case Does(_) => true
    case Tick => l.batch == [] && Begin(l).Some?
    case Runs => l.batch != []
  }

  function Next(l: Loop, ev: Event): Loop
    requires Legal(l, ev)
  {
    match ev
    case Does(e) => Do(l, e)
    case Tick => Begin(l).value
    case Runs => RunNext(l)
  }

  function New(): Loop {
    Loop(0.0, [], [], [], {}, [], 0, false, [])
  }

  // ----- what every event keeps -----------------------------------------------------------

  /** Known to the loop: a timer as it was set, or a callback it was given. */
  predicate Made(l: Loop, h: Handle) {
    match h
    case Timer(when, order) => order < |l.timers| && when == l.timers[order]
    case Soon(n) => n < l.soons
  }

  /** Strictly before among their own kind: timers by `(when, seq)`, the rest as they were called. */
  predicate Ahead(a: Handle, b: Handle) {
    match (a, b)
    case (Timer(_, _), Timer(_, _)) => Lt(a, b)
    case (Soon(m), Soon(n)) => m < n
    case _ => true
  }

  ghost predicate Chain(hs: seq<Handle>) {
    forall i, j :: 0 <= i < j < |hs| ==> Ahead(hs[i], hs[j])
  }

  function Handles(ran: seq<Ran>): (hs: seq<Handle>)
    ensures |hs| == |ran| && forall i: nat :: i < |ran| ==> hs[i] == ran[i].handle
  {
    if ran == [] then [] else [ran[0].handle] + Handles(ran[1..])
  }

  /** Ran, then draining, then ready, then scheduled: the order everything runs in. */
  function Line(l: Loop): seq<Handle> {
    Handles(l.ran) + l.batch + l.ready + l.scheduled
  }

  ghost predicate Placed(l: Loop) {
    && (forall h :: h in Line(l) ==> Made(l, h))
    && (forall h :: h in l.scheduled ==> h.Timer? && h.when >= l.clock)
    && (forall h :: h in l.ready ==> h.Soon?)
    && (forall h :: h in l.batch && h.Timer? ==> h.when == l.clock)
  }

  /** Every timer ran at its very instant, and the clock never went back. */
  ghost predicate OnTime(l: Loop) {
    && (forall r :: r in l.ran ==> r.at <= l.clock && (r.handle.Timer? ==> r.at == r.handle.when))
    && (forall i, j :: 0 <= i < j < |l.ran| ==> l.ran[i].at <= l.ran[j].at)
  }

  /** Nothing set is lost: it ran, will run, or was cancelled. */
  ghost predicate Kept(l: Loop) {
    && (forall k: nat :: k < |l.timers| ==> Timer(l.timers[k], k) in Line(l) || Timer(l.timers[k], k) in l.cancelled)
    && (forall k: nat :: k < l.soons ==> Soon(k) in Line(l) || Soon(k) in l.cancelled)
  }

  ghost predicate Inv(l: Loop) {
    Chain(Line(l)) && Placed(l) && OnTime(l) && Kept(l)
  }

  lemma NewInv()
    ensures Inv(New())
  {}

  /** A tick that cannot begin is a deadlock: nothing ready, nothing stopping, and no timer left alive. */
  lemma {:induction false} DropIs(l: Loop)
    ensures var d := Drop(l);
      && d == l.(scheduled := d.scheduled)
      && |d.scheduled| <= |l.scheduled| && d.scheduled == l.scheduled[|l.scheduled| - |d.scheduled|..]
      && (forall h :: h in l.scheduled ==> h in d.scheduled || h in l.cancelled)
      && (d.scheduled != [] ==> d.scheduled[0] !in l.cancelled)
    decreases |l.scheduled|
  {
    if l.scheduled != [] && l.scheduled[0] in l.cancelled {
      DropIs(l.(scheduled := l.scheduled[1..]));
    }
  }

  lemma DeadlockIff(l: Loop)
    ensures Begin(l).None? <==> l.ready == [] && !l.stopping && forall h :: h in l.scheduled ==> h in l.cancelled
  {
    DropIs(l);
    var d := Drop(l);
    if d.scheduled != [] {
      assert d.scheduled[0] in l.scheduled;
    }
  }

  // ----- keeping the line in order --------------------------------------------------------

  function Front(l: Loop): seq<Handle> {
    Handles(l.ran) + l.batch + l.ready
  }

  lemma ChainCut(a: seq<Handle>, m: seq<Handle>, b: seq<Handle>)
    requires Chain(a + m + b)
    ensures Chain(a + b)
  {
    var all, r := a + m + b, a + b;
    assert forall i: nat :: i < |r| ==> r[i] == all[if i < |a| then i else i + |m|];
  }

  lemma ChainInsert(a: seq<Handle>, h: Handle, b: seq<Handle>)
    requires Chain(a + b)
    requires forall x :: x in a ==> Ahead(x, h)
    requires forall x :: x in b ==> Ahead(h, x)
    ensures Chain(a + [h] + b)
  {
    var all, r := a + b, a + [h] + b;
    forall i, j | 0 <= i < j < |r|
      ensures Ahead(r[i], r[j])
    {
      if i == |a| {
        assert r[j] == b[j - |a| - 1];
      } else if j == |a| {
        assert r[i] == a[i];
      } else {
        assert r[i] == all[if i < |a| then i else i - 1] && r[j] == all[if j < |a| then j else j - 1];
      }
    }
  }

  /** The latest timer goes behind everything not set for later, and ahead of all that is. */
  lemma PushChain(front: seq<Handle>, scheduled: seq<Handle>, h: Handle)
    requires Chain(front + scheduled) && h.Timer?
    requires forall x :: x in front ==> Ahead(x, h)
    requires forall x :: x in scheduled ==> x.Timer? && x.order < h.order
    ensures Chain(front + Push(scheduled, h))
    ensures forall x :: x in Push(scheduled, h) <==> x in scheduled || x == h
  {
    var k := Sorting.InsertIs(Lt, scheduled, h);
    var a, b := front + scheduled[..k], scheduled[k..];
    assert a + b == front + scheduled;
    forall x | x in a
      ensures Ahead(x, h)
    {
      if x !in front { assert x in scheduled[..k]; }
    }
    forall x | x in b
      ensures Ahead(h, x)
    {
      var i: nat :| i < |b| && b[i] == x;
      assert (front + scheduled)[|front| + k + i] == x && (front + scheduled)[|front| + k] == b[0];
    }
    ChainInsert(a, h, b);
    assert front + Push(scheduled, h) == a + [h] + b;
    assert scheduled == scheduled[..k] + scheduled[k..];
  }

  /** Nothing is lost when whoever leaves the line was cancelled, and whoever is new is in it. */
  lemma KeptOn(l: Loop, r: Loop)
    requires Kept(l) && l.cancelled <= r.cancelled
    requires forall x :: x in Line(l) ==> x in Line(r) || x in r.cancelled
    requires |l.timers| <= |r.timers| && r.timers[..|l.timers|] == l.timers
    requires forall k: nat :: |l.timers| <= k < |r.timers| ==> Timer(r.timers[k], k) in Line(r)
    requires forall k: nat :: l.soons <= k < r.soons ==> Soon(k) in Line(r)
    ensures Kept(r)
  {
    hide Line;
    assert forall k: nat :: k < |l.timers| ==> r.timers[k] == l.timers[k];
  }

  /** Everyone in the line is still known when one more joins. */
  lemma OneMore(l: Loop, r: Loop, h: Handle)
    requires forall x :: x in Line(l) ==> Made(l, x)
    requires Made(r, h) && l.soons <= r.soons && |l.timers| <= |r.timers| && r.timers[..|l.timers|] == l.timers
    requires forall x :: x in Line(r) ==> x in Line(l) || x == h
    ensures forall x :: x in Line(r) ==> Made(r, x)
  {
    hide Line;
    assert forall k: nat :: k < |l.timers| ==> r.timers[k] == l.timers[k];
  }

  /** A new timer is behind whatever ran or is about to, and was made after whatever is scheduled. */
  lemma AllBehind(l: Loop, when: real)
    requires Placed(l) && OnTime(l) && when >= l.clock
    ensures forall x :: x in Front(l) ==> Ahead(x, Timer(when, |l.timers|))
    ensures forall x :: x in l.scheduled ==> x.Timer? && x.order < |l.timers|
  {
    hide Handles;
    forall x | x in Front(l)
      ensures Ahead(x, Timer(when, |l.timers|))
    {
      assert x in Line(l);
      BeforeNow(l, x);
    }
    forall x | x in l.scheduled
      ensures x.Timer? && x.order < |l.timers|
    {
      assert x in Line(l);
    }
  }

  lemma CallAtKeepsInv(l: Loop, when: real)
    requires Inv(l) && when >= l.clock
    ensures Inv(Do(l, CallAt(when)))
  {
    hide Push, Handles, Kept;
    var r, h := Do(l, CallAt(when)), Timer(when, |l.timers|);
    AllBehind(l, when);
    assert Line(l) == Front(l) + l.scheduled && Line(r) == Front(l) + Push(l.scheduled, h);
    PushChain(Front(l), l.scheduled, h);
    OneMore(l, r, h);
    KeptOn(l, r);
  }

  /** Nothing that ran or is about to was set for later than now. */
  lemma BeforeNow(l: Loop, x: Handle)
    requires Placed(l) && OnTime(l) && x in Front(l)
    ensures x.Timer? ==> x.when <= l.clock
  {
    if x in Handles(l.ran) {
      var i: nat :| i < |l.ran| && Handles(l.ran)[i] == x;
      assert l.ran[i] in l.ran;
    }
  }

  lemma CallSoonKeepsInv(l: Loop)
    requires Inv(l)
    ensures Inv(Do(l, CallSoon))
  {
    hide Handles, Kept;
    var r, h := Do(l, CallSoon), Soon(l.soons);
    assert forall x :: x in Front(l) ==> x in Line(l) && Made(l, x);
    assert Line(l) == Front(l) + l.scheduled && Line(r) == Front(l) + [h] + l.scheduled;
    ChainInsert(Front(l), h, l.scheduled);
    OneMore(l, r, h);
    KeptOn(l, r);
  }

  lemma DropKeepsInv(l: Loop)
    requires Inv(l)
    ensures Inv(Drop(l))
  {
    hide Handles, Drop, Kept;
    DropIs(l);
    var d := Drop(l);
    var gone := l.scheduled[..|l.scheduled| - |d.scheduled|];
    assert Line(l) == Front(l) + gone + d.scheduled && Line(d) == Front(l) + d.scheduled;
    ChainCut(Front(l), gone, d.scheduled);
    forall x | x in Line(d)
      ensures x in Line(l)
    {
      assert x in Front(l) || x in d.scheduled;
    }
    KeptOn(l, d);
  }

  /** The head of the schedule is the earliest on it. */
  lemma HeadIsEarliest(l: Loop, x: Handle)
    requires Chain(Line(l)) && Placed(l) && x in l.scheduled
    ensures l.scheduled[0].when <= x.when
  {
    hide Handles;
    var i: nat :| i < |l.scheduled| && l.scheduled[i] == x;
    assert Line(l) == Front(l) + l.scheduled;
    assert Line(l)[|Front(l)|] == l.scheduled[0] && Line(l)[|Front(l)| + i] == x;
  }

  lemma AdvanceKeepsInv(l: Loop)
    requires Inv(l) && l.batch == [] && Advance(l).Some?
    ensures Inv(Advance(l).value)
  {
    hide Handles;
    var a := Advance(l).value;
    assert Line(a) == Line(l);
    forall x | x in l.scheduled
      ensures x.when >= a.clock
    {
      HeadIsEarliest(l, x);
    }
  }

  /** What is due moves over without changing the order of anything. */
  lemma {:induction false} DueIs(l: Loop)
    ensures var d := Due(l);
      && d == l.(scheduled := d.scheduled, ready := d.ready)
      && d.ready + d.scheduled == l.ready + l.scheduled
      && |l.ready| <= |d.ready| && d.ready[..|l.ready|] == l.ready
      && (forall x :: x in d.ready[|l.ready|..] ==> WhenOf(x) <= l.clock)
      && (d.scheduled != [] ==> WhenOf(d.scheduled[0]) > l.clock)
    decreases |l.scheduled|
  {
    if l.scheduled != [] && WhenOf(l.scheduled[0]) <= l.clock {
      var n := l.(scheduled := l.scheduled[1..], ready := l.ready + [l.scheduled[0]]);
      DueIs(n);
      var d := Due(l);
      assert n.ready + n.scheduled == l.ready + l.scheduled;
      GrownBy(l.ready, l.scheduled[0], d.ready);
    }
  }

  lemma GrownBy(ready: seq<Handle>, h: Handle, more: seq<Handle>)
    requires |ready| < |more| && more[..|ready| + 1] == ready + [h]
    ensures more[..|ready|] == ready && more[|ready|..] == [h] + more[|ready| + 1..]
  {
    assert more[..|ready|] == more[..|ready| + 1][..|ready|];
    assert more[|ready|] == more[..|ready| + 1][|ready|];
  }

  lemma DueKeepsInv(l: Loop)
    requires Inv(l) && l.batch == []
    ensures var d := Due(l); Inv(d.(batch := d.ready, ready := []))
  {
    var d := Due(l);
    var r := d.(batch := d.ready, ready := []);
    DueLine(l);
    DuePlaced(l);
    hide Handles, Due, Line, Placed;
    DueIs(l);
  }

  lemma Regrouped(a: seq<Handle>, b: seq<Handle>, c: seq<Handle>)
    ensures a + [] + b + c == a + (b + c) && a + b + [] + c == a + (b + c)
  {
    assert a + [] == a && a + b + [] == a + b;
  }

  lemma DueLine(l: Loop)
    requires l.batch == []
    ensures var d := Due(l); Line(d.(batch := d.ready, ready := [])) == Line(l)
  {
    hide Handles, Due;
    DueIs(l);
    var d := Due(l);
    Regrouped(Handles(l.ran), d.ready, d.scheduled);
    Regrouped(Handles(l.ran), l.ready, l.scheduled);
  }

  /** Whatever becomes due was set for just now, and whatever is not is still to come. */
  lemma DuePlaced(l: Loop)
    requires Placed(l) && l.batch == []
    ensures var d := Due(l); Placed(d.(batch := d.ready, ready := []))
  {
    DueLine(l);
    hide Handles, Due, Line;
    DueIs(l);
    var d := Due(l);
    forall x | x in d.scheduled || x in d.ready[|l.ready|..]
      ensures x in l.scheduled
    {
      DueFrom(l.ready, l.scheduled, d.ready, d.scheduled, x);
    }
    assert d.ready == l.ready + d.ready[|l.ready|..];
  }

  lemma DueFrom(ready: seq<Handle>, scheduled: seq<Handle>, now: seq<Handle>, later: seq<Handle>, x: Handle)
    requires now + later == ready + scheduled && |ready| <= |now| && (x in later || x in now[|ready|..])
    ensures x in scheduled
  {
    assert scheduled == (ready + scheduled)[|ready|..] == now[|ready|..] + later;
  }

  lemma TickKeepsInv(l: Loop)
    requires Inv(l) && Legal(l, Tick)
    ensures Inv(Next(l, Tick))
  {
    hide Inv, Drop, Advance, Due;
    DropKeepsInv(l);
    DropIs(l);
    AdvanceKeepsInv(Drop(l));
    AdvanceIsClock(Drop(l));
    DueKeepsInv(Advance(Drop(l)).value);
  }

  lemma AdvanceIsClock(l: Loop)
    requires Advance(l).Some?
    ensures var a := Advance(l).value; a == l.(clock := a.clock) && a.clock >= l.clock
  {}

  lemma RunKeepsInv(l: Loop)
    requires Inv(l) && l.batch != []
    ensures Inv(RunNext(l))
  {
    hide Handles, Kept, Chain, Placed;
    var h, r := l.batch[0], RunNext(l);
    var rest := l.batch[1..] + l.ready + l.scheduled;
    RunLine(l);
    if h in l.cancelled { ChainCut(Handles(l.ran), [h], rest); }
    KeptOn(l, r);
    RunPlaced(l);
    RunOnTime(l);
  }

  lemma RunOnTime(l: Loop)
    requires Placed(l) && OnTime(l) && l.batch != []
    ensures OnTime(RunNext(l))
  {
    hide Line, Handles;
    assert l.batch[0] in l.batch;
  }

  /** Running moves a callback from the drain to what ran; skipping it takes it out. */
  lemma RunLine(l: Loop)
    requires l.batch != []
    ensures var h, r := l.batch[0], RunNext(l);
      var rest := l.batch[1..] + l.ready + l.scheduled;
      && Line(l) == Handles(l.ran) + [h] + rest
      && Line(r) == if h in l.cancelled then Handles(l.ran) + rest else Line(l)
  {
    hide Handles;
    var h, r := l.batch[0], RunNext(l);
    assert l.batch == [h] + l.batch[1..];
    Regroup(Handles(l.ran), h, l.batch[1..], l.ready, l.scheduled);
    if h !in l.cancelled { assert Handles(r.ran) == Handles(l.ran) + [h]; }
  }

  lemma Regroup(a: seq<Handle>, h: Handle, b: seq<Handle>, c: seq<Handle>, d: seq<Handle>)
    ensures a + ([h] + b) + c + d == a + [h] + (b + c + d)
    ensures a + [h] + b + c + d == a + [h] + (b + c + d)
    ensures a + b + c + d == a + (b + c + d)
  {
    assert a + ([h] + b) == a + [h] + b;
    assert a + [h] + b + c == a + [h] + (b + c);
    assert a + b + c == a + (b + c);
  }

  lemma RunPlaced(l: Loop)
    requires Placed(l) && l.batch != []
    ensures Placed(RunNext(l))
  {
    hide Line, Handles, Made, RunNext;
    var r := RunNext(l);
    RunKeepsTheRest(l);
    forall x | x in Line(r)
      ensures Made(r, x)
    {
      RunMoves(l, x);
      SameMade(l, r, x);
    }
  }

  lemma RunKeepsTheRest(l: Loop)
    requires l.batch != []
    ensures var r := RunNext(l);
      && r.scheduled == l.scheduled && r.ready == l.ready && r.clock == l.clock
      && r.timers == l.timers && r.soons == l.soons && forall x :: x in r.batch ==> x in l.batch
  {}

  lemma SameMade(l: Loop, r: Loop, x: Handle)
    requires r.timers == l.timers && r.soons == l.soons
    ensures Made(l, x) == Made(r, x)
  {}

  lemma RunMoves(l: Loop, x: Handle)
    requires l.batch != [] && x in Line(RunNext(l))
    ensures x in Line(l)
  {
    RunLine(l);
    hide Handles, Line;
    assert x in Handles(l.ran) || x in l.batch[1..] + l.ready + l.scheduled || x == l.batch[0];
  }

  lemma NextKeepsInv(l: Loop, ev: Event)
    requires Inv(l) && Legal(l, ev)
    ensures Inv(Next(l, ev))
  {
    match ev
    case Does(CallAt(when)) => CallAtKeepsInv(l, when);
    case Does(CallSoon) => CallSoonKeepsInv(l);
    case Does(Cancel(h)) => assert Line(Next(l, ev)) == Line(l);
    case Does(Stop) => assert Line(Next(l, ev)) == Line(l);
    case Tick => TickKeepsInv(l);
    case Runs => RunKeepsInv(l);
  }

  // ----- what runs promise ----------------------------------------------------------------

  ghost predicate Possible(l: Loop, evs: seq<Event>)
    decreases |evs|
  {
    evs == [] || (Legal(l, evs[0]) && Possible(Next(l, evs[0]), evs[1..]))
  }

  ghost function Run(l: Loop, evs: seq<Event>): Loop
    requires Possible(l, evs)
    decreases |evs|
  {
    if evs == [] then l else Run(Next(l, evs[0]), evs[1..])
  }

  lemma {:induction false} EveryRunKeepsInv(l: Loop, evs: seq<Event>)
    requires Inv(l) && Possible(l, evs)
    ensures Inv(Run(l, evs))
    decreases |evs|
  {
    hide Inv, Next;
    if evs != [] {
      NextKeepsInv(l, evs[0]);
      EveryRunKeepsInv(Next(l, evs[0]), evs[1..]);
    }
  }

  /**
   In every run: a timer runs at its very instant, once, timers run in `(when, seq)` order and other
   callbacks in the order they were called, no pending timer lies before the clock, and whatever was
   never cancelled has run or is still to.
   */
  lemma EveryRunIsOnTime(evs: seq<Event>)
    requires Possible(New(), evs)
    ensures var l := Run(New(), evs);
      && (forall r :: r in l.ran && r.handle.Timer? ==> r.at == r.handle.when)
      && (forall i: nat, j: nat :: i < j < |l.ran| ==>
            l.ran[i].at <= l.ran[j].at && Ahead(l.ran[i].handle, l.ran[j].handle))
      && (forall h :: h in l.scheduled ==> WhenOf(h) >= l.clock)
      && (forall k: nat :: k < |l.timers| && Timer(l.timers[k], k) !in l.cancelled ==> Timer(l.timers[k], k) in Line(l))
  {
    NewInv();
    EveryRunKeepsInv(New(), evs);
    var l := Run(New(), evs);
    hide Run, Possible, Handles;
    forall i: nat, j: nat | i < j < |l.ran|
      ensures Ahead(l.ran[i].handle, l.ran[j].handle)
    {
      assert Line(l)[i] == Handles(l.ran)[i] && Line(l)[j] == Handles(l.ran)[j];
    }
  }

  /** With something ready, or stopping, a tick waits for nothing; otherwise it waits for the earliest live timer. */
  lemma ClockStopsAtLiveTimers(l: Loop)
    requires Inv(l) && Legal(l, Tick)
    ensures l.ready != [] || l.stopping ==> Next(l, Tick).clock == l.clock
    ensures l.ready == [] && !l.stopping ==>
      && (exists h :: h in l.scheduled && h !in l.cancelled && h.when == Next(l, Tick).clock)
      && (forall h :: h in l.scheduled && h !in l.cancelled ==> h.when >= Next(l, Tick).clock)
  {
    hide Drop, Due, Handles, Chain, Kept;
    DropIs(l);
    DropKeepsInv(l);
    var d := Drop(l);
    DueIs(Advance(d).value);
    if l.ready == [] && !l.stopping {
      var h := d.scheduled[0];
      assert h in d.scheduled && h in l.scheduled;
      forall x | x in l.scheduled && x !in l.cancelled
        ensures x.when >= h.when
      {
        HeadIsEarliest(d, x);
      }
    }
  }

  /** A tick drains what was ready and every live timer by then due, and leaves nothing ready. */
  lemma TickDrains(l: Loop, h: Handle)
    requires Inv(l) && Legal(l, Tick) && h !in l.cancelled
    ensures var r := Next(l, Tick);
      && r.ready == []
      && (h in r.batch <==> h in l.ready || (h in l.scheduled && h.when <= r.clock))
  {
    hide Drop, Due, Handles, Chain, Kept, Advance;
    DropIs(l);
    DropKeepsInv(l);
    AdvanceIsClock(Drop(l));
    AdvanceKeepsInv(Drop(l));
    var a := Advance(Drop(l)).value;
    DueIs(a);
    var d := Due(a);
    NotYet(a);
    assert h in d.ready + d.scheduled <==> h in l.ready || h in a.scheduled;
    assert h in l.scheduled <==> h in a.scheduled;
    assert d.ready == l.ready + d.ready[|l.ready|..];
  }

  /** Whoever is behind a timer in the schedule is for no earlier. */
  lemma BehindIsLater(l: Loop, i: nat, j: nat)
    requires Chain(Line(l)) && Placed(l) && i <= j < |l.scheduled|
    ensures l.scheduled[i].Timer? && l.scheduled[j].Timer? && l.scheduled[i].when <= l.scheduled[j].when
  {
    hide Handles;
    assert l.scheduled[i] in l.scheduled && l.scheduled[j] in l.scheduled;
    assert Line(l) == Front(l) + l.scheduled;
    assert Line(l)[|Front(l)| + i] == l.scheduled[i] && Line(l)[|Front(l)| + j] == l.scheduled[j];
  }

  /** Whatever stays scheduled is for later. */
  lemma NotYet(l: Loop)
    requires Inv(l)
    ensures forall x :: x in Due(l).scheduled ==> x.Timer? && x.when > l.clock
  {
    hide Chain, Line, Placed, OnTime, Kept, Due;
    DueIs(l);
    var d := Due(l);
    forall x | x in d.scheduled
      ensures x.Timer? && x.when > l.clock
    {
      var n := |l.scheduled| - |d.scheduled|;
      Suffix(l.ready, l.scheduled, d.ready, d.scheduled);
      var i: nat :| i < |d.scheduled| && d.scheduled[i] == x;
      assert l.scheduled[n + i] == x && l.scheduled[n] == d.scheduled[0];
      BehindIsLater(l, n, n + i);
    }
  }

  lemma Suffix(ready: seq<Handle>, scheduled: seq<Handle>, now: seq<Handle>, later: seq<Handle>)
    requires now + later == ready + scheduled && |ready| <= |now|
    ensures |later| <= |scheduled| && later == scheduled[|scheduled| - |later|..]
  {
    assert later == (now + later)[|now|..] == (ready + scheduled)[|now|..];
  }

  /** A callback cancelled before it ran never runs, whatever happens next. */
  lemma {:induction false} CancelledNeverRuns(l: Loop, evs: seq<Event>, h: Handle)
    requires Possible(l, evs) && h in l.cancelled && h !in Handles(l.ran)
    ensures h !in Handles(Run(l, evs).ran)
    decreases |evs|
  {
    hide Drop, Due, Handles, Push;
    if evs != [] {
      var n := Next(l, evs[0]);
      NextRan(l, evs[0]);
      if evs[0].Runs? && l.batch[0] !in l.cancelled {
        assert Handles(n.ran) == Handles(l.ran) + [l.batch[0]];
      }
      CancelledNeverRuns(n, evs[1..], h);
    }
  }

  lemma NextRan(l: Loop, ev: Event)
    requires Legal(l, ev)
    ensures l.cancelled <= Next(l, ev).cancelled && Next(l, ev).clock >= l.clock
    ensures !ev.Runs? ==> Next(l, ev).ran == l.ran
  {
    hide Drop, Due;
    if ev.Tick? {
      DropIs(l);
      DueIs(Advance(Drop(l)).value);
    }
  }

  // ----- one whole tick -------------------------------------------------------------------

  function DoAll(l: Loop, es: seq<Effect>): (r: Loop)
    ensures r.batch == l.batch && r.clock == l.clock
    decreases |es|
  {
    if es == [] then l else DoAll(Do(l, es[0]), es[1..])
  }

  /** The rest of the drain, each callback doing what `program` says it does. */
  function Drain(l: Loop, program: Handle -> seq<Effect>): Loop
    decreases |l.batch|
  {
    if l.batch == [] then l
    else if l.batch[0] in l.cancelled then Drain(RunNext(l), program)
    else Drain(DoAll(RunNext(l), program(l.batch[0])), program)
  }

  /** No callback sets a timer before `now`. */
  ghost predicate Forward(program: Handle -> seq<Effect>, now: real) {
    forall h, e :: e in program(h) && e.CallAt? ==> e.when >= now
  }

  lemma {:induction false} DoAllKeepsInv(l: Loop, es: seq<Effect>)
    requires Inv(l) && forall e :: e in es && e.CallAt? ==> e.when >= l.clock
    ensures Inv(DoAll(l, es))
    decreases |es|
  {
    hide Inv;
    if es != [] {
      NextKeepsInv(l, Does(es[0]));
      DoAllKeepsInv(Do(l, es[0]), es[1..]);
    }
  }

  /** A whole tick of a program that never sets a timer in the past leaves the loop in order and drained. */
  lemma {:induction false} DrainKeepsInv(l: Loop, program: Handle -> seq<Effect>)
    requires Inv(l) && Forward(program, l.clock)
    ensures Inv(Drain(l, program)) && Drain(l, program).batch == [] && Drain(l, program).clock == l.clock
    decreases |l.batch|
  {
    hide Inv;
    if l.batch != [] {
      RunKeepsInv(l);
      var h := l.batch[0];
      if h in l.cancelled {
        DrainKeepsInv(RunNext(l), program);
      } else {
        DoAllKeepsInv(RunNext(l), program(h));
        DrainKeepsInv(DoAll(RunNext(l), program(h)), program);
      }
    }
  }
}
