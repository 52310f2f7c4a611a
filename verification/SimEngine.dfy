/**
 The callback engine of `sim_common/engine.py`: events popped in `(time, seq)` order, and promises
 that release their callbacks through it. A callback is what it does: schedule, register, resolve.
 */
module SimEngine {
  import opened Basics
  import Sorting

  /** What an event runs: a plain callback, or the callback a promise was given at place `nth`. */
  datatype Task = Plain(name: nat) | Released(promise: nat, nth: nat)

  datatype Entry = Entry(time: real, order: nat, task: Task)

  /** A promise; `given` counts every callback it was ever given, `waiting` are the ones it still holds. */
  datatype Promise = Promise(resolved: bool, waiting: seq<nat>, given: nat)

  /** `heap` is the queue in the order it pops; `fired` is what was popped so far. */
  datatype Sim = Sim(now: real, heap: seq<Entry>, next: nat, promises: seq<Promise>, fired: seq<Entry>)

  predicate Lt(a: Entry, b: Entry) {
    a.time < b.time || (a.time == b.time && a.order < b.order)
  }

  /** `heappush`. */
  function Push(heap: seq<Entry>, e: Entry): seq<Entry> {
    Sorting.Insert(Lt, heap, e)
  }

  /** `schedule`, past the assertion that the delay is not negative. */
  function Schedule(s: Sim, delay: real, task: Task): Sim {
    s.(heap := Push(s.heap, Entry(s.now + delay, s.next, task)), next := s.next + 1)
  }

  function AddCallback(s: Sim, p: nat): Sim
    requires p < |s.promises|
  {
    var q := s.promises[p];
    var r := s.(promises := s.promises[p := q.(given := q.given + 1)]);
    if q.resolved then Schedule(r, 0.0, Released(p, q.given))
    else r.(promises := s.promises[p := q.(given := q.given + 1, waiting := q.waiting + [q.given])])
  }

  function Release(s: Sim, p: nat, cbs: seq<nat>): (r: Sim)
    ensures r.promises == s.promises && r.now == s.now && r.fired == s.fired
    decreases |cbs|
  {
    if cbs == [] then s else Release(Schedule(s, 0.0, Released(p, cbs[0])), p, cbs[1..])
  }

  /** Resolving again does nothing. */
  function Resolve(s: Sim, p: nat): Sim
    requires p < |s.promises|
  {
    var q := s.promises[p];
    if q.resolved then s else
      var r := Release(s.(promises := s.promises[p := q.(resolved := true)]), p, q.waiting);
      r.(promises := r.promises[p := q.(resolved := true, waiting := [])])
  }

  function Make(s: Sim): Sim {
    s.(promises := s.promises + [Promise(false, [], 0)])
  }

  /** The head of `run`'s loop: the clock moves to the event, then its callback runs. */
  function Pop(s: Sim): Sim
    requires s.heap != []
  {
    s.(now := s.heap[0].time, heap := s.heap[1..], fired := s.fired + [s.heap[0]])
  }

  datatype Event = Schedules(delay: real, name: nat) | Makes | Adds(p: nat) | Resolves(p: nat) | Pops

  predicate Legal(s: Sim, ev: Event) {
    match ev
    case Schedules(delay, _) => delay >= 0.0
    case Makes => true
    case Adds(p) => p < |s.promises|
    case Resolves(p) => p < |s.promises|
    case Pops => s.heap != []
  }

  function Next(s: Sim, ev: Event): Sim
    requires Legal(s, ev)
  {
    match ev
    case Schedules(delay, name) => Schedule(s, delay, Plain(name))
    case Makes => Make(s)
    case Adds(p) => AddCallback(s, p)
    case Resolves(p) => Resolve(s, p)
    case Pops => Pop(s)
  }

  function New(): Sim {
    Sim(0.0, [], 0, [], [])
  }

  // ----- what every event keeps -----------------------------------------------------------

  ghost predicate Chain(es: seq<Entry>) {
    forall i, j :: 0 <= i < j < |es| ==> Lt(es[i], es[j])
  }

  /** Fired, then queued: the order everything fires in. */
  function Line(s: Sim): seq<Entry> {
    s.fired + s.heap
  }

  ghost predicate Queued(s: Sim) {
    && Chain(Line(s))
    && (forall e :: e in s.heap ==> e.time >= s.now)
    && (forall e :: e in s.fired ==> e.time <= s.now)
    && (forall e :: e in Line(s) ==> e.order < s.next)
  }

  /** A promise's callback was released when it is in the line; never twice. */
  ghost predicate InLine(s: Sim, p: nat, n: nat) {
    exists e :: e in Line(s) && e.task == Released(p, n)
  }

  /** Released callbacks are due at once, each promise's in the order they were given. */
  ghost predicate InOrder(s: Sim) {
    && (forall e :: e in Line(s) && e.task.Released? ==> e.time <= s.now)
    && (forall i, j :: 0 <= i < j < |Line(s)| ==> Ordered(Line(s)[i].task, Line(s)[j].task))
  }

  /** What a promise was given is held until it resolves, and is in the line from then on. */
  ghost predicate Held(s: Sim) {
    && (forall p: nat, n: nat :: InLine(s, p, n) <==>
          p < |s.promises| && s.promises[p].resolved && n < s.promises[p].given)
    && (forall p: nat :: p < |s.promises| ==>
          s.promises[p].waiting == if s.promises[p].resolved then [] else Naturals(s.promises[p].given))
  }

  /** Callbacks of one promise come in the order they were given. */
  predicate Ordered(a: Task, b: Task) {
    a.Released? && b.Released? && a.promise == b.promise ==> a.nth < b.nth
  }

  function Naturals(n: nat): (r: seq<nat>)
    ensures |r| == n && forall i: nat :: i < n ==> r[i] == i
  {
    if n == 0 then [] else Naturals(n - 1) + [n - 1]
  }

  ghost predicate Inv(s: Sim) {
    Queued(s) && InOrder(s) && Held(s)
  }

  lemma NewInv()
    ensures Inv(New())
  {}

  // ----- pushing --------------------------------------------------------------------------

  lemma ChainInsert(a: seq<Entry>, e: Entry, b: seq<Entry>)
    requires Chain(a + b)
    requires forall x :: x in a ==> Lt(x, e)
    requires b != [] ==> Lt(e, b[0])
    ensures Chain(a + [e] + b)
  {
    var all, r := a + b, a + [e] + b;
    forall i, j | 0 <= i < j < |r|
      ensures Lt(r[i], r[j])
    {
      if i == |a| {
        assert r[j] == b[j - |a| - 1] == all[j - 1] && b[0] == all[|a|];
      } else if j == |a| {
        assert r[i] == a[i];
      } else {
        assert r[i] == all[if i < |a| then i else i - 1] && r[j] == all[if j < |a| then j else j - 1];
      }
    }
  }

  /** A new event is behind whatever fired, and whatever queued is not due after it. */
  lemma AllAhead(s: Sim, e: Entry, h: nat)
    requires Queued(s) && e.time >= s.now && e.order == s.next && h <= |s.heap|
    requires forall i: nat :: i < h ==> !Lt(e, s.heap[i])
    ensures forall x :: x in s.fired + s.heap[..h] ==> Lt(x, e)
  {
    hide Chain;
    forall x | x in s.fired + s.heap[..h]
      ensures Lt(x, e)
    {
      assert x in Line(s) by { assert s.heap == s.heap[..h] + s.heap[h..]; }
      if x !in s.fired {
        var i: nat :| i < h && s.heap[i] == x;
      }
    }
  }

  /** An event due now goes ahead of everything later only. */
  lemma BehindDue(s: Sim, e: Entry, h: nat, i: nat)
    requires Queued(s) && e.time == s.now && e.order == s.next && h <= i < |s.heap| && Lt(e, s.heap[h])
    ensures s.heap[i].time > s.now
  {
    assert Line(s)[|s.fired| + h] == s.heap[h] && Line(s)[|s.fired| + i] == s.heap[i];
    assert s.heap[h] in Line(s);
    assert i > h ==> Lt(Line(s)[|s.fired| + h], Line(s)[|s.fired| + i]);
  }

  lemma Cut(fired: seq<Entry>, heap: seq<Entry>, h: nat, e: Entry)
    requires h <= |heap|
    ensures heap == heap[..h] + heap[h..] && fired + heap == fired + heap[..h] + heap[h..]
    ensures fired + (heap[..h] + [e] + heap[h..]) == fired + heap[..h] + [e] + heap[h..]
  {}

  /** An event put in its place among those queued. */
  lemma InsertQueues(s: Sim, r: Sim, e: Entry, h: nat)
    requires Queued(s) && e.time >= s.now && e.order == s.next && h <= |s.heap|
    requires r.fired == s.fired && r.now == s.now && r.next == s.next + 1
    requires r.heap == s.heap[..h] + [e] + s.heap[h..]
    requires (forall i: nat :: i < h ==> !Lt(e, s.heap[i])) && (h < |s.heap| ==> Lt(e, s.heap[h]))
    ensures Queued(r) && Line(r) == s.fired + s.heap[..h] + [e] + s.heap[h..]
  {
    var a, b := s.fired + s.heap[..h], s.heap[h..];
    Cut(s.fired, s.heap, h, e);
    AllAhead(s, e, h);
    hide Chain, Lt;
    ChainInsert(a, e, b);
    Joined(s.heap[..h], b, e);
    Joined(a, b, e);
  }

  /** Where a scheduled event lands in the line. */
  lemma ScheduleQueues(s: Sim, delay: real, task: Task) returns (k: nat)
    requires Queued(s) && delay >= 0.0
    ensures var e := Entry(s.now + delay, s.next, task);
      var r := Schedule(s, delay, task);
      && Queued(r) && |s.fired| <= k <= |Line(s)| && Line(r) == Line(s)[..k] + [e] + Line(s)[k..]
      && (delay == 0.0 ==> forall i: nat :: k <= i < |Line(s)| ==> Line(s)[i].time > s.now)
  {
    var e, r := Entry(s.now + delay, s.next, task), Schedule(s, delay, task);
    var h := Sorting.InsertIs(Lt, s.heap, e);
    InsertQueues(s, r, e, h);
    hide Queued, Lt;
    k := |s.fired| + h;
    assert Line(s)[..k] == s.fired + s.heap[..h] && Line(s)[k..] == s.heap[h..];
    forall i: nat | k <= i < |Line(s)| && delay == 0.0
      ensures Line(s)[i].time > s.now
    {
      BehindDue(s, e, h, i - |s.fired|);
    }
  }

  lemma Joined(a: seq<Entry>, b: seq<Entry>, e: Entry)
    ensures forall x :: x in a + [e] + b <==> x in a + b || x == e
  {}

  // ----- each event -----------------------------------------------------------------------

  lemma Inserted(s: Sim, r: Sim, k: nat, e: Entry)
    requires k <= |Line(s)| && Line(r) == Line(s)[..k] + [e] + Line(s)[k..]
    ensures forall x :: x in Line(r) <==> x in Line(s) || x == e
  {
    hide Line;
    assert Line(s) == Line(s)[..k] + Line(s)[k..];
  }

  /** A promise's next callback goes behind all its earlier ones. */
  lemma ReleaseOne(s: Sim, p: nat, n: nat)
    requires Queued(s) && InOrder(s) && forall m: nat :: InLine(s, p, m) ==> m < n
    ensures var r := Schedule(s, 0.0, Released(p, n));
      && Queued(r) && InOrder(r)
      && forall q: nat, m: nat :: InLine(r, q, m) <==> InLine(s, q, m) || (q == p && m == n)
  {
    var r, e := Schedule(s, 0.0, Released(p, n)), Entry(s.now, s.next, Released(p, n));
    var k := ScheduleQueues(s, 0.0, Released(p, n));
    assert s.now + 0.0 == s.now && r.now == s.now;
    hide Queued, Line, Schedule;
    Inserted(s, r, k, e);
    forall i, j | 0 <= i < j < |Line(r)|
      ensures Ordered(Line(r)[i].task, Line(r)[j].task)
    {
      InsertedOrder(s, r, k, e, i, j);
    }
    assert e in Line(r);
    forall q: nat, m: nat
      ensures InLine(r, q, m) <==> InLine(s, q, m) || (q == p && m == n)
    {
      if x :| x in Line(s) && x.task == Released(q, m) { assert x in Line(r); }
    }
  }

  lemma InsertedOrder(s: Sim, r: Sim, k: nat, e: Entry, i: nat, j: nat)
    requires InOrder(s) && k <= |Line(s)| && Line(r) == Line(s)[..k] + [e] + Line(s)[k..]
    requires e.task.Released? && forall m: nat :: InLine(s, e.task.promise, m) ==> m < e.task.nth
    requires forall h: nat :: k <= h < |Line(s)| ==> Line(s)[h].time > s.now
    requires i < j < |Line(r)|
    ensures Ordered(Line(r)[i].task, Line(r)[j].task)
  {
    hide Line;
    var all := Line(s);
    if i == k {
      assert Line(r)[j] == all[j - 1] && all[j - 1] in all;
    } else if j == k {
      assert Line(r)[i] == all[i] && all[i] in all;
      assert all[i].task.Released? ==> InLine(s, all[i].task.promise, all[i].task.nth);
    } else {
      assert Line(r)[i] == all[if i < k then i else i - 1] && Line(r)[j] == all[if j < k then j else j - 1];
    }
  }

  /** Resolving releases what the promise held, each once and in order. */
  lemma {:induction false} ReleaseAll(s: Sim, p: nat, cbs: seq<nat>, from: nat, given: nat)
    requires Queued(s) && InOrder(s) && from <= given && cbs == Naturals(given)[from..]
    requires forall m: nat :: InLine(s, p, m) <==> m < from
    ensures var r := Release(s, p, cbs);
      && Queued(r) && InOrder(r)
      && (forall m: nat :: InLine(r, p, m) <==> m < given)
      && (forall q: nat, m: nat :: q != p ==> (InLine(r, q, m) <==> InLine(s, q, m)))
    decreases |cbs|
  {
    hide Queued, InOrder, InLine, Schedule;
    if cbs != [] {
      assert cbs[0] == from && cbs[1..] == Naturals(given)[from + 1..];
      ReleaseOne(s, p, from);
      ReleaseAll(Schedule(s, 0.0, Released(p, from)), p, cbs[1..], from + 1, given);
    }
  }

  /** Only promises moved. */
  lemma SameLine(s: Sim, r: Sim)
    requires Queued(s) && InOrder(s) && r == s.(promises := r.promises)
    ensures Queued(r) && InOrder(r) && forall p: nat, n: nat :: InLine(r, p, n) == InLine(s, p, n)
  {}

  lemma ResolveKeepsInv(s: Sim, p: nat)
    requires Inv(s) && p < |s.promises|
    ensures Inv(Resolve(s, p))
  {
    hide Queued, InOrder, InLine, Release, Naturals;
    var q := s.promises[p];
    if !q.resolved {
      var m := s.(promises := s.promises[p := q.(resolved := true)]);
      SameLine(s, m);
      assert Naturals(q.given)[0..] == q.waiting;
      ReleaseAll(m, p, q.waiting, 0, q.given);
      SameLine(Release(m, p, q.waiting), Resolve(s, p));
    }
  }

  lemma AddKeepsInv(s: Sim, p: nat)
    requires Inv(s) && p < |s.promises|
    ensures Inv(AddCallback(s, p))
  {
    hide Queued, InOrder, InLine;
    var q := s.promises[p];
    if q.resolved {
      var m := s.(promises := s.promises[p := q.(given := q.given + 1)]);
      SameLine(s, m);
      ReleaseOne(m, p, q.given);
    } else {
      SameLine(s, AddCallback(s, p));
    }
  }

  lemma MakeKeepsInv(s: Sim)
    requires Inv(s)
    ensures Inv(Make(s))
  {
    hide Queued, InOrder, InLine;
    SameLine(s, Make(s));
  }

  lemma ScheduleKeepsInv(s: Sim, delay: real, name: nat)
    requires Inv(s) && delay >= 0.0
    ensures Inv(Schedule(s, delay, Plain(name)))
  {
    var r, e := Schedule(s, delay, Plain(name)), Entry(s.now + delay, s.next, Plain(name));
    var k := ScheduleQueues(s, delay, Plain(name));
    assert r.promises == s.promises && r.now == s.now;
    hide Queued, Line, Schedule, Naturals;
    Inserted(s, r, k, e);
    PlainInserted(s, r, k, e);
  }

  lemma PlainInserted(s: Sim, r: Sim, k: nat, e: Entry)
    requires InOrder(s) && Held(s) && r.promises == s.promises && r.now == s.now
    requires k <= |Line(s)| && Line(r) == Line(s)[..k] + [e] + Line(s)[k..] && e.task.Plain?
    ensures InOrder(r) && Held(r)
  {
    hide Line, Naturals;
    Inserted(s, r, k, e);
    forall i, j | 0 <= i < j < |Line(r)|
      ensures Ordered(Line(r)[i].task, Line(r)[j].task)
    {
      if i != k && j != k {
        assert Line(r)[i] == Line(s)[if i < k then i else i - 1] && Line(r)[j] == Line(s)[if j < k then j else j - 1];
      }
    }
    assert forall p: nat, n: nat :: InLine(r, p, n) <==> InLine(s, p, n);
  }

  lemma PopKeepsInv(s: Sim)
    requires Inv(s) && s.heap != []
    ensures Inv(Pop(s)) && Pop(s).now >= s.now
  {
    var r := Pop(s);
    assert Line(r) == Line(s);
    assert Line(s)[|s.fired|] == s.heap[0];
    forall e | e in r.heap
      ensures e.time >= r.now
    {
      var i: nat :| i < |r.heap| && r.heap[i] == e;
      assert Line(s)[|s.fired| + 1 + i] == e;
    }
    assert s.heap[0] in s.heap;
    assert forall p: nat, n: nat :: InLine(r, p, n) <==> InLine(s, p, n);
  }

  lemma NextKeepsInv(s: Sim, ev: Event)
    requires Inv(s) && Legal(s, ev)
    ensures Inv(Next(s, ev)) && Next(s, ev).now >= s.now
  {
    hide Inv;
    match ev
    case Schedules(delay, name) => ScheduleKeepsInv(s, delay, name);
    case Makes => MakeKeepsInv(s);
    case Adds(p) => AddKeepsInv(s, p);
    case Resolves(p) => ResolveKeepsInv(s, p);
    case Pops => PopKeepsInv(s);
  }

  ghost predicate Possible(s: Sim, evs: seq<Event>)
    decreases |evs|
  {
    evs == [] || (Legal(s, evs[0]) && Possible(Next(s, evs[0]), evs[1..]))
  }

  ghost function Run(s: Sim, evs: seq<Event>): Sim
    requires Possible(s, evs)
    decreases |evs|
  {
    if evs == [] then s else Run(Next(s, evs[0]), evs[1..])
  }

  lemma {:induction false} EveryRunKeepsInv(s: Sim, evs: seq<Event>)
    requires Inv(s) && Possible(s, evs)
    ensures Inv(Run(s, evs)) && Run(s, evs).now >= s.now
    decreases |evs|
  {
    hide Inv, Next;
    if evs != [] {
      NextKeepsInv(s, evs[0]);
      EveryRunKeepsInv(Next(s, evs[0]), evs[1..]);
    }
  }

  ghost predicate FiredFor(s: Sim, p: nat, n: nat) {
    exists e :: e in s.fired && e.task == Released(p, n)
  }

  /**
   Every event fires once, in strictly increasing `(time, seq)` order; once the queue is drained
   each callback a resolved promise was ever given has fired, in the order given, and no other has.
   */
  lemma EveryRunFiresInOrder(evs: seq<Event>)
    requires Possible(New(), evs)
    ensures var s := Run(New(), evs);
      && (forall i: nat, j: nat :: i < j < |s.fired| ==>
            Lt(s.fired[i], s.fired[j]) && Ordered(s.fired[i].task, s.fired[j].task))
      && (forall e :: e in s.heap ==> e.time >= s.now)
      && (s.heap == [] ==> forall p: nat, n: nat ::
            FiredFor(s, p, n) <==> p < |s.promises| && s.promises[p].resolved && n < s.promises[p].given)
  {
    NewInv();
    EveryRunKeepsInv(New(), evs);
    var s := Run(New(), evs);
    hide Run, Possible;
    assert forall i: nat :: i < |s.fired| ==> Line(s)[i] == s.fired[i];
    if s.heap == [] {
      assert Line(s) == s.fired;
      assert forall p: nat, n: nat :: FiredFor(s, p, n) == InLine(s, p, n);
    }
  }
}
