/**
 One accelerator's occupancy and its prefill queue, `kvcache_sim/workload/_accelerator.py`: forward
 passes own the device one at a time and hand it on; passes and decode steps book the same timeline.
 What work costs is an input. The code between two suspensions is one event.
 */
module Accelerator {
  import opened Basics
  import Sorting

  /** A pass waits in the list, has been handed its turn, has claimed the device until `end`, or is over. */
  datatype Phase = Queued | Turn | Running(end: real) | Done

  datatype Pass = Pass(submitted: real, tag: string, cost: real, phase: Phase)

  /** What occupied the device, asked for at `claimed`; a decode step belongs to no pass. */
  datatype Booking = Booking(pass: Option<nat>, claimed: real, start: real, end: real)

  /** One pass waiting for the device, and how it is ordered against the others. */
  datatype Waiter = Waiter(submitted: real, tag: string, id: nat)

  /** A pass's id is its place in `passes`; `bookings` is the record of every claim. */
  datatype Device = Device(
    now: real,
    busyUntil: real,
    running: bool,
    waiting: seq<Waiter>,
    passes: seq<Pass>,
    bookings: seq<Booking>)

  // ----- the order of the queue -----------------------------------------------------------

  /** The sort key `(submitted, tag)`. */
  predicate Before(p: Waiter, q: Waiter) {
    p.submitted < q.submitted || (p.submitted == q.submitted && StringLt(p.tag, q.tag))
  }

  /** The stable sort of the wait list. */
  function Sorted(ws: seq<Waiter>): (r: seq<Waiter>)
    ensures |r| == |ws|
  {
    Sorting.Sort(Before, ws)
  }

  lemma BeforeTransitive(p: Waiter, q: Waiter, r: Waiter)
    ensures !Before(q, p) && !Before(r, q) ==> !Before(r, p)
    ensures !(Before(p, q) && Before(q, p))
  {
    StringLtTotal(p.tag, q.tag);
    StringLtTotal(q.tag, r.tag);
    StringLtTotal(p.tag, r.tag);
    if StringLt(p.tag, q.tag) && StringLt(q.tag, r.tag) { StringLtTransitive(p.tag, q.tag, r.tag); }
  }

  /** Sorting reorders the list so that nothing comes before what stands ahead of it. */
  lemma SortedOrders(ws: seq<Waiter>)
    ensures forall i, j :: 0 <= i < j < |ws| ==> !Before(Sorted(ws)[j], Sorted(ws)[i])
    ensures multiset(Sorted(ws)) == multiset(ws)
  {
    hide Before;
    forall p, q, r
      ensures !Before(q, p) && !Before(r, q) ==> !Before(r, p)
      ensures !(Before(p, q) && Before(q, p))
    {
      BeforeTransitive(p, q, r);
    }
    Sorting.SortOrders(Before, ws);
  }

  // ----- the events -----------------------------------------------------------------------

  /** Book after whatever already has the device. */
  function Claim(d: Device, pass: Option<nat>, cost: real): Device {
    var start := Max(d.now, d.busyUntil);
    d.(busyUntil := start + cost, bookings := d.bookings + [Booking(pass, d.now, start, start + cost)])
  }

  function At(d: Device, id: nat, phase: Phase): Device {
    if id < |d.passes| then d.(passes := d.passes[id := d.passes[id].(phase := phase)]) else d
  }

  /** A pass that owns the device claims it. */
  function Start(d: Device, id: nat): Device
    requires id < |d.passes|
  {
    var r := Claim(d, Some(id), d.passes[id].cost);
    At(r, id, Running(r.busyUntil))
  }

  function HandOff(d: Device): Device {
    if d.waiting == [] then d.(running := false) else
      SortedOrders(d.waiting);
      var sorted := Sorted(d.waiting);
      At(d.(waiting := sorted[1..]), sorted[0].id, Turn)
  }

  /** `prefill`: nothing to compute takes no turn; otherwise the device or the queue. */
  function Submit(d: Device, tag: string, cost: real): Device {
    var id := |d.passes|;
    if cost <= 0.0 then d.(passes := d.passes + [Pass(d.now, tag, cost, Done)])
    else if d.running then
      d.(passes := d.passes + [Pass(d.now, tag, cost, Queued)], waiting := d.waiting + [Waiter(d.now, tag, id)])
    else Start(d.(passes := d.passes + [Pass(d.now, tag, cost, Queued)], running := true), id)
  }

  function Leave(d: Device, id: nat): Device
    requires id < |d.passes|
  {
    HandOff(At(d, id, Done))
  }

  /** What can happen next. A pass may leave before its end, when it fails. */
  datatype Event = Prefill(tag: string, cost: real) | Resume(id: nat) | Finish(id: nat) | Step(cost: real)
      | Wait(until: real)

  /** Time passes only once whoever was handed the device has resumed, and never past a running pass's end. */
  predicate Legal(d: Device, ev: Event) {
    match ev
    case Prefill(_, cost) => cost >= 0.0
    case Resume(id) => id < |d.passes| && d.passes[id].phase.Turn?
    case Finish(id) => id < |d.passes| && d.passes[id].phase.Running?
    case Step(cost) => cost >= 0.0
    case Wait(until) =>
      && until >= d.now
      && forall p :: p in d.passes ==> !p.phase.Turn? && (p.phase.Running? ==> until <= p.phase.end)
  }

  function Next(d: Device, ev: Event): Device
    requires Legal(d, ev)
  {
    match ev
    case Prefill(tag, cost) => Submit(d, tag, cost)
    case Resume(id) => Start(d, id)
    case Finish(id) => Leave(d, id)
    case Step(cost) => Claim(d, None, cost)
    case Wait(until) => d.(now := until)
  }

  function Fresh(): Device {
    Device(0.0, 0.0, false, [], [], [])
  }

  // ----- what every event keeps -----------------------------------------------------------

  predicate Owns(p: Pass) {
    p.phase.Turn? || p.phase.Running?
  }

  ghost predicate Owner(d: Device, id: nat) {
    id < |d.passes| && Owns(d.passes[id])
  }

  /** At most one pass owns the device; it is marked running exactly while one does. */
  ghost predicate OneOwner(d: Device) {
    && (forall i: nat, j: nat :: Owner(d, i) && Owner(d, j) ==> i == j)
    && (d.running <==> exists i: nat :: Owner(d, i))
  }

  ghost predicate Listed(d: Device, id: nat) {
    exists w :: w in d.waiting && w.id == id
  }

  /** The list holds each queued pass once, as it was submitted, and only while the device is owned. */
  ghost predicate Waits(d: Device) {
    && (forall w :: w in d.waiting ==>
          w.id < |d.passes| && d.passes[w.id].submitted == w.submitted && d.passes[w.id].tag == w.tag)
    && (forall i: nat :: i < |d.passes| ==> (d.passes[i].phase.Queued? <==> Listed(d, i)))
    && IdsOnce(d.waiting)
    && (d.waiting != [] ==> d.running)
  }

  /** Started, then handed its turn, then queued. */
  function Stage(p: Pass): int {
    match p.phase case Queued => 2 case Turn => 1 case Running(_) => 0 case Done => 0
  }

  /** Nobody is further along than a pass queued at an earlier instant. */
  ghost predicate Fair(d: Device) {
    && (forall i: nat, j: nat ::
          (i < |d.passes| && j < |d.passes| && d.passes[i].cost > 0.0 && Stage(d.passes[i]) < Stage(d.passes[j])) ==>
            d.passes[i].submitted <= d.passes[j].submitted)
    && (forall i: nat :: i < |d.passes| ==> d.passes[i].submitted <= d.now)
    && (forall i: nat :: i < |d.passes| && !d.passes[i].phase.Done? ==> d.passes[i].cost > 0.0)
  }

  ghost predicate Booked(d: Device, id: nat) {
    exists k: nat :: k < |d.bookings| && d.bookings[k].pass == Some(id)
  }

  /** A pass that runs or ran is booked once, and passes are booked in the order they queued. */
  ghost predicate StartsOnce(d: Device) {
    && (forall k: nat :: k < |d.bookings| && d.bookings[k].pass.Some? ==>
          && d.bookings[k].pass.value < |d.passes|
          && Stage(d.passes[d.bookings[k].pass.value]) == 0 && d.passes[d.bookings[k].pass.value].cost > 0.0
          && d.passes[d.bookings[k].pass.value].submitted <= d.bookings[k].claimed)
    && (forall i: nat :: i < |d.passes| && Stage(d.passes[i]) == 0 && d.passes[i].cost > 0.0 ==> Booked(d, i))
    && (forall k: nat, l: nat :: k < l < |d.bookings| && d.bookings[k].pass.Some? && d.bookings[l].pass.Some? ==>
          && d.bookings[k].pass != d.bookings[l].pass
          && d.passes[d.bookings[k].pass.value].submitted <= d.passes[d.bookings[l].pass.value].submitted)
  }

  ghost predicate Placed(bookings: seq<Booking>, k: nat, now: real, busyUntil: real)
    requires k < |bookings|
  {
    && bookings[k].claimed <= now
    && bookings[k].claimed <= bookings[k].start <= bookings[k].end <= busyUntil
    && (bookings[k].start == bookings[k].claimed || (k > 0 && bookings[k].start == bookings[k - 1].end))
  }

  /** Bookings are disjoint and in order, none starts before it was asked for, and none waits for an idle device. */
  ghost predicate Disjoint(d: Device) {
    && (forall k: nat :: k < |d.bookings| ==> Placed(d.bookings, k, d.now, d.busyUntil))
    && (forall k: nat, l: nat :: k < l < |d.bookings| ==> d.bookings[k].end <= d.bookings[l].start)
    && d.busyUntil == (if d.bookings == [] then 0.0 else d.bookings[|d.bookings| - 1].end)
    && d.now >= 0.0
  }

  ghost predicate Inv(d: Device) {
    OneOwner(d) && Waits(d) && Fair(d) && StartsOnce(d) && Disjoint(d)
  }

  lemma FreshInv()
    ensures Inv(Fresh())
  {
    hide Fair, StartsOnce, Disjoint;
    FreshIsFair();
    FreshStarts();
    FreshIsDisjoint();
    assert forall i: nat :: !Owner(Fresh(), i) && !Listed(Fresh(), i);
  }

  lemma FreshIsFair()
    ensures Fair(Fresh())
  {
    hide Stage;
  }

  lemma FreshStarts()
    ensures StartsOnce(Fresh())
  {
    hide Stage, Booked;
  }

  lemma FreshIsDisjoint()
    ensures Disjoint(Fresh())
  {
    hide Placed;
  }

  // ----- each event -----------------------------------------------------------------------

  lemma ClaimDisjoint(d: Device, pass: Option<nat>, cost: real)
    requires Disjoint(d) && cost >= 0.0
    ensures Disjoint(Claim(d, pass, cost))
  {
    var r := Claim(d, pass, cost);
    forall k: nat | k < |r.bookings|
      ensures Placed(r.bookings, k, r.now, r.busyUntil)
    {
      if k < |d.bookings| { assert Placed(d.bookings, k, d.now, d.busyUntil); }
    }
    forall k: nat, l: nat | k < l < |r.bookings|
      ensures r.bookings[k].end <= r.bookings[l].start
    {
      if l == |d.bookings| { assert Placed(d.bookings, k, d.now, d.busyUntil); }
    }
  }

  lemma StepKeepsInv(d: Device, cost: real)
    requires Inv(d) && cost >= 0.0
    ensures Inv(Claim(d, None, cost))
  {
    ClaimDisjoint(d, None, cost);
    hide Disjoint;
    var r := Claim(d, None, cost);
    assert OneOwner(r) && Waits(r) && Fair(r) by { SamePasses(d, r); }
    ClaimStarts(d, cost);
  }

  /** Only bookings and clocks moved. */
  lemma SamePasses(d: Device, r: Device)
    requires OneOwner(d) && Waits(d) && Fair(d)
    requires r.passes == d.passes && r.waiting == d.waiting && r.running == d.running && r.now >= d.now
    ensures OneOwner(r) && Waits(r) && Fair(r)
  {
    assert forall i: nat :: Owner(r, i) == Owner(d, i);
    assert forall i: nat :: Listed(r, i) == Listed(d, i);
  }

  lemma BookedStays(d: Device, r: Device, i: nat)
    requires |d.bookings| <= |r.bookings| && r.bookings[..|d.bookings|] == d.bookings && Booked(d, i)
    ensures Booked(r, i)
  {
    var k: nat :| k < |d.bookings| && d.bookings[k].pass == Some(i);
    assert r.bookings[..|d.bookings|][k] == r.bookings[k];
  }

  lemma ClaimStarts(d: Device, cost: real)
    requires StartsOnce(d)
    ensures StartsOnce(Claim(d, None, cost))
  {
    hide Booked;
    var r := Claim(d, None, cost);
    forall i: nat | i < |r.passes| && Stage(r.passes[i]) == 0 && r.passes[i].cost > 0.0
      ensures Booked(r, i)
    {
      BookedStays(d, r, i);
    }
  }

  /** The pass that holds the turn, or takes a free device, books it. */
  lemma StartKeepsInv(d: Device, id: nat)
    requires Inv(d) && id < |d.passes| && d.passes[id].phase.Turn?
    ensures Inv(Start(d, id))
  {
    hide Booked, Disjoint;
    var r := Start(d, id);
    ClaimDisjoint(d, Some(id), d.passes[id].cost);
    MovedDisjoint(Claim(d, Some(id), d.passes[id].cost), r);
    StartOwners(d, id);
    StartWaits(d, id);
    StartFair(d, id);
    StartBooks(d, id);
  }

  lemma MovedDisjoint(d: Device, r: Device)
    requires Disjoint(d) && r.bookings == d.bookings && r.busyUntil == d.busyUntil && r.now == d.now
    ensures Disjoint(r)
  {}

  lemma StartOwners(d: Device, id: nat)
    requires OneOwner(d) && Owner(d, id)
    ensures OneOwner(Start(d, id))
  {
    var r := Start(d, id);
    assert forall i: nat :: Owner(r, i) == Owner(d, i);
  }

  lemma StartWaits(d: Device, id: nat)
    requires Waits(d) && id < |d.passes| && !d.passes[id].phase.Queued?
    ensures Waits(Start(d, id))
  {
    var r := Start(d, id);
    assert forall i: nat :: Listed(r, i) == Listed(d, i);
  }

  lemma StartFair(d: Device, id: nat)
    requires Fair(d) && OneOwner(d) && id < |d.passes| && d.passes[id].phase.Turn?
    ensures Fair(Start(d, id))
  {
    assert Owner(d, id);
    assert forall i: nat :: i < |d.passes| && i != id ==> !Owner(d, i);
    var r := Start(d, id);
    forall i: nat, j: nat | i < |r.passes| && j < |r.passes| && r.passes[i].cost > 0.0
      && Stage(r.passes[i]) < Stage(r.passes[j])
      ensures r.passes[i].submitted <= r.passes[j].submitted
    {
      assert j != id && !Owner(d, j);
      assert Stage(d.passes[i]) < Stage(d.passes[j]);
    }
  }

  lemma StartBooks(d: Device, id: nat)
    requires StartsOnce(d) && Fair(d) && id < |d.passes| && d.passes[id].phase.Turn?
    ensures StartsOnce(Start(d, id))
  {
    hide Booked;
    var r := Start(d, id);
    forall i: nat | i < |r.passes| && Stage(r.passes[i]) == 0 && r.passes[i].cost > 0.0
      ensures Booked(r, i)
    {
      if i == id { JustBooked(r, i); } else { BookedStays(d, r, i); }
    }
  }

  lemma JustBooked(r: Device, i: nat)
    requires r.bookings != [] && r.bookings[|r.bookings| - 1].pass == Some(i)
    ensures Booked(r, i)
  {}

  ghost predicate IdsOnce(ws: seq<Waiter>) {
    forall i, j :: 0 <= i < j < |ws| ==> ws[i].id != ws[j].id
  }

  /** Who is handed the device: the first of the sorted list, and who still waits. */
  lemma Chosen(ws: seq<Waiter>) returns (w: Waiter, rest: seq<Waiter>)
    requires IdsOnce(ws) && ws != []
    ensures [w] + rest == Sorted(ws) && w in ws
    ensures forall v :: v in ws ==> !Before(v, w)
    ensures forall v :: v in ws <==> v == w || v in rest
    ensures (forall v :: v in rest ==> v.id != w.id) && IdsOnce(rest)
  {
    hide Before, Sorted;
    SortedOrders(ws);
    var sorted := Sorted(ws);
    w, rest := sorted[0], sorted[1..];
    assert sorted == [w] + rest;
    SameMembers(ws, sorted);
    SameIdsOnce(ws, sorted);
    assert forall v :: v in sorted ==> v == w || !Before(v, w);
    RestOnce(sorted);
    BeforeIrreflexive(w);
  }

  lemma SameMembers(a: seq<Waiter>, b: seq<Waiter>)
    requires multiset(a) == multiset(b)
    ensures forall v :: v in a <==> v in b
  {
    assert forall v :: v in a <==> v in multiset(a);
    assert forall v :: v in b <==> v in multiset(b);
  }

  lemma RestOnce(ws: seq<Waiter>)
    requires IdsOnce(ws) && ws != []
    ensures IdsOnce(ws[1..]) && forall v :: v in ws[1..] ==> v.id != ws[0].id
  {
    assert forall j: nat :: j < |ws[1..]| ==> ws[1..][j] == ws[j + 1];
  }

  lemma BeforeIrreflexive(w: Waiter)
    ensures !Before(w, w)
  {
    BeforeTransitive(w, w, w);
  }

  /** Two lists of the same waiters both name each pass once. */
  lemma SameIdsOnce(a: seq<Waiter>, b: seq<Waiter>)
    requires multiset(a) == multiset(b)
    requires IdsOnce(a)
    ensures IdsOnce(b)
  {
    forall i, j | 0 <= i < j < |b|
      ensures b[i].id != b[j].id
    {
      assert b[i] in multiset(b) && b[j] in multiset(b);
      if b[i] == b[j] {
        TwiceThere(b, i, j);
        OnceThere(a, b[i]);
      } else {
        assert b[i] in multiset(a) && b[j] in multiset(a);
      }
    }
  }

  lemma TwiceThere(b: seq<Waiter>, i: nat, j: nat)
    requires i < j < |b| && b[i] == b[j]
    ensures multiset(b)[b[i]] >= 2
  {
    assert b == b[..i] + [b[i]] + b[i + 1..j] + [b[j]] + b[j + 1..];
  }

  lemma {:induction false} OnceThere(a: seq<Waiter>, w: Waiter)
    requires IdsOnce(a)
    ensures multiset(a)[w] <= 1
    decreases |a|
  {
    if a != [] {
      var init := a[..|a| - 1];
      assert a == init + [a[|a| - 1]];
      OnceThere(init, w);
      if w == a[|a| - 1] {
        assert w !in init;
      }
    }
  }

  lemma LeaveWaits(d: Device, id: nat)
    requires Waits(d) && Owner(d, id)
    ensures Waits(Leave(d, id))
  {
    var r := Leave(d, id);
    if d.waiting == [] {
      assert forall i: nat :: Listed(r, i) == Listed(d, i);
    } else {
      var w, rest := Chosen(d.waiting);
      hide Before, Sorted;
      assert Listed(d, w.id);
      assert ([w] + rest)[1..] == rest;
      forall i: nat | i < |r.passes|
        ensures r.passes[i].phase.Queued? <==> Listed(r, i)
      {
        assert Listed(d, i) <==> i == w.id || Listed(r, i);
      }
    }
  }

  /** The device passes straight to the chosen waiter, or is free when nobody waits. */
  lemma LeaveOwners(d: Device, id: nat)
    requires OneOwner(d) && Waits(d) && Owner(d, id)
    ensures OneOwner(Leave(d, id))
    ensures d.waiting != [] ==> Owner(Leave(d, id), Sorted(d.waiting)[0].id)
  {
    hide Before, Sorted;
    var r := Leave(d, id);
    if d.waiting == [] {
      assert forall i: nat :: Owner(r, i) <==> Owner(d, i) && i != id;
    } else {
      var w, rest := Chosen(d.waiting);
      assert w == ([w] + rest)[0];
      assert Listed(d, w.id);
      forall i: nat
        ensures Owner(r, i) <==> i == w.id
      {
        assert Owner(d, i) ==> i == id;
        assert i < |d.passes| && i != id && i != w.id ==> r.passes[i] == d.passes[i];
      }
      assert Owner(r, w.id);
    }
  }

  /** The chosen one queued no later than whoever goes on waiting. */
  lemma LeaveFair(d: Device, id: nat)
    requires Fair(d) && OneOwner(d) && Waits(d) && id < |d.passes| && d.passes[id].phase.Running?
    ensures Fair(Leave(d, id))
  {
    hide Sorted;
    var r := Leave(d, id);
    assert Owner(d, id);
    assert forall i: nat :: i < |d.passes| && i != id ==> !Owner(d, i);
    if d.waiting != [] {
      var w, rest := Chosen(d.waiting);
      assert w == ([w] + rest)[0];
      assert Listed(d, w.id);
      forall i: nat, j: nat | i < |r.passes| && j < |r.passes| && r.passes[i].cost > 0.0
        && Stage(r.passes[i]) < Stage(r.passes[j])
        ensures r.passes[i].submitted <= r.passes[j].submitted
      {
        assert !Owner(d, j) || j == w.id;
        if i == w.id {
          var v :| v in d.waiting && v.id == j;
          assert !Before(v, w);
        } else {
          assert Stage(d.passes[i]) < Stage(d.passes[j]);
        }
      }
    } else {
      forall i: nat, j: nat | i < |r.passes| && j < |r.passes| && r.passes[i].cost > 0.0
        && Stage(r.passes[i]) < Stage(r.passes[j])
        ensures r.passes[i].submitted <= r.passes[j].submitted
      {
        assert Stage(d.passes[i]) < Stage(d.passes[j]);
      }
    }
  }

  lemma LeaveBooks(d: Device, id: nat)
    requires StartsOnce(d) && Waits(d) && id < |d.passes| && d.passes[id].phase.Running?
    ensures StartsOnce(Leave(d, id)) && Leave(d, id).bookings == d.bookings
  {
    hide Sorted, Before, Booked;
    var r := Leave(d, id);
    forall i: nat
      ensures Booked(r, i) == Booked(d, i)
    {
      LeaveClocks(d, id);
      SameBooked(d, r, i);
    }
    if d.waiting != [] {
      var w, rest := Chosen(d.waiting);
      assert w == ([w] + rest)[0];
      assert Listed(d, w.id);
      assert forall i: nat :: i < |r.passes| && i != w.id ==> Stage(r.passes[i]) == Stage(d.passes[i]);
    }
  }

  lemma SameBooked(d: Device, r: Device, i: nat)
    requires r.bookings == d.bookings
    ensures Booked(r, i) == Booked(d, i)
  {}

  lemma LeaveKeepsInv(d: Device, id: nat)
    requires Inv(d) && id < |d.passes| && d.passes[id].phase.Running?
    ensures Inv(Leave(d, id))
  {
    assert Owner(d, id);
    LeaveWaits(d, id);
    LeaveOwners(d, id);
    LeaveFair(d, id);
    LeaveBooks(d, id);
    LeaveClocks(d, id);
    MovedDisjoint(d, Leave(d, id));
  }

  lemma LeaveClocks(d: Device, id: nat)
    requires id < |d.passes|
    ensures var r := Leave(d, id); r.now == d.now && r.busyUntil == d.busyUntil && r.bookings == d.bookings
  {}

  // ----- joining --------------------------------------------------------------------------

  /** A pass joins the record; queued it is also listed. */
  function Joined(d: Device, tag: string, cost: real, phase: Phase): Device {
    var r := d.(passes := d.passes + [Pass(d.now, tag, cost, phase)]);
    if phase.Queued? then r.(waiting := d.waiting + [Waiter(d.now, tag, |d.passes|)]) else r
  }

  lemma JoinKeeps(d: Device, tag: string, cost: real, phase: Phase)
    requires Inv(d)
    requires (phase.Done? && cost == 0.0) || (phase.Queued? && cost > 0.0 && d.running)
    ensures Inv(Joined(d, tag, cost, phase))
  {
    hide Disjoint, StartsOnce, Fair, Waits, OneOwner;
    var r := Joined(d, tag, cost, phase);
    MovedDisjoint(d, r);
    JoinOwners(d, tag, cost, phase);
    JoinBooks(d, r);
    JoinWaits(d, tag, cost, phase);
    JoinFair(d, tag, cost, phase);
  }

  lemma JoinOwners(d: Device, tag: string, cost: real, phase: Phase)
    requires OneOwner(d) && (phase.Done? || phase.Queued?)
    ensures OneOwner(Joined(d, tag, cost, phase))
  {
    var r := Joined(d, tag, cost, phase);
    assert forall i: nat :: Owner(r, i) == Owner(d, i);
  }

  lemma JoinBooks(d: Device, r: Device)
    requires StartsOnce(d) && r.bookings == d.bookings && |r.passes| == |d.passes| + 1
      && r.passes[..|d.passes|] == d.passes
    requires Stage(r.passes[|d.passes|]) != 0 || r.passes[|d.passes|].cost == 0.0
    ensures StartsOnce(r)
  {
    assert forall i: nat :: i < |d.passes| ==> r.passes[i] == d.passes[i];
    assert forall i: nat :: Booked(r, i) == Booked(d, i);
  }

  lemma JoinWaits(d: Device, tag: string, cost: real, phase: Phase)
    requires Waits(d) && (phase.Done? || (phase.Queued? && d.running))
    ensures Waits(Joined(d, tag, cost, phase))
  {
    var r := Joined(d, tag, cost, phase);
    if phase.Queued? {
      var w := Waiter(d.now, tag, |d.passes|);
      assert forall v :: v in r.waiting <==> v in d.waiting || v == w;
      assert w in r.waiting;
      assert forall i: nat :: Listed(r, i) <==> Listed(d, i) || i == w.id;
    } else {
      assert forall i: nat :: Listed(r, i) == Listed(d, i);
    }
  }

  lemma JoinFair(d: Device, tag: string, cost: real, phase: Phase)
    requires Fair(d) && ((phase.Done? && cost == 0.0) || (phase.Queued? && cost > 0.0))
    ensures Fair(Joined(d, tag, cost, phase))
  {}

  /** A free device is taken at once: as if the pass had been handed its turn on arrival. */
  lemma TakeKeeps(d: Device, tag: string, cost: real)
    requires Inv(d) && !d.running && cost > 0.0
    ensures Inv(d.(running := true, passes := d.passes + [Pass(d.now, tag, cost, Turn)]))
  {
    hide Disjoint, StartsOnce;
    var r := d.(running := true, passes := d.passes + [Pass(d.now, tag, cost, Turn)]);
    var id := |d.passes|;
    MovedDisjoint(d, r);
    JoinBooks(d, r);
    assert Owner(r, id);
    assert forall i: nat :: Owner(r, i) <==> Owner(d, i) || i == id;
    assert forall i: nat :: Listed(r, i) == Listed(d, i);
    forall i: nat | i < id
      ensures !d.passes[i].phase.Queued? && !Owner(d, i)
    {
      assert d.passes[i].phase.Queued? ==> Listed(d, i);
    }
  }

  lemma SubmitKeepsInv(d: Device, tag: string, cost: real)
    requires Inv(d) && cost >= 0.0
    ensures Inv(Submit(d, tag, cost))
  {
    hide Inv;
    if cost <= 0.0 {
      JoinKeeps(d, tag, cost, Done);
    } else if d.running {
      JoinKeeps(d, tag, cost, Queued);
    } else {
      TakeKeeps(d, tag, cost);
      var id := |d.passes|;
      var turn := d.(running := true, passes := d.passes + [Pass(d.now, tag, cost, Turn)]);
      StartKeepsInv(turn, id);
      assert Start(turn, id) == Submit(d, tag, cost);
    }
  }

  lemma WaitKeepsInv(d: Device, until: real)
    requires Inv(d) && until >= d.now
    ensures Inv(d.(now := until))
  {
    hide OneOwner, Waits, Fair, StartsOnce, Disjoint;
    SamePasses(d, d.(now := until));
    LaterBookings(d, until);
  }

  lemma LaterBookings(d: Device, until: real)
    requires StartsOnce(d) && Disjoint(d) && until >= d.now
    ensures StartsOnce(d.(now := until)) && Disjoint(d.(now := until))
  {
    LaterDisjoint(d, until);
    hide Disjoint, Stage;
    assert forall i: nat :: Booked(d.(now := until), i) == Booked(d, i);
  }

  lemma LaterDisjoint(d: Device, until: real)
    requires Disjoint(d) && until >= d.now
    ensures Disjoint(d.(now := until))
  {
    var r := d.(now := until);
    forall k: nat | k < |r.bookings|
      ensures Placed(r.bookings, k, r.now, r.busyUntil)
    {
      assert Placed(d.bookings, k, d.now, d.busyUntil);
    }
  }

  lemma NextKeepsInv(d: Device, ev: Event)
    requires Inv(d) && Legal(d, ev)
    ensures Inv(Next(d, ev))
  {
    hide Inv;
    match ev
    case Prefill(tag, cost) => SubmitKeepsInv(d, tag, cost);
    case Resume(id) => StartKeepsInv(d, id);
    case Finish(id) => LeaveKeepsInv(d, id);
    case Step(cost) => StepKeepsInv(d, cost);
    case Wait(until) => WaitKeepsInv(d, until);
  }

  // ----- what runs promise ----------------------------------------------------------------

  ghost predicate Possible(d: Device, evs: seq<Event>)
    requires Inv(d)
    decreases |evs|
  {
    evs == [] || (Legal(d, evs[0]) && (NextKeepsInv(d, evs[0]); Possible(Next(d, evs[0]), evs[1..])))
  }

  ghost function Run(d: Device, evs: seq<Event>): (r: Device)
    requires Inv(d) && Possible(d, evs)
    ensures Inv(r)
    decreases |evs|
  {
    if evs == [] then d else
      NextKeepsInv(d, evs[0]);
      Run(Next(d, evs[0]), evs[1..])
  }

  /**
   In every run bookings are disjoint and in order, none starts before it was asked for or leaves
   the device idle in front of it, at most one pass owns the device, and one does while any waits.
   */
  lemma EveryRunBooksApart(evs: seq<Event>)
    requires Inv(Fresh()) && Possible(Fresh(), evs)
    ensures var d := Run(Fresh(), evs);
      && (forall k: nat, l: nat :: k < l < |d.bookings| ==> d.bookings[k].end <= d.bookings[l].start)
      && (forall b :: b in d.bookings ==> b.claimed <= b.start && (b.start > b.claimed ==> EndsAt(d, b.start)))
      && (forall i: nat, j: nat :: Owner(d, i) && Owner(d, j) ==> i == j)
      && (d.waiting != [] ==> exists i: nat :: Owner(d, i))
  {
    hide Run, Possible, Fair, StartsOnce;
    var d := Run(Fresh(), evs);
    forall b | b in d.bookings
      ensures b.claimed <= b.start && (b.start > b.claimed ==> EndsAt(d, b.start))
    {
      var k: nat :| k < |d.bookings| && d.bookings[k] == b;
      assert Placed(d.bookings, k, d.now, d.busyUntil);
      if b.start > b.claimed { assert d.bookings[k - 1] in d.bookings; }
    }
  }

  /** A booking ends at this instant. */
  ghost predicate EndsAt(d: Device, t: real) {
    exists b :: b in d.bookings && b.end == t
  }

  /** Pass `i` has one booking, and it is before place `l`. */
  ghost predicate BookedOnceBefore(d: Device, i: nat, l: nat) {
    exists k: nat :: k < l && k < |d.bookings| && d.bookings[k].pass == Some(i)
      && forall m: nat :: m < |d.bookings| && m != k ==> d.bookings[m].pass != Some(i)
  }

  /** No pass is booked before one that queued at a strictly earlier instant; each is booked once. */
  lemma NoneOvertaken(d: Device, i: nat, j: nat, l: nat)
    requires Inv(d) && i < |d.passes| && j < |d.passes| && d.passes[i].cost > 0.0
    requires d.passes[i].submitted < d.passes[j].submitted
    requires l < |d.bookings| && d.bookings[l].pass == Some(j)
    ensures BookedOnceBefore(d, i, l)
  {
    hide OneOwner, Waits, Disjoint;
    assert Stage(d.passes[i]) == 0 by {
      assert Stage(d.passes[j]) == 0 && d.passes[j].cost > 0.0;
    }
    var k := BookingOf(d, i);
    assert k < l;
  }

  lemma BookingOf(d: Device, i: nat) returns (k: nat)
    requires StartsOnce(d) && i < |d.passes| && Stage(d.passes[i]) == 0 && d.passes[i].cost > 0.0
    ensures k < |d.bookings| && d.bookings[k].pass == Some(i)
    ensures forall m: nat :: m < |d.bookings| && m != k ==> d.bookings[m].pass != Some(i)
  {
    assert Booked(d, i);
    k :| k < |d.bookings| && d.bookings[k].pass == Some(i);
    forall m: nat | m < |d.bookings| && m != k
      ensures d.bookings[m].pass != Some(i)
    {
      assert m < k || k < m;
    }
  }

  /** The device goes to a waiter that no other comes before, and the others go on waiting. */
  lemma HandOffPicksLeast(d: Device, id: nat)
    requires Inv(d) && Legal(d, Finish(id)) && d.waiting != []
    ensures var r := Next(d, Finish(id));
      exists w :: w in d.waiting
        && (forall v :: v in d.waiting ==>
              w.submitted < v.submitted || (w.submitted == v.submitted && !StringLt(v.tag, w.tag)))
        && r.passes == d.passes[id := d.passes[id].(phase := Done)][w.id := d.passes[w.id].(phase := Turn)]
        && (forall v :: v in r.waiting <==> v in d.waiting && v != w)
  {
    hide Sorted;
    var w, rest := Chosen(d.waiting);
    assert w == ([w] + rest)[0] && rest == ([w] + rest)[1..];
    assert Listed(d, w.id);
  }

  function Unfinished(passes: seq<Pass>): nat {
    if passes == [] then 0 else (if passes[0].phase.Done? then 0 else 1) + Unfinished(passes[1..])
  }

  lemma {:induction false} UnfinishedUpdate(passes: seq<Pass>, i: nat, phase: Phase)
    requires i < |passes| && !passes[i].phase.Done?
    ensures Unfinished(passes[i := passes[i].(phase := phase)])
      == Unfinished(passes) - (if phase.Done? then 1 else 0)
  {
    var r := passes[i := passes[i].(phase := phase)];
    if i == 0 {
      assert r[1..] == passes[1..];
    } else {
      assert r[1..] == passes[1..][i - 1 := passes[1..][i - 1].(phase := phase)];
      UnfinishedUpdate(passes[1..], i - 1, phase);
    }
  }

  /** Every finish brings the end one pass nearer, and until then somebody can move. */
  lemma FinishesDrain(d: Device, ev: Event)
    requires Inv(d) && Legal(d, ev) && !ev.Prefill?
    ensures Unfinished(Next(d, ev).passes) == Unfinished(d.passes) - (if ev.Finish? then 1 else 0)
  {
    match ev
    case Resume(id) => UnfinishedUpdate(d.passes, id, Running(Next(d, ev).busyUntil));
    case Finish(id) =>
      UnfinishedUpdate(d.passes, id, Done);
      if d.waiting != [] {
        hide Sorted, Before;
        var w, rest := Chosen(d.waiting);
        assert w == ([w] + rest)[0];
        assert Listed(d, w.id);
        UnfinishedUpdate(d.passes[id := d.passes[id].(phase := Done)], w.id, Turn);
      }
    case Step(_) =>
    case Wait(_) =>
  }

  lemma {:induction false} SomeUnfinished(passes: seq<Pass>) returns (i: nat)
    requires Unfinished(passes) > 0
    ensures i < |passes| && !passes[i].phase.Done?
  {
    if !passes[0].phase.Done? {
      i := 0;
    } else {
      i := SomeUnfinished(passes[1..]);
      i := i + 1;
    }
  }

  lemma NeverStalls(d: Device)
    requires Inv(d) && Unfinished(d.passes) > 0
    ensures exists id: nat :: Legal(d, Resume(id)) || Legal(d, Finish(id))
  {
    var i := SomeUnfinished(d.passes);
    assert d.passes[i].phase.Queued? ==> Listed(d, i);
    assert !d.passes[i].phase.Queued? ==> Owner(d, i);
    var id: nat :| Owner(d, id);
    assert Legal(d, Resume(id)) || Legal(d, Finish(id));
  }

  lemma WaitersKnown(d: Device)
    requires Inv(d)
    ensures forall w :: w in d.waiting ==> w.id < |d.passes|
  {}
}
