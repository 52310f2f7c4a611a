/** What every run of an accelerator books, told by what was asked of it: the passes, the decode steps and the clock. */
module AcceleratorEvents {
  import opened Basics
  import opened Accelerator

  /** The passes submitted, each with the instant, its tag and its cost; only waiting moves the clock. */
  function Submitted(evs: seq<Event>, clock: real): seq<(real, string, real)> {
    if evs == [] then [] else
      match evs[0]
      case Prefill(tag, cost) => [(clock, tag, cost)] + Submitted(evs[1..], clock)
      case Wait(until) => Submitted(evs[1..], until)
      case _ => Submitted(evs[1..], clock)
  }

  /** The decode steps claimed, each with the instant and its cost. */
  function Stepped(evs: seq<Event>, clock: real): seq<(real, real)> {
    if evs == [] then [] else
      match evs[0]
      case Step(cost) => [(clock, cost)] + Stepped(evs[1..], clock)
      case Wait(until) => Stepped(evs[1..], until)
      case _ => Stepped(evs[1..], clock)
  }

  function Terms(passes: seq<Pass>): (r: seq<(real, string, real)>)
    ensures |r| == |passes|
    ensures forall i: nat :: i < |passes| ==> r[i] == (passes[i].submitted, passes[i].tag, passes[i].cost)
  {
    seq(|passes|, i requires 0 <= i < |passes| => (passes[i].submitted, passes[i].tag, passes[i].cost))
  }

  /** The bookings of decode steps: when asked for, and how long. */
  function Decoding(bookings: seq<Booking>): seq<(real, real)> {
    if bookings == [] then [] else
      var b := bookings[|bookings| - 1];
      Decoding(bookings[..|bookings| - 1]) + (if b.pass.None? then [(b.claimed, b.end - b.start)] else [])
  }

  lemma DecodingOneMore(bookings: seq<Booking>, b: Booking)
    ensures Decoding(bookings + [b])
      == Decoding(bookings) + (if b.pass.None? then [(b.claimed, b.end - b.start)] else [])
  {
    assert (bookings + [b])[..|bookings|] == bookings;
  }

  /** A pass is booked for what it costs, and runs until its booking ends. */
  ghost predicate PassesBooked(d: Device) {
    && (forall k: nat :: k < |d.bookings| && d.bookings[k].pass.Some? ==>
          && d.bookings[k].pass.value < |d.passes|
          && d.bookings[k].end - d.bookings[k].start == d.passes[d.bookings[k].pass.value].cost)
    && (forall i: nat :: i < |d.passes| && d.passes[i].phase.Running? ==> Until(d, i, d.passes[i].phase.end))
  }

  /** Pass `i` has a booking that ends then. */
  ghost predicate Until(d: Device, i: nat, end: real) {
    exists k: nat :: k < |d.bookings| && d.bookings[k].pass == Some(i) && d.bookings[k].end == end
  }

  /** Each booking starts when it was asked for or when the one before it ended, whichever is later. */
  ghost predicate Abutting(bookings: seq<Booking>) {
    forall k: nat :: k < |bookings| ==>
      var free := if k == 0 then 0.0 else bookings[k - 1].end;
      bookings[k].start == (if bookings[k].claimed >= free then bookings[k].claimed else free)
  }

  // ----- one event ------------------------------------------------------------------------

  lemma ClaimBooks(d: Device, pass: Option<nat>, cost: real)
    requires Disjoint(d) && Abutting(d.bookings)
    ensures var r := Claim(d, pass, cost);
      && |r.bookings| == |d.bookings| + 1 && r.bookings[..|d.bookings|] == d.bookings
      && r.bookings[|d.bookings|].pass == pass && r.bookings[|d.bookings|].claimed == d.now
      && r.bookings[|d.bookings|].end == r.busyUntil
      && r.bookings[|d.bookings|].end - r.bookings[|d.bookings|].start == cost
      && Abutting(r.bookings)
      && r == d.(bookings := r.bookings, busyUntil := r.busyUntil)
  {
    var r := Claim(d, pass, cost);
    assert forall k: nat :: k < |d.bookings| ==> r.bookings[k] == d.bookings[k];
  }

  lemma BookedFirst(d: Device, r: Device, i: nat, end: real)
    requires Until(d, i, end) && |d.bookings| <= |r.bookings| && r.bookings[..|d.bookings|] == d.bookings
    ensures Until(r, i, end)
  {
    var k: nat :| k < |d.bookings| && d.bookings[k].pass == Some(i) && d.bookings[k].end == end;
    assert r.bookings[..|d.bookings|][k] == r.bookings[k];
  }

  lemma BookedLast(r: Device, i: nat, end: real)
    requires r.bookings != []
    requires r.bookings[|r.bookings| - 1].pass == Some(i) && r.bookings[|r.bookings| - 1].end == end
    ensures Until(r, i, end)
  {}

  /** What one event adds to the passes and to the decode bookings, and that it keeps the rest. */
  ghost predicate Tells(d: Device, ev: Event, r: Device) {
    && r.now == (if ev.Wait? then ev.until else d.now)
    && Terms(r.passes) == Terms(d.passes) + (if ev.Prefill? then [(d.now, ev.tag, ev.cost)] else [])
    && Decoding(r.bookings) == Decoding(d.bookings) + (if ev.Step? then [(d.now, ev.cost)] else [])
    && PassesBooked(r) && Abutting(r.bookings)
  }

  lemma StartBooks(d: Device, id: nat)
    requires Disjoint(d) && PassesBooked(d) && Abutting(d.bookings) && id < |d.passes|
    ensures var r := Start(d, id);
      && PassesBooked(r) && Abutting(r.bookings) && Terms(r.passes) == Terms(d.passes) && r.now == d.now
      && Decoding(r.bookings) == Decoding(d.bookings)
      && r.passes[id].phase == Running(r.busyUntil)
  {
    hide Claim, Until, Disjoint, Abutting, Decoding;
    var r := Start(d, id);
    ClaimBooks(d, Some(id), d.passes[id].cost);
    assert r.bookings == d.bookings + [r.bookings[|d.bookings|]];
    DecodingOneMore(d.bookings, r.bookings[|d.bookings|]);
    forall i: nat | i < |r.passes| && r.passes[i].phase.Running?
      ensures Until(r, i, r.passes[i].phase.end)
    {
      if i == id { BookedLast(r, i, r.busyUntil); } else { BookedFirst(d, r, i, d.passes[i].phase.end); }
    }
  }

  lemma StepTells(d: Device, cost: real)
    requires Disjoint(d) && PassesBooked(d) && Abutting(d.bookings)
    ensures Tells(d, Step(cost), Claim(d, None, cost))
  {
    hide Claim, Until, Disjoint, Abutting, Decoding;
    var r := Claim(d, None, cost);
    ClaimBooks(d, None, cost);
    assert r.bookings == d.bookings + [r.bookings[|d.bookings|]];
    DecodingOneMore(d.bookings, r.bookings[|d.bookings|]);
    forall i: nat | i < |r.passes| && r.passes[i].phase.Running?
      ensures Until(r, i, r.passes[i].phase.end)
    {
      BookedFirst(d, r, i, d.passes[i].phase.end);
    }
  }

  /** Nothing is booked: passes only move on, and none of them starts to run. */
  lemma MovedBooks(d: Device, r: Device)
    requires PassesBooked(d) && r.bookings == d.bookings
    requires |d.passes| <= |r.passes| && forall i: nat :: i < |d.passes| ==> r.passes[i].cost == d.passes[i].cost
    requires forall i: nat :: i < |r.passes| && r.passes[i].phase.Running? ==>
      i < |d.passes| && r.passes[i] == d.passes[i]
    ensures PassesBooked(r)
  {
    assert forall i: nat, end :: Until(d, i, end) ==> Until(r, i, end);
  }

  lemma PrefillTells(d: Device, tag: string, cost: real)
    requires Inv(d) && PassesBooked(d) && Abutting(d.bookings) && cost >= 0.0
    ensures Tells(d, Prefill(tag, cost), Submit(d, tag, cost))
  {
    hide OneOwner, Waits, Fair, StartsOnce, PassesBooked, Abutting, Decoding;
    var r := Submit(d, tag, cost);
    var joined := d.(passes := d.passes + [Pass(d.now, tag, cost, if cost <= 0.0 then Done else Queued)]);
    assert Terms(joined.passes) == Terms(d.passes) + [(d.now, tag, cost)];
    MovedBooks(d, joined);
    if cost <= 0.0 || d.running {
      MovedBooks(d, r);
      assert r.passes == joined.passes;
    } else {
      hide Disjoint;
      MovedDisjoint(d, joined);
      MovedDisjoint(joined, joined.(running := true));
      MovedBooks(joined, joined.(running := true));
      StartBooks(joined.(running := true), |d.passes|);
    }
  }

  lemma LeaveTells(d: Device, id: nat)
    requires Inv(d) && PassesBooked(d) && Abutting(d.bookings) && Legal(d, Finish(id))
    ensures Tells(d, Finish(id), Leave(d, id))
  {
    hide OneOwner, Fair, StartsOnce, PassesBooked, Abutting, Decoding, Sorted, Before, Disjoint;
    var r := Leave(d, id);
    LeaveClocks(d, id);
    if d.waiting != [] {
      var w, rest := Chosen(d.waiting);
      assert w == ([w] + rest)[0];
      assert Listed(d, w.id);
    }
    MovedBooks(d, r);
    assert Terms(r.passes) == Terms(d.passes);
  }

  lemma NextTells(d: Device, ev: Event)
    requires Inv(d) && PassesBooked(d) && Abutting(d.bookings) && Legal(d, ev)
    ensures Tells(d, ev, Next(d, ev))
  {
    hide OneOwner, Waits, Fair, StartsOnce, Abutting, Decoding, Until, Submit, Leave, Claim;
    match ev
    case Prefill(tag, cost) => PrefillTells(d, tag, cost);
    case Resume(id) => StartBooks(d, id);
    case Finish(id) => LeaveTells(d, id);
    case Step(cost) => StepTells(d, cost);
    case Wait(until) => MovedBooks(d, d.(now := until));
  }

  // ----- runs -----------------------------------------------------------------------------

  lemma {:induction false} RunTells(d: Device, evs: seq<Event>)
    requires Inv(d) && PassesBooked(d) && Abutting(d.bookings) && Possible(d, evs)
    ensures var r := Run(d, evs);
      && Terms(r.passes) == Terms(d.passes) + Submitted(evs, d.now)
      && Decoding(r.bookings) == Decoding(d.bookings) + Stepped(evs, d.now)
      && PassesBooked(r) && Abutting(r.bookings)
    decreases |evs|
  {
    hide Inv, PassesBooked, Abutting, Decoding, Terms, Next, Legal;
    if evs != [] {
      NextKeepsInv(d, evs[0]);
      NextTells(d, evs[0]);
      RunTells(Next(d, evs[0]), evs[1..]);
    }
  }

  lemma FreshBooks()
    ensures PassesBooked(Fresh()) && Abutting(Fresh().bookings)
  {}

  /**
   In every run of a new device each pass is on record as it was submitted, a pass is booked for
   exactly what it costs and runs until that is over, the bookings of decode steps are the steps
   claimed, in order and each as long as it costs, and whatever is booked starts as soon as the
   device is free of what was booked before.
   */
  lemma EveryRunBooksCosts(evs: seq<Event>)
    requires Inv(Fresh()) && Possible(Fresh(), evs)
    ensures var d := Run(Fresh(), evs);
      && Terms(d.passes) == Submitted(evs, 0.0)
      && Decoding(d.bookings) == Stepped(evs, 0.0)
      && PassesBooked(d) && Abutting(d.bookings)
  {
    hide *;
    FreshBooks();
    FreshIsEmpty();
    RunTells(Fresh(), evs);
    assert [] + Submitted(evs, 0.0) == Submitted(evs, 0.0) && [] + Stepped(evs, 0.0) == Stepped(evs, 0.0);
  }

  lemma FreshIsEmpty()
    ensures Fresh().now == 0.0 && Terms(Fresh().passes) == [] && Decoding(Fresh().bookings) == []
  {}

  /** A pass with work that finds nobody on the device or waiting has it at once, behind what is booked. */
  lemma FreeDeviceIsTaken(d: Device, tag: string, cost: real)
    requires Inv(d) && PassesBooked(d) && Abutting(d.bookings) && cost > 0.0
    requires forall i: nat :: i < |d.passes| ==> d.passes[i].phase.Done?
    ensures var r := Next(d, Prefill(tag, cost));
      var free := if d.bookings == [] then 0.0 else d.bookings[|d.bookings| - 1].end;
      && |r.passes| == |d.passes| + 1
      && r.passes[|d.passes|].phase == Running((if d.now >= free then d.now else free) + cost)
  {
    hide Waits, Fair, StartsOnce, PassesBooked, Placed;
    assert forall i: nat :: !Owner(d, i);
  }
}
