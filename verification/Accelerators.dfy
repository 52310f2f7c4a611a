/** The accelerator and its prefill queue as the object two engines may share, tied to the events of `Accelerator`. */
module Accelerators {
  import opened Basics
  import A = Accelerator

  class SimulatedAccelerator {
    var now: real
    var busyUntil: real
    var running: bool
    var waiting: seq<A.Waiter>
    /** Each pass's own progress: the future it waits on, or the end it claimed. */
    var passes: seq<A.Pass>
    /** Every claim so far, for the record only. */
    ghost var bookings: seq<A.Booking>

    ghost function Abs(): A.Device
      reads this
    {
      A.Device(now, busyUntil, running, waiting, passes, bookings)
    }

    ghost predicate Valid()
      reads this
    {
      A.Inv(Abs())
    }

    constructor ()
      ensures Valid() && Abs() == A.Fresh()
    {
      now, busyUntil, running, waiting, passes, bookings := 0.0, 0.0, false, [], [], [];
      new;
      hide A.Inv;
      A.FreshInv();
    }

    /** Books `cost` after whatever already has the device, and answers when that ends. */
    method Claim(ghost pass: Option<nat>, cost: real) returns (end: real)
      modifies this`busyUntil, this`bookings
      ensures Abs() == A.Claim(old(Abs()), pass, cost) && end == busyUntil
    {
      ghost var start := Max(now, busyUntil);
      busyUntil := Max(now, busyUntil) + cost;
      bookings := bookings + [A.Booking(pass, now, start, busyUntil)];
      end := busyUntil;
    }

    /** A decode step's claim. */
    method ClaimStep(cost: real) returns (end: real)
      requires Valid() && cost >= 0.0
      modifies this`busyUntil, this`bookings
      ensures Valid() && Abs() == A.Claim(old(Abs()), None, cost) && end == busyUntil
    {
      hide A.Inv;
      A.NextKeepsInv(Abs(), A.Step(cost));
      end := Claim(None, cost);
    }

    /** The owner occupies the device. */
    method Start(id: nat)
      requires id < |passes|
      modifies this`busyUntil, this`bookings, this`passes
      ensures Abs() == A.Start(old(Abs()), id)
    {
      var end := Claim(Some(id), passes[id].cost);
      passes := passes[id := passes[id].(phase := A.Running(end))];
    }

    /** Queue for the device, or occupy it at once; with nothing to compute, neither. */
    method Prefill(tag: string, cost: real) returns (id: nat)
      requires Valid() && cost >= 0.0
      modifies this
      ensures Valid() && Abs() == A.Submit(old(Abs()), tag, cost) && id == |old(passes)|
    {
      hide A.Inv, A.Claim;
      A.NextKeepsInv(Abs(), A.Prefill(tag, cost));
      id := |passes|;
      if cost <= 0.0 {
        passes := passes + [A.Pass(now, tag, cost, A.Done)];
      } else if running {
        passes := passes + [A.Pass(now, tag, cost, A.Queued)];
        waiting := waiting + [A.Waiter(now, tag, id)];
      } else {
        passes := passes + [A.Pass(now, tag, cost, A.Queued)];
        running := true;
        Start(id);
      }
    }

    /** A waiter whose turn was resolved goes on. */
    method Resume(id: nat)
      requires Valid() && id < |passes| && passes[id].phase.Turn?
      modifies this
      ensures Valid() && Abs() == A.Start(old(Abs()), id)
    {
      hide A.Inv, A.Claim;
      A.NextKeepsInv(Abs(), A.Resume(id));
      Start(id);
    }

    /** Gives the device to the longest-waiting pass, or marks it idle. */
    method HandOff()
      requires forall w :: w in waiting ==> w.id < |passes|
      modifies this`waiting, this`running, this`passes
      ensures Abs() == A.HandOff(old(Abs()))
    {
      if waiting == [] {
        running := false;
        return;
      }
      A.SortedOrders(waiting);
      waiting := A.Sorted(waiting);
      var next := waiting[0];
      assert next in multiset(waiting);
      waiting := waiting[1..];
      passes := passes[next.id := passes[next.id].(phase := A.Turn)];
    }

    /** A pass is over, or failed: the device is handed on either way. */
    method Finish(id: nat)
      requires Valid() && id < |passes| && passes[id].phase.Running?
      modifies this
      ensures Valid() && Abs() == A.Leave(old(Abs()), id)
    {
      hide A.Inv, A.HandOff;
      A.NextKeepsInv(Abs(), A.Finish(id));
      A.WaitersKnown(Abs());
      passes := passes[id := passes[id].(phase := A.Done)];
      HandOff();
    }
  }
}
