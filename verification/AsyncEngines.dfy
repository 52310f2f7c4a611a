/** The event loop as the object it is, its tick tied to `AsyncLoop`. */
module AsyncEngines {
  import opened Basics
  import L = AsyncLoop

  datatype Fault = Deadlock

  class AsyncEngine {
    var clock: real
    var scheduled: seq<L.Handle>
    var ready: seq<L.Handle>
    var cancelled: set<L.Handle>
    var timerSeq: nat
    var soons: nat
    var stopping: bool
    /** When every timer was set for, what is left to drain and what ran, for the record only. */
    ghost var timers: seq<real>
    ghost var draining: seq<L.Handle>
    ghost var ran: seq<L.Ran>

    ghost function Abs(): L.Loop
      reads this
    {
      L.Loop(clock, scheduled, ready, draining, cancelled, timers, soons, stopping, ran)
    }

    ghost predicate Valid()
      reads this
    {
      timerSeq == |timers|
    }

    constructor ()
      ensures Valid() && Abs() == L.New()
    {
      clock, scheduled, ready, cancelled, timerSeq, soons, stopping := 0.0, [], [], {}, 0, 0, false;
      timers, draining, ran := [], [], [];
    }

    method CallAt(when: real) returns (h: L.Handle)
      requires Valid()
      modifies this`scheduled, this`timerSeq, this`timers
      ensures Valid() && Abs() == L.Do(old(Abs()), L.CallAt(when)) && h == L.Timer(when, old(timerSeq))
    {
      h := L.Timer(when, timerSeq);
      timerSeq := timerSeq + 1;
      timers := timers + [when];
      scheduled := L.Push(scheduled, h);
    }

    method Perform(effects: seq<L.Effect>)
      requires Valid()
      modifies this`scheduled, this`timerSeq, this`timers, this`ready, this`soons, this`cancelled, this`stopping
      ensures Valid() && Abs() == L.DoAll(old(Abs()), effects)
    {
      hide L.Push;
      var i := 0;
      while i < |effects|
        invariant Valid() && i <= |effects|
        invariant L.DoAll(Abs(), effects[i..]) == L.DoAll(old(Abs()), effects)
        decreases |effects| - i
      {
        assert effects[i..][0] == effects[i] && effects[i..][1..] == effects[i + 1..];
        match effects[i] {
          case CallAt(when) => var timer := CallAt(when);
          case CallSoon => ready, soons := ready + [L.Soon(soons)], soons + 1;
          case Cancel(handle) => cancelled := cancelled + {handle};
          case Stop => stopping := true;
        }
        i := i + 1;
      }
    }

    method DropCancelled()
      modifies this`scheduled
      ensures Abs() == L.Drop(old(Abs()))
    {
      while scheduled != [] && scheduled[0] in cancelled
        invariant L.Drop(Abs()) == L.Drop(old(Abs()))
        decreases |scheduled|
      {
        scheduled := scheduled[1..];
      }
    }

    method MoveDue()
      modifies this`scheduled, this`ready
      ensures Abs() == L.Due(old(Abs()))
    {
      while scheduled != [] && L.WhenOf(scheduled[0]) <= clock
        invariant L.Due(Abs()) == L.Due(old(Abs()))
        decreases |scheduled|
      {
        ready := ready + [scheduled[0]];
        scheduled := scheduled[1..];
      }
    }

    /** One tick: drop, advance if idle, move what is due, and drain exactly what is ready now. */
    method RunOnce(program: L.Handle -> seq<L.Effect>) returns (result: Result<(), Fault>)
      requires Valid() && draining == []
      modifies this
      ensures Valid()
      ensures result == Err(Deadlock) <==> L.Begin(old(Abs())).None?
      ensures result.Err? ==> Abs() == L.Drop(old(Abs()))
      ensures result.Ok? ==> Abs() == L.Drain(L.Begin(old(Abs())).value, program)
    {
      hide L.Drop, L.Due, L.Drain;
      DropCancelled();
      if ready == [] && !stopping {
        if scheduled == [] {
          return Err(Deadlock);
        }
        var when := L.WhenOf(scheduled[0]);
        if when > clock {
          clock := when;
        }
      }
      MoveDue();
      var batch := ready;
      ready := [];
      draining := batch;
      DrainAll(batch, program);
      result := Ok(());
    }

    method DrainAll(batch: seq<L.Handle>, program: L.Handle -> seq<L.Effect>)
      requires Valid() && draining == batch
      modifies this
      ensures Valid() && Abs() == L.Drain(old(Abs()), program)
    {
      hide L.DoAll;
      var i := 0;
      while i < |batch|
        invariant Valid() && i <= |batch| && draining == batch[i..]
        invariant L.Drain(Abs(), program) == L.Drain(old(Abs()), program)
      {
        var h := batch[i];
        draining := draining[1..];
        if h !in cancelled {
          ran := ran + [L.Ran(h, clock)];
          Perform(program(h));
        }
        i := i + 1;
      }
    }
  }
}
