/**
 The two contended channels of `sim_common/resources.py` as objects: transfers are mutable records,
 a channel re-rates the ones it holds in place, and completions are timers on a loop both share.
 Each method is tied to the value-level step of `Progressive` or `Serial` that the runs are about.
 */
module Channels {
  import opened Basics
  import P = Progressive
  import S = Serial

  /** The clock and live timers a channel sees of the event loop. */
  class Loop {
    var clock: real
    var timers: map<nat, P.Timer>
    var next: nat

    constructor ()
      ensures clock == 0.0 && timers == map[] && next == 0
    {
      clock, timers, next := 0.0, map[], 0;
    }

    method CallAt(when: real, callback: P.Callback) returns (handle: nat)
      modifies this
      ensures handle == old(next) && next == old(next) + 1 && clock == old(clock)
      ensures timers == old(timers)[handle := P.Timer(when, callback)]
    {
      handle := next;
      timers := timers[handle := P.Timer(when, callback)];
      next := next + 1;
    }

    method Cancel(handle: nat)
      modifies this`timers
      ensures timers == old(timers) - {handle}
    {
      timers := timers - {handle};
    }
  }

  /** One in-flight transfer; `done` stands for its future. */
  class Transfer {
    const id: nat
    const latency: real
    var remaining: real
    var done: bool
    var handle: Option<nat>

    constructor (id: nat, nbytes: real, latency: real)
      ensures this.id == id && this.latency == latency && remaining == nbytes && !done && handle == None
    {
      this.id, this.latency := id, latency;
      remaining, done, handle := nbytes, false, None;
    }
  }

  lemma AdvanceDebitsAll(s: P.State, elapsed: real, moved: real)
    requires elapsed == s.clock - s.lastUpdate > 0.0 && moved == elapsed * s.rate && s.active != map[]
    ensures P.Advance(s) == s.(active := P.DebitEach(s.active, moved), lastUpdate := s.clock)
  {
    assert moved == P.Flowed(s.lastUpdate, s.clock, s.rate);
  }

  lemma AdvanceMovesNothing(s: P.State)
    requires s.clock <= s.lastUpdate || s.active == map[]
    ensures P.Advance(s) == s.(lastUpdate := s.clock)
  {}

  lemma RetimeAllNone(s: P.State)
    requires s.rate > 0.0
    ensures P.RetimeAll(s, {}) == s
  {}

  lemma RetimeAllNext(s: P.State, todo: set<nat>, i: nat)
    requires todo <= s.active.Keys && s.rate > 0.0 && i in todo && forall j :: j in todo ==> i <= j
    ensures P.RetimeAll(s, todo) == P.RetimeAll(P.Retime(s, i), todo - {i})
  {
    assert i == Least(todo);
  }

  class ProgressiveChannel {
    const loop: Loop
    const capacity: real
    var active: map<nat, Transfer>
    var rate: real
    var lastUpdate: real

    ghost predicate Valid()
      reads this, active.Values
    {
      capacity > 0.0 && forall i :: i in active ==> active[i].id == i
    }

    /** The channel and the loop as one value. */
    ghost function Abs(): P.State
      reads this, loop, active.Values
    {
      P.State(capacity, map i | i in active :: P.Flow(active[i].remaining, active[i].handle), rate, lastUpdate,
              loop.clock, loop.timers, loop.next)
    }

    constructor (loop: Loop, capacity: real)
      requires capacity > 0.0
      ensures Valid() && this.loop == loop
      ensures Abs() == P.State(capacity, map[], 0.0, loop.clock, loop.clock, loop.timers, loop.next)
    {
      this.loop, this.capacity := loop, capacity;
      active, rate, lastUpdate := map[], 0.0, loop.clock;
    }

    method Register(t: Transfer)
      requires Valid() && t !in active.Values
      modifies loop, t`handle
      ensures Valid() && Abs() == P.Register(old(Abs()), t.id, t.latency)
      ensures t.handle == Some(old(loop.next))
    {
      var h := loop.CallAt(loop.clock + t.latency, P.Enter(t.id));
      t.handle := Some(h);
    }

    /** `_advance`'s loop: debit `moved` bytes from every active transfer. */
    method DebitAll(moved: real)
      requires Valid()
      modifies active.Values`remaining
      ensures Valid()
      ensures forall i :: i in active ==>
        active[i].remaining == P.Debit(P.Flow(old(active[i].remaining), None), moved).remaining
    {
      var todo := active.Keys;
      while todo != {}
        invariant todo <= active.Keys
        invariant forall i :: i in todo ==> active[i].remaining == old(active[i].remaining)
        invariant forall i :: i in active && i !in todo ==>
          active[i].remaining == P.Debit(P.Flow(old(active[i].remaining), None), moved).remaining
        decreases |todo|
      {
        var i :| i in todo;
        var t := active[i];
        t.remaining := t.remaining - moved;
        if t.remaining < 0.0 {
          t.remaining := 0.0;
        }
        todo := todo - {i};
      }
    }

    /** The debit of every transfer object, seen from the channel. */
    method DebitActive(moved: real)
      requires Valid()
      modifies active.Values`remaining
      ensures Valid() && Abs() == old(Abs()).(active := P.DebitEach(old(Abs()).active, moved))
    {
      ghost var was := Abs().active;
      DebitAll(moved);
      forall i | i in active
        ensures Abs().active[i] == P.Debit(was[i], moved)
      {}
    }

    method Advance(now: real)
      requires Valid() && now == loop.clock
      modifies this`lastUpdate, active.Values`remaining
      ensures Valid() && Abs() == P.Advance(old(Abs()))
    {
      hide P.Advance, P.DebitEach;
      ghost var before := Abs();
      assert before.active.Keys == active.Keys;
      assert before.active == map[] <==> active == map[];
      var elapsed := now - lastUpdate;
      if elapsed > 0.0 && active != map[] {
        var moved := elapsed * rate;
        AdvanceDebitsAll(before, elapsed, moved);
        DebitActive(moved);
      } else {
        AdvanceMovesNothing(before);
      }
      lastUpdate := now;
    }

    /** The next turn of `_recompute`'s loop: cancel and replace the timer of transfer `i`. */
    method Retime(i: nat)
      requires Valid() && i in active && rate > 0.0
      modifies loop, {active[i]}`handle
      ensures Valid() && Abs() == P.Retime(old(Abs()), i)
    {
      ghost var before := Abs();
      var t := active[i];
      if t.handle.Some? {
        loop.Cancel(t.handle.value);
      }
      var dt := t.remaining / rate;
      var h := loop.CallAt(loop.clock + dt, P.Complete(i));
      t.handle := Some(h);
      assert Abs().active == before.active[i := before.active[i].(handle := Some(h))];
    }

    /** `_recompute`'s loop: every completion timer anew, in transfer order. */
    method RetimeAll()
      requires Valid() && (active != map[] ==> rate > 0.0)
      modifies loop, active.Values`handle
      ensures Valid() && Abs().active.Keys == active.Keys
      ensures active != map[] ==> Abs() == P.RetimeAll(old(Abs()), active.Keys)
      ensures active == map[] ==> Abs() == old(Abs())
    {
      hide P.RetimeAll, P.Retime;
      ghost var start := Abs();
      assert start.active.Keys == active.Keys;
      var todo := active.Keys;
      while todo != {}
        invariant Valid() && todo <= active.Keys
        invariant Abs().active.Keys == active.Keys && Abs().rate == rate
        invariant active != map[] ==> P.RetimeAll(Abs(), todo) == P.RetimeAll(start, active.Keys)
        invariant active == map[] ==> Abs() == start
        decreases |todo|
      {
        ghost var least := LeastExists(todo);
        var i :| i in todo && forall j :: j in todo ==> i <= j;
        RetimeAllNext(Abs(), todo, i);
        Retime(i);
        todo := todo - {i};
      }
      if active != map[] { RetimeAllNone(Abs()); }
    }

    /** `_recompute`: the share anew, and every completion timer with it. */
    method Recompute()
      requires Valid()
      modifies this`rate, loop, active.Values`handle
      ensures Valid() && Abs() == P.Recompute(old(Abs()))
    {
      hide P.RetimeAll;
      ghost var before := Abs();
      assert before.active.Keys == active.Keys && |before.active| == |before.active.Keys| && |active| == |active.Keys|;
      var k := |active|;
      rate := if k > 0 then capacity / k as real else 0.0;
      assert rate == P.Share(before) && Abs() == before.(rate := P.Share(before));
      RetimeAll();
    }

    /** `_enter`: the latency is over, and the transfer starts sharing the bandwidth. */
    method Enter(t: Transfer)
      requires Valid() && t !in active.Values && t.id !in active
      modifies this`active, this`rate, this`lastUpdate, loop, active.Values`remaining, active.Values`handle, t`handle
      ensures Valid() && Abs() == P.Join(old(Abs()), t.id, old(t.remaining), old(t.handle))
    {
      hide P.Advance, P.Recompute;
      Advance(loop.clock);
      ghost var a := Abs();
      active := active[t.id := t];
      assert Abs().active == a.active[t.id := P.Flow(t.remaining, t.handle)];
      Recompute();
    }

    /** `_complete`: the transfer's bytes are exhausted; its future resolves and it leaves. */
    method Complete(i: nat)
      requires Valid()
      modifies this`active, this`rate, this`lastUpdate, loop, active.Values
      ensures Valid() && Abs() == P.Leave(old(Abs()), i)
      ensures i in old(active) ==> old(active)[i].done
      ensures forall j :: j in old(active) && j != i ==> old(active)[j].done == old(active[j].done)
      ensures active == old(active) - {i}
    {
      hide P.Advance, P.Recompute;
      Advance(loop.clock);
      if i !in active {
        assert active == active - {i};
        return;
      }
      ghost var a := Abs();
      var t := active[i];
      active := active - {i};
      if !t.done {
        t.done := true;
      }
      assert Abs().active == a.active - {i};
      Recompute();
    }
  }

  class SerializeChannel {
    const loop: Loop
    var queue: seq<S.Transfer>
    var busy: bool
    /** The transfer being served with the instant it ends: what the pending `_finish` timer carries. */
    ghost var serving: Option<(S.Transfer, real)>
    /** The futures resolved so far, in order: transfer and instant. */
    ghost var resolved: seq<(nat, real)>

    ghost predicate Valid()
      reads this
    {
      busy <==> serving.Some?
    }

    ghost function Abs(): S.Queue
      reads this, loop
    {
      S.Queue(loop.clock, queue, serving, resolved)
    }

    constructor (loop: Loop)
      ensures Valid() && this.loop == loop && Abs() == S.Queue(loop.clock, [], None, [])
    {
      this.loop := loop;
      queue, busy, serving, resolved := [], false, None, [];
    }

    method Register(t: S.Transfer)
      requires Valid()
      modifies this, loop
      ensures Valid() && Abs() == S.Register(old(Abs()), t)
    {
      queue := queue + [t];
      if !busy {
        StartNext();
      }
    }

    method StartNext()
      requires Valid()
      modifies this`queue, this`busy, this`serving, loop
      ensures Valid() && Abs() == S.StartNext(old(Abs()))
      ensures serving.Some? ==>
        loop.timers == old(loop.timers)[old(loop.next) := P.Timer(serving.value.1, P.Complete(serving.value.0.id))]
      ensures serving.None? ==> loop.timers == old(loop.timers)
    {
      if queue == [] {
        busy, serving := false, None;
        return;
      }
      busy := true;
      var t := queue[0];
      queue := queue[1..];
      var dt := t.latency + t.nbytes / t.capacity;
      var handle := loop.CallAt(loop.clock + dt, P.Complete(t.id));
      serving := Some((t, loop.clock + dt));
    }

    /** `_finish`, called by the loop at the instant of the timer `StartNext` set. */
    method Finish(t: S.Transfer)
      requires Valid() && serving == Some((t, loop.clock))
      modifies this, loop
      ensures Valid() && Abs() == S.Finish(old(Abs()))
    {
      resolved := resolved + [(t.id, loop.clock)];
      StartNext();
    }
  }
}
