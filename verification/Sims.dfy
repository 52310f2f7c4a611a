/** The callback engine and its promises as the objects they are, tied to the events of `SimEngine`. */
module Sims {
  import opened Basics
  import E = SimEngine

  datatype Fault = IntoThePast

  class Sim {
    var now: real
    var heap: seq<E.Entry>
    var next: nat
    var made: nat
    /** Every promise made and event fired so far, for the record only. */
    ghost var promises: seq<Promise>
    ghost var fired: seq<E.Entry>

    ghost function Abs(): E.Sim
      reads this, promises
    {
      E.Sim(now, heap, next, Values(promises), fired)
    }

    ghost predicate Valid()
      reads this, promises
    {
      && made == |promises| && (forall i: nat :: i < |promises| ==> promises[i].id == i)
      && E.Inv(Abs())
    }

    constructor ()
      ensures Valid() && Abs() == E.New()
    {
      now, heap, next, made, promises, fired := 0.0, [], 0, 0, [], [];
      new;
      E.NewInv();
    }

    method Push(delay: real, task: E.Task)
      modifies this`heap, this`next
      ensures Abs() == E.Schedule(old(Abs()), delay, task)
    {
      heap := E.Push(heap, E.Entry(now + delay, next, task));
      next := next + 1;
    }

    method Schedule(delay: real, name: nat) returns (result: Result<nat, Fault>)
      requires Valid()
      modifies this`heap, this`next
      ensures Valid() && (result.Err? <==> delay < 0.0)
      ensures result.Ok? ==> result.value == old(next) && Abs() == E.Next(old(Abs()), E.Schedules(delay, name))
      ensures result.Err? ==> Abs() == old(Abs())
    {
      hide E.Inv;
      if delay < 0.0 {
        return Err(IntoThePast);
      }
      E.NextKeepsInv(Abs(), E.Schedules(delay, name));
      result := Ok(next);
      Push(delay, E.Plain(name));
    }

    /** A new promise on this engine. */
    method MakePromise() returns (p: Promise)
      requires Valid()
      modifies this`made, this`promises
      ensures fresh(p) && Valid() && promises == old(promises) + [p] && p.id == |old(promises)|
      ensures Abs() == E.Next(old(Abs()), E.Makes)
    {
      hide E.Inv, Values;
      E.NextKeepsInv(Abs(), E.Makes);
      ghost var was := Abs();
      p := new Promise(made);
      made := made + 1;
      promises := promises + [p];
      assert Values(promises) == was.promises + [p.Value()];
    }

    /** One turn of `run`: the clock moves to the earliest event, which fires. */
    method Fire() returns (task: E.Task)
      requires Valid() && heap != []
      modifies this`now, this`heap, this`fired
      ensures Valid() && Abs() == E.Next(old(Abs()), E.Pops) && task == old(heap)[0].task
    {
      hide E.Inv;
      E.NextKeepsInv(Abs(), E.Pops);
      task := heap[0].task;
      fired := fired + [heap[0]];
      now := heap[0].time;
      heap := heap[1..];
    }
  }

  class Promise {
    const id: nat
    var resolved: bool
    var cbs: seq<nat>
    var given: nat

    function Value(): E.Promise
      reads this
    {
      E.Promise(resolved, cbs, given)
    }

    constructor (id: nat)
      ensures Value() == E.Promise(false, [], 0) && this.id == id
    {
      this.id, resolved, cbs, given := id, false, [], 0;
    }

    method AddCallback(sim: Sim)
      requires sim.Valid() && id < |sim.promises| && sim.promises[id] == this
      modifies this, sim`heap, sim`next
      ensures sim.Valid() && sim.Abs() == E.Next(old(sim.Abs()), E.Adds(id))
    {
      hide E.Inv, Values;
      E.NextKeepsInv(sim.Abs(), E.Adds(id));
      ghost var was := sim.Abs();
      var nth := given;
      given := given + 1;
      if resolved {
        assert Values(sim.promises) == was.promises[id := Value()];
        sim.Push(0.0, E.Released(id, nth));
      } else {
        cbs := cbs + [nth];
        assert Values(sim.promises) == was.promises[id := Value()];
      }
    }

    method Resolve(sim: Sim)
      requires sim.Valid() && id < |sim.promises| && sim.promises[id] == this
      modifies this, sim`heap, sim`next
      ensures sim.Valid() && sim.Abs() == E.Next(old(sim.Abs()), E.Resolves(id))
    {
      hide E.Inv, Values, E.Release, E.Schedule;
      E.NextKeepsInv(sim.Abs(), E.Resolves(id));
      ghost var was := sim.Abs();
      if resolved {
        return;
      }
      resolved := true;
      assert Values(sim.promises) == was.promises[id := Value()];
      ReleaseAll(sim);
      ghost var released := sim.Abs();
      cbs := [];
      assert Values(sim.promises) == released.promises[id := Value()];
    }

    method ReleaseAll(sim: Sim)
      modifies sim`heap, sim`next
      ensures sim.Abs() == E.Release(old(sim.Abs()), id, cbs)
    {
      hide E.Push;
      var i := 0;
      while i < |cbs|
        invariant i <= |cbs|
        invariant E.Release(sim.Abs(), id, cbs[i..]) == E.Release(old(sim.Abs()), id, cbs)
      {
        assert cbs[i..][0] == cbs[i] && cbs[i..][1..] == cbs[i + 1..];
        sim.Push(0.0, E.Released(id, cbs[i]));
        i := i + 1;
      }
    }
  }

  function Values(ps: seq<Promise>): (r: seq<E.Promise>)
    reads ps
    ensures |r| == |ps| && forall i: nat :: i < |ps| ==> r[i] == ps[i].Value()
  {
    if ps == [] then [] else [ps[0].Value()] + Values(ps[1..])
  }
}
