/** The dispatcher as the object callers dispatch to and gate on, tied to the events of `Dispatch`. */
module Dispatchers {
  import opened Basics
  import D = Dispatch

  /** One gate, released after every missing action commits. */
  class Waiter {
    const id: nat
    const named: set<D.Action>
    ghost const since: nat
    var missing: set<D.Action>
    var ready: bool
    ghost var phase: D.Phase

    ghost function Value(): D.Gate
      reads this
    {
      D.Gate(named, missing, ready, phase, since)
    }

    constructor (id: nat, actions: set<D.Action>, ghost since: nat)
      ensures Value() == D.Gate(actions, actions, false, D.Probing, since) && this.id == id
    {
      this.id, named, this.since, missing, ready, phase := id, actions, since, actions, false, D.Probing;
    }

    method Discard(a: D.Action)
      modifies this`missing, this`ready
      ensures Value() == D.Discard(old(Value()), a)
    {
      missing := missing - {a};
      if missing == {} {
        ready := true;
      }
    }
  }

  function Ids(ws: seq<Waiter>): (r: seq<nat>)
    ensures |r| == |ws| && forall i: nat :: i < |ws| ==> r[i] == ws[i].id
  {
    if ws == [] then [] else [ws[0].id] + Ids(ws[1..])
  }

  ghost function Values(ws: seq<Waiter>): (r: seq<D.Gate>)
    reads ws
    ensures |r| == |ws| && forall i: nat :: i < |ws| ==> r[i] == ws[i].Value()
  {
    if ws == [] then [] else [ws[0].Value()] + Values(ws[1..])
  }

  function BucketIds(waiters: map<D.Action, seq<Waiter>>): (r: map<D.Action, seq<nat>>)
    ensures r.Keys == waiters.Keys && forall a :: a in waiters ==> r[a] == Ids(waiters[a])
  {
    map a | a in waiters :: Ids(waiters[a])
  }

  function Dropped(ws: seq<Waiter>, w: Waiter): (r: seq<Waiter>)
    ensures forall v :: v in r ==> v in ws
  {
    if ws == [] then [] else (if ws[0] == w then [] else [ws[0]]) + Dropped(ws[1..], w)
  }

  /** Every listed waiter is the one the record holds under its id. */
  ghost predicate OnRecord(gates: seq<Waiter>, ws: seq<Waiter>) {
    forall w :: w in ws ==> w.id < |gates| && gates[w.id] == w
  }

  lemma NobodyOnRecord(gates: seq<Waiter>)
    ensures OnRecord(gates, [])
  {}

  lemma NobodyListed()
    ensures Ids([]) == []
  {}

  lemma {:induction false} DroppedIds(gates: seq<Waiter>, ws: seq<Waiter>, w: Waiter)
    requires OnRecord(gates, ws) && OnRecord(gates, [w])
    ensures Ids(Dropped(ws, w)) == D.Without(Ids(ws), w.id)
  {
    if ws != [] {
      DroppedIds(gates, ws[1..], w);
      assert w in [w];
      assert Ids(ws) == [ws[0].id] + Ids(ws[1..]);
      if ws[0] == w {
        assert Dropped(ws, w) == Dropped(ws[1..], w);
      } else {
        assert ws[0].id != w.id;
        assert Dropped(ws, w) == [ws[0]] + Dropped(ws[1..], w);
        assert Ids([ws[0]] + Dropped(ws[1..], w)) == [ws[0].id] + Ids(Dropped(ws[1..], w));
      }
    }
  }

  class Dispatcher {
    var folds: map<D.Kind, seq<nat>>
    /** Each reducer's own state, as the actions it has folded. */
    var logs: map<nat, seq<D.Action>>
    var waiters: map<D.Action, seq<Waiter>>
    var parked: nat
    /** Every gate and commit so far, for the record only. */
    ghost var gates: seq<Waiter>
    ghost var commits: seq<D.Commit>

    ghost function Abs(): D.State
      reads this, gates
    {
      D.State(folds, logs, BucketIds(waiters), Values(gates), commits)
    }

    ghost predicate Sound()
      reads this, gates
    {
      && parked == |gates|
      && (forall i: nat :: i < |gates| ==> gates[i].id == i)
      && (forall a :: a in waiters ==> OnRecord(gates, waiters[a]))
    }

    ghost predicate Valid()
      reads this, gates
    {
      Sound() && D.Inv(Abs())
    }

    constructor ()
      ensures Valid() && Abs() == D.Empty()
    {
      folds, logs, waiters, parked, gates, commits := map[], map[], map[], 0, [], [];
      new;
      assert BucketIds(waiters) == map[];
      D.EmptyInv();
    }

    method Compose(reducer: nat, kinds: seq<D.Kind>)
      requires Valid()
      modifies this`folds
      ensures Valid() && Abs() == D.Next(old(Abs()), D.Composes(reducer, kinds))
    {
      hide D.Inv, BucketIds, Values;
      D.NextKeepsInv(Abs(), D.Composes(reducer, kinds));
      ghost var was := Abs();
      var i := 0;
      while i < |kinds|
        invariant i <= |kinds|
        invariant D.Compose(Abs(), reducer, kinds[i..]) == D.Compose(was, reducer, kinds)
      {
        assert kinds[i..][0] == kinds[i] && kinds[i..][1..] == kinds[i + 1..];
        var already := if kinds[i] in folds then folds[kinds[i]] else [];
        folds := folds[kinds[i] := already + [reducer]];
        i := i + 1;
      }
    }

    method RunFolds(a: D.Action, folders: seq<nat>)
      modifies this`logs
      ensures logs == D.Fold(old(logs), a, folders)
    {
      var i := 0;
      while i < |folders|
        invariant i <= |folders|
        invariant D.Fold(logs, a, folders[i..]) == D.Fold(old(logs), a, folders)
      {
        assert folders[i..][0] == folders[i] && folders[i..][1..] == folders[i + 1..];
        logs := logs[folders[i] := D.Log(logs, folders[i]) + [a]];
        i := i + 1;
      }
    }

    method WakeAll(a: D.Action, bucket: seq<Waiter>)
      requires Sound() && OnRecord(gates, bucket)
      modifies gates`missing, gates`ready
      ensures Values(gates) == D.Wake(old(Values(gates)), a, Ids(bucket))
    {
      hide Values, Ids;
      ghost var ids := Ids(bucket);
      var i := 0;
      while i < |bucket|
        invariant i <= |bucket|
        invariant D.Wake(Values(gates), a, ids[i..]) == D.Wake(old(Values(gates)), a, ids)
      {
        assert ids[i..][0] == ids[i] && ids[i..][1..] == ids[i + 1..];
        var w := bucket[i];
        assert w in bucket;
        ghost var before := Values(gates);
        w.Discard(a);
        assert Values(gates) == before[w.id := D.Discard(before[w.id], a)];
        i := i + 1;
      }
    }

    /** Folds `a` everywhere it is folded, then commits it. */
    method DispatchSync(a: D.Action) returns (problem: Option<D.Problem>)
      requires Valid()
      modifies this`logs, this`waiters, this`commits, gates`missing, gates`ready
      ensures Valid() && (Abs(), problem) == D.DispatchSync(old(Abs()), a)
    {
      hide D.Inv, Values, Ids, BucketIds, D.Fold, D.Wake, OnRecord;
      ghost var was := Abs();
      D.NextKeepsInv(was, D.Dispatches(a));
      if a.kind !in folds {
        return Some(D.NothingFolds);
      }
      D.DispatchIs(was, a);
      hide D.DispatchSync;
      RunFolds(a, folds[a.kind]);
      var bucket := PopBucket(a);
      assert Ids(bucket) == D.Bucket(was, a);
      commits := commits + [D.Commit(a, folds[a.kind])];
      WakeAll(a, bucket);
      problem := None;
      assert Abs() == D.DispatchSync(was, a).0;
    }

    /** The gates still missing `a`, taken off the record of who does. */
    method PopBucket(a: D.Action) returns (bucket: seq<Waiter>)
      requires Sound()
      modifies this`waiters
      ensures Sound() && OnRecord(gates, bucket)
      ensures BucketIds(waiters) == BucketIds(old(waiters)) - {a}
      ensures Ids(bucket) == if a in old(waiters) then BucketIds(old(waiters))[a] else []
    {
      hide Ids, OnRecord;
      NobodyOnRecord(gates);
      NobodyListed();
      bucket := if a in waiters then waiters[a] else [];
      waiters := waiters - {a};
    }

    /** The first half of a gate: a waiter filed under everything it misses. */
    method Park(actions: set<D.Action>) returns (w: Waiter)
      requires Valid()
      modifies this`waiters, this`parked, this`gates
      ensures fresh(w) && Valid() && Abs() == D.Next(old(Abs()), D.Opens(actions)) && w.id == old(parked) && w in gates
    {
      hide D.Inv, Values, Ids;
      ghost var was := Abs();
      D.NextKeepsInv(was, D.Opens(actions));
      w := new Waiter(parked, actions, |commits|);
      parked := parked + 1;
      gates := gates + [w];
      assert gates[|gates| - 1] == w;
      assert Values(gates) == was.gates + [w.Value()];
      File(w, actions);
    }

    method File(w: Waiter, actions: set<D.Action>)
      requires Sound() && w in gates
      modifies this`waiters
      ensures Sound() && BucketIds(waiters) == BucketIds(old(waiters))
        + D.Filing(BucketIds(old(waiters)), actions, w.id)
    {
      hide Ids, BucketIds, D.Filing;
      ghost var listed := waiters;
      var todo := actions;
      while todo != {}
        invariant todo <= actions
        invariant forall a :: a in waiters <==> a in listed || a in actions - todo
        invariant forall a :: a in waiters ==>
          waiters[a] == (if a in listed then listed[a] else []) + (if a in actions - todo then [w] else [])
        decreases |todo|
      {
        var a :| a in todo;
        var bucket := if a in waiters then waiters[a] else [];
        waiters := waiters[a := bucket + [w]];
        todo := todo - {a};
      }
      FiledIs(listed, waiters, actions, w);
    }

    /** The waiter leaves every bucket it is still filed in. */
    method Unfile(w: Waiter)
      requires Sound() && w in gates
      modifies this`waiters
      ensures Sound()
      ensures BucketIds(waiters) == D.Unfiled(BucketIds(old(waiters)), w.id, w.missing)
    {
      ghost var listed := waiters;
      var todo := w.missing;
      while todo != {}
        invariant todo <= w.missing
        invariant forall a :: a in waiters <==>
          a in listed && !(a in w.missing - todo && Dropped(listed[a], w) == [])
        invariant forall a :: a in waiters ==>
          waiters[a] == if a in w.missing - todo then Dropped(listed[a], w) else listed[a]
        decreases |todo|
      {
        var a :| a in todo;
        todo := todo - {a};
        if a in waiters {
          var bucket := Dropped(waiters[a], w);
          waiters := if bucket == [] then waiters - {a} else waiters[a := bucket];
        }
      }
      UnfiledIs(gates, listed, waiters, w);
    }

    /** The second half of a gate: what the probe, read while parked, decides. */
    method Answer(w: Waiter, holds: bool) returns (problem: Option<D.Problem>)
      requires Valid() && w in gates && w.phase == D.Probing
      modifies this`waiters, w`phase
      ensures Valid() && Abs() == D.Next(old(Abs()), D.Answers(w.id, holds))
      ensures problem == D.Probed(old(Abs()), w.id, holds).1
    {
      hide D.Inv, Values, Ids, BucketIds, D.Unfiled;
      ghost var was := Abs();
      D.NextKeepsInv(was, D.Answers(w.id, holds));
      problem := None;
      if holds || w.named == {} {
        Unfile(w);
        w.phase := D.Gone;
        if !holds {
          problem := Some(D.FalseGateNamesNothing);
        }
      } else {
        w.phase := D.Parked;
      }
      assert Values(gates) == was.gates[w.id := w.Value()];
    }

    /** The waiting task is released, or cancelled. */
    method Leave(w: Waiter)
      requires Valid() && w in gates && w.phase == D.Parked
      modifies this`waiters, w`phase
      ensures Valid() && Abs() == D.Next(old(Abs()), D.Leaves(w.id))
    {
      hide D.Inv, Values, Ids, BucketIds, D.Unfiled;
      ghost var was := Abs();
      D.NextKeepsInv(was, D.Leaves(w.id));
      Unfile(w);
      w.phase := D.Gone;
      assert Values(gates) == was.gates[w.id := w.Value()];
    }
  }

  lemma FiledIs(listed: map<D.Action, seq<Waiter>>, waiters: map<D.Action, seq<Waiter>>, actions: set<D.Action>,
      w: Waiter)
    requires forall a :: a in waiters <==> a in listed || a in actions
    requires forall a :: a in waiters ==>
      waiters[a] == (if a in listed then listed[a] else []) + (if a in actions then [w] else [])
    ensures BucketIds(waiters) == BucketIds(listed) + D.Filing(BucketIds(listed), actions, w.id)
  {
    hide Ids;
    var r := BucketIds(listed) + D.Filing(BucketIds(listed), actions, w.id);
    forall a | a in waiters
      ensures a in r && Ids(waiters[a]) == r[a]
    {
      var bucket := if a in listed then listed[a] else [];
      assert Ids(bucket + [w]) == Ids(bucket) + [w.id];
      assert a !in actions ==> waiters[a] == listed[a];
    }
  }

  lemma UnfiledIs(gates: seq<Waiter>, listed: map<D.Action, seq<Waiter>>, waiters: map<D.Action, seq<Waiter>>,
      w: Waiter)
    requires w in gates && OnRecord(gates, [w]) && forall a :: a in listed ==> OnRecord(gates, listed[a])
    requires forall a :: a in waiters <==> a in listed && !(a in w.missing && Dropped(listed[a], w) == [])
    requires forall a :: a in waiters ==> waiters[a] == if a in w.missing then Dropped(listed[a], w) else listed[a]
    ensures BucketIds(waiters) == D.Unfiled(BucketIds(listed), w.id, w.missing)
  {
    hide Ids, Dropped, D.Without, OnRecord;
    forall a | a in listed
      ensures Ids(Dropped(listed[a], w)) == D.Without(Ids(listed[a]), w.id)
      ensures Dropped(listed[a], w) == [] <==> D.Without(Ids(listed[a]), w.id) == []
    {
      DroppedIds(gates, listed[a], w);
    }
  }
}
