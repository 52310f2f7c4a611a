/**
 The storage volume as the object callers hold. Every endpoint is tied to the value-level call of
 `Volume` that the theorems are about.
 */
module VolumeServices {
  import opened Basics
  import opened Retention
  import V = Volume

  class VolumeService {
    const capacity: V.Capacity
    const directory: bool
    var store: map<Key, V.Value>
    var resident: map<Key, nat>
    var residentBytes: int
    var peak: int
    const retention: LeastRecentlyUsed
    var told: seq<seq<Key>>

    ghost function Abs(): V.State
      reads this, retention
    {
      V.State(capacity, directory, store, resident, residentBytes, peak, retention.Abs(), told)
    }

    constructor (capacity: V.Capacity, directory: bool)
      ensures Abs() == V.Empty(capacity, directory) && fresh(retention)
    {
      this.capacity, this.directory := capacity, directory;
      store, resident, residentBytes, peak, told := map[], map[], 0, 0, [];
      retention := new LeastRecentlyUsed();
    }

    method Forget(key: Key)
      modifies this`resident, this`residentBytes, retention
      ensures Abs() == old(Abs()).(residentBytes := old(residentBytes) - V.Held(old(resident), key),
                                   resident := old(resident) - {key}, ranking := Forgotten(old(retention.Abs()), key))
    {
      residentBytes := residentBytes - (if key in resident then resident[key] else 0);
      resident := resident - {key};
      retention.Forget(key);
    }

    method Delete(key: Key)
      modifies this`store, this`resident, this`residentBytes, retention
      ensures Abs() == V.Delete(old(Abs()), key)
    {
      store := store - {key};
      Forget(key);
    }

    /** The store drops the whole batch at once, then each key is forgotten in turn. */
    method DeleteBatch(keys: seq<Key>)
      modifies this`store, this`resident, this`residentBytes, retention
      ensures Abs() == V.DeleteBatch(old(Abs()), keys)
    {
      hide V.DeleteBatch;
      ghost var final := V.DeleteBatch(Abs(), keys);
      store := store - V.Members(keys);
      var i := 0;
      V.StoreGoneFirst(old(Abs()), keys, V.Members(keys));
      V.DeleteBatchNone(Abs(), keys);
      while i < |keys|
        invariant i <= |keys|
        invariant V.DeleteBatch(Abs(), keys[i..]) == final
        invariant store == old(store) - V.Members(keys)
      {
        V.DeleteBatchNext(Abs(), keys, i);
        assert store - {keys[i]} == store;
        Forget(keys[i]);
        i := i + 1;
      }
      V.DeleteBatchNone(Abs(), keys);
    }

    method Use(keys: seq<Key>)
      modifies retention
      ensures Abs() == V.Use(old(Abs()), keys)
    {
      var i := 0;
      while i < |keys|
        invariant i <= |keys|
        invariant V.Use(Abs(), keys[i..]) == V.Use(old(Abs()), keys)
      {
        assert keys[i..][0] == keys[i] && keys[i..][1..] == keys[i + 1..];
        retention.Note(keys[i], if keys[i] in resident then Some(resident[keys[i]]) else None);
        i := i + 1;
      }
    }

    /** Reads `keys`, absent ones included; answers what the store holds of them. */
    method Get(keys: seq<Key>) returns (found: map<Key, V.Value>)
      modifies retention
      ensures Abs() == V.Use(old(Abs()), keys)
      ensures found == map k | k in keys && k in store :: store[k]
    {
      Use(keys);
      found := map k | k in keys && k in store :: store[k];
    }

    /** Reports a read of `keys` that did not come through the volume. */
    method Touch(keys: seq<Key>)
      modifies retention
      ensures Abs() == V.Touch(old(Abs()), keys)
    {
      Use(V.OnlyResident(resident, keys));
    }

    method Reset()
      modifies this`store, this`resident, this`residentBytes, retention
      ensures Abs() == V.Reset(old(Abs()))
    {
      store, resident, residentBytes := map[], map[], 0;
      retention.ForgetHeld();
    }

    /** Drops `victims` one by one and answers the total left of `projected`. */
    method Drop(victims: seq<Key>, projected: int) returns (total: int)
      modifies this`store, this`resident, this`residentBytes, retention
      ensures Abs() == V.DeleteBatch(old(Abs()), victims)
      ensures V.Distinct(victims) ==> total == projected - V.HeldBy(old(resident), victims)
    {
      hide V.Delete, V.DeleteBatch, V.HeldBy;
      total := projected;
      var i := 0;
      while i < |victims|
        invariant i <= |victims|
        invariant V.DeleteBatch(Abs(), victims[i..]) == V.DeleteBatch(old(Abs()), victims)
        invariant V.Distinct(victims) ==>
          total - V.HeldBy(resident, victims[i..]) == projected - V.HeldBy(old(resident), victims)
      {
        V.DeleteBatchNext(Abs(), victims, i);
        var freed := if victims[i] in resident then resident[victims[i]] else 0;
        Delete(victims[i]);
        total := total - freed;
        i := i + 1;
      }
      V.DeleteBatchNone(Abs(), victims);
    }

    /** Drops the coldest keys the put does not write, tells the directory, and answers the new total. */
    method AskForRoom(projected: int, incoming: set<Key>) returns (total: int)
      requires V.Over(capacity, projected)
      modifies this`store, this`resident, this`residentBytes, this`told, retention
      ensures V.RoomAsked(old(Abs()), projected, incoming, Abs(), total)
    {
      hide V.DeleteBatch, V.HeldBy, V.OnlyResident, VictimsOf;
      if !directory {
        return projected;
      }
      var ranked := retention.Victims(projected - capacity.limit, incoming);
      var victims := V.OnlyResident(resident, ranked);
      total := Drop(victims, projected);
      if victims != [] {
        told := told + [victims];
      }
    }

    /** Stores a batch, noting its keys in `order`; evicts, and refuses what still does not fit. */
    method Put(puts: map<Key, V.Value>, order: seq<Key>) returns (outcome: V.Outcome)
      requires V.Inv(Abs())
      modifies this, retention
      ensures (Abs(), outcome) == V.Put(old(Abs()), puts, order)
    {
      hide V.Inv, V.MakeRoom, V.RoomAsked, V.Use, V.Added, Sum;
      store := store + puts;
      ghost var landed := Abs();
      var added := SumAdded(puts);
      var projected := residentBytes + added;
      ghost var before := projected;
      if V.Over(capacity, projected) {
        projected := AskForRoom(projected, puts.Keys);
      }
      V.RoomAskedIsMade(old(Abs()), puts, Abs(), projected);
      if V.Over(capacity, projected) {
        outcome := V.Refused(residentBytes, projected - residentBytes);
        store := store - (puts.Keys - resident.Keys);
        return;
      }
      resident := resident + V.Sizes(puts);
      Use(order);
      residentBytes := projected;
      if projected > peak {
        peak := projected;
      }
      outcome := V.Stored;
    }

    method SumAdded(puts: map<Key, V.Value>) returns (added: int)
      ensures added == Sum(V.Added(Abs(), puts))
    {
      added := 0;
      var todo := puts.Keys;
      assert V.Added(Abs(), puts) - (puts.Keys - todo) == V.Added(Abs(), puts);
      while todo != {}
        invariant todo <= puts.Keys
        invariant added + Sum(V.Added(Abs(), puts) - (puts.Keys - todo)) == Sum(V.Added(Abs(), puts))
        decreases |todo|
      {
        var k :| k in todo;
        ghost var left := V.Added(Abs(), puts) - (puts.Keys - todo);
        SumRemove(left, k);
        added := added + (puts[k].nbytes - (if k in resident then resident[k] else 0));
        todo := todo - {k};
        assert left - {k} == V.Added(Abs(), puts) - (puts.Keys - todo);
      }
      assert V.Added(Abs(), puts) - (puts.Keys - todo) == map[];
    }
  }
}
