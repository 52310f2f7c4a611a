/** Whom a volume evicts, told by who was accessed and when over a whole run. */
module VolumeEvents {
  import opened Basics
  import opened Retention
  import opened Volume

  /** The keys one call accesses, in turn: a read all it names, a touch what is resident, a put what it stores. */
  ghost function Accessed(s: State, c: Call): seq<Key> {
    match c
    case PutCall(puts, order) => if Put(s, puts, order).1.Refused? then [] else order
    case GetCall(keys) => keys
    case TouchCall(keys) => OnlyResident(s.resident, keys)
    case DeleteCall(_) => []
    case DeleteBatchCall(_) => []
    case ResetCall => []
  }

  ghost function Accesses(s: State, cs: seq<Call>): seq<Key>
    decreases |cs|
  {
    if cs == [] then [] else Accessed(s, cs[0]) + Accesses(Apply(s, cs[0]), cs[1..])
  }

  /** Where in a list of accesses `k` was accessed last, from 1; 0 if it never was. */
  function LastAccess(accesses: seq<Key>, k: Key): nat {
    if accesses == [] then 0
    else if accesses[|accesses| - 1] == k then |accesses|
    else LastAccess(accesses[..|accesses| - 1], k)
  }

  /** What a ranking remembers of a key is when it was accessed last. */
  ghost predicate Remembers(accesses: seq<Key>, r: Ranking) {
    r.clock == |accesses| && forall k :: k in r.used ==> r.used[k] == LastAccess(accesses, k) > 0
  }

  lemma OneMoreAccess(accesses: seq<Key>, r: Ranking, key: Key, nbytes: Option<nat>)
    requires Remembers(accesses, r)
    ensures Remembers(accesses + [key], Noted(r, key, nbytes))
  {
    assert (accesses + [key])[..|accesses|] == accesses;
  }

  lemma {:induction false} UseRemembers(accesses: seq<Key>, s: State, ks: seq<Key>)
    requires Remembers(accesses, s.ranking)
    ensures Remembers(accesses + ks, Use(s, ks).ranking)
    decreases |ks|
  {
    hide Remembers;
    if ks == [] {
      assert accesses + ks == accesses;
    } else {
      var nbytes := if ks[0] in s.resident then Some(s.resident[ks[0]]) else None;
      OneMoreAccess(accesses, s.ranking, ks[0], nbytes);
      UseRemembers(accesses + [ks[0]], s.(ranking := Noted(s.ranking, ks[0], nbytes)), ks[1..]);
      assert accesses + [ks[0]] + ks[1..] == accesses + ks;
    }
  }

  lemma {:induction false} DeletingRemembers(accesses: seq<Key>, s: State, ks: seq<Key>)
    requires Remembers(accesses, s.ranking)
    ensures Remembers(accesses, DeleteBatch(s, ks).ranking)
    decreases |ks|
  {
    if ks != [] { DeletingRemembers(accesses, Delete(s, ks[0]), ks[1..]); }
  }

  lemma PutRemembers(accesses: seq<Key>, s: State, puts: map<Key, Value>, order: seq<Key>)
    requires Remembers(accesses, s.ranking)
    ensures Remembers(accesses + Accessed(s, PutCall(puts, order)), Put(s, puts, order).0.ranking)
  {
    hide Remembers, Use, DeleteBatch, Projected, Evicted, HeldBy, Sizes;
    var landed := s.(store := s.store + puts);
    var (r, projected) := MakeRoom(landed, puts);
    if landed.capacity.Finite? && landed.directory {
      DeletingRemembers(accesses, landed, Evicted(landed, Projected(landed, puts) - landed.capacity.limit, puts.Keys));
    }
    UseRemembers(accesses, r.(resident := r.resident + Sizes(puts)), order);
    assert accesses + [] == accesses;
  }

  lemma CallRemembers(accesses: seq<Key>, s: State, c: Call)
    requires Remembers(accesses, s.ranking)
    ensures Remembers(accesses + Accessed(s, c), Apply(s, c).ranking)
  {
    hide Put, Use, DeleteBatch, OnlyResident;
    assert accesses + [] == accesses;
    match c
    case PutCall(puts, order) => PutRemembers(accesses, s, puts, order);
    case GetCall(keys) => UseRemembers(accesses, s, keys);
    case TouchCall(keys) => UseRemembers(accesses, s, OnlyResident(s.resident, keys));
    case DeleteCall(key) =>
    case DeleteBatchCall(keys) => DeletingRemembers(accesses, s, keys);
    case ResetCall =>
  }

  lemma {:induction false} RunRemembers(accesses: seq<Key>, s: State, cs: seq<Call>)
    requires Remembers(accesses, s.ranking)
    ensures Remembers(accesses + Accesses(s, cs), Run(s, cs).ranking)
    decreases |cs|
  {
    hide Remembers, Apply, Accessed;
    if cs == [] {
      assert accesses + [] == accesses;
    } else {
      CallRemembers(accesses, s, cs[0]);
      RunRemembers(accesses + Accessed(s, cs[0]), Apply(s, cs[0]), cs[1..]);
      assert accesses + (Accessed(s, cs[0]) + Accesses(Apply(s, cs[0]), cs[1..]))
        == accesses + Accessed(s, cs[0]) + Accesses(Apply(s, cs[0]), cs[1..]);
    }
  }

  // ----- whom a put evicts ----------------------------------------------------------------

  /**
   Coldest first: each victim was accessed before the next, and before every resident key that is
   neither a victim nor written by the put.
   */
  ghost predicate ColdestFirst(s: State, puts: map<Key, Value>, accesses: seq<Key>, vs: seq<Key>) {
    && (forall i: nat, j: nat :: i < j < |vs| ==> LastAccess(accesses, vs[i]) < LastAccess(accesses, vs[j]))
    && (forall i: nat, k :: i < |vs| && k in s.resident && k !in puts && k !in vs ==>
          LastAccess(accesses, vs[i]) < LastAccess(accesses, k))
  }

  /** Without the last of the victims the put would not fit. */
  ghost predicate Needed(s: State, puts: map<Key, Value>, vs: seq<Key>) {
    vs != [] ==>
      s.capacity.Finite?
      && Sum(s.resident - puts.Keys) + Sum(Sizes(puts)) - HeldBy(s.resident, vs[..|vs| - 1]) > s.capacity.limit
  }

  lemma {:induction false} LastResident(resident: map<Key, nat>, ks: seq<Key>) returns (m: nat)
    requires OnlyResident(resident, ks) != []
    ensures m < |ks|
    ensures var vs := OnlyResident(resident, ks); OnlyResident(resident, ks[..m]) == vs[..|vs| - 1]
  {
    var rest := OnlyResident(resident, ks[1..]);
    if rest == [] {
      m := 0;
    } else {
      m := LastResident(resident, ks[1..]);
      assert ks[..m + 1][1..] == ks[1..][..m];
      if ks[0] in resident { assert ([ks[0]] + rest)[..|rest|] == [ks[0]] + rest[..|rest| - 1]; }
      m := m + 1;
    }
  }

  lemma EvictedAreNeeded(s: State, puts: map<Key, Value>)
    requires Counted(s) && s.capacity.Finite?
    ensures Needed(s, puts, Evicted(s, Projected(s, puts) - s.capacity.limit, puts.Keys))
  {
    hide Sum, Added, Scan, OnlyResident, HeldBy;
    var need := Projected(s, puts) - s.capacity.limit;
    var all, vs := VictimsOf(s.ranking, need, puts.Keys), Evicted(s, need, puts.Keys);
    ProjectedIs(s, puts);
    VictimsAreShortestColdPrefix(s.ranking, need, puts.Keys);
    if vs != [] {
      var m := LastResident(s.resident, all);
      GhostsFreeNothing(s.ranking, all[..m]);
    }
  }

  lemma ColderIsEarlier(accesses: seq<Key>, r: Ranking, a: Key, b: Key)
    requires Remembers(accesses, r) && a in r.used && b in r.used && Colder(r.used, a, b)
    ensures LastAccess(accesses, a) < LastAccess(accesses, b)
  {
    ColderIsStrict(r.used, a, b);
    if r.used[a] == r.used[b] {
      LastIs(accesses, a);
      LastIs(accesses, b);
    }
  }

  lemma {:induction false} LastIs(accesses: seq<Key>, k: Key)
    ensures LastAccess(accesses, k) <= |accesses|
    ensures LastAccess(accesses, k) > 0 ==> accesses[LastAccess(accesses, k) - 1] == k
    ensures forall i: nat :: LastAccess(accesses, k) <= i < |accesses| ==> accesses[i] != k
  {
    if accesses != [] { LastIs(accesses[..|accesses| - 1], k); }
  }

  lemma ResidentsRanked(s: State)
    requires Counted(s)
    ensures s.resident.Keys <= s.ranking.used.Keys
  {}

  lemma EvictedAreColdest(accesses: seq<Key>, s: State, need: int, puts: map<Key, Value>)
    requires Counted(s) && Remembers(accesses, s.ranking)
    ensures ColdestFirst(s, puts, accesses, Evicted(s, need, puts.Keys))
  {
    hide LastAccess, Remembers, Scan, Colder, OnlyResident, Counted;
    var all, vs := VictimsOf(s.ranking, need, puts.Keys), Evicted(s, need, puts.Keys);
    VictimsAreShortestColdPrefix(s.ranking, need, puts.Keys);
    OnlyResidentMembers(s.resident, all);
    ResidentsRanked(s);
    forall i: nat, j: nat | i < j < |vs|
      ensures LastAccess(accesses, vs[i]) < LastAccess(accesses, vs[j])
    {
      var m, n := OnlyResidentInOrder(s.resident, all, i, j);
      ColderIsEarlier(accesses, s.ranking, all[m], all[n]);
    }
    forall i: nat, k | i < |vs| && k in s.resident && k !in puts && k !in vs
      ensures LastAccess(accesses, vs[i]) < LastAccess(accesses, k)
    {
      var n := OnlyResidentFrom(s.resident, all, i);
      ColderIsEarlier(accesses, s.ranking, all[n], k);
    }
  }

  lemma {:induction false} OnlyResidentFrom(resident: map<Key, nat>, ks: seq<Key>, i: nat) returns (m: nat)
    requires i < |OnlyResident(resident, ks)|
    ensures m < |ks| && ks[m] == OnlyResident(resident, ks)[i]
  {
    if ks[0] in resident && i == 0 {
      m := 0;
    } else {
      m := OnlyResidentFrom(resident, ks[1..], if ks[0] in resident then i - 1 else i);
      m := m + 1;
    }
  }

  /** Leaving the ghosts out of a list leaves the rest in its order. */
  lemma {:induction false} OnlyResidentInOrder(resident: map<Key, nat>, ks: seq<Key>, i: nat, j: nat)
      returns (m: nat, n: nat)
    requires i < j < |OnlyResident(resident, ks)|
    ensures m < n < |ks| && ks[m] == OnlyResident(resident, ks)[i] && ks[n] == OnlyResident(resident, ks)[j]
  {
    if ks[0] in resident && i == 0 {
      m := 0;
      n := OnlyResidentFrom(resident, ks[1..], j - 1);
      n := n + 1;
    } else {
      m, n := OnlyResidentInOrder(resident, ks[1..],
        if ks[0] in resident then i - 1 else i, if ks[0] in resident then j - 1 else j);
      m, n := m + 1, n + 1;
    }
  }

  /**
   After any run of a new volume a put that evicts takes the keys accessed longest ago, in that order:
   a read that did not come through the volume counts as much as one that did. It takes none that it
   need not, and what it tells the directory is who they were.
   */
  lemma EveryEvictionIsColdest(
      capacity: Capacity, directory: bool, cs: seq<Call>, puts: map<Key, Value>, order: seq<Key>) returns (vs: seq<Key>)
    requires forall i :: 0 <= i < |cs| ==> Allowed(cs[i])
    ensures var s := Run(Empty(capacity, directory), cs);
      var r := Apply(s, PutCall(puts, order));
      && ColdestFirst(s, puts, Accesses(Empty(capacity, directory), cs), vs)
      && (forall k :: k in vs ==> k in s.resident && k !in puts)
      && r.told == (if vs == [] then s.told else s.told + [vs])
      && (forall k :: k in vs ==> k !in r.resident)
      && (forall k :: k in s.resident && k !in vs ==> k in r.resident)
      && Needed(s, puts, vs)
  {
    var e := Empty(capacity, directory);
    var s := Run(e, cs);
    var accesses := Accesses(e, cs);
    EmptyInv(capacity, directory);
    EveryRunKeepsAccounts(e, cs);
    assert Remembers([], e.ranking);
    RunRemembers([], e, cs);
    assert [] + accesses == accesses;
    hide Run, Accesses;
    vs := PutEvicts(accesses, s, puts, order);
  }

  lemma PutEvicts(accesses: seq<Key>, s: State, puts: map<Key, Value>, order: seq<Key>) returns (vs: seq<Key>)
    requires Inv(s) && Remembers(accesses, s.ranking)
    ensures var r := Put(s, puts, order).0;
      && ColdestFirst(s, puts, accesses, vs)
      && (forall k :: k in vs ==> k in s.resident && k !in puts)
      && r.told == (if vs == [] then s.told else s.told + [vs])
      && (forall k :: k in vs ==> k !in r.resident)
      && (forall k :: k in s.resident && k !in vs ==> k in r.resident)
      && Needed(s, puts, vs)
  {
    hide Remembers, Counted, MakeRoom, ColdestFirst, Put, Needed;
    var landed := s.(store := s.store + puts);
    LandingKeepsCount(s, puts);
    vs := RoomEvicts(accesses, landed, puts);
    SameResidents(s, landed, puts, accesses, vs);
    RoomIsPut(s, puts, order);
  }

  /** A put drops nobody but to make room, and tells of nobody else. */
  lemma RoomIsPut(s: State, puts: map<Key, Value>, order: seq<Key>)
    ensures var room, r := MakeRoom(s.(store := s.store + puts), puts).0, Put(s, puts, order).0;
      r.told == room.told && forall k :: k !in puts || k in room.resident ==> (k in r.resident <==> k in room.resident)
  {
    hide MakeRoom, Use;
    var room := MakeRoom(s.(store := s.store + puts), puts).0;
    UseOnlyRanks(room.(resident := room.resident + Sizes(puts)), order);
  }

  lemma RoomEvicts(accesses: seq<Key>, s: State, puts: map<Key, Value>) returns (vs: seq<Key>)
    requires Counted(s) && Remembers(accesses, s.ranking)
    ensures var r := MakeRoom(s, puts).0;
      && ColdestFirst(s, puts, accesses, vs)
      && (forall k :: k in vs ==> k in s.resident && k !in puts)
      && r.told == (if vs == [] then s.told else s.told + [vs])
      && (forall k :: k in r.resident <==> k in s.resident && k !in vs)
      && Needed(s, puts, vs)
  {
    hide Remembers, Counted, Evicted, Projected, ColdestFirst, Needed, DeleteBatch, HeldBy;
    if Over(s.capacity, Projected(s, puts)) && s.directory {
      var need := Projected(s, puts) - s.capacity.limit;
      vs := Evicted(s, need, puts.Keys);
      EvictedAreColdest(accesses, s, need, puts);
      EvictedAreNeeded(s, puts);
      EvictedIs(s, need, puts);
      DeleteBatchExact(s, vs);
    } else {
      vs := [];
      NoneEvicted(s, puts, accesses);
    }
  }

  lemma NoneEvicted(s: State, puts: map<Key, Value>, accesses: seq<Key>)
    ensures ColdestFirst(s, puts, accesses, []) && Needed(s, puts, [])
  {}

  lemma SameResidents(s: State, t: State, puts: map<Key, Value>, accesses: seq<Key>, vs: seq<Key>)
    requires ColdestFirst(t, puts, accesses, vs) && t.resident == s.resident
    ensures ColdestFirst(s, puts, accesses, vs)
    ensures Needed(t, puts, vs) && t.capacity == s.capacity ==> Needed(s, puts, vs)
  {}

  /** A reset leaves nothing stored, counted or ranked; what was recorded of the past stays. */
  lemma ResetEmpties(s: State)
    ensures var r := Apply(s, ResetCall);
      && r.store == map[] && r.resident == map[] && r.residentBytes == 0 && r.ranking.used == map[]
      && r.peak == s.peak && r.told == s.told && r.capacity == s.capacity && r.directory == s.directory
  {
    assert s.ranking.used - s.ranking.used.Keys == map[];
  }
}
