/**
 The bounded storage volume of `realsim/seams/volume_service.py`: residency in bytes, eviction of
 the coldest keys when a put does not fit, and refusal when that is not enough. Endpoints are
 atomic. This module holds the volume as values and what every sequence of calls keeps.
 */
module Volume {
  import opened Basics
  import opened Retention

  /** A stored value: which one it is, and its modelled bytes. */
  datatype Value = Value(tag: int, nbytes: nat)

  datatype Capacity = Finite(limit: nat) | Unbounded

  /**
   The volume's fields. `directory` says whether there is a directory to tell about evictions, and
   `told` is every batch of keys it has been told were dropped.
   */
  datatype State = State(
    capacity: Capacity,
    directory: bool,
    store: map<Key, Value>,
    resident: map<Key, nat>,
    residentBytes: int,
    peak: int,
    ranking: Ranking,
    told: seq<seq<Key>>)

  datatype Outcome = Stored | Refused(resident: int, attempted: int)

  // ----- the endpoints --------------------------------------------------------------------

  function Held(resident: map<Key, nat>, k: Key): nat {
    if k in resident then resident[k] else 0
  }

  function Over(c: Capacity, bytes: int): bool {
    c.Finite? && bytes > c.limit
  }

  function Delete(s: State, k: Key): State {
    s.(store := s.store - {k}, residentBytes := s.residentBytes - Held(s.resident, k),
       resident := s.resident - {k}, ranking := Forgotten(s.ranking, k))
  }

  function DeleteBatch(s: State, ks: seq<Key>): State
    decreases |ks|
  {
    if ks == [] then s else DeleteBatch(Delete(s, ks[0]), ks[1..])
  }

  /** `_use`: each key accessed in turn, with the bytes it occupies if it is resident. */
  function Use(s: State, ks: seq<Key>): State
    decreases |ks|
  {
    if ks == [] then s else
      var nbytes := if ks[0] in s.resident then Some(s.resident[ks[0]]) else None;
      Use(s.(ranking := Noted(s.ranking, ks[0], nbytes)), ks[1..])
  }

  /** The keys of a list that are resident. */
  function OnlyResident(resident: map<Key, nat>, ks: seq<Key>): seq<Key> {
    if ks == [] then [] else
      (if ks[0] in resident then [ks[0]] else []) + OnlyResident(resident, ks[1..])
  }

  function Touch(s: State, ks: seq<Key>): State {
    Use(s, OnlyResident(s.resident, ks))
  }

  function Reset(s: State): State {
    s.(store := map[], resident := map[], residentBytes := 0, ranking := ForgottenAll(s.ranking, s.ranking.used.Keys))
  }

  /** The bytes each key of a put lands with. */
  function Sizes(puts: map<Key, Value>): map<Key, nat> {
    map k | k in puts :: puts[k].nbytes
  }

  /** What each key of a put adds to the bytes already counted for it. */
  function Added(s: State, puts: map<Key, Value>): map<Key, int> {
    map k | k in puts :: puts[k].nbytes - Held(s.resident, k)
  }

  /** `_ask_for_room`'s victims for a put of these keys that needs `need` more bytes. */
  ghost function Evicted(s: State, need: int, puts: set<Key>): seq<Key> {
    OnlyResident(s.resident, VictimsOf(s.ranking, need, puts))
  }

  function HeldBy(resident: map<Key, nat>, ks: seq<Key>): nat {
    if ks == [] then 0 else Held(resident, ks[0]) + HeldBy(resident, ks[1..])
  }

  ghost function Projected(s: State, puts: map<Key, Value>): int {
    s.residentBytes + Sum(Added(s, puts))
  }

  /** `_ask_for_room`: the volume without its victims, and the projection without their bytes. */
  ghost function MakeRoom(s: State, puts: map<Key, Value>): (State, int) {
    var projected := Projected(s, puts);
    if !Over(s.capacity, projected) || !s.directory then (s, projected) else
      var vs := Evicted(s, projected - s.capacity.limit, puts.Keys);
      var t := DeleteBatch(s, vs);
      (t.(told := if vs == [] then t.told else t.told + [vs]), projected - HeldBy(s.resident, vs))
  }

  /** `put`, noting the keys of the batch in `order`. */
  ghost function Put(s: State, puts: map<Key, Value>, order: seq<Key>): (State, Outcome) {
    var (r, projected) := MakeRoom(s.(store := s.store + puts), puts);
    if Over(r.capacity, projected) then
      (r.(store := r.store - (puts.Keys - r.resident.Keys)), Refused(r.residentBytes, projected - r.residentBytes))
    else
      (Use(r.(resident := r.resident + Sizes(puts)), order)
         .(residentBytes := projected, peak := if projected > r.peak then projected else r.peak), Stored)
  }

  // ----- what every call keeps ------------------------------------------------------------

  /** The accounting: counts agree with the per-key bytes and with the ranking. */
  ghost predicate Counted(s: State) {
    && s.residentBytes == Sum(s.resident)
    && s.ranking.bytes == s.resident
    && s.resident.Keys <= s.ranking.used.Keys
    && s.residentBytes <= s.peak
    && !Over(s.capacity, s.residentBytes)
  }

  ghost predicate Inv(s: State) {
    Counted(s) && s.store.Keys == s.resident.Keys
  }

  /** Every resident value is as big as it is counted. */
  ghost predicate SizesAgree(s: State) {
    forall k :: k in s.resident && k in s.store ==> s.store[k].nbytes == s.resident[k]
  }

  function Members(ks: seq<Key>): set<Key> {
    set k | k in ks
  }

  ghost predicate Distinct(ks: seq<Key>) {
    forall i, j :: 0 <= i < j < |ks| ==> ks[i] != ks[j]
  }

  lemma MembersCons(ks: seq<Key>)
    requires ks != []
    ensures Members(ks) == {ks[0]} + Members(ks[1..])
  {
    assert forall k :: k in ks <==> k == ks[0] || k in ks[1..];
  }

  lemma DeleteExact(s: State, k: Key)
    requires Counted(s)
    ensures var r := Delete(s, k);
      && Counted(r) && r.residentBytes <= s.residentBytes
      && r == s.(store := s.store - {k}, resident := s.resident - {k}, residentBytes := r.residentBytes,
           ranking := r.ranking)
  {
    if k in s.resident { SumRemove(s.resident, k); } else { assert s.resident - {k} == s.resident; }
    assert (s.resident - {k}).Keys == s.resident.Keys - {k};
  }

  /** Whether the store drops the whole batch first or key by key, the outcome is one. */
  lemma {:induction false} StoreGoneFirst(s: State, ks: seq<Key>, gone: set<Key>)
    requires Members(ks) <= gone
    ensures DeleteBatch(s.(store := s.store - gone), ks) == DeleteBatch(s, ks).(store := s.store - gone)
    ensures DeleteBatch(s, ks).store == s.store - Members(ks)
    decreases |ks|
  {
    if ks == [] {
      assert s.store - Members(ks) == s.store;
    } else {
      MembersCons(ks);
      assert (s.store - gone) - {ks[0]} == s.store - gone == (s.store - {ks[0]}) - gone;
      StoreGoneFirst(Delete(s, ks[0]), ks[1..], gone);
      assert (s.store - {ks[0]}) - Members(ks[1..]) == s.store - Members(ks);
    }
  }

  /** Deleting a batch drops exactly its keys, and the counts follow. */
  lemma {:induction false} DeleteBatchExact(s: State, ks: seq<Key>)
    requires Counted(s)
    ensures var r := DeleteBatch(s, ks);
      && Counted(r) && r.residentBytes <= s.residentBytes
      && r == s.(store := s.store - Members(ks), resident := s.resident - Members(ks),
                 residentBytes := r.residentBytes, ranking := r.ranking)
    decreases |ks|
  {
    hide Delete, Counted;
    if ks == [] {
      assert s.store - Members(ks) == s.store && s.resident - Members(ks) == s.resident;
    } else {
      DeleteExact(s, ks[0]);
      DeleteBatchExact(Delete(s, ks[0]), ks[1..]);
      MembersCons(ks);
      assert s.store - {ks[0]} - Members(ks[1..]) == s.store - Members(ks);
      assert s.resident - {ks[0]} - Members(ks[1..]) == s.resident - Members(ks);
    }
  }

  /** What `_use` keeps: only the ranking moves, and its bytes stay the residency map. */
  lemma {:induction false} UseKeeps(s: State, ks: seq<Key>)
    requires s.resident.Keys <= s.ranking.used.Keys + (set k | k in ks)
    requires forall k :: k in s.ranking.bytes ==> k in s.resident && (k in ks || s.ranking.bytes[k] == s.resident[k])
    requires forall k :: k in s.resident ==> k in s.ranking.bytes || k in ks
    ensures var r := Use(s, ks);
      && r == s.(ranking := r.ranking)
      && r.ranking.bytes == s.resident && s.resident.Keys <= r.ranking.used.Keys
    decreases |ks|
  {
    if ks == [] {
      assert s.ranking.bytes == s.resident;
    } else {
      var nbytes := if ks[0] in s.resident then Some(s.resident[ks[0]]) else None;
      var m := s.(ranking := Noted(s.ranking, ks[0], nbytes));
      assert forall k :: k in ks ==> k == ks[0] || k in ks[1..];
      UseKeeps(m, ks[1..]);
    }
  }

  // ----- the arithmetic of a put ----------------------------------------------------------

  /** What a put adds is its own bytes less those its keys already held. */
  lemma {:induction false} AddedSum(s: State, puts: map<Key, Value>)
    ensures Sum(Added(s, puts)) == Sum(Sizes(puts)) - Sum(s.resident) + Sum(s.resident - puts.Keys)
    decreases |puts|
  {
    if puts == map[] {
      assert s.resident - puts.Keys == s.resident;
    } else {
      hide Sum, Added, Sizes;
      var k :| k in puts;
      AddedSum(s, puts - {k});
      AddedWithout(s, puts, k);
      SumRemove(Added(s, puts), k);
      SumRemove(Sizes(puts), k);
      if k in s.resident { SumRemove(s.resident - (puts - {k}).Keys, k); }
    }
  }

  /** What is added, sized and left alone by a put without one of its keys. */
  lemma AddedWithout(s: State, puts: map<Key, Value>, k: Key)
    requires k in puts
    ensures var rest := puts - {k};
      && k in Added(s, puts) && Added(s, puts) - {k} == Added(s, rest)
           && Added(s, puts)[k] == puts[k].nbytes - Held(s.resident, k)
      && k in Sizes(puts) && Sizes(puts) - {k} == Sizes(rest) && Sizes(puts)[k] == puts[k].nbytes
      && (if k in s.resident then (s.resident - rest.Keys) - {k} == s.resident - puts.Keys
          else s.resident - rest.Keys == s.resident - puts.Keys)
  {}

  lemma {:induction false} SumWithout(m: map<Key, nat>, n: map<Key, nat>)
    requires forall k :: k in n ==> k in m && m[k] == n[k]
    ensures Sum(m) == Sum(m - n.Keys) + Sum(n)
    decreases |n|
  {
    if n == map[] {
      assert m - n.Keys == m;
    } else {
      hide Sum;
      var k :| k in n;
      SumWithout(m - {k}, n - {k});
      assert (m - {k}) - (n - {k}).Keys == m - n.Keys;
      SumRemove(m, k);
      SumRemove(n, k);
    }
  }

  lemma SumOverwrite(m: map<Key, nat>, n: map<Key, nat>)
    ensures Sum(m + n) == Sum(m - n.Keys) + Sum(n)
  {
    SumWithout(m + n, n);
    assert (m + n) - n.Keys == m - n.Keys;
  }

  /** The bytes of a list without repetition are what removing it takes from the total. */
  lemma {:induction false} HeldBySum(resident: map<Key, nat>, ks: seq<Key>)
    requires Distinct(ks)
    ensures Sum(resident - Members(ks)) == Sum(resident) - HeldBy(resident, ks)
    decreases |ks|
  {
    if ks == [] {
      assert resident - Members(ks) == resident;
    } else {
      var k := ks[0];
      HeldBySum(resident - {k}, ks[1..]);
      MembersCons(ks);
      assert (resident - {k}) - Members(ks[1..]) == resident - Members(ks);
      HeldByOthers(resident, k, ks[1..]);
      if k in resident { SumRemove(resident, k); } else { assert resident - {k} == resident; }
    }
  }

  lemma {:induction false} HeldByOthers(resident: map<Key, nat>, k: Key, ks: seq<Key>)
    requires k !in ks
    ensures HeldBy(resident - {k}, ks) == HeldBy(resident, ks)
  {
    if ks != [] { HeldByOthers(resident, k, ks[1..]); }
  }

  /** Dropping the ghosts from a victim list frees the same bytes. */
  lemma {:induction false} GhostsFreeNothing(r: Ranking, ks: seq<Key>)
    ensures HeldBy(r.bytes, OnlyResident(r.bytes, ks)) == Freed(r, ks)
  {
    if ks != [] {
      GhostsFreeNothing(r, ks[1..]);
      var rest := OnlyResident(r.bytes, ks[1..]);
      if ks[0] in r.bytes {
        assert ([ks[0]] + rest)[1..] == rest;
      } else {
        assert [] + rest == rest;
      }
    }
  }

  lemma {:induction false} OnlyResidentMembers(resident: map<Key, nat>, ks: seq<Key>)
    ensures forall k :: k in OnlyResident(resident, ks) <==> k in ks && k in resident
    ensures Distinct(ks) ==> Distinct(OnlyResident(resident, ks))
  {
    if ks != [] {
      assert Distinct(ks) ==> Distinct(ks[1..]);
      OnlyResidentMembers(resident, ks[1..]);
      var rest := OnlyResident(resident, ks[1..]);
      if ks[0] in resident {
        assert OnlyResident(resident, ks) == [ks[0]] + rest;
      } else {
        assert OnlyResident(resident, ks) == rest;
      }
    }
  }

  // ----- making room ----------------------------------------------------------------------

  /** The bytes of a put. */
  ghost function Demand(puts: map<Key, Value>): int {
    Sum(Sizes(puts))
  }

  /** What a put of these keys leaves out of the count: the residents it does not write. */
  ghost function Others(resident: map<Key, nat>, puts: map<Key, Value>): map<Key, nat> {
    resident - puts.Keys
  }

  lemma ProjectedIs(s: State, puts: map<Key, Value>)
    requires Counted(s)
    ensures Projected(s, puts) == Sum(Others(s.resident, puts)) + Demand(puts)
  {
    AddedSum(s, puts);
  }

  /** The victims of a put: resident, distinct, none of its own keys, and enough or all there are. */
  lemma EvictedIs(s: State, need: int, puts: map<Key, Value>)
    requires Counted(s)
    ensures var vs := Evicted(s, need, puts.Keys);
      && Distinct(vs) && (forall k :: k in vs ==> k in s.resident && k !in puts)
      && (HeldBy(s.resident, vs) >= need || forall k :: k in s.resident && k !in puts ==> k in vs)
  {
    var all := VictimsOf(s.ranking, need, puts.Keys);
    VictimsAreShortestColdPrefix(s.ranking, need, puts.Keys);
    VictimsDistinct(s.ranking, puts.Keys, all);
    OnlyResidentMembers(s.resident, all);
    GhostsFreeNothing(s.ranking, all);
  }

  lemma VictimsDistinct(r: Ranking, exclude: set<Key>, vs: seq<Key>)
    requires ColdPrefix(r, r.used.Keys, exclude, vs)
    ensures Distinct(vs)
  {
    forall i, j | 0 <= i < j < |vs| ensures vs[i] != vs[j] {
      ColderIsStrict(r.used, vs[i], vs[j]);
    }
  }

  /**
   `r` is `s` without the keys `vs`, none of which the put writes; the directory was told of them;
   `projected` counts what the put will leave; and if that is still too much nothing else is left.
   */
  ghost predicate RoomMade(s: State, puts: map<Key, Value>, vs: seq<Key>, r: State, projected: int) {
    && r == s.(store := s.store - Members(vs), resident := s.resident - Members(vs), residentBytes := r.residentBytes,
               ranking := r.ranking, told := if vs == [] then s.told else s.told + [vs])
    && r.residentBytes <= s.residentBytes
    && (forall k :: k in vs ==> k in s.resident && k !in puts)
    && (vs != [] ==> s.directory)
    && projected == Sum(Others(r.resident, puts)) + Demand(puts)
    && (Over(s.capacity, projected) && s.directory ==> forall k :: k in s.resident && k !in puts ==> k in vs)
  }

  lemma NoRoomNeeded(s: State, puts: map<Key, Value>)
    requires Counted(s) && !(Over(s.capacity, Projected(s, puts)) && s.directory)
    ensures RoomMade(s, puts, [], s, Projected(s, puts))
  {
    hide Counted, Added, Demand, Sum;
    ProjectedIs(s, puts);
    assert s.store - Members([]) == s.store && s.resident - Members([]) == s.resident;
  }

  lemma RoomByEviction(s: State, puts: map<Key, Value>, vs: seq<Key>)
    requires Counted(s) && Over(s.capacity, Projected(s, puts)) && s.directory
    requires vs == Evicted(s, Projected(s, puts) - s.capacity.limit, puts.Keys)
    ensures var (r, projected) := MakeRoom(s, puts);
      RoomMade(s, puts, vs, r, projected) && Counted(r)
  {
    hide Counted, HeldBy, Added, Demand, Sum, Evicted;
    ProjectedIs(s, puts);
    EvictedIs(s, Projected(s, puts) - s.capacity.limit, puts);
    DeleteBatchExact(s, vs);
    HeldBySum(Others(s.resident, puts), vs);
    HeldByRestricted(s.resident, puts, vs);
    assert Others(s.resident, puts) - Members(vs) == Others(s.resident - Members(vs), puts);
    CountedIgnoresTold(DeleteBatch(s, vs), MakeRoom(s, puts).0);
  }

  /** Making room drops only keys the put does not write, tells the directory, and counts right. */
  lemma MakeRoomExact(s: State, puts: map<Key, Value>) returns (vs: seq<Key>)
    requires Counted(s)
    ensures var (r, projected) := MakeRoom(s, puts);
      RoomMade(s, puts, vs, r, projected) && Counted(r)
  {
    hide Counted, RoomMade, Evicted, Projected;
    if Over(s.capacity, Projected(s, puts)) && s.directory {
      vs := Evicted(s, Projected(s, puts) - s.capacity.limit, puts.Keys);
      RoomByEviction(s, puts, vs);
    } else {
      vs := [];
      NoRoomNeeded(s, puts);
    }
  }

  lemma CountedIgnoresTold(s: State, r: State)
    requires Counted(s) && r == s.(told := r.told)
    ensures Counted(r)
  {}

  lemma {:induction false} HeldByRestricted(resident: map<Key, nat>, puts: map<Key, Value>, vs: seq<Key>)
    requires forall k :: k in vs ==> k !in puts
    ensures HeldBy(Others(resident, puts), vs) == HeldBy(resident, vs)
  {
    if vs != [] {
      HeldByRestricted(resident, puts, vs[1..]);
    }
  }

  // ----- a put ----------------------------------------------------------------------------

  lemma LandingKeepsCount(s: State, puts: map<Key, Value>)
    requires Counted(s)
    ensures Counted(s.(store := s.store + puts))
  {}

  lemma AcceptedFits(s: State, puts: map<Key, Value>, vs: seq<Key>, r: State, projected: int)
    requires RoomMade(s, puts, vs, r, projected) && s.directory && s.capacity.Finite?
    ensures Over(r.capacity, projected) <==> Demand(puts) > s.capacity.limit
  {
    SumNonNegative(Others(r.resident, puts));
    if Over(s.capacity, projected) {
      assert Others(r.resident, puts) == map[];
    }
  }

  /**
   With a directory to tell, a put is refused exactly when its own keys' bytes exceed the capacity:
   eviction always makes the room when there is any to make.
   */
  lemma RefusedIffTooBig(s: State, puts: map<Key, Value>, order: seq<Key>)
    requires Inv(s) && s.directory && s.capacity.Finite?
    ensures Put(s, puts, order).1.Refused? <==> Demand(puts) > s.capacity.limit
  {
    hide Counted, RoomMade, Demand, MakeRoom;
    var landed := s.(store := s.store + puts);
    LandingKeepsCount(s, puts);
    var vs := MakeRoomExact(landed, puts);
    var (r, projected) := MakeRoom(landed, puts);
    AcceptedFits(landed, puts, vs, r, projected);
  }

  lemma RefusalShape(s: State, puts: map<Key, Value>, order: seq<Key>, vs: seq<Key>, r: State, projected: int)
    requires Inv(s) && RoomMade(s.(store := s.store + puts), puts, vs, r, projected) && Counted(r)
    ensures var t := r.(store := r.store - (puts.Keys - r.resident.Keys));
      && Inv(t)
      && (forall k :: k in t.resident ==> k in s.resident && t.resident[k] == s.resident[k])
      && (forall k :: k in s.resident && k in puts ==> k in t.resident)
      && (forall k :: k in t.resident ==> t.store[k] == if k in puts then puts[k] else s.store[k])
      && (s.directory && Over(s.capacity, projected) ==> t.resident.Keys <= puts.Keys)
  {
    var t := r.(store := r.store - (puts.Keys - r.resident.Keys));
    assert forall k :: k in t.store <==> k in t.resident;
  }

  /**
   After a refusal the accounting still holds, the put's own residents are still there and, with a
   directory, nothing else is: everything the put did not write has been evicted for nothing. The
   values of the residents it did write are the new ones.
   */
  lemma RefusedPutEmptiesVolume(s: State, puts: map<Key, Value>, order: seq<Key>)
    requires Inv(s) && Put(s, puts, order).1.Refused?
    ensures var r := Put(s, puts, order).0;
      && Inv(r)
      && (forall k :: k in r.resident ==> k in s.resident && r.resident[k] == s.resident[k])
      && (forall k :: k in s.resident && k in puts ==> k in r.resident)
      && (forall k :: k in r.resident ==> r.store[k] == if k in puts then puts[k] else s.store[k])
      && (s.directory ==> r.resident.Keys <= puts.Keys)
  {
    hide Counted, RoomMade, Demand, MakeRoom;
    var landed := s.(store := s.store + puts);
    LandingKeepsCount(s, puts);
    var vs := MakeRoomExact(landed, puts);
    var (r, projected) := MakeRoom(landed, puts);
    RefusalShape(s, puts, order, vs, r, projected);
    RoomCapacity(landed, puts, vs, r, projected);
  }

  /**
   What a refusal reports: the bytes left resident, and those the put would have added to them. With
   a directory these are all there is, the put's own keys being all that is left.
   */
  lemma RefusalReports(s: State, puts: map<Key, Value>, order: seq<Key>)
    requires Inv(s) && Put(s, puts, order).1.Refused?
    ensures var (r, refusal) := Put(s, puts, order);
      && refusal.resident == Sum(r.resident)
      && refusal.resident + refusal.attempted == Sum(r.resident - puts.Keys) + Sum(Sizes(puts))
      && r.capacity.Finite? && refusal.resident + refusal.attempted > r.capacity.limit
  {
    hide Sum, MakeRoom, Added;
    var landed := s.(store := s.store + puts);
    LandingKeepsCount(s, puts);
    var vs := MakeRoomExact(landed, puts);
  }

  lemma RoomCapacity(s: State, puts: map<Key, Value>, vs: seq<Key>, r: State, projected: int)
    requires RoomMade(s, puts, vs, r, projected)
    ensures r.capacity == s.capacity && r.peak == s.peak && r.directory == s.directory
  {}

  /**
   Store and accounting agree on sizes after a refused put exactly when every resident key it wrote
   kept its size: the rollback removes fresh keys only.
   */
  lemma RefusedPutAgreesIff(s: State, puts: map<Key, Value>, order: seq<Key>)
    requires Inv(s) && SizesAgree(s) && Put(s, puts, order).1.Refused?
    ensures SizesAgree(Put(s, puts, order).0) <==>
      forall k :: k in puts && k in s.resident ==> puts[k].nbytes == s.resident[k]
  {
    hide Put;
    RefusedPutEmptiesVolume(s, puts, order);
    var r := Put(s, puts, order).0;
    if SizesAgree(r) {
      forall k | k in puts && k in s.resident ensures puts[k].nbytes == s.resident[k] {
        assert k in r.resident;
      }
    }
  }

  lemma SizesKeys(puts: map<Key, Value>)
    ensures Sizes(puts).Keys == puts.Keys
  {}

  lemma LandedStore(store: map<Key, Value>, resident: map<Key, nat>, puts: map<Key, Value>, gone: set<Key>)
    requires gone !! puts.Keys && store.Keys == resident.Keys
    ensures (store + puts) - gone == (store - gone) + puts
    ensures ((store - gone) + puts).Keys == ((resident - gone) + Sizes(puts)).Keys
  {
    SizesKeys(puts);
  }

  lemma NotingWritten(r: State, puts: map<Key, Value>, order: seq<Key>)
    requires Counted(r) && Members(order) == puts.Keys
    ensures var u := r.(resident := r.resident + Sizes(puts));
      var t := Use(u, order);
      t == u.(ranking := t.ranking) && t.ranking.bytes == u.resident && u.resident.Keys <= t.ranking.used.Keys
  {
    hide Sum;
    SizesKeys(puts);
    assert forall k :: k in order <==> k in puts by { assert forall k :: k in order <==> k in Members(order); }
    UseKeeps(r.(resident := r.resident + Sizes(puts)), order);
  }

  /** What an accepted put leaves: the survivors overlaid with the new values, counted exactly. */
  lemma StoredShape(s: State, puts: map<Key, Value>, order: seq<Key>, vs: seq<Key>, r: State, projected: int)
    requires Inv(s) && RoomMade(s.(store := s.store + puts), puts, vs, r, projected) && Counted(r)
    requires !Over(r.capacity, projected) && Members(order) == puts.Keys
    ensures var t := Use(r.(resident := r.resident + Sizes(puts)), order)
                       .(residentBytes := projected, peak := if projected > r.peak then projected else r.peak);
      && Inv(t)
      && t.store == (s.store - Members(vs)) + puts && t.resident == (s.resident - Members(vs)) + Sizes(puts)
      && t.told == r.told
  {
    hide Sum, Demand, Distinct, Use, Sizes;
    NotingWritten(r, puts, order);
    ProjectedIsSum(puts, vs, s.(store := s.store + puts), r, projected);
    LandedStore(s.store, s.resident, puts, Members(vs));
  }

  lemma ProjectedIsSum(puts: map<Key, Value>, vs: seq<Key>, s: State, r: State, projected: int)
    requires RoomMade(s, puts, vs, r, projected)
    ensures projected == Sum(r.resident + Sizes(puts))
  {
    SizesKeys(puts);
    SumOverwrite(r.resident, Sizes(puts));
  }

  /** An accepted put keeps the accounting, and every size that agreed still does. */
  lemma StoredPut(s: State, puts: map<Key, Value>, order: seq<Key>) returns (vs: seq<Key>)
    requires Inv(s) && Members(order) == puts.Keys && Put(s, puts, order).1 == Stored
    ensures var r := Put(s, puts, order).0;
      && Inv(r)
      && (forall k :: k in vs ==> k in s.resident && k !in puts)
      && r.store == (s.store - Members(vs)) + puts && r.resident == (s.resident - Members(vs)) + Sizes(puts)
      && (SizesAgree(s) ==> SizesAgree(r))
      && r.told == (if vs == [] then s.told else s.told + [vs])
      && r.capacity == s.capacity && r.directory == s.directory
      && r.peak == (if r.residentBytes > s.peak then r.residentBytes else s.peak)
  {
    hide Counted, Demand, MakeRoom, Sum;
    var landed := s.(store := s.store + puts);
    LandingKeepsCount(s, puts);
    vs := MakeRoomExact(landed, puts);
    var (r, projected) := MakeRoom(landed, puts);
    RoomCapacity(landed, puts, vs, r, projected);
    StoredShape(s, puts, order, vs, r, projected);
    UseOnlyRanks(r.(resident := r.resident + Sizes(puts)), order);
  }

  lemma {:induction false} UseOnlyRanks(s: State, ks: seq<Key>)
    ensures Use(s, ks) == s.(ranking := Use(s, ks).ranking)
    decreases |ks|
  {
    if ks != [] {
      var nbytes := if ks[0] in s.resident then Some(s.resident[ks[0]]) else None;
      UseOnlyRanks(s.(ranking := Noted(s.ranking, ks[0], nbytes)), ks[1..]);
    }
  }

  lemma PutKeepsPeak(s: State, puts: map<Key, Value>, order: seq<Key>)
    requires Inv(s) && Put(s, puts, order).1.Refused?
    ensures var r := Put(s, puts, order).0;
      r.peak == s.peak && r.residentBytes <= s.residentBytes && r.capacity == s.capacity && r.directory == s.directory
  {
    hide Counted, Demand, MakeRoom, Sum;
    var landed := s.(store := s.store + puts);
    LandingKeepsCount(s, puts);
    var vs := MakeRoomExact(landed, puts);
  }

  // ----- whole runs -----------------------------------------------------------------------

  /** One call; a put carries the order its batch is noted in. */
  datatype Call =
    | PutCall(puts: map<Key, Value>, order: seq<Key>)
    | GetCall(keys: seq<Key>)
    | TouchCall(keys: seq<Key>)
    | DeleteCall(key: Key)
    | DeleteBatchCall(keys: seq<Key>)
    | ResetCall

  /** A put's order is an arbitrary listing of its batch. */
  ghost predicate Allowed(c: Call) {
    c.PutCall? ==> Members(c.order) == c.puts.Keys
  }

  ghost function Apply(s: State, c: Call): State {
    match c
    case PutCall(puts, order) => Put(s, puts, order).0
    case GetCall(keys) => Use(s, keys)
    case TouchCall(keys) => Touch(s, keys)
    case DeleteCall(key) => Delete(s, key)
    case DeleteBatchCall(keys) => DeleteBatch(s, keys)
    case ResetCall => Reset(s)
  }

  ghost function Run(s: State, cs: seq<Call>): State
    decreases |cs|
  {
    if cs == [] then s else Run(Apply(s, cs[0]), cs[1..])
  }

  lemma ResetKeepsInv(s: State)
    requires Inv(s)
    ensures Inv(Reset(s))
  {
    assert s.ranking.bytes - s.ranking.used.Keys == map[];
    SumNonNegative(s.resident);
  }

  lemma DeleteKeepsInv(s: State, ks: seq<Key>)
    requires Inv(s)
    ensures var r := DeleteBatch(s, ks);
      Inv(r) && r.residentBytes <= s.residentBytes && r.peak == s.peak && (SizesAgree(s) ==> SizesAgree(r))
  {
    DeleteBatchExact(s, ks);
  }

  lemma DeleteOneIsBatch(s: State, k: Key)
    ensures Delete(s, k) == DeleteBatch(s, [k])
  {
    assert [k][1..] == [];
  }

  lemma AccessKeepsInv(s: State, ks: seq<Key>)
    requires Inv(s)
    ensures Inv(Use(s, ks)) && Use(s, ks) == s.(ranking := Use(s, ks).ranking)
  {
    UseKeeps(s, ks);
  }

  lemma CallKeepsInv(s: State, c: Call)
    requires Inv(s) && Allowed(c)
    ensures var r := Apply(s, c);
      Inv(r) && r.peak == (if r.residentBytes > s.peak then r.residentBytes else s.peak)
  {
    hide Inv, Put;
    match c {
      case PutCall(puts, order) =>
        if Put(s, puts, order).1.Refused? {
          RefusedPutEmptiesVolume(s, puts, order);
          PutKeepsPeak(s, puts, order);
          UnderPeak(s);
        } else {
          var vs := StoredPut(s, puts, order);
        }
      case GetCall(keys) => AccessKeepsInv(s, keys); UnderPeak(s);
      case TouchCall(keys) => AccessKeepsInv(s, OnlyResident(s.resident, keys)); UnderPeak(s);
      case DeleteCall(key) => DeleteOneIsBatch(s, key); DeleteKeepsInv(s, [key]); UnderPeak(s);
      case DeleteBatchCall(keys) => DeleteKeepsInv(s, keys); UnderPeak(s);
      case ResetCall => ResetKeepsInv(s); UnderPeak(s); UnderPeak(Reset(s));
    }
  }

  lemma UnderPeak(s: State)
    requires Inv(s)
    ensures 0 <= s.residentBytes <= s.peak
  {
    SumNonNegative(s.resident);
  }

  /** The most bytes resident at any point of a run, starting from `high`. */
  ghost function HighWater(s: State, cs: seq<Call>, high: int): int
    decreases |cs|
  {
    if cs == [] then high else
      var r := Apply(s, cs[0]);
      HighWater(r, cs[1..], if r.residentBytes > high then r.residentBytes else high)
  }

  /**
   Over any calls, refused puts included: resident bytes are the per-key sum, within capacity; the
   ranking's byte map is the residency map, whatever absent keys have been read; and the recorded
   peak is the high-water mark.
   */
  lemma {:induction false} EveryRunKeepsAccounts(s: State, cs: seq<Call>)
    requires Inv(s) && forall i :: 0 <= i < |cs| ==> Allowed(cs[i])
    ensures Inv(Run(s, cs)) && Run(s, cs).peak == HighWater(s, cs, s.peak)
    decreases |cs|
  {
    hide Inv, Apply, Allowed;
    if cs != [] {
      CallKeepsInv(s, cs[0]);
      EveryRunKeepsAccounts(Apply(s, cs[0]), cs[1..]);
    }
  }

  /** A put that is refused keeps the sizes of the residents it writes. */
  ghost predicate RefusalKeepsSizes(s: State, c: Call) {
    c.PutCall? && Put(s, c.puts, c.order).1.Refused? ==>
      forall k :: k in c.puts && k in s.resident ==> c.puts[k].nbytes == s.resident[k]
  }

  ghost predicate RefusalsKeepSizes(s: State, cs: seq<Call>)
    decreases |cs|
  {
    cs == [] || (RefusalKeepsSizes(s, cs[0]) && RefusalsKeepSizes(Apply(s, cs[0]), cs[1..]))
  }

  /** Store and accounting agree on sizes before and after every call. */
  ghost predicate AgreesThroughout(s: State, cs: seq<Call>)
    decreases |cs|
  {
    SizesAgree(s) && (cs != [] ==> AgreesThroughout(Apply(s, cs[0]), cs[1..]))
  }

  lemma CallAgreesIff(s: State, c: Call)
    requires Inv(s) && SizesAgree(s) && Allowed(c)
    ensures SizesAgree(Apply(s, c)) <==> RefusalKeepsSizes(s, c)
  {
    hide Inv, Put, SizesAgree;
    match c {
      case PutCall(puts, order) =>
        if Put(s, puts, order).1.Refused? {
          RefusedPutAgreesIff(s, puts, order);
        } else {
          var vs := StoredPut(s, puts, order);
        }
      case GetCall(keys) => AccessKeepsInv(s, keys); SameSizes(s, Use(s, keys));
      case TouchCall(keys) =>
        AccessKeepsInv(s, OnlyResident(s.resident, keys));
        SameSizes(s, Touch(s, keys));
      case DeleteCall(key) => DeleteOneIsBatch(s, key); DeleteKeepsInv(s, [key]);
      case DeleteBatchCall(keys) => DeleteKeepsInv(s, keys);
      case ResetCall => NothingDisagrees(Reset(s));
    }
  }

  lemma SameSizes(s: State, r: State)
    requires SizesAgree(s) && r == s.(ranking := r.ranking)
    ensures SizesAgree(r)
  {}

  lemma NothingDisagrees(s: State)
    requires s.store == map[]
    ensures SizesAgree(s)
  {}

  /** Store and accounting agree all through a run exactly when every refused put in it kept its residents' sizes. */
  lemma {:induction false} EveryRunAgreesIff(s: State, cs: seq<Call>)
    requires Inv(s) && SizesAgree(s) && forall i :: 0 <= i < |cs| ==> Allowed(cs[i])
    ensures AgreesThroughout(s, cs) <==> RefusalsKeepSizes(s, cs)
    decreases |cs|
  {
    hide Inv, Apply, Allowed, SizesAgree, RefusalKeepsSizes;
    if cs != [] {
      CallKeepsInv(s, cs[0]);
      CallAgreesIff(s, cs[0]);
      var r := Apply(s, cs[0]);
      if SizesAgree(r) { EveryRunAgreesIff(r, cs[1..]); }
    }
  }

  lemma DemandOfOne(k: Key, v: Value)
    ensures Demand(map[k := v]) == v.nbytes
  {
    var m := Sizes(map[k := v]);
    assert m == map[k := v.nbytes] && m - {k} == map[];
    SumRemove(m, k);
  }

  /** An overwrite too big to keep: the old count stays with the new value. */
  lemma RefusedOverwriteDisagrees()
    ensures var s := Apply(Empty(Finite(1), true), PutCall(map["a" := Value(0, 1)], ["a"]));
      var (r, outcome) := Put(s, map["a" := Value(1, 2)], ["a"]);
      Inv(s) && SizesAgree(s) && outcome.Refused? && Inv(r) && !SizesAgree(r)
  {
    hide Inv, Put, Demand;
    var e, puts, more := Empty(Finite(1), true), map["a" := Value(0, 1)], map["a" := Value(1, 2)];
    EmptyInv(Finite(1), true);
    DemandOfOne("a", Value(0, 1));
    DemandOfOne("a", Value(1, 2));
    RefusedIffTooBig(e, puts, ["a"]);
    assert Members(["a"]) == {"a"} == puts.Keys;
    var vs := StoredPut(e, puts, ["a"]);
    var s := Put(e, puts, ["a"]).0;
    assert s.resident == map["a" := 1];
    RefusedIffTooBig(s, more, ["a"]);
    RefusedPutAgreesIff(s, more, ["a"]);
    RefusedPutEmptiesVolume(s, more, ["a"]);
    assert "a" in more && "a" in s.resident && more["a"].nbytes != s.resident["a"];
  }

  function Empty(capacity: Capacity, directory: bool): State {
    State(capacity, directory, map[], map[], 0, 0, Ranking(map[], map[], 0), [])
  }

  lemma EmptyInv(capacity: Capacity, directory: bool)
    ensures Inv(Empty(capacity, directory)) && SizesAgree(Empty(capacity, directory))
  {}

  // ----- the endpoints step by step -------------------------------------------------------

  lemma DeleteBatchNext(s: State, ks: seq<Key>, i: nat)
    requires i < |ks|
    ensures DeleteBatch(s, ks[i..]) == DeleteBatch(Delete(s, ks[i]), ks[i + 1..])
    ensures Distinct(ks) ==>
      HeldBy(s.resident, ks[i..]) == Held(s.resident, ks[i]) + HeldBy(Delete(s, ks[i]).resident, ks[i + 1..])
  {
    assert ks[i..][0] == ks[i] && ks[i..][1..] == ks[i + 1..];
    if Distinct(ks) { HeldByOthers(s.resident, ks[i], ks[i + 1..]); }
  }

  lemma DeleteBatchNone(s: State, ks: seq<Key>)
    ensures DeleteBatch(s, ks[|ks|..]) == s && HeldBy(s.resident, ks[|ks|..]) == 0
    ensures DeleteBatch(s, ks[0..]) == DeleteBatch(s, ks) && HeldBy(s.resident, ks[0..]) == HeldBy(s.resident, ks)
  {
    assert ks[0..] == ks && ks[|ks|..] == [];
  }

  /** What `_ask_for_room` leaves of `s` as `r`, and the projection it answers. */
  ghost predicate RoomAsked(s: State, projected: int, incoming: set<Key>, r: State, total: int)
    requires Over(s.capacity, projected)
  {
    if !s.directory then r == s && total == projected else
      var vs := Evicted(s, projected - s.capacity.limit, incoming);
      var t := DeleteBatch(s, vs);
      && r == t.(told := if vs == [] then t.told else t.told + [vs])
      && (Distinct(vs) ==> total == projected - HeldBy(s.resident, vs))
  }

  /** Asking for room only when the projection is over is making room. */
  lemma RoomAskedIsMade(s: State, puts: map<Key, Value>, r: State, total: int)
    requires Inv(s)
    requires var landed := s.(store := s.store + puts);
      if Over(s.capacity, Projected(landed, puts)) then RoomAsked(landed, Projected(landed, puts), puts.Keys, r, total)
      else r == landed && total == Projected(landed, puts)
    ensures (r, total) == MakeRoom(s.(store := s.store + puts), puts)
  {
    hide Projected, DeleteBatch, HeldBy, OnlyResident, VictimsOf, Evicted, Counted;
    var landed := s.(store := s.store + puts);
    LandingKeepsCount(s, puts);
    if Over(s.capacity, Projected(landed, puts)) && s.directory {
      EvictedIs(landed, Projected(landed, puts) - s.capacity.limit, puts);
    }
  }
}
