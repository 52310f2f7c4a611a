/**
 Which of a volume's keys go when it needs room: the least-recently-used ranking of
 `realsim/seams/_retention.py`, as values and as the object the volume holds.
 */
module Retention {
  import opened Basics

  type Key = string

  /** Last-access stamps, byte counts of the keys written, and the access counter. */
  datatype Ranking = Ranking(used: map<Key, nat>, bytes: map<Key, nat>, clock: nat)

  function Noted(r: Ranking, key: Key, nbytes: Option<nat>): Ranking {
    Ranking(r.used[key := r.clock + 1], if nbytes.Some? then r.bytes[key := nbytes.value] else r.bytes, r.clock + 1)
  }

  function Forgotten(r: Ranking, key: Key): Ranking {
    r.(used := r.used - {key}, bytes := r.bytes - {key})
  }

  function SizeOf(r: Ranking, key: Key): nat {
    if key in r.bytes then r.bytes[key] else 0
  }

  // ----- the cold order -------------------------------------------------------------------

  /** `a` comes strictly before `b` in eviction order: older stamp first, ties broken by key. */
  predicate Colder(used: map<Key, nat>, a: Key, b: Key)
    requires a in used && b in used
  {
    used[a] < used[b] || (used[a] == used[b] && StringLt(a, b))
  }

  predicate IsColdest(used: map<Key, nat>, todo: set<Key>, k: Key)
    requires todo <= used.Keys
  {
    k in todo && forall j :: j in todo && j != k ==> Colder(used, k, j)
  }

  lemma ColderIsStrict(used: map<Key, nat>, a: Key, b: Key)
    requires a in used && b in used
    ensures a == b || Colder(used, a, b) || Colder(used, b, a)
    ensures !(Colder(used, a, b) && Colder(used, b, a))
    ensures Colder(used, a, b) ==> a != b
  {
    StringLtTotal(a, b);
  }

  lemma ColderTransitive(used: map<Key, nat>, a: Key, b: Key, c: Key)
    requires a in used && b in used && c in used && Colder(used, a, b) && Colder(used, b, c)
    ensures Colder(used, a, c)
  {
    if used[a] == used[b] == used[c] {
      StringLtTransitive(a, b, c);
    }
  }

  lemma {:induction false} ColdestExists(used: map<Key, nat>, todo: set<Key>) returns (k: Key)
    requires todo <= used.Keys && todo != {}
    ensures IsColdest(used, todo, k)
    decreases |todo|
  {
    var first :| first in todo;
    var rest := todo - {first};
    assert todo == rest + {first};
    k := first;
    if rest != {} {
      var c := ColdestExists(used, rest);
      ColderIsStrict(used, first, c);
      if Colder(used, c, first) {
        k := c;
        forall j | j in todo && j != c ensures Colder(used, c, j) {
          if j != first { assert j in rest; }
        }
      } else {
        forall j | j in todo && j != first ensures Colder(used, first, j) {
          assert j in rest;
          if j != c { ColderTransitive(used, first, c, j); }
        }
      }
    }
  }

  ghost function Coldest(used: map<Key, nat>, todo: set<Key>): (k: Key)
    requires todo <= used.Keys && todo != {}
    ensures IsColdest(used, todo, k)
  {
    assert exists k :: IsColdest(used, todo, k) by { var k := ColdestExists(used, todo); }
    var k :| IsColdest(used, todo, k);
    k
  }

  lemma ColdestUnique(used: map<Key, nat>, todo: set<Key>, a: Key, b: Key)
    requires todo <= used.Keys && IsColdest(used, todo, a) && IsColdest(used, todo, b)
    ensures a == b
  {
    ColderIsStrict(used, a, b);
  }

  // ----- victims --------------------------------------------------------------------------

  /** The scan of `victims` over the keys of `todo`, coldest first, with `need` bytes still to free. */
  ghost function Scan(r: Ranking, todo: set<Key>, need: int, exclude: set<Key>): seq<Key>
    requires todo <= r.used.Keys
    decreases |todo|
  {
    if todo == {} || need <= 0 then [] else
      var k := Coldest(r.used, todo);
      if k in exclude then Scan(r, todo - {k}, need, exclude)
      else [k] + Scan(r, todo - {k}, need - SizeOf(r, k), exclude)
  }

  /** One key of the scan, whichever way the coldest was found. */
  lemma ScanNext(r: Ranking, todo: set<Key>, need: int, exclude: set<Key>, k: Key)
    requires todo <= r.used.Keys && IsColdest(r.used, todo, k) && need > 0
    ensures k in todo && Scan(r, todo, need, exclude)
      == if k in exclude then Scan(r, todo - {k}, need, exclude)
         else [k] + Scan(r, todo - {k}, need - SizeOf(r, k), exclude)
  {
    ColdestUnique(r.used, todo, k, Coldest(r.used, todo));
  }

  lemma ScanEnds(r: Ranking, todo: set<Key>, need: int, exclude: set<Key>)
    requires todo <= r.used.Keys && (todo == {} || need <= 0)
    ensures Scan(r, todo, need, exclude) == []
  {}

  ghost function VictimsOf(r: Ranking, need: int, exclude: set<Key>): seq<Key> {
    Scan(r, r.used.Keys, need, exclude)
  }

  /** The bytes a list of keys holds. */
  function Freed(r: Ranking, keys: seq<Key>): nat {
    if keys == [] then 0 else SizeOf(r, keys[0]) + Freed(r, keys[1..])
  }

  /**
   What a victim list is: drawn from the allowed keys without repetition, in cold order, with no
   allowed key colder than one of its members left out.
   */
  ghost predicate ColdPrefix(r: Ranking, todo: set<Key>, exclude: set<Key>, vs: seq<Key>)
    requires todo <= r.used.Keys
  {
    && (forall i :: 0 <= i < |vs| ==> vs[i] in todo && vs[i] !in exclude)
    && (forall i, j :: 0 <= i < j < |vs| ==> Colder(r.used, vs[i], vs[j]))
    && (forall i, k :: 0 <= i < |vs| && k in todo && k !in exclude && k !in vs ==> Colder(r.used, vs[i], k))
  }

  lemma ColdPrefixCons(r: Ranking, todo: set<Key>, exclude: set<Key>, k: Key, rest: seq<Key>)
    requires todo <= r.used.Keys && IsColdest(r.used, todo, k) && k !in exclude
    requires ColdPrefix(r, todo - {k}, exclude, rest)
    ensures ColdPrefix(r, todo, exclude, [k] + rest)
  {
    hide Colder;
    var vs := [k] + rest;
    forall i, x | 0 <= i < |vs| && x in todo && x !in exclude && x !in vs
      ensures Colder(r.used, vs[i], x)
    {
      assert x != k by { assert vs[0] == k; }
      assert forall y :: y in rest ==> y in vs;
      if i > 0 { assert vs[i] == rest[i - 1]; }
    }
    forall i, j | 0 <= i < j < |vs| ensures Colder(r.used, vs[i], vs[j]) {
      assert vs[j] == rest[j - 1];
    }
  }

  lemma {:induction false} ScanIsColdPrefix(r: Ranking, todo: set<Key>, need: int, exclude: set<Key>)
    requires todo <= r.used.Keys
    ensures ColdPrefix(r, todo, exclude, Scan(r, todo, need, exclude))
    decreases |todo|
  {
    if todo != {} && need > 0 {
      var k := Coldest(r.used, todo);
      var less := if k in exclude then need else need - SizeOf(r, k);
      ScanIsColdPrefix(r, todo - {k}, less, exclude);
      if k !in exclude {
        ColdPrefixCons(r, todo, exclude, k, Scan(r, todo - {k}, less, exclude));
      }
    }
  }

  lemma {:induction false} ScanCovers(r: Ranking, todo: set<Key>, need: int, exclude: set<Key>)
    requires todo <= r.used.Keys
    ensures var vs := Scan(r, todo, need, exclude);
      Freed(r, vs) >= need || forall k :: k in todo && k !in exclude ==> k in vs
    decreases |todo|
  {
    if todo != {} && need > 0 {
      var k := Coldest(r.used, todo);
      if k in exclude {
        ScanCovers(r, todo - {k}, need, exclude);
      } else {
        var rest := Scan(r, todo - {k}, need - SizeOf(r, k), exclude);
        ScanCovers(r, todo - {k}, need - SizeOf(r, k), exclude);
        assert ([k] + rest)[1..] == rest;
        assert forall j :: j in [k] + rest <==> j == k || j in rest;
      }
    }
  }

  lemma {:induction false} ScanIsShortest(r: Ranking, todo: set<Key>, need: int, exclude: set<Key>, n: nat)
    requires todo <= r.used.Keys && n < |Scan(r, todo, need, exclude)|
    ensures Freed(r, Scan(r, todo, need, exclude)[..n]) < need
    decreases |todo|
  {
    var k := Coldest(r.used, todo);
    if k in exclude {
      ScanIsShortest(r, todo - {k}, need, exclude, n);
    } else if n > 0 {
      var rest := Scan(r, todo - {k}, need - SizeOf(r, k), exclude);
      ScanIsShortest(r, todo - {k}, need - SizeOf(r, k), exclude, n - 1);
      assert ([k] + rest)[..n] == [k] + rest[..n - 1];
      assert ([k] + rest[..n - 1])[1..] == rest[..n - 1];
    }
  }

  /**
   `victims` names the shortest coldest-first run of allowed keys that covers the need, or all of
   them if none does; an excluded key is skipped and its bytes are not counted.
   */
  lemma VictimsAreShortestColdPrefix(r: Ranking, need: int, exclude: set<Key>)
    ensures var vs := VictimsOf(r, need, exclude);
      && ColdPrefix(r, r.used.Keys, exclude, vs)
      && (Freed(r, vs) >= need || forall k :: k in r.used && k !in exclude ==> k in vs)
      && forall n :: 0 <= n < |vs| ==> Freed(r, vs[..n]) < need
  {
    hide Scan, ColdPrefix, Freed;
    ScanIsColdPrefix(r, r.used.Keys, need, exclude);
    ScanCovers(r, r.used.Keys, need, exclude);
    forall n | 0 <= n < |VictimsOf(r, need, exclude)| ensures Freed(r, VictimsOf(r, need, exclude)[..n]) < need {
      ScanIsShortest(r, r.used.Keys, need, exclude, n);
    }
  }

  /** Stamps never repeat, so the cold order is the order of last access. */
  ghost predicate Stamped(r: Ranking) {
    && (forall k :: k in r.used ==> r.used[k] <= r.clock)
    && (forall j, k :: j in r.used && k in r.used && r.used[j] == r.used[k] ==> j == k)
  }

  /** An access makes its key the last to go and leaves the order of the others alone. */
  lemma NoteMakesHottest(r: Ranking, key: Key, nbytes: Option<nat>)
    requires Stamped(r)
    ensures var n := Noted(r, key, nbytes);
      && Stamped(n)
      && (forall j :: j in n.used && j != key ==> Colder(n.used, j, key))
      && (forall i, j :: i in r.used && j in r.used && i != key && j != key ==>
            (Colder(n.used, i, j) <==> Colder(r.used, i, j)))
  {}

  function ForgottenAll(r: Ranking, keys: set<Key>): Ranking {
    r.(used := r.used - keys, bytes := r.bytes - keys)
  }

  lemma ForgottenNone(r: Ranking)
    ensures ForgottenAll(r, {}) == r
  {
    assert r.used - {} == r.used && r.bytes - {} == r.bytes;
  }

  lemma ForgottenOneMore(r: Ranking, keys: set<Key>, key: Key)
    ensures Forgotten(ForgottenAll(r, keys), key) == ForgottenAll(r, keys + {key})
  {
    assert (r.used - keys) - {key} == r.used - (keys + {key});
    assert (r.bytes - keys) - {key} == r.bytes - (keys + {key});
  }

  // ----- the object -----------------------------------------------------------------------

  class LeastRecentlyUsed {
    var used: map<Key, nat>
    var bytes: map<Key, nat>
    var clock: nat

    ghost function Abs(): Ranking
      reads this
    {
      Ranking(used, bytes, clock)
    }

    constructor ()
      ensures Abs() == Ranking(map[], map[], 0)
    {
      used, bytes, clock := map[], map[], 0;
    }

    method Note(key: Key, nbytes: Option<nat>)
      modifies this
      ensures Abs() == Noted(old(Abs()), key, nbytes)
    {
      clock := clock + 1;
      used := used[key := clock];
      if nbytes.Some? {
        bytes := bytes[key := nbytes.value];
      }
    }

    method Forget(key: Key)
      modifies this
      ensures Abs() == Forgotten(old(Abs()), key)
    {
      used := used - {key};
      bytes := bytes - {key};
    }

    /** Forgets every key it holds a recency for. */
    method ForgetHeld()
      modifies this
      ensures Abs() == ForgottenAll(old(Abs()), old(used).Keys)
    {
      hide Forgotten, ForgottenAll;
      var held := used.Keys;
      ForgottenNone(Abs());
      assert old(used).Keys - held == {};
      while held != {}
        invariant held <= old(used).Keys
        invariant Abs() == ForgottenAll(old(Abs()), old(used).Keys - held)
        decreases |held|
      {
        var key :| key in held;
        ForgottenOneMore(old(Abs()), old(used).Keys - held, key);
        assert old(used).Keys - (held - {key}) == old(used).Keys - held + {key};
        Forget(key);
        held := held - {key};
      }
      assert old(used).Keys - held == old(used).Keys;
    }

    method Victims(need: int, exclude: set<Key>) returns (victims: seq<Key>)
      ensures victims == VictimsOf(Abs(), need, exclude)
    {
      hide Scan, IsColdest;
      victims := [];
      var freed := 0;
      var todo := used.Keys;
      while todo != {}
        invariant todo <= used.Keys
        invariant victims + Scan(Abs(), todo, need - freed, exclude) == VictimsOf(Abs(), need, exclude)
        decreases |todo|
      {
        if freed >= need {
          break;
        }
        ghost var coldest := ColdestExists(used, todo);
        var key :| IsColdest(used, todo, key);
        ScanNext(Abs(), todo, need - freed, exclude, key);
        todo := todo - {key};
        if key in exclude {
          continue;
        }
        assert victims + ([key] + Scan(Abs(), todo, need - freed - SizeOf(Abs(), key), exclude))
            == victims + [key] + Scan(Abs(), todo, need - freed - SizeOf(Abs(), key), exclude);
        victims := victims + [key];
        freed := freed + (if key in bytes then bytes[key] else 0);
      }
      ScanEnds(Abs(), todo, need - freed, exclude);
    }
  }
}
