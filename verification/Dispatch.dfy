/**
 The dispatcher of `proposed/dispatch.py`: every fold for an action, then its commit, then the gates
 it releases. Gates park before they probe, so a commit during the probe cannot be lost. A reducer's
 own state is kept as the actions it has folded, of which any state it holds is a function.
 */
module Dispatch {
  import opened Basics

  type Kind = string

  datatype Action = Action(kind: Kind, payload: int)

  /** A gate is asking whether it holds, waits, or is gone: opened at once, left, or never to be awaited. */
  datatype Phase = Probing | Parked | Gone

  /** `_Waiter`; `named` is what it was opened on and `since` how many commits came before. */
  datatype Gate = Gate(named: set<Action>, missing: set<Action>, ready: bool, phase: Phase, since: nat)

  /** A committed action and whose folds ran for it, in order. */
  datatype Commit = Commit(action: Action, folders: seq<nat>)

  /** A gate's id is its place in `gates`. A bucket lists the gates still missing its action, in parking order. */
  datatype State = State(
    folds: map<Kind, seq<nat>>,
    logs: map<nat, seq<Action>>,
    waiters: map<Action, seq<nat>>,
    gates: seq<Gate>,
    commits: seq<Commit>)

  datatype Problem = NothingFolds | FalseGateNamesNothing

  // ----- composing and folding ------------------------------------------------------------

  /** Registers one reducer's fold for each of `kinds`. */
  function Compose(s: State, reducer: nat, kinds: seq<Kind>): State
    decreases |kinds|
  {
    if kinds == [] then s else
      var k := kinds[0];
      Compose(s.(folds := s.folds[k := Folders(s, k) + [reducer]]), reducer, kinds[1..])
  }

  function Folders(s: State, kind: Kind): seq<nat> {
    if kind in s.folds then s.folds[kind] else []
  }

  function Log(logs: map<nat, seq<Action>>, reducer: nat): seq<Action> {
    if reducer in logs then logs[reducer] else []
  }

  /** The folds in `folders`, run in order. */
  function Fold(logs: map<nat, seq<Action>>, a: Action, folders: seq<nat>): map<nat, seq<Action>>
    decreases |folders|
  {
    if folders == [] then logs else
      Fold(logs[folders[0] := Log(logs, folders[0]) + [a]], a, folders[1..])
  }

  // ----- the commit -----------------------------------------------------------------------

  function Discard(g: Gate, a: Action): Gate {
    var missing := g.missing - {a};
    g.(missing := missing, ready := g.ready || missing == {})
  }

  /** One commit's walk over the popped bucket. */
  function Wake(gates: seq<Gate>, a: Action, bucket: seq<nat>): (r: seq<Gate>)
    ensures |r| == |gates|
    decreases |bucket|
  {
    if bucket == [] then gates
    else if bucket[0] >= |gates| then Wake(gates, a, bucket[1..])
    else Wake(gates[bucket[0] := Discard(gates[bucket[0]], a)], a, bucket[1..])
  }

  function Bucket(s: State, a: Action): seq<nat> {
    if a in s.waiters then s.waiters[a] else []
  }

  /** After the folds: the action is committed and its bucket popped, and `n` of its gates were told. */
  function Committed(s: State, a: Action, n: nat): State
    requires n <= |Bucket(s, a)|
  {
    s.(logs := Fold(s.logs, a, Folders(s, a.kind)), commits := s.commits + [Commit(a, Folders(s, a.kind))],
       waiters := s.waiters - {a}, gates := Wake(s.gates, a, Bucket(s, a)[..n]))
  }

  /** `dispatch_sync`. */
  function DispatchSync(s: State, a: Action): (State, Option<Problem>) {
    if a.kind !in s.folds then (s, Some(NothingFolds))
    else (Committed(s, a, |Bucket(s, a)|), None)
  }

  // ----- gates ----------------------------------------------------------------------------

  /** The first half of `gate`: the waiter is filed under everything it misses. */
  function Park(s: State, actions: set<Action>): State {
    var id := |s.gates|;
    s.(gates := s.gates + [Gate(actions, actions, false, Probing, |s.commits|)],
       waiters := s.waiters + Filing(s.waiters, actions, id))
  }

  /** The buckets of `actions` with one more waiter each. */
  function Filing(waiters: map<Action, seq<nat>>, actions: set<Action>, id: nat): map<Action, seq<nat>> {
    map a | a in actions :: (if a in waiters then waiters[a] else []) + [id]
  }

  function Without(bucket: seq<nat>, id: nat): (r: seq<nat>)
    ensures forall i :: i in r <==> i in bucket && i != id
  {
    if bucket == [] then [] else (if bucket[0] == id then [] else [bucket[0]]) + Without(bucket[1..], id)
  }

  /** The waiter leaves the buckets of `actions`; a bucket left empty goes too. */
  function Unfiled(waiters: map<Action, seq<nat>>, id: nat, actions: set<Action>): map<Action, seq<nat>> {
    map a | a in waiters && !(a in actions && Without(waiters[a], id) == []) ::
      if a in actions then Without(waiters[a], id) else waiters[a]
  }

  function Unpark(s: State, id: nat): State
    requires id < |s.gates|
  {
    s.(waiters := Unfiled(s.waiters, id, s.gates[id].missing), gates := s.gates[id := s.gates[id].(phase := Gone)])
  }

  /** The second half of `gate`: the probe's answer, read while the waiter is already parked. */
  function Probed(s: State, id: nat, holds: bool): (State, Option<Problem>)
    requires id < |s.gates|
  {
    if s.gates[id].named == {} then
      (Unpark(s, id), if holds then None else Some(FalseGateNamesNothing))
    else if holds then (Unpark(s, id), None)
    else (s.(gates := s.gates[id := s.gates[id].(phase := Parked)]), None)
  }

  /** What can happen next: while a gate probes, commits may come in. */
  datatype Event =
    | Composes(reducer: nat, kinds: seq<Kind>)
    | Dispatches(action: Action)
    | Opens(actions: set<Action>)
    | Answers(id: nat, holds: bool)
    | Leaves(id: nat)

  /** A parked gate is left when it is released or when its task is cancelled. */
  predicate Legal(s: State, ev: Event) {
    match ev
    case Answers(id, _) => id < |s.gates| && s.gates[id].phase.Probing?
    case Leaves(id) => id < |s.gates| && s.gates[id].phase.Parked?
    case _ => true
  }

  function Next(s: State, ev: Event): State
    requires Legal(s, ev)
  {
    match ev
    case Composes(reducer, kinds) => Compose(s, reducer, kinds)
    case Dispatches(a) => DispatchSync(s, a).0
    case Opens(actions) => Park(s, actions)
    case Answers(id, holds) => Probed(s, id, holds).0
    case Leaves(id) => Unpark(s, id)
  }

  function Empty(): State {
    State(map[], map[], map[], [], [])
  }

  // ----- what every event keeps -----------------------------------------------------------

  /** `a` was committed at or after place `from`. */
  ghost predicate CommittedSince(commits: seq<Commit>, a: Action, from: nat) {
    exists i: nat :: from <= i < |commits| && commits[i].action == a
  }

  ghost predicate Live(s: State, id: nat) {
    id < |s.gates| && !s.gates[id].phase.Gone?
  }

  ghost predicate Filed(s: State, a: Action, id: nat) {
    a in s.waiters && id in s.waiters[a]
  }

  ghost predicate Once(bucket: seq<nat>) {
    forall i, j :: 0 <= i < j < |bucket| ==> bucket[i] != bucket[j]
  }

  /** The index both ways: a gate is filed under exactly the actions it misses, no bucket is empty. */
  ghost predicate Indexed(s: State) {
    && (forall a, id: nat :: Filed(s, a, id) <==> Live(s, id) && a in s.gates[id].missing)
    && (forall a :: a in s.waiters ==> s.waiters[a] != [] && Once(s.waiters[a]))
  }

  /** A gate misses what it named that was not committed since it parked, and is released when that is nothing. */
  ghost predicate Counted(commits: seq<Commit>, g: Gate) {
    && g.since <= |commits|
    && (forall a :: a in g.missing <==> a in g.named && !CommittedSince(commits, a, g.since))
    && (g.named != {} ==> (g.ready <==> g.missing == {}))
    && (g.named == {} ==> !g.ready)
  }

  ghost predicate Exact(s: State) {
    forall id: nat :: Live(s, id) ==> Counted(s.commits, s.gates[id])
  }

  /** What a reducer has folded: each commit once for every time it was composed for that kind. */
  function Copies(folders: seq<nat>, reducer: nat, a: Action): seq<Action> {
    if folders == [] then [] else (if folders[0] == reducer then [a] else []) + Copies(folders[1..], reducer, a)
  }

  function Applied(commits: seq<Commit>, reducer: nat): seq<Action>
    decreases |commits|
  {
    if commits == [] then [] else
      var c := commits[|commits| - 1];
      Applied(commits[..|commits| - 1], reducer) + Copies(c.folders, reducer, c.action)
  }

  ghost predicate Folded(s: State) {
    forall r: nat :: Log(s.logs, r) == Applied(s.commits, r)
  }

  ghost predicate Inv(s: State) {
    Indexed(s) && Exact(s) && Folded(s)
  }

  lemma {:induction false} FoldIs(logs: map<nat, seq<Action>>, a: Action, folders: seq<nat>, r: nat)
    ensures Log(Fold(logs, a, folders), r) == Log(logs, r) + Copies(folders, r, a)
    decreases |folders|
  {
    if folders != [] {
      var next := logs[folders[0] := Log(logs, folders[0]) + [a]];
      var rest := Copies(folders[1..], r, a);
      FoldIs(next, a, folders[1..], r);
      if folders[0] == r {
        assert Log(logs, r) + [a] + rest == Log(logs, r) + ([a] + rest);
      } else {
        assert [] + rest == rest;
      }
    }
  }

  lemma {:induction false} CopiesCount(folders: seq<nat>, r: nat, a: Action)
    ensures Copies(folders, r, a) == seq(multiset(folders)[r], i => a)
  {
    if folders != [] {
      assert folders == [folders[0]] + folders[1..];
      CopiesCount(folders[1..], r, a);
      var n := multiset(folders[1..])[r];
      if folders[0] == r {
        assert multiset(folders)[r] == n + 1;
        assert [a] + seq(n, i => a) == seq(n + 1, i => a);
      } else {
        assert multiset(folders)[r] == n;
        assert [] + seq(n, i => a) == seq(n, i => a);
      }
    } else {
      assert multiset(folders)[r] == 0;
    }
  }

  // ----- reducers with a state of their own -----------------------------------------------

  /** One action folded by reducers that each hold something: whatever a fold writes, it reads only its own. */
  function Apply<X>(held: map<nat, X>, fold: (nat, Action, X) -> X, a: Action, folders: seq<nat>): (r: map<nat, X>)
    requires forall i :: i in folders ==> i in held
    ensures r.Keys == held.Keys
    decreases |folders|
  {
    if folders == [] then held else
      var i := folders[0];
      Apply(held[i := fold(i, a, held[i])], fold, a, folders[1..])
  }

  /** What a reducer comes to hold by folding these actions, from `x` on. */
  function Replay<X>(x: X, fold: (nat, Action, X) -> X, reducer: nat, actions: seq<Action>): X
    decreases |actions|
  {
    if actions == [] then x else Replay(fold(reducer, actions[0], x), fold, reducer, actions[1..])
  }

  /** What a reducer holds is its own function of what it has folded: no neighbour's state enters. */
  lemma {:induction false} HeldIsReplayed<X>(
      held: map<nat, X>, fold: (nat, Action, X) -> X, a: Action, folders: seq<nat>, r: nat)
    requires r in held && forall i :: i in folders ==> i in held
    ensures Apply(held, fold, a, folders)[r] == Replay(held[r], fold, r, Copies(folders, r, a))
    decreases |folders|
  {
    if folders != [] {
      var i := folders[0];
      HeldIsReplayed(held[i := fold(i, a, held[i])], fold, a, folders[1..], r);
      var rest := Copies(folders[1..], r, a);
      if i == r {
        assert Copies(folders, r, a) == [a] + rest && ([a] + rest)[1..] == rest;
      } else {
        assert Copies(folders, r, a) == [] + rest == rest;
      }
    }
  }

  /** So the folds of one action may run in any order, whatever each of them does to its own state. */
  lemma FoldOrderIsIrrelevant<X>(
      held: map<nat, X>, fold: (nat, Action, X) -> X, a: Action, folders: seq<nat>, reordered: seq<nat>)
    requires multiset(folders) == multiset(reordered) && forall i :: i in folders ==> i in held
    ensures forall i :: i in reordered ==> i in held
    ensures Apply(held, fold, a, folders) == Apply(held, fold, a, reordered)
  {
    forall i | i in reordered
      ensures i in held
    {
      assert i in multiset(reordered);
    }
    forall r | r in held
      ensures Apply(held, fold, a, folders)[r] == Apply(held, fold, a, reordered)[r]
    {
      HeldIsReplayed(held, fold, a, folders, r);
      HeldIsReplayed(held, fold, a, reordered, r);
      CopiesCount(folders, r, a);
      CopiesCount(reordered, r, a);
    }
  }

  /** Telling a bucket touches exactly its gates, each once. */
  lemma {:induction false} WakeIs(gates: seq<Gate>, a: Action, bucket: seq<nat>, id: nat)
    requires Once(bucket) && id < |gates|
    ensures Wake(gates, a, bucket)[id] == if id in bucket then Discard(gates[id], a) else gates[id]
    decreases |bucket|
  {
    if bucket != [] {
      assert Once(bucket[1..]);
      assert bucket == [bucket[0]] + bucket[1..];
      var b := bucket[0];
      assert b !in bucket[1..];
      WakeIs(if b < |gates| then gates[b := Discard(gates[b], a)] else gates, a, bucket[1..], id);
    }
  }

  lemma OneMoreCommit(commits: seq<Commit>, c: Commit, a: Action, from: nat)
    ensures CommittedSince(commits + [c], a, from)
      <==> CommittedSince(commits, a, from) || (c.action == a && from <= |commits|)
  {
    var more := commits + [c];
    if i: nat :| from <= i < |commits| && commits[i].action == a { assert more[i].action == a; }
    if c.action == a && from <= |commits| { assert more[|commits|].action == a; }
  }

  /** A commit takes its action off what a gate misses, and nothing else. */
  lemma CountedOn(commits: seq<Commit>, c: Commit, g: Gate)
    requires Counted(commits, g)
    ensures c.action in g.missing ==> Counted(commits + [c], Discard(g, c.action))
    ensures c.action !in g.missing ==> Counted(commits + [c], g)
  {
    hide CommittedSince;
    forall a
      ensures CommittedSince(commits + [c], a, g.since) <==> CommittedSince(commits, a, g.since) || c.action == a
    {
      OneMoreCommit(commits, c, a, g.since);
    }
  }

  lemma CommitFolds(s: State, a: Action, n: nat)
    requires Folded(s) && n <= |Bucket(s, a)|
    ensures Folded(Committed(s, a, n))
  {
    var r := Committed(s, a, n);
    forall id: nat
      ensures Log(r.logs, id) == Applied(r.commits, id)
    {
      FoldIs(s.logs, a, Folders(s, a.kind), id);
      assert r.commits[..|s.commits|] == s.commits;
    }
  }

  lemma OnceTake(bucket: seq<nat>, n: nat)
    requires Once(bucket) && n <= |bucket|
    ensures Once(bucket[..n])
  {}

  /**
   Whoever a commit wakes sees all of it: at every moment of the walk every reducer has folded every
   commit including this one, and a gate that is released has had everything it named committed.
   */
  lemma WokenSeeEveryFold(s: State, a: Action, n: nat, id: nat)
    requires Inv(s) && n <= |Bucket(s, a)| && Live(s, id)
    ensures var r := Committed(s, a, n);
      && Folded(r)
      && (r.gates[id].ready ==> forall x :: x in r.gates[id].named ==> CommittedSince(r.commits, x, r.gates[id].since))
  {
    CommitFolds(s, a, n);
    hide Folded, CommittedSince, Wake;
    var r := Committed(s, a, n);
    var g := s.gates[id];
    if Bucket(s, a) != [] { OnceTake(Bucket(s, a), n); }
    WakeIs(s.gates, a, Bucket(s, a)[..n], id);
    CountedOn(s.commits, Commit(a, Folders(s, a.kind)), g);
    forall x
      ensures CommittedSince(r.commits, x, g.since) <==> CommittedSince(s.commits, x, g.since) || a == x
    {
      OneMoreCommit(s.commits, Commit(a, Folders(s, a.kind)), x, g.since);
    }
  }

  lemma DispatchGate(s: State, a: Action, id: nat)
    requires Inv(s) && id < |s.gates|
    ensures var r := Committed(s, a, |Bucket(s, a)|);
      r.gates[id] == if Live(s, id) && a in s.gates[id].missing then Discard(s.gates[id], a) else s.gates[id]
  {
    hide Folded, Exact, Wake;
    var b := Bucket(s, a);
    assert b[..|b|] == b;
    WakeIs(s.gates, a, b, id);
    assert Filed(s, a, id) <==> id in b;
  }

  lemma DispatchKeepsInv(s: State, a: Action)
    requires Inv(s) && a.kind in s.folds
    ensures Inv(Committed(s, a, |Bucket(s, a)|))
  {
    var r := Committed(s, a, |Bucket(s, a)|);
    CommitFolds(s, a, |Bucket(s, a)|);
    hide Folded, Wake, Counted;
    forall id: nat | id < |s.gates|
      ensures r.gates[id] == if Live(s, id) && a in s.gates[id].missing then Discard(s.gates[id], a) else s.gates[id]
    {
      DispatchGate(s, a, id);
    }
    forall id: nat | Live(r, id)
      ensures Counted(r.commits, r.gates[id])
    {
      assert Live(s, id);
      CountedOn(s.commits, Commit(a, Folders(s, a.kind)), s.gates[id]);
    }
    forall x, id: nat
      ensures Filed(r, x, id) <==> Live(r, id) && x in r.gates[id].missing
    {
      assert Filed(r, x, id) <==> Filed(s, x, id) && x != a;
      assert Live(r, id) <==> Live(s, id);
    }
  }

  lemma ParkKeepsInv(s: State, actions: set<Action>)
    requires Inv(s)
    ensures Inv(Park(s, actions))
  {
    hide Folded;
    var r := Park(s, actions);
    var latest := |s.gates|;
    assert Folded(r) by { SameFolds(s, r); }
    forall x, id: nat
      ensures Filed(r, x, id) <==> Live(r, id) && x in r.gates[id].missing
    {
      assert Filed(s, x, id) <==> Live(s, id) && x in s.gates[id].missing;
      assert Filed(r, x, id) <==> Filed(s, x, id) || (id == latest && x in actions);
      assert id < latest ==> Live(r, id) == Live(s, id);
    }
    forall a | a in r.waiters
      ensures r.waiters[a] != [] && Once(r.waiters[a])
    {
      assert !Filed(s, a, latest);
    }
    forall id: nat | Live(r, id)
      ensures Counted(r.commits, r.gates[id])
    {
      assert id < latest ==> Live(s, id);
    }
  }

  lemma SameFolds(s: State, r: State)
    requires Folded(s) && r.logs == s.logs && r.commits == s.commits
    ensures Folded(r)
  {
    assert forall i: nat :: Log(r.logs, i) == Log(s.logs, i);
  }

  lemma {:induction false} WithoutOnce(bucket: seq<nat>, id: nat)
    requires Once(bucket)
    ensures Once(Without(bucket, id))
  {
    if bucket != [] {
      assert bucket == [bucket[0]] + bucket[1..];
      assert bucket[0] !in bucket[1..];
      WithoutOnce(bucket[1..], id);
    }
  }

  /** A gate that is gone leaves no reference behind, nor an empty bucket, and no other gate notices. */
  lemma UnparkKeepsInv(s: State, id: nat)
    requires Inv(s) && Live(s, id)
    ensures var r := Unpark(s, id);
      && Inv(r)
      && (forall a :: a in r.waiters ==> id !in r.waiters[a] && r.waiters[a] != [])
      && (forall other: nat :: other != id && other < |s.gates| ==> r.gates[other] == s.gates[other])
      && (forall a, other: nat :: other != id ==> (Filed(r, a, other) <==> Filed(s, a, other)))
  {
    hide Folded, Without, Counted;
    var r := Unpark(s, id);
    assert Folded(r) by { SameFolds(s, r); }
    forall x, other: nat
      ensures Filed(r, x, other) <==> Filed(s, x, other) && other != id
    {
      assert Filed(s, x, id) <==> x in s.gates[id].missing;
    }
    forall other: nat
      ensures Live(r, other) <==> Live(s, other) && other != id
    {}
    forall a | a in r.waiters
      ensures r.waiters[a] != [] && Once(r.waiters[a]) && id !in r.waiters[a]
    {
      WithoutOnce(s.waiters[a], id);
      assert !Filed(r, a, id);
    }
  }

  lemma {:induction false} ComposeOnlyWires(s: State, reducer: nat, kinds: seq<Kind>)
    ensures Compose(s, reducer, kinds) == s.(folds := Compose(s, reducer, kinds).folds)
    decreases |kinds|
  {
    if kinds != [] {
      ComposeOnlyWires(s.(folds := s.folds[kinds[0] := Folders(s, kinds[0]) + [reducer]]), reducer, kinds[1..]);
    }
  }

  lemma ParkedKeepsInv(s: State, id: nat)
    requires Inv(s) && Live(s, id)
    ensures Inv(s.(gates := s.gates[id := s.gates[id].(phase := Parked)]))
  {
    hide Folded;
    var r := s.(gates := s.gates[id := s.gates[id].(phase := Parked)]);
    assert Folded(r) by { SameFolds(s, r); }
    assert forall i: nat :: Live(r, i) == Live(s, i);
    assert forall a, i: nat :: Filed(r, a, i) == Filed(s, a, i);
  }

  lemma SameButWiring(s: State, r: State)
    requires Inv(s) && r == s.(folds := r.folds)
    ensures Inv(r)
  {
    hide Counted;
    SameFolds(s, r);
    assert forall i: nat :: Live(r, i) == Live(s, i);
    assert forall a, i: nat :: Filed(r, a, i) == Filed(s, a, i);
  }

  lemma NextKeepsInv(s: State, ev: Event)
    requires Inv(s) && Legal(s, ev)
    ensures Inv(Next(s, ev))
  {
    hide Inv;
    match ev
    case Composes(reducer, kinds) =>
      ComposeOnlyWires(s, reducer, kinds);
      SameButWiring(s, Next(s, ev));
    case Dispatches(a) =>
      if a.kind in s.folds { DispatchKeepsInv(s, a); }
    case Opens(actions) => ParkKeepsInv(s, actions);
    case Answers(id, holds) =>
      UnparkKeepsInv(s, id);
      ParkedKeepsInv(s, id);
    case Leaves(id) => UnparkKeepsInv(s, id);
  }

  lemma EmptyInv()
    ensures Inv(Empty())
  {}

  ghost predicate Possible(s: State, evs: seq<Event>)
    decreases |evs|
  {
    evs == [] || (Legal(s, evs[0]) && Possible(Next(s, evs[0]), evs[1..]))
  }

  ghost function Run(s: State, evs: seq<Event>): State
    requires Possible(s, evs)
    decreases |evs|
  {
    if evs == [] then s else Run(Next(s, evs[0]), evs[1..])
  }

  /**
   No wakeup is lost in any run: a gate still awaited is released exactly when everything it named
   has been committed since it parked, and it is filed under exactly the rest.
   */
  lemma {:induction false} EveryRunLosesNoWakeup(s: State, evs: seq<Event>)
    requires Inv(s) && Possible(s, evs)
    ensures var r := Run(s, evs);
      && Inv(r)
      && (forall id: nat :: Live(r, id) && r.gates[id].named != {} ==>
            (r.gates[id].ready <==>
              forall a :: a in r.gates[id].named ==> CommittedSince(r.commits, a, r.gates[id].since)))
      && (forall a, id: nat :: Filed(r, a, id) <==>
            Live(r, id) && a in r.gates[id].named && !CommittedSince(r.commits, a, r.gates[id].since))
    decreases |evs|
  {
    hide Folded, CommittedSince, Next;
    if evs != [] {
      NextKeepsInv(s, evs[0]);
      EveryRunLosesNoWakeup(Next(s, evs[0]), evs[1..]);
    }
  }

  // ----- the answers of one call ----------------------------------------------------------

  /** An action is refused, with nothing moved, exactly when no reducer was composed for its kind. */
  lemma RefusedIffNothingFolds(s: State, a: Action)
    ensures var (r, problem) := DispatchSync(s, a);
      && (problem.Some? <==> a.kind !in s.folds)
      && (problem.Some? ==> r == s)
      && (problem.None? ==> CommittedSince(r.commits, a, |s.commits|) && a !in r.waiters)
  {
    var (r, problem) := DispatchSync(s, a);
    if problem.None? { assert r.commits[|s.commits|].action == a; }
  }

  /** Some reducer was composed for `kind`. */
  ghost predicate ComposedFor(evs: seq<Event>, kind: Kind) {
    exists i: nat :: i < |evs| && evs[i].Composes? && kind in evs[i].kinds
  }

  lemma {:induction false} ComposeWires(s: State, reducer: nat, kinds: seq<Kind>, kind: Kind)
    ensures kind in Compose(s, reducer, kinds).folds <==> kind in s.folds || kind in kinds
    decreases |kinds|
  {
    if kinds != [] {
      assert kinds == [kinds[0]] + kinds[1..];
      ComposeWires(s.(folds := s.folds[kinds[0] := Folders(s, kinds[0]) + [reducer]]), reducer, kinds[1..], kind);
    }
  }

  /** What is folded is what was composed for, whatever else went on. */
  lemma {:induction false} RunWires(s: State, evs: seq<Event>, kind: Kind)
    requires Possible(s, evs)
    ensures kind in Run(s, evs).folds <==> kind in s.folds || ComposedFor(evs, kind)
    decreases |evs|
  {
    if evs != [] {
      hide Compose, DispatchSync, Park, Probed, Unpark, ComposedFor;
      RunWires(Next(s, evs[0]), evs[1..], kind);
      NextWires(s, evs[0], kind);
      ComposedFirst(evs, kind);
    } else {
      assert !ComposedFor(evs, kind);
    }
  }

  lemma NextWires(s: State, ev: Event, kind: Kind)
    requires Legal(s, ev)
    ensures kind in Next(s, ev).folds <==> kind in s.folds || (ev.Composes? && kind in ev.kinds)
  {
    hide Fold, Wake, Filing, Unfiled;
    if ev.Composes? { ComposeWires(s, ev.reducer, ev.kinds, kind); }
  }

  lemma ComposedFirst(evs: seq<Event>, kind: Kind)
    requires evs != []
    ensures ComposedFor(evs, kind) <==> (evs[0].Composes? && kind in evs[0].kinds) || ComposedFor(evs[1..], kind)
  {
    if ComposedFor(evs[1..], kind) {
      var i: nat :| i < |evs[1..]| && evs[1..][i].Composes? && kind in evs[1..][i].kinds;
      assert evs[i + 1] == evs[1..][i];
    }
    if ComposedFor(evs, kind) {
      var i: nat :| i < |evs| && evs[i].Composes? && kind in evs[i].kinds;
      assert i > 0 ==> evs[1..][i - 1] == evs[i];
    }
  }

  /**
   After any run of a new dispatcher an action is refused, with nothing moved, exactly when no reducer
   was ever composed for its kind; otherwise it is committed, and nobody is filed under it any more.
   */
  lemma RefusedIffNeverComposed(evs: seq<Event>, a: Action)
    requires Possible(Empty(), evs)
    ensures var s := Run(Empty(), evs);
      var (r, problem) := DispatchSync(s, a);
      && (problem.Some? <==> !ComposedFor(evs, a.kind))
      && (problem.Some? ==> r == s)
      && (problem.None? ==> CommittedSince(r.commits, a, |s.commits|) && a !in r.waiters)
  {
    RunWires(Empty(), evs, a.kind);
    hide Run, Possible, ComposedFor;
    RefusedIffNothingFolds(Run(Empty(), evs), a);
  }

  // ----- one call of `gate` ---------------------------------------------------------------

  function DispatchAll(s: State, actions: seq<Action>): State
    decreases |actions|
  {
    if actions == [] then s else DispatchAll(DispatchSync(s, actions[0]).0, actions[1..])
  }

  /** A call of `gate` on `actions`, with the commits that come in while its probe reads. */
  function GateCall(s: State, actions: set<Action>, during: seq<Action>, holds: bool): (State, Option<Problem>) {
    GatesStay(Park(s, actions), during);
    Probed(DispatchAll(Park(s, actions), during), |s.gates|, holds)
  }

  lemma {:induction false} GatesStay(s: State, actions: seq<Action>)
    ensures |DispatchAll(s, actions).gates| == |s.gates|
    decreases |actions|
  {
    if actions != [] { GatesStay(DispatchSync(s, actions[0]).0, actions[1..]); }
  }

  /** The buckets of `t` are those of `s`, with `id` last in each of `missing`. */
  ghost predicate FiledLast(s: State, t: State, id: nat, missing: set<Action>) {
    && (forall a :: a in t.waiters <==> a in s.waiters || a in missing)
    && (forall a :: Bucket(t, a) == Bucket(s, a) + if a in missing then [id] else [])
  }

  /** `t` is `s` with one more gate, the newest, filed last under everything it misses. */
  ghost predicate Joined(s: State, t: State) {
    && t.folds == s.folds && t.logs == s.logs && t.commits == s.commits
    && |t.gates| == |s.gates| + 1 && t.gates[..|s.gates|] == s.gates
    && FiledLast(s, t, |s.gates|, t.gates[|s.gates|].missing)
  }

  lemma ParkJoins(s: State, actions: set<Action>)
    ensures Joined(s, Park(s, actions))
  {}

  /** Walking the bucket of one gate more tells that gate too, and the others just the same. */
  lemma {:induction false} WakeOneMore(gates: seq<Gate>, g: Gate, a: Action, bucket: seq<nat>, last: seq<nat>)
    requires (forall i: nat :: i < |bucket| ==> bucket[i] < |gates|) && (last == [] || last == [|gates|])
    ensures Wake(gates + [g], a, bucket + last)
      == Wake(gates, a, bucket) + [if last == [] then g else Discard(g, a)]
    decreases |bucket|
  {
    if bucket == [] {
      assert bucket + last == last;
      if last != [] {
        assert (gates + [g])[|gates| := Discard(g, a)] == gates + [Discard(g, a)];
      }
    } else {
      var h := Discard(gates[bucket[0]], a);
      assert (bucket + last)[1..] == bucket[1..] + last;
      assert (gates + [g])[bucket[0] := h] == gates[bucket[0] := h] + [g];
      WakeOneMore(gates[bucket[0] := h], g, a, bucket[1..], last);
    }
  }

  lemma WakeJoins(s: State, t: State, a: Action)
    requires Inv(s) && Joined(s, t)
    ensures var g := t.gates[|s.gates|];
      Wake(t.gates, a, Bucket(t, a))
        == Wake(s.gates, a, Bucket(s, a)) + [if a in g.missing then Discard(g, a) else g]
  {
    hide Folded, Exact, Wake, Discard;
    var g := t.gates[|s.gates|];
    forall i: nat | i < |Bucket(s, a)|
      ensures Bucket(s, a)[i] < |s.gates|
    {
      assert Filed(s, a, Bucket(s, a)[i]);
    }
    assert t.gates == s.gates + [g];
    WakeOneMore(s.gates, g, a, Bucket(s, a), if a in g.missing then [|s.gates|] else []);
  }

  /** The buckets of both after one is popped. */
  lemma PopJoins(s: State, t: State, x: State, y: State, a: Action, id: nat, missing: set<Action>)
    requires FiledLast(s, t, id, missing) && x.waiters == s.waiters - {a} && y.waiters == t.waiters - {a}
    ensures FiledLast(x, y, id, missing - {a})
  {}

  lemma DispatchIs(s: State, a: Action)
    requires a.kind in s.folds
    ensures DispatchSync(s, a).0
      == s.(logs := Fold(s.logs, a, s.folds[a.kind]), commits := s.commits + [Commit(a, s.folds[a.kind])],
            waiters := s.waiters - {a}, gates := Wake(s.gates, a, Bucket(s, a)))
    ensures DispatchSync(s, a).1 == None
  {
    hide Wake, Fold;
    assert Bucket(s, a)[..|Bucket(s, a)|] == Bucket(s, a);
  }

  lemma DispatchJoins(s: State, t: State, a: Action)
    requires Inv(s) && Joined(s, t)
    ensures Joined(DispatchSync(s, a).0, DispatchSync(t, a).0)
  {
    if a.kind in s.folds {
      hide Inv, Wake, Fold, DispatchSync, Bucket;
      WakeJoins(s, t, a);
      DispatchIs(s, a);
      DispatchIs(t, a);
      var x, y := DispatchSync(s, a).0, DispatchSync(t, a).0;
      var g := t.gates[|s.gates|];
      PopJoins(s, t, x, y, a, |s.gates|, g.missing);
      hide Discard, FiledLast;
      var h := if a in g.missing then Discard(g, a) else g;
      assert y.gates == x.gates + [h] && h.missing == g.missing - {a} by { Discarded(g, a); }
    }
  }

  lemma Discarded(g: Gate, a: Action)
    ensures Discard(g, a).missing == g.missing - {a}
  {}

  lemma {:induction false} DispatchesJoin(s: State, t: State, actions: seq<Action>)
    requires Inv(s) && Joined(s, t)
    ensures Joined(DispatchAll(s, actions), DispatchAll(t, actions)) && Inv(DispatchAll(s, actions))
    decreases |actions|
  {
    hide Inv, Joined, DispatchSync;
    if actions != [] {
      NextKeepsInv(s, Dispatches(actions[0]));
      DispatchJoins(s, t, actions[0]);
      DispatchesJoin(DispatchSync(s, actions[0]).0, DispatchSync(t, actions[0]).0, actions[1..]);
    }
  }

  lemma {:induction false} WithoutLast(bucket: seq<nat>, id: nat)
    requires id !in bucket
    ensures Without(bucket, id) == bucket && Without(bucket + [id], id) == bucket
  {
    if bucket == [] {
      assert bucket + [id] == [id];
    } else {
      assert (bucket + [id])[1..] == bucket[1..] + [id];
      WithoutLast(bucket[1..], id);
    }
  }

  /** Taking the newest gate out again gives back the buckets there were. */
  lemma UnparkLeaves(s: State, t: State)
    requires Inv(s) && Joined(s, t)
    ensures Unpark(t, |s.gates|).waiters == s.waiters
  {
    hide Folded, Exact, Without;
    var id := |s.gates|;
    var r := Unpark(t, id).waiters;
    forall a | a in t.waiters
      ensures a in r <==> a in s.waiters
      ensures a in r ==> r[a] == s.waiters[a]
    {
      assert !Filed(s, a, id);
      assert t.waiters[a] == Bucket(t, a);
      WithoutLast(Bucket(s, a), id);
    }
  }

  lemma DispatchKeepsGate(s: State, a: Action, id: nat)
    requires Inv(s) && id < |s.gates|
    ensures var r := DispatchSync(s, a).0;
      && Inv(r) && |r.gates| == |s.gates| && r.gates[id].named == s.gates[id].named
      && r.gates[id].since == s.gates[id].since && r.gates[id].phase == s.gates[id].phase
  {
    NextKeepsInv(s, Dispatches(a));
    hide Inv, Wake, Fold;
    if a.kind in s.folds { DispatchGate(s, a, id); }
  }

  lemma {:induction false} DispatchesKeepGate(s: State, actions: seq<Action>, id: nat)
    requires Inv(s) && id < |s.gates|
    ensures var r := DispatchAll(s, actions);
      && Inv(r) && |r.gates| == |s.gates| && r.gates[id].named == s.gates[id].named
      && r.gates[id].since == s.gates[id].since && r.gates[id].phase == s.gates[id].phase
    decreases |actions|
  {
    hide Inv, DispatchSync;
    if actions != [] {
      DispatchKeepsGate(s, actions[0], id);
      DispatchesKeepGate(DispatchSync(s, actions[0]).0, actions[1..], id);
    }
  }

  /**
   A call of `gate` is an error exactly when it names nothing and does not hold. One that fails or
   holds at once leaves no trace, whatever was committed while its probe read: the buckets are those
   of a dispatcher never asked. One that waits is filed under exactly what was not committed since.
   And nobody else notices either.
   */
  lemma GateLeavesNoTrace(s: State, actions: set<Action>, during: seq<Action>, holds: bool)
    requires Inv(s)
    ensures var (r, problem) := GateCall(s, actions, during, holds);
      var unasked, id := DispatchAll(s, during), |s.gates|;
      && (problem.Some? <==> actions == {} && !holds)
      && r.folds == unasked.folds && r.logs == unasked.logs && r.commits == unasked.commits
      && |r.gates| == id + 1 && r.gates[..id] == unasked.gates
      && (holds || actions == {} ==> r.waiters == unasked.waiters && r.gates[id].phase.Gone?)
      && (!holds && actions != {} ==>
            && r.gates[id].phase.Parked?
            && (forall a :: Filed(r, a, id) <==> a in actions && !CommittedSince(r.commits, a, |s.commits|))
            && (r.gates[id].ready <==> forall a :: a in actions ==> CommittedSince(r.commits, a, |s.commits|)))
  {
    var unasked, t, id := DispatchAll(s, during), DispatchAll(Park(s, actions), during), |s.gates|;
    ParkJoins(s, actions);
    ParkKeepsInv(s, actions);
    GatesStay(s, during);
    DispatchesJoin(s, Park(s, actions), during);
    DispatchesKeepGate(Park(s, actions), during, id);
    hide DispatchAll, Folded, CommittedSince;
    UnparkLeaves(unasked, t);
    UnparkKeepsInv(t, id);
    ParkedKeepsInv(t, id);
  }
}
