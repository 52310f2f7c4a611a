/** What a dispatcher has committed, folded and released, told by what was asked of it. */
module DispatchEvents {
  import opened Basics
  import opened Dispatch

  // ----- the account ----------------------------------------------------------------------

  /** `reducer` once for each time `kind` is among `kinds`. */
  function OncePer(kinds: seq<Kind>, kind: Kind, reducer: nat): seq<nat> {
    if kinds == [] then [] else (if kinds[0] == kind then [reducer] else []) + OncePer(kinds[1..], kind, reducer)
  }

  /** The reducers composed for `kind`, in the order they were, as often as they were. */
  function Composed(evs: seq<Event>, kind: Kind): seq<nat> {
    if evs == [] then [] else
      var before, ev := evs[..|evs| - 1], evs[|evs| - 1];
      Composed(before, kind) + (if ev.Composes? then OncePer(ev.kinds, kind, ev.reducer) else [])
  }

  /** What was committed: whatever was dispatched once somebody was composed for its kind, with who folds it. */
  function Accepted(evs: seq<Event>): seq<Commit> {
    if evs == [] then [] else
      var before, ev := evs[..|evs| - 1], evs[|evs| - 1];
      Accepted(before) + (if ev.Dispatches? && Composed(before, ev.action.kind) != []
                          then [Commit(ev.action, Composed(before, ev.action.kind))] else [])
  }

  function Times(n: nat, a: Action): (r: seq<Action>)
    ensures |r| == n && forall i: nat :: i < n ==> r[i] == a
  {
    seq(n, _ => a)
  }

  /** What a reducer hears: each commit once for every time it had been composed for its kind by then. */
  function Heard(evs: seq<Event>, reducer: nat): seq<Action> {
    if evs == [] then [] else
      var before, ev := evs[..|evs| - 1], evs[|evs| - 1];
      Heard(before, reducer) + (if ev.Dispatches?
                                then Times(multiset(Composed(before, ev.action.kind))[reducer], ev.action) else [])
  }

  /** Each gate opened: on what, and after how many commits. */
  function Opened(evs: seq<Event>): seq<(set<Action>, nat)> {
    if evs == [] then [] else
      var before, ev := evs[..|evs| - 1], evs[|evs| - 1];
      Opened(before) + (if ev.Opens? then [(ev.actions, |Accepted(before)|)] else [])
  }

  /** How far each gate is: asking whether it holds until answered, then waiting or gone. */
  function Standing(evs: seq<Event>): seq<Phase> {
    if evs == [] then [] else
      var before, ev := evs[..|evs| - 1], evs[|evs| - 1];
      var phases := Standing(before);
      match ev
      case Opens(_) => phases + [Probing]
      case Answers(id, holds) =>
        if id < |phases| && id < |Opened(before)| then
          phases[id := if holds || Opened(before)[id].0 == {} then Gone else Parked] else phases
      case Leaves(id) => if id < |phases| then phases[id := Gone] else phases
      case _ => phases
  }

  /** The dispatcher is as the events say. */
  ghost predicate Told(evs: seq<Event>, s: State) {
    && s.commits == Accepted(evs)
    && (forall kind :: Folders(s, kind) == Composed(evs, kind))
    && (forall kind :: kind in s.folds <==> Composed(evs, kind) != [])
    && Gates(s.gates, Opened(evs), Standing(evs))
  }

  ghost predicate Gates(gates: seq<Gate>, terms: seq<(set<Action>, nat)>, standing: seq<Phase>) {
    && |gates| == |terms| == |standing|
    && forall id: nat :: id < |gates| ==>
         gates[id].named == terms[id].0 && gates[id].since == terms[id].1 && gates[id].phase == standing[id]
  }

  // ----- one event ------------------------------------------------------------------------

  lemma {:induction false} ComposeAdds(s: State, reducer: nat, kinds: seq<Kind>, kind: Kind)
    ensures Folders(Compose(s, reducer, kinds), kind) == Folders(s, kind) + OncePer(kinds, kind, reducer)
    decreases |kinds|
  {
    if kinds != [] {
      var k, more := kinds[0], OncePer(kinds[1..], kind, reducer);
      var n := s.(folds := s.folds[k := Folders(s, k) + [reducer]]);
      ComposeAdds(n, reducer, kinds[1..], kind);
      if k == kind {
        assert Folders(s, kind) + [reducer] + more == Folders(s, kind) + ([reducer] + more);
      } else {
        assert [] + more == more;
      }
    }
  }

  lemma {:induction false} OncePerSome(kinds: seq<Kind>, kind: Kind, reducer: nat)
    ensures OncePer(kinds, kind, reducer) != [] <==> kind in kinds
  {
    if kinds != [] {
      assert kinds == [kinds[0]] + kinds[1..];
      OncePerSome(kinds[1..], kind, reducer);
    }
  }

  lemma {:induction false} WakeKeepsTerms(gates: seq<Gate>, a: Action, bucket: seq<nat>, id: nat)
    requires id < |gates|
    ensures var g := Wake(gates, a, bucket)[id];
      g.named == gates[id].named && g.since == gates[id].since && g.phase == gates[id].phase
    decreases |bucket|
  {
    if bucket != [] {
      var b := bucket[0];
      WakeKeepsTerms(if b < |gates| then gates[b := Discard(gates[b], a)] else gates, a, bucket[1..], id);
    }
  }

  lemma Then(evs: seq<Event>, ev: Event)
    ensures (evs + [ev])[..|evs + [ev]| - 1] == evs && (evs + [ev])[|evs + [ev]| - 1] == ev
  {}

  lemma ComposesTells(evs: seq<Event>, s: State, reducer: nat, kinds: seq<Kind>)
    requires Told(evs, s)
    ensures Told(evs + [Composes(reducer, kinds)], Compose(s, reducer, kinds))
  {
    hide Compose, OncePer;
    var ev, r := Composes(reducer, kinds), Compose(s, reducer, kinds);
    Then(evs, ev);
    ComposeOnlyWires(s, reducer, kinds);
    forall kind
      ensures Folders(r, kind) == Composed(evs + [ev], kind)
      ensures kind in r.folds <==> Composed(evs + [ev], kind) != []
    {
      ComposeAdds(s, reducer, kinds, kind);
      ComposeWires(s, reducer, kinds, kind);
      OncePerSome(kinds, kind, reducer);
    }
  }

  lemma Unmoved(evs: seq<Event>, ev: Event, s: State, r: State)
    requires Told(evs, s) && !ev.Composes? && !ev.Dispatches? && r.folds == s.folds && r.commits == s.commits
    requires Gates(r.gates, Opened(evs + [ev]), Standing(evs + [ev]))
    ensures Told(evs + [ev], r)
  {
    hide Gates, Opened, Standing, Composed;
    Then(evs, ev);
    forall kind
      ensures Composed(evs + [ev], kind) == Composed(evs, kind) && Folders(r, kind) == Folders(s, kind)
    {
      NoneComposed(evs, ev, kind);
    }
    assert Accepted(evs + [ev]) == Accepted(evs);
  }

  /** A commit moves nobody's terms: only what gates miss and whether they are released. */
  lemma DispatchTerms(s: State, a: Action)
    ensures var r := DispatchSync(s, a).0;
      && r.folds == s.folds
      && r.commits == s.commits + (if a.kind in s.folds then [Commit(a, Folders(s, a.kind))] else [])
      && |r.gates| == |s.gates|
      && forall id: nat :: id < |r.gates| ==>
           && r.gates[id].named == s.gates[id].named && r.gates[id].since == s.gates[id].since
           && r.gates[id].phase == s.gates[id].phase
  {
    hide Wake, Fold, DispatchSync;
    RefusedIffNothingFolds(s, a);
    if a.kind in s.folds {
      DispatchIs(s, a);
      forall id: nat | id < |s.gates| { WakeKeepsTerms(s.gates, a, Bucket(s, a), id); }
    }
  }

  lemma DispatchesTells(evs: seq<Event>, s: State, a: Action)
    requires Told(evs, s)
    ensures Told(evs + [Dispatches(a)], DispatchSync(s, a).0)
  {
    hide DispatchSync, Standing, Opened, Composed;
    var ev, r := Dispatches(a), DispatchSync(s, a).0;
    Then(evs, ev);
    DispatchTerms(s, a);
    assert Opened(evs + [ev]) == Opened(evs) && Standing(evs + [ev]) == Standing(evs) by { NoGate(evs, a); }
    forall kind
      ensures Composed(evs + [ev], kind) == Composed(evs, kind) && Folders(r, kind) == Folders(s, kind)
    {
      NoneComposed(evs, ev, kind);
    }
  }

  lemma NoGate(evs: seq<Event>, a: Action)
    ensures Opened(evs + [Dispatches(a)]) == Opened(evs) && Standing(evs + [Dispatches(a)]) == Standing(evs)
  {
    Then(evs, Dispatches(a));
  }

  lemma NoneComposed(evs: seq<Event>, ev: Event, kind: Kind)
    requires !ev.Composes?
    ensures Composed(evs + [ev], kind) == Composed(evs, kind)
  {
    Then(evs, ev);
  }

  lemma OpensTells(evs: seq<Event>, s: State, actions: set<Action>)
    requires Told(evs, s)
    ensures Told(evs + [Opens(actions)], Park(s, actions))
  {
    Then(evs, Opens(actions));
    Unmoved(evs, Opens(actions), s, Park(s, actions));
  }

  lemma AnswersTells(evs: seq<Event>, s: State, id: nat, holds: bool)
    requires Told(evs, s) && id < |s.gates|
    ensures Told(evs + [Answers(id, holds)], Probed(s, id, holds).0)
  {
    hide Unfiled;
    Then(evs, Answers(id, holds));
    Unmoved(evs, Answers(id, holds), s, Probed(s, id, holds).0);
  }

  lemma LeavesTells(evs: seq<Event>, s: State, id: nat)
    requires Told(evs, s) && id < |s.gates|
    ensures Told(evs + [Leaves(id)], Unpark(s, id))
  {
    hide Unfiled;
    Then(evs, Leaves(id));
    Unmoved(evs, Leaves(id), s, Unpark(s, id));
  }

  lemma NextTells(evs: seq<Event>, s: State, ev: Event)
    requires Told(evs, s) && Legal(s, ev)
    ensures Told(evs + [ev], Next(s, ev))
  {
    hide Told, Compose, DispatchSync, Park, Probed, Unpark;
    match ev
    case Composes(reducer, kinds) => ComposesTells(evs, s, reducer, kinds);
    case Dispatches(a) => DispatchesTells(evs, s, a);
    case Opens(actions) => OpensTells(evs, s, actions);
    case Answers(id, holds) => AnswersTells(evs, s, id, holds);
    case Leaves(id) => LeavesTells(evs, s, id);
  }

  lemma {:induction false} RunTells(past: seq<Event>, s: State, evs: seq<Event>)
    requires Told(past, s) && Possible(s, evs)
    ensures Told(past + evs, Run(s, evs))
    decreases |evs|
  {
    hide Told, Next, Legal;
    if evs == [] {
      assert past + evs == past;
    } else {
      assert past + evs == past + [evs[0]] + evs[1..];
      NextTells(past, s, evs[0]);
      RunTells(past + [evs[0]], Next(s, evs[0]), evs[1..]);
    }
  }

  // ----- what runs promise ----------------------------------------------------------------

  lemma EmptyTold()
    ensures Told([], Empty())
  {}

  /**
   In every run of a new dispatcher what was committed is what was dispatched once somebody was
   composed for its kind, and it was folded by those composed for it by then, in the order they were
   composed and as often: nobody who was composed later displaces anyone.
   */
  lemma EveryCommitIsFolded(evs: seq<Event>)
    requires Possible(Empty(), evs)
    ensures Run(Empty(), evs).commits == Accepted(evs)
    ensures forall reducer: nat :: Log(Run(Empty(), evs).logs, reducer) == Heard(evs, reducer)
  {
    hide Run, Possible, Told, Inv;
    EmptyTold();
    EmptyInv();
    RunTells([], Empty(), evs);
    EveryRunLosesNoWakeup(Empty(), evs);
    assert [] + evs == evs;
    ToldIs(evs, Run(Empty(), evs));
    forall reducer: nat
      ensures Log(Run(Empty(), evs).logs, reducer) == Heard(evs, reducer)
    {
      FoldedOf(Run(Empty(), evs));
      AppliedIsHeard(evs, reducer);
    }
  }

  lemma ToldIs(evs: seq<Event>, s: State)
    requires Told(evs, s)
    ensures s.commits == Accepted(evs) && Gates(s.gates, Opened(evs), Standing(evs))
  {}

  lemma FoldedOf(s: State)
    requires Inv(s)
    ensures forall reducer: nat :: Log(s.logs, reducer) == Applied(s.commits, reducer)
  {}

  lemma {:induction false} AppliedIsHeard(evs: seq<Event>, reducer: nat)
    ensures Applied(Accepted(evs), reducer) == Heard(evs, reducer)
    decreases |evs|
  {
    if evs != [] {
      var before, ev := evs[..|evs| - 1], evs[|evs| - 1];
      AppliedIsHeard(before, reducer);
      if ev.Dispatches? {
        var folders := Composed(before, ev.action.kind);
        CopiesAre(folders, reducer, ev.action);
        AppliedOneMore(Accepted(before), Commit(ev.action, folders), reducer);
        assert Heard(evs, reducer) == Heard(before, reducer) + Copies(folders, reducer, ev.action);
        if folders == [] {
          assert Accepted(evs) == Accepted(before) && Heard(evs, reducer) == Heard(before, reducer);
        } else {
          assert Accepted(evs) == Accepted(before) + [Commit(ev.action, folders)];
        }
      } else {
        assert Accepted(evs) == Accepted(before) && Heard(evs, reducer) == Heard(before, reducer);
      }
    }
  }

  lemma CopiesAre(folders: seq<nat>, reducer: nat, a: Action)
    ensures Copies(folders, reducer, a) == Times(multiset(folders)[reducer], a)
    ensures folders == [] ==> Times(multiset(folders)[reducer], a) == []
  {
    CopiesCount(folders, reducer, a);
  }

  lemma AppliedOneMore(commits: seq<Commit>, c: Commit, reducer: nat)
    ensures Applied(commits + [c], reducer) == Applied(commits, reducer) + Copies(c.folders, reducer, c.action)
  {
    assert (commits + [c])[..|commits|] == commits;
  }

  /**
   In every run of a new dispatcher each gate opened and not gone is released exactly when all it was
   opened on has been committed since it was opened, and is filed under exactly the rest; which gates
   those are is what their callers were told, and no bucket holds any other.
   */
  lemma EveryGateIsReleased(evs: seq<Event>)
    requires Possible(Empty(), evs)
    ensures var s, gates, phases, commits := Run(Empty(), evs), Opened(evs), Standing(evs), Accepted(evs);
      && |s.gates| == |gates| == |phases|
      && (forall id: nat :: id < |phases| && phases[id] != Gone && gates[id].0 != {} ==>
            (s.gates[id].ready <==> forall a :: a in gates[id].0 ==> CommittedSince(commits, a, gates[id].1)))
      && (forall a, id: nat :: Filed(s, a, id) <==>
            && id < |phases| && phases[id] != Gone
            && a in gates[id].0 && !CommittedSince(commits, a, gates[id].1))
  {
    hide Run, Possible, Told, Inv, CommittedSince, Opened, Standing, Accepted;
    EmptyTold();
    EmptyInv();
    RunTells([], Empty(), evs);
    EveryRunLosesNoWakeup(Empty(), evs);
    assert [] + evs == evs;
    ToldIs(evs, Run(Empty(), evs));
  }
}
