/**
 What the equal-share channel amounts to: a reference machine with one virtual clock, under which
 a transfer's finish is fixed the moment it enters; equal service; and no overtaking.
 */
module FairSharing {
  import opened Basics
  import opened Progressive
  import opened ProgressiveRuns

  // ----- the reference machine ------------------------------------------------------------

  /**
   Processor sharing by virtual time: `service` is what every tenant has been given since the
   start, and a tenant leaves when it reaches the tag it was stamped with at entry. Nothing is
   ever re-rated.
   */
  datatype Fair = Fair(asOf: real, service: real, tags: map<nat, real>)

  datatype Label = Entered(at: real, id: nat, nbytes: real) | Left(at: real, id: nat)

  function Serve(g: Fair, capacity: real, now: real): Fair {
    g.(asOf := now, service := g.service + Flowed(g.asOf, now, Portion(capacity, |g.tags|)))
  }

  /** A tenant may leave only with exactly its bytes served, and only ahead of every other tag. */
  ghost predicate Accepts(g: Fair, capacity: real, l: Label) {
    match l
    case Entered(at, i, nbytes) => g.asOf <= at && i !in g.tags && nbytes >= 0.0
    case Left(at, i) =>
      && g.asOf <= at && i in g.tags
      && Serve(g, capacity, at).service == g.tags[i]
      && forall j :: j in g.tags ==> g.tags[i] <= g.tags[j]
  }

  function FairStep(g: Fair, capacity: real, l: Label): Fair {
    var s := Serve(g, capacity, l.at);
    match l
    case Entered(_, i, nbytes) => s.(tags := s.tags[i := s.service + nbytes])
    case Left(_, i) => s.(tags := s.tags - {i})
  }

  ghost predicate AcceptsAll(g: Fair, capacity: real, ls: seq<Label>)
    decreases |ls|
  {
    ls == [] || (Accepts(g, capacity, ls[0]) && AcceptsAll(FairStep(g, capacity, ls[0]), capacity, ls[1..]))
  }

  function FairRun(g: Fair, capacity: real, ls: seq<Label>): Fair
    decreases |ls|
  {
    if ls == [] then g else FairRun(FairStep(g, capacity, ls[0]), capacity, ls[1..])
  }

  // ----- what a run of the channel shows --------------------------------------------------

  /** The entries and departures a firing makes visible; a registration shows nothing yet. */
  ghost function Shown(w: World, e: Event): seq<Label>
    requires Enabled(w, e) && Inv(w)
  {
    if e.Asks? then [] else
      var t := w.s.timers[Soonest(w.s.timers)];
      if t.callback.Complete? then [Left(t.when, t.callback.id)]
      else if t.callback.id in w.asked then [Entered(t.when, t.callback.id, w.asked[t.callback.id].nbytes)]
      else []
  }

  ghost function Trace(w: World, es: seq<Event>): seq<Label>
    requires Inv(w) && Legal(w, es)
    decreases |es|
  {
    if es == [] then [] else
      StepKeepsInv(w, es[0]);
      Shown(w, es[0]) + Trace(Step(w, es[0]), es[1..])
  }

  /** The channel's remaining bytes are what separates each tag from the service given. */
  ghost predicate Tracks(s: State, g: Fair) {
    && g.asOf == s.lastUpdate && g.tags.Keys == s.active.Keys
    && forall i :: i in s.active ==> s.active[i].remaining == g.tags[i] - g.service
  }

  lemma ServeMoves(s: State, g: Fair)
    requires ChannelInv(s) && s.timers != map[] && Tracks(s, g)
    ensures var p := Popped(s);
      var f := Serve(g, s.capacity, p.clock);
      f.asOf == p.clock && f.tags == g.tags && f.service == g.service + Moved(p)
  {
    hide Portion, Linked, Clocked, Flowed;
    assert |g.tags| == |g.tags.Keys| && |s.active| == |s.active.Keys|;
  }

  lemma EnterIsFair(w: World, g: Fair)
    requires Inv(w) && Tracks(w.s, g) && w.s.timers != map[]
    requires w.s.timers[Soonest(w.s.timers)].callback.Enter?
    ensures var ls := Shown(w, Fires);
      |ls| == 1 && Accepts(g, w.s.capacity, ls[0]) && Tracks(Fire(w).s, FairStep(g, w.s.capacity, ls[0]))
  {
    hide Join, Moved, Share, Linked, NoneFasterThanSolo, Serve, Due;
    var h := Soonest(w.s.timers);
    var i := w.s.timers[h].callback.id;
    assert h in Enters(w.s) && Enters(w.s)[h] == w.s.timers[h];
    assert i in w.warming && i in w.asked && i !in w.s.active;
    PoppedRate(w.s);
    JoinKeeps(w.s, i, w.asked[i].nbytes);
    ServeMoves(w.s, g);
  }

  lemma CompleteIsFair(w: World, g: Fair)
    requires Inv(w) && Tracks(w.s, g) && w.s.timers != map[]
    requires w.s.timers[Soonest(w.s.timers)].callback.Complete?
    ensures var ls := Shown(w, Fires);
      |ls| == 1 && Accepts(g, w.s.capacity, ls[0]) && Tracks(Fire(w).s, FairStep(g, w.s.capacity, ls[0]))
  {
    hide Leave, Moved, Share, Linked, NoneFasterThanSolo, Serve, Due;
    var i := w.s.timers[Soonest(w.s.timers)].callback.id;
    PoppedRate(w.s);
    LeaveKeeps(w.s);
    ServeMoves(w.s, g);
    forall j | j in g.tags ensures g.tags[i] <= g.tags[j] {
      ClampNeverDiscards(w.s, j);
    }
  }

  lemma AcceptsAllAppend(g: Fair, capacity: real, a: seq<Label>, b: seq<Label>)
    requires |a| <= 1
    ensures AcceptsAll(g, capacity, a + b)
      <==> AcceptsAll(g, capacity, a) && AcceptsAll(FairRun(g, capacity, a), capacity, b)
    ensures FairRun(g, capacity, a + b) == FairRun(FairRun(g, capacity, a), capacity, b)
  {
    if a == [] {
      assert a + b == b;
    } else {
      assert (a + b)[0] == a[0] && (a + b)[1..] == b && a[1..] == [];
    }
  }

  lemma {:induction false} RunStaysFair(w: World, g: Fair, es: seq<Event>)
    requires Inv(w) && Tracks(w.s, g) && Legal(w, es)
    ensures AcceptsAll(g, w.s.capacity, Trace(w, es))
    ensures Tracks(Run(w, es).s, FairRun(g, w.s.capacity, Trace(w, es)))
    decreases |es|
  {
    hide Inv, Fire, Tracks, FairStep, Accepts;
    if es != [] {
      StepKeepsInv(w, es[0]);
      var ls := Shown(w, es[0]);
      var v := Step(w, es[0]);
      assert v.s.capacity == w.s.capacity && |ls| <= 1 && AcceptsAll(g, w.s.capacity, ls)
             && Tracks(v.s, FairRun(g, w.s.capacity, ls)) by {
        OneStepIsFair(w, g, es[0]);
      }
      RunStaysFair(v, FairRun(g, w.s.capacity, ls), es[1..]);
      AcceptsAllAppend(g, w.s.capacity, ls, Trace(v, es[1..]));
    }
  }

  /**
   Every run of a new channel is one the reference machine accepts from rest: each transfer leaves
   exactly when it has been served its own bytes, and the bytes left are always tag minus service.
   */
  lemma EveryRunIsFair(capacity: real, now: real, es: seq<Event>)
    requires capacity > 0.0 && Legal(Fresh(capacity, now), es)
    ensures var w, g := Fresh(capacity, now), Fair(now, 0.0, map[]);
      && Inv(w) && AcceptsAll(g, capacity, Trace(w, es))
      && Tracks(Run(w, es).s, FairRun(g, capacity, Trace(w, es)))
  {
    FreshInv(capacity, now);
    FreshTracks(capacity, now);
    hide *;
    RunStaysFair(Fresh(capacity, now), Fair(now, 0.0, map[]), es);
  }

  lemma FreshTracks(capacity: real, now: real)
    requires capacity > 0.0
    ensures Fresh(capacity, now).s.capacity == capacity && Tracks(Fresh(capacity, now).s, Fair(now, 0.0, map[]))
  {}

  lemma OneStepIsFair(w: World, g: Fair, e: Event)
    requires Inv(w) && Tracks(w.s, g) && Enabled(w, e)
    ensures var ls := Shown(w, e);
      && |ls| <= 1 && AcceptsAll(g, w.s.capacity, ls)
      && Tracks(Step(w, e).s, FairRun(g, w.s.capacity, ls)) && Step(w, e).s.capacity == w.s.capacity
  {
    hide Inv, Fire, Tracks, FairStep, Accepts;
    assert Step(w, e).s.capacity == w.s.capacity by { CapacityStays(w, e); }
    if e.Asks? {
      AskTracks(w, g, e);
    } else if w.s.timers[Soonest(w.s.timers)].callback.Enter? {
      EnterIsFair(w, g);
    } else {
      CompleteIsFair(w, g);
    }
  }

  lemma AskTracks(w: World, g: Fair, e: Event)
    requires Tracks(w.s, g) && e.Asks? && Enabled(w, e)
    ensures Tracks(Step(w, e).s, g)
  {}

  lemma CapacityStays(w: World, e: Event)
    requires Inv(w) && Enabled(w, e)
    ensures Step(w, e).s.capacity == w.s.capacity
  {
    hide Join, Leave, Share, Linked, NoneFasterThanSolo, Due;
    if e.Fires? {
      if w.s.timers[Soonest(w.s.timers)].callback.Enter? {
        var i := w.s.timers[Soonest(w.s.timers)].callback.id;
        assert Soonest(w.s.timers) in Enters(w.s);
        JoinKeeps(w.s, i, w.asked[i].nbytes);
      } else {
        LeaveKeeps(w.s);
      }
    }
  }

  // ----- fairness between two transfers ---------------------------------------------------

  /** Bytes moved and departures at one firing, whichever callback it is. */
  lemma FireMoves(w: World)
    requires Inv(w) && w.s.timers != map[]
    ensures var r := Fire(w);
      && r.s.clock == w.s.timers[Soonest(w.s.timers)].when >= w.s.clock
      && (forall j :: j in r.s.active && j in w.s.active ==>
            r.s.active[j].remaining == w.s.active[j].remaining - Moved(Popped(w.s)))
      && (forall j :: j in w.s.active && j !in r.s.active ==>
            w.s.active[j].remaining == Moved(Popped(w.s)) && j in r.done && r.done[j] == r.s.clock)
      && (forall j :: j in w.done ==> j in r.done && r.done[j] == w.done[j])
      && (forall j :: j in r.done && j !in w.done ==> j in w.s.active && j !in r.s.active)
      && (forall j :: j in w.s.active ==> Moved(Popped(w.s)) <= w.s.active[j].remaining)
  {
    hide Join, Leave, Moved, Share, Linked, NoneFasterThanSolo, Due;
    forall j | j in w.s.active ensures Moved(Popped(w.s)) <= w.s.active[j].remaining {
      ClampNeverDiscards(w.s, j);
    }
    PoppedRate(w.s);
    if w.s.timers[Soonest(w.s.timers)].callback.Enter? {
      var i := w.s.timers[Soonest(w.s.timers)].callback.id;
      assert Soonest(w.s.timers) in Enters(w.s);
      JoinKeeps(w.s, i, w.asked[i].nbytes);
    } else {
      LeaveKeeps(w.s);
    }
  }

  /** Two transfers active at both ends of a run were active throughout and moved equal bytes. */
  lemma {:induction false} EqualService(w: World, es: seq<Event>, a: nat, b: nat)
    requires Inv(w) && Legal(w, es)
    requires a in w.s.active && b in w.s.active
    requires a in Run(w, es).s.active && b in Run(w, es).s.active
    ensures var r := Run(w, es);
      w.s.active[a].remaining - r.s.active[a].remaining == w.s.active[b].remaining - r.s.active[b].remaining
    decreases |es|
  {
    hide Inv, Fire, Enabled;
    if es != [] {
      var v := Step(w, es[0]);
      StepKeepsInv(w, es[0]);
      if es[0].Fires? { EnabledFire(w); FireMoves(w); }
      if a !in v.s.active { DoneStays(v, es[1..], a); }
      if b !in v.s.active { DoneStays(v, es[1..], b); }
      EqualService(v, es[1..], a, b);
    }
  }

  lemma EnabledFire(w: World)
    requires Enabled(w, Fires)
    ensures w.s.timers != map[]
  {}

  lemma DonePhase(w: World, i: nat)
    requires Inv(w) && i in w.done
    ensures i !in w.s.active && i !in w.warming
  {}

  /** A completed transfer stays completed, at the instant it did. */
  lemma {:induction false} DoneStays(w: World, es: seq<Event>, i: nat)
    requires Inv(w) && Legal(w, es) && i in w.done
    ensures var r := Run(w, es);
      i in r.done && r.done[i] == w.done[i] && i !in r.s.active && Inv(r)
    decreases |es|
  {
    hide Inv, Fire, Enabled;
    if es == [] {
      DonePhase(w, i);
    } else {
      StepKeepsInv(w, es[0]);
      if es[0].Fires? { EnabledFire(w); FireMoves(w); }
      DoneStays(Step(w, es[0]), es[1..], i);
    }
  }

  /**
   `a` is not behind `b`: it has no more left, or it finished no later; and if `b` finished
   first at this very instant then `a` has nothing left and is due now.
   */
  ghost predicate NotBehind(w: World, a: nat, b: nat) {
    || (a in w.s.active && b in w.s.active && w.s.active[a].remaining <= w.s.active[b].remaining)
    || (a in w.done && b in w.s.active)
    || (a in w.done && b in w.done && w.done[a] <= w.done[b])
    || (a in w.s.active && w.s.active[a].remaining == 0.0 && b in w.done && w.done[b] == w.s.clock == w.s.lastUpdate)
  }

  lemma OutOfBytesIsDue(w: World, a: nat)
    requires Inv(w) && a in w.s.active && w.s.active[a].remaining == 0.0
    ensures w.s.timers != map[] && w.s.timers[Soonest(w.s.timers)].when <= w.s.lastUpdate
  {
    hide Linked, Phases, NoneFasterThanSolo, Share;
    assert Due(w.s, a);
    NothingTakesNoTime(w.s.rate);
    assert Sooner(w.s.timers, Soonest(w.s.timers), w.s.active[a].handle.value);
  }

  lemma NothingTakesNoTime(rate: real)
    requires rate > 0.0
    ensures 0.0 / rate == 0.0
  {}

  lemma DoneByNow(w: World, i: nat)
    requires Inv(w) && i in w.done
    ensures w.done[i] <= w.s.clock && i in w.asked
  {}

  lemma CanFire(w: World)
    requires Inv(w) && w.s.timers != map[]
    ensures Enabled(w, Fires)
  {}

  lemma FireNotBehind(w: World, a: nat, b: nat)
    requires Inv(w) && w.s.timers != map[] && NotBehind(w, a, b)
    ensures NotBehind(Fire(w), a, b)
  {
    hide Inv, Moved, Fire;
    CanFire(w);
    FireMoves(w);
    FireInv(w);
    var r := Fire(w);
    assert r.s.lastUpdate == r.s.clock by { FireUpdates(w); }
    if a in w.done { DoneByNow(w, a); }
    if a in w.s.active && b in w.done && w.s.active[a].remaining == 0.0 && w.done[b] == w.s.clock == w.s.lastUpdate {
      OutOfBytesIsDue(w, a);
      if a in r.s.active { LeftNonNegative(r, a); MovedNonNegative(w); }
    } else if a in w.s.active && a in r.s.active && b !in r.s.active {
      LeftNonNegative(r, a);
    }
  }

  lemma FireInv(w: World)
    requires Inv(w) && w.s.timers != map[]
    ensures Inv(Fire(w))
  {
    hide Fire;
    StepKeepsInv(w, Fires);
  }

  lemma FireUpdates(w: World)
    requires Inv(w) && w.s.timers != map[]
    ensures Fire(w).s.lastUpdate == Fire(w).s.clock
  {
    hide Join, Leave, Moved, Share, Linked, NoneFasterThanSolo, Due;
    if w.s.timers[Soonest(w.s.timers)].callback.Enter? {
      assert Soonest(w.s.timers) in Enters(w.s);
      var i := w.s.timers[Soonest(w.s.timers)].callback.id;
      JoinKeeps(w.s, i, w.asked[i].nbytes);
    } else {
      LeaveKeeps(w.s);
    }
  }

  lemma LeftNonNegative(w: World, a: nat)
    requires Inv(w) && a in w.s.active
    ensures w.s.active[a].remaining >= 0.0
  {}

  lemma MovedNonNegative(w: World)
    requires Inv(w) && w.s.timers != map[] && w.s.active != map[]
    ensures Moved(Popped(w.s)) >= 0.0
  {
    var i :| i in w.s.active;
    ClampNeverDiscards(w.s, i);
  }

  lemma AskNotBehind(w: World, e: Event, a: nat, b: nat)
    requires Inv(w) && e.Asks? && Enabled(w, e) && NotBehind(w, a, b)
    ensures NotBehind(Step(w, e), a, b)
  {
    if a in w.s.active && w.s.active[a].remaining == 0.0 {
      OutOfBytesIsDue(w, a);
    }
  }

  /**
   A transfer with no more bytes left than another is never beaten by it: over any run, if both
   finish it finishes no later, and while only the other has finished it is due at that instant.
   */
  lemma {:induction false} NeverOvertaken(w: World, es: seq<Event>, a: nat, b: nat)
    requires Inv(w) && Legal(w, es) && NotBehind(w, a, b)
    ensures NotBehind(Run(w, es), a, b)
    decreases |es|
  {
    hide Inv, Fire, Enabled, NotBehind;
    if es != [] {
      StepKeepsInv(w, es[0]);
      if es[0].Fires? { EnabledFire(w); FireNotBehind(w, a, b); } else { AskNotBehind(w, es[0], a, b); }
      NeverOvertaken(Step(w, es[0]), es[1..], a, b);
    }
  }
}
