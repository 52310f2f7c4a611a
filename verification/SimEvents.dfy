/** What every run of the callback engine fires, told by what was scheduled, registered and resolved. */
module SimEvents {
  import opened Basics
  import opened SimEngine

  // ----- the account ----------------------------------------------------------------------

  /** When each plain callback of a run was scheduled for: so long after the instant the run had come to. */
  ghost function Scheduled(s: Sim, evs: seq<Event>): multiset<(real, nat)>
    requires Possible(s, evs)
    decreases |evs|
  {
    if evs == [] then multiset{} else
      (if evs[0].Schedules? then multiset{(s.now + evs[0].delay, evs[0].name)} else multiset{})
        + Scheduled(Next(s, evs[0]), evs[1..])
  }

  /** The plain callbacks among these entries, each with its instant. */
  function Plains(es: seq<Entry>): multiset<(real, nat)> {
    if es == [] then multiset{} else
      (if es[0].task.Plain? then multiset{(es[0].time, es[0].task.name)} else multiset{}) + Plains(es[1..])
  }

  function Made(evs: seq<Event>): nat {
    if evs == [] then 0 else (if evs[0].Makes? then 1 else 0) + Made(evs[1..])
  }

  /** How many callbacks promise `p` was given. */
  function Added(evs: seq<Event>, p: nat): nat {
    if evs == [] then 0 else (if evs[0] == Adds(p) then 1 else 0) + Added(evs[1..], p)
  }

  // ----- one event ------------------------------------------------------------------------

  lemma {:induction false} PlainsConcat(a: seq<Entry>, b: seq<Entry>)
    ensures Plains(a + b) == Plains(a) + Plains(b)
    decreases |a|
  {
    if a == [] {
      assert a + b == b;
    } else {
      assert (a + b)[1..] == a[1..] + b;
      PlainsConcat(a[1..], b);
    }
  }

  lemma PlainsInsert(line: seq<Entry>, k: nat, e: Entry)
    requires k <= |line|
    ensures Plains(line[..k] + [e] + line[k..])
      == Plains(line) + (if e.task.Plain? then multiset{(e.time, e.task.name)} else multiset{})
  {
    var a, b := line[..k], line[k..];
    assert line == a + b;
    PlainsConcat(a, b);
    PlainsConcat(a + [e], b);
    PlainsConcat(a, [e]);
    assert [e][1..] == [];
  }

  /** Scheduling puts one entry into the line, whatever its place. */
  lemma ScheduleAdds(s: Sim, delay: real, task: Task)
    requires Queued(s) && delay >= 0.0
    ensures var r := Schedule(s, delay, task);
      && Queued(r) && r.now == s.now && r.fired == s.fired && r.promises == s.promises
      && Plains(Line(r)) == Plains(Line(s)) + (if task.Plain? then multiset{(s.now + delay, task.name)} else multiset{})
  {
    hide Queued, Line, Push, Plains;
    var k := ScheduleQueues(s, delay, task);
    PlainsInsert(Line(s), k, Entry(s.now + delay, s.next, task));
  }

  lemma {:induction false} ReleaseAdds(s: Sim, p: nat, cbs: seq<nat>)
    requires Queued(s)
    ensures Queued(Release(s, p, cbs)) && Plains(Line(Release(s, p, cbs))) == Plains(Line(s))
    decreases |cbs|
  {
    hide Queued, Plains, Schedule, Line;
    if cbs != [] {
      ScheduleAdds(s, 0.0, Released(p, cbs[0]));
      ReleaseAdds(Schedule(s, 0.0, Released(p, cbs[0])), p, cbs[1..]);
    }
  }

  function GivenTo(s: Sim, p: nat): nat {
    if p < |s.promises| then s.promises[p].given else 0
  }

  predicate Settled(s: Sim, p: nat) {
    p < |s.promises| && s.promises[p].resolved
  }

  /** The clock is where the latest event to fire was due. */
  ghost predicate AtLatest(s: Sim) {
    s.fired == [] || s.now == s.fired[|s.fired| - 1].time
  }

  ghost predicate Tells(s: Sim, ev: Event, r: Sim) {
    && Plains(Line(r)) == Plains(Line(s))
                          + (if ev.Schedules? then multiset{(s.now + ev.delay, ev.name)} else multiset{})
    && |r.promises| == |s.promises| + (if ev.Makes? then 1 else 0)
    && (forall p: nat :: GivenTo(r, p) == GivenTo(s, p) + if ev == Adds(p) then 1 else 0)
    && (forall p: nat :: Settled(r, p) <==> Settled(s, p) || ev == Resolves(p))
    && AtLatest(r)
  }

  lemma SameQueue(s: Sim, r: Sim)
    requires Queued(s) && r == s.(promises := r.promises)
    ensures Queued(r) && Line(r) == Line(s)
  {}

  lemma ResolveTells(s: Sim, p: nat)
    requires Inv(s) && p < |s.promises| && AtLatest(s)
    ensures Tells(s, Resolves(p), Resolve(s, p))
  {
    hide Queued, InOrder, Held, Plains, Line;
    var q := s.promises[p];
    if !q.resolved {
      var m := s.(promises := s.promises[p := q.(resolved := true)]);
      SameQueue(s, m);
      ReleaseAdds(m, p, q.waiting);
      SameQueue(Release(m, p, q.waiting), Resolve(s, p));
    }
  }

  lemma AddTells(s: Sim, p: nat)
    requires Inv(s) && p < |s.promises| && AtLatest(s)
    ensures Tells(s, Adds(p), AddCallback(s, p))
  {
    hide Queued, InOrder, Held, Plains, Line, Schedule;
    var q := s.promises[p];
    var m := s.(promises := s.promises[p := q.(given := q.given + 1)]);
    SameQueue(s, m);
    if q.resolved {
      ScheduleAdds(m, 0.0, Released(p, q.given));
    } else {
      SameQueue(s, AddCallback(s, p));
    }
  }

  lemma NextTells(s: Sim, ev: Event)
    requires Inv(s) && Legal(s, ev) && AtLatest(s)
    ensures Tells(s, ev, Next(s, ev))
  {
    hide Queued, InOrder, Held, Plains, Schedule;
    match ev
    case Schedules(delay, name) => ScheduleAdds(s, delay, Plain(name));
    case Makes => SameQueue(s, Make(s));
    case Adds(p) => AddTells(s, p);
    case Resolves(p) => ResolveTells(s, p);
    case Pops => assert Line(Pop(s)) == Line(s);
  }

  // ----- runs -----------------------------------------------------------------------------

  lemma {:induction false} RunTells(s: Sim, evs: seq<Event>)
    requires Inv(s) && Possible(s, evs) && AtLatest(s)
    ensures var r := Run(s, evs);
      && Plains(Line(r)) == Plains(Line(s)) + Scheduled(s, evs)
      && |r.promises| == |s.promises| + Made(evs)
      && AtLatest(r)
    decreases |evs|
  {
    hide Inv, Plains, Line, GivenTo, Settled, Next, Legal;
    if evs != [] {
      NextKeepsInv(s, evs[0]);
      NextTells(s, evs[0]);
      RunTells(Next(s, evs[0]), evs[1..]);
    }
  }

  /** What one promise was given in a run, and whether it was resolved. */
  lemma {:induction false} RunTellsPromise(s: Sim, evs: seq<Event>, p: nat)
    requires Inv(s) && Possible(s, evs) && AtLatest(s)
    ensures var r := Run(s, evs);
      && GivenTo(r, p) == GivenTo(s, p) + Added(evs, p)
      && (Settled(r, p) <==> Settled(s, p) || Resolves(p) in evs)
    decreases |evs|
  {
    hide Inv, Plains, Line, GivenTo, Settled, Next, Legal;
    if evs != [] {
      NextKeepsInv(s, evs[0]);
      NextTells(s, evs[0]);
      RunTellsPromise(Next(s, evs[0]), evs[1..], p);
      assert evs == [evs[0]] + evs[1..];
    }
  }

  /**
   In every run of a new engine the plain callbacks fired or still queued are exactly those scheduled,
   each for its delay after the instant it was scheduled at; a promise's callback is fired or queued
   exactly when the promise was resolved and the callback given to it, at any time. So once the queue
   is drained all of them have fired, and nothing else has.
   */
  lemma EveryCallbackFires(evs: seq<Event>)
    requires Possible(New(), evs)
    ensures var s := Run(New(), evs);
      && Plains(s.fired + s.heap) == Scheduled(New(), evs)
      && |s.promises| == Made(evs)
      && (forall p: nat, n: nat :: InLine(s, p, n) <==> Resolves(p) in evs && n < Added(evs, p))
      && (s.heap == [] ==>
            && Plains(s.fired) == Scheduled(New(), evs)
            && forall p: nat, n: nat :: FiredFor(s, p, n) <==> Resolves(p) in evs && n < Added(evs, p))
      && s.now == (if s.fired == [] then 0.0 else s.fired[|s.fired| - 1].time)
  {
    NewInv();
    EveryRunKeepsInv(New(), evs);
    RunTells(New(), evs);
    NothingYet(New(), evs);
    var s := Run(New(), evs);
    hide Run, Queued, InOrder, Plains;
    forall p: nat, n: nat
      ensures InLine(s, p, n) <==> Resolves(p) in evs && n < Added(evs, p)
    {
      RunTellsPromise(New(), evs, p);
    }
    if s.heap == [] {
      assert s.fired + s.heap == s.fired;
      assert forall p: nat, n: nat :: FiredFor(s, p, n) == InLine(s, p, n);
    }
  }

  /** Before anything fires the clock stands where it started. */
  lemma {:induction false} NothingYet(s: Sim, evs: seq<Event>)
    requires Possible(s, evs)
    ensures |Run(s, evs).fired| >= |s.fired| && (Run(s, evs).fired == [] ==> Run(s, evs).now == s.now)
    decreases |evs|
  {
    hide Schedule;
    if evs != [] {
      NextFires(s, evs[0]);
      NothingYet(Next(s, evs[0]), evs[1..]);
    }
  }

  lemma NextFires(s: Sim, ev: Event)
    requires Legal(s, ev)
    ensures var r := Next(s, ev);
      |r.fired| == |s.fired| + (if ev.Pops? then 1 else 0) && (!ev.Pops? ==> r.now == s.now)
  {
    hide Push;
  }
}
