/** What every run of the event loop does with what was asked of it: timers set, callbacks called, cancels and stops. */
module AsyncEvents {
  import opened Basics
  import opened AsyncLoop

  /** The instants timers were set for, in the order they were. */
  function TimersSet(evs: seq<Event>): seq<real> {
    if evs == [] then [] else
      (if evs[0].Does? && evs[0].effect.CallAt? then [evs[0].effect.when] else []) + TimersSet(evs[1..])
  }

  /** How many callbacks were called soon. */
  function SoonsCalled(evs: seq<Event>): nat {
    if evs == [] then 0 else (if evs[0] == Does(CallSoon) then 1 else 0) + SoonsCalled(evs[1..])
  }

  ghost predicate Cancels(evs: seq<Event>, h: Handle) {
    Does(Cancel(h)) in evs
  }

  /** One event's part of the account. */
  lemma NextTells(l: Loop, ev: Event)
    requires Legal(l, ev)
    ensures var r := Next(l, ev);
      && r.timers == l.timers + TimersSet([ev])
      && r.soons == l.soons + SoonsCalled([ev])
      && r.cancelled == l.cancelled + (if ev.Does? && ev.effect.Cancel? then {ev.effect.handle} else {})
      && r.stopping == (l.stopping || ev == Does(Stop))
  {
    hide Drop, Due, Push;
    assert [ev][1..] == [];
    if ev.Tick? {
      DropIs(l);
      DueIs(Advance(Drop(l)).value);
    }
  }

  lemma {:induction false} RunTells(l: Loop, evs: seq<Event>)
    requires Possible(l, evs)
    ensures var r := Run(l, evs);
      && r.timers == l.timers + TimersSet(evs)
      && r.soons == l.soons + SoonsCalled(evs)
      && (forall h :: h in r.cancelled <==> h in l.cancelled || Cancels(evs, h))
      && (r.stopping <==> l.stopping || Does(Stop) in evs)
    decreases |evs|
  {
    hide Next, Legal;
    if evs != [] {
      var ev := evs[0];
      assert evs == [ev] + evs[1..] && [ev][1..] == [];
      NextTells(l, ev);
      RunTells(Next(l, ev), evs[1..]);
      assert TimersSet([ev]) + TimersSet(evs[1..]) == TimersSet(evs);
      assert l.timers + TimersSet([ev]) + TimersSet(evs[1..]) == l.timers + TimersSet(evs);
      assert forall h :: Cancels(evs, h) <==> ev == Does(Cancel(h)) || Cancels(evs[1..], h);
    }
  }

  lemma {:induction false} RunOn(l: Loop, first: seq<Event>, rest: seq<Event>)
    requires Possible(l, first + rest)
    ensures Possible(l, first) && Possible(Run(l, first), rest)
    ensures Run(l, first + rest) == Run(Run(l, first), rest)
    decreases |first|
  {
    hide Next, Legal;
    if first == [] {
      assert first + rest == rest;
    } else {
      assert (first + rest)[1..] == first[1..] + rest;
      RunOn(Next(l, first[0]), first[1..], rest);
    }
  }

  // ----- what runs promise ----------------------------------------------------------------

  /** In every run a callback cancelled before it ran never runs, whatever happened before and happens after. */
  lemma CancelTakesEffect(before: seq<Event>, h: Handle, after: seq<Event>)
    requires Possible(New(), before + [Does(Cancel(h))] + after)
    ensures Possible(New(), before)
    ensures h !in Handles(Run(New(), before).ran) ==>
      h !in Handles(Run(New(), before + [Does(Cancel(h))] + after).ran)
  {
    hide Next, Legal, Handles;
    RunOn(New(), before + [Does(Cancel(h))], after);
    RunOn(New(), before, [Does(Cancel(h))]);
    RunTells(New(), before + [Does(Cancel(h))]);
    assert Cancels(before + [Does(Cancel(h))], h);
    var l := Run(New(), before);
    NextRan(l, Does(Cancel(h)));
    assert [Does(Cancel(h))][1..] == [];
    if h !in Handles(l.ran) { CancelledNeverRuns(Run(New(), before + [Does(Cancel(h))]), after, h); }
  }

  /** Waiting to drain, ready or scheduled. */
  predicate ToRun(l: Loop, h: Handle) {
    h in l.batch || h in l.ready || h in l.scheduled
  }

  /**
   In every run the k-th timer set, and the n-th callback called, has run or is still to run unless
   some event cancelled it; a timer that ran did so once, at the very instant it was set for; and
   nothing else ran, nor is to.
   */
  lemma EveryCallbackRunsAsSet(evs: seq<Event>)
    requires Possible(New(), evs)
    ensures var l, timers, soons := Run(New(), evs), TimersSet(evs), SoonsCalled(evs);
      && (forall k: nat :: k < |timers| && !Cancels(evs, Timer(timers[k], k)) ==>
            Ran(Timer(timers[k], k), timers[k]) in l.ran || ToRun(l, Timer(timers[k], k)))
      && (forall n: nat :: n < soons && !Cancels(evs, Soon(n)) ==> Soon(n) in Handles(l.ran) || ToRun(l, Soon(n)))
      && (forall h :: h in Handles(l.ran) || ToRun(l, h) ==> Known(h, timers, soons))
      && (forall i: nat, j: nat :: i < j < |l.ran| ==> l.ran[i].handle != l.ran[j].handle)
  {
    NewInv();
    EveryRunKeepsInv(New(), evs);
    RunTells(New(), evs);
    var l := Run(New(), evs);
    assert New().timers + TimersSet(evs) == TimersSet(evs);
    hide Run, Possible, Handles, Chain, TimersSet, SoonsCalled, Cancels, Next, Legal, Inv;
    InvSettles(l);
    RanApart(l);
  }

  /** What the invariant says of who ran and who is to. */
  lemma InvSettles(l: Loop)
    requires Inv(l)
    ensures forall k: nat :: k < |l.timers| && Timer(l.timers[k], k) !in l.cancelled ==>
      Ran(Timer(l.timers[k], k), l.timers[k]) in l.ran || ToRun(l, Timer(l.timers[k], k))
    ensures forall n: nat :: n < l.soons && Soon(n) !in l.cancelled ==> Soon(n) in Handles(l.ran) || ToRun(l, Soon(n))
    ensures forall h :: h in Handles(l.ran) || ToRun(l, h) ==> Known(h, l.timers, l.soons)
  {
    hide Handles, Chain;
    forall h
      ensures h in Line(l) <==> h in Handles(l.ran) || ToRun(l, h)
    {}
    forall h | h in Handles(l.ran) && h.Timer?
      ensures Ran(h, h.when) in l.ran
    {
      var i: nat :| i < |l.ran| && Handles(l.ran)[i] == h;
      assert l.ran[i] in l.ran && l.ran[i] == Ran(h, h.when);
    }
  }

  lemma RanApart(l: Loop)
    requires Inv(l)
    ensures forall i: nat, j: nat :: i < j < |l.ran| ==> l.ran[i].handle != l.ran[j].handle
  {
    hide Handles, Placed, OnTime, Kept;
    forall i: nat, j: nat | i < j < |l.ran|
      ensures l.ran[i].handle != l.ran[j].handle
    {
      assert Line(l)[i] == Handles(l.ran)[i] && Line(l)[j] == Handles(l.ran)[j];
    }
  }

  /** Set or called in the run. */
  predicate Known(h: Handle, timers: seq<real>, soons: nat) {
    match h
    case Timer(when, k) => k < |timers| && when == timers[k]
    case Soon(n) => n < soons
  }

  /** Once stopped, a drained loop can always take a tick, and the tick waits for nothing. */
  lemma StopEndsWaiting(evs: seq<Event>)
    requires Possible(New(), evs) && Does(Stop) in evs && Run(New(), evs).batch == []
    ensures Possible(New(), evs + [Tick]) && Run(New(), evs + [Tick]).clock == Run(New(), evs).clock
  {
    hide Inv;
    var l := Run(New(), evs);
    NewInv();
    EveryRunKeepsInv(New(), evs);
    RunTells(New(), evs);
    DeadlockIff(l);
    ClockStopsAtLiveTimers(l);
    assert [Tick][1..] == [];
    Possibly(New(), evs, Tick);
  }

  lemma {:induction false} Possibly(l: Loop, evs: seq<Event>, ev: Event)
    requires Possible(l, evs) && Legal(Run(l, evs), ev)
    ensures Possible(l, evs + [ev]) && Run(l, evs + [ev]) == Next(Run(l, evs), ev)
    decreases |evs|
  {
    hide Next, Legal;
    if evs == [] {
      assert evs + [ev] == [ev] && [ev][1..] == [];
    } else {
      assert (evs + [ev])[1..] == evs[1..] + [ev];
      Possibly(Next(l, evs[0]), evs[1..], ev);
    }
  }

  // ----- one whole tick -------------------------------------------------------------------

  function Doing(effects: seq<Effect>): (evs: seq<Event>)
    ensures |evs| == |effects| && forall i: nat :: i < |evs| ==> evs[i] == Does(effects[i])
  {
    if effects == [] then [] else [Does(effects[0])] + Doing(effects[1..])
  }

  function CancelledBy(effects: seq<Effect>): set<Handle> {
    set e | e in effects && e.Cancel? :: e.handle
  }

  /** A drain as events: each callback of the batch runs and does what it does, unless one before it cancelled it. */
  function Script(cancelled: set<Handle>, batch: seq<Handle>, program: Handle -> seq<Effect>): seq<Event>
    decreases |batch|
  {
    if batch == [] then []
    else if batch[0] in cancelled then [Runs] + Script(cancelled, batch[1..], program)
    else
      var effects := program(batch[0]);
      [Runs] + (Doing(effects) + Script(cancelled + CancelledBy(effects), batch[1..], program))
  }

  lemma {:induction false} Doings(l: Loop, effects: seq<Effect>)
    requires forall e :: e in effects && e.CallAt? ==> e.when >= l.clock
    ensures Possible(l, Doing(effects)) && Run(l, Doing(effects)) == DoAll(l, effects)
    ensures DoAll(l, effects).cancelled == l.cancelled + CancelledBy(effects)
    decreases |effects|
  {
    hide Push;
    if effects != [] {
      assert effects == [effects[0]] + effects[1..];
      assert Doing(effects)[0] == Does(effects[0]) && Doing(effects)[1..] == Doing(effects[1..]);
      Doings(Do(l, effects[0]), effects[1..]);
      assert CancelledBy(effects) == CancelledBy(effects[1..])
        + (if effects[0].Cancel? then {effects[0].handle} else {});
    }
  }

  lemma {:induction false} RunsThen(l: Loop, first: seq<Event>, rest: seq<Event>)
    requires Possible(l, first) && Possible(Run(l, first), rest)
    ensures Possible(l, first + rest) && Run(l, first + rest) == Run(Run(l, first), rest)
    decreases |first|
  {
    hide Next, Legal;
    if first == [] {
      assert first + rest == rest;
    } else {
      assert (first + rest)[1..] == first[1..] + rest;
      RunsThen(Next(l, first[0]), first[1..], rest);
    }
  }

  /** A tick drains its batch in order: each callback runs once and does all it does, unless cancelled by then. */
  lemma {:induction false} DrainIsScript(l: Loop, program: Handle -> seq<Effect>)
    requires Forward(program, l.clock)
    ensures var evs := Script(l.cancelled, l.batch, program);
      Possible(l, evs) && Run(l, evs) == Drain(l, program)
    decreases |l.batch|
  {
    hide Possible, Run, DoAll, CancelledBy;
    if l.batch == [] {
      NoEvents(l);
    } else {
      var h, n := l.batch[0], RunNext(l);
      RunsFirst(l);
      if h in l.cancelled {
        DrainIsScript(n, program);
        RunsThen(l, [Runs], Script(l.cancelled, l.batch[1..], program));
      } else {
        Doings(n, program(h));
        var m := DoAll(n, program(h));
        DrainIsScript(m, program);
        RunsThen(n, Doing(program(h)), Script(m.cancelled, m.batch, program));
        RunsThen(l, [Runs], Doing(program(h)) + Script(m.cancelled, m.batch, program));
      }
    }
  }

  lemma NoEvents(l: Loop)
    ensures Possible(l, []) && Run(l, []) == l
  {}

  lemma RunsFirst(l: Loop)
    requires l.batch != []
    ensures Possible(l, [Runs]) && Run(l, [Runs]) == RunNext(l)
  {
    assert [Runs][1..] == [];
    NoEvents(RunNext(l));
  }
}
