/**
 The equal-share channel of `sim_common/resources.py`: every transfer in its byte phase gets
 `capacity / k`, and each entry or departure debits what moved since the last one, recomputes
 the share, and replaces every completion timer.

 This module holds the channel as values: what one callback does to it, what a run of
 registrations and timer firings does, and what every such run keeps.
 */
module Progressive {
  import opened Basics

  /** What a loop timer calls: `_enter` for a transfer still in its latency, `_complete` after. */
  datatype Callback = Enter(id: nat) | Complete(id: nat)

  datatype Timer = Timer(when: real, callback: Callback)

  /** A transfer in its byte phase: the bytes left and the live completion timer. */
  datatype Flow = Flow(remaining: real, handle: Option<nat>)

  /** The channel's fields, with the loop's clock and live timers beside them. */
  datatype State = State(
    capacity: real,
    active: map<nat, Flow>,
    rate: real,
    lastUpdate: real,
    clock: real,
    timers: map<nat, Timer>,
    next: nat)

  // ----- what each callback does ----------------------------------------------------------

  function Schedule(s: State, when: real, callback: Callback): State {
    s.(timers := s.timers[s.next := Timer(when, callback)], next := s.next + 1)
  }

  function Cancel(s: State, handle: Option<nat>): State {
    if handle.Some? then s.(timers := s.timers - {handle.value}) else s
  }

  function Debit(f: Flow, moved: real): Flow {
    f.(remaining := if f.remaining - moved < 0.0 then 0.0 else f.remaining - moved)
  }

  function DebitEach(active: map<nat, Flow>, moved: real): map<nat, Flow> {
    map i | i in active :: Debit(active[i], moved)
  }

  /** `_advance`: debit every active transfer for the time since `lastUpdate`. */
  function Advance(s: State): State {
    var elapsed := s.clock - s.lastUpdate;
    if elapsed > 0.0 && s.active != map[] then
      s.(active := DebitEach(s.active, Flowed(s.lastUpdate, s.clock, s.rate)), lastUpdate := s.clock)
    else
      s.(lastUpdate := s.clock)
  }

  /** One turn of `_recompute`'s loop: replace the completion timer of transfer `i`. */
  function Retime(s: State, i: nat): State
    requires i in s.active && s.rate > 0.0
  {
    var c := Cancel(s, s.active[i].handle);
    Schedule(c, c.clock + c.active[i].remaining / c.rate, Complete(i))
      .(active := c.active[i := c.active[i].(handle := Some(c.next))])
  }

  /** `_recompute`'s loop over `todo`, smallest transfer number first. */
  ghost function RetimeAll(s: State, todo: set<nat>): State
    requires todo <= s.active.Keys && s.rate > 0.0
    decreases |todo|
  {
    if todo == {} then s else RetimeAll(Retime(s, Least(todo)), todo - {Least(todo)})
  }

  function Portion(capacity: real, k: nat): real {
    if k == 0 then 0.0 else capacity / k as real
  }

  /** Bytes moved at `rate` between two instants. */
  function Flowed(since: real, until: real, rate: real): real {
    (until - since) * rate
  }

  function Share(s: State): real {
    Portion(s.capacity, |s.active|)
  }

  ghost function Recompute(s: State): State
    requires s.capacity > 0.0
  {
    var r := s.(rate := Share(s));
    if r.active == map[] then r else RetimeAll(r, r.active.Keys)
  }

  /** `register`: the transfer joins the byte phase once its latency has passed. */
  function Register(s: State, i: nat, latency: real): State {
    Schedule(s, s.clock + latency, Enter(i))
  }

  /** `_enter`, for a transfer of `nbytes` whose own `handle` is still the latency timer that fired. */
  ghost function Join(s: State, i: nat, nbytes: real, handle: Option<nat>): State
    requires s.capacity > 0.0
  {
    var a := Advance(s);
    Recompute(a.(active := a.active[i := Flow(nbytes, handle)]))
  }

  /** `_complete`. */
  ghost function Leave(s: State, i: nat): State
    requires s.capacity > 0.0
  {
    var a := Advance(s);
    if i in a.active then Recompute(a.(active := a.active - {i})) else a
  }

  // ----- rescheduling ---------------------------------------------------------------------

  /**
   A live completion timer is the handle of the active transfer it completes, and no handle
   names another transfer's timer.
   */
  ghost predicate Linked(s: State) {
    && (forall h :: h in s.timers ==> h < s.next)
    && (forall h :: h in s.timers && s.timers[h].callback.Complete? ==>
          var i := s.timers[h].callback.id; i in s.active && s.active[i].handle == Some(h))
    && (forall i :: i in s.active && s.active[i].handle.Some? ==>
          var h := s.active[i].handle.value;
          h < s.next && (h in s.timers ==> s.timers[h].callback == Complete(i)))
  }

  /** The timers of transfers still in their latency. */
  ghost function Enters(s: State): map<nat, Timer> {
    map h | h in s.timers && s.timers[h].callback.Enter? :: s.timers[h]
  }

  /** Transfer `i`'s handle is a live timer for its completion at the current rate. */
  ghost predicate Timed(s: State, i: nat)
    requires i in s.active && s.rate > 0.0
  {
    && s.active[i].handle.Some?
    && s.active[i].handle.value in s.timers
    && s.timers[s.active[i].handle.value] == Timer(s.clock + s.active[i].remaining / s.rate, Complete(i))
  }

  /** What rescheduling leaves as it was. */
  ghost predicate SameFlows(s: State, r: State) {
    && r.capacity == s.capacity && r.rate == s.rate && r.lastUpdate == s.lastUpdate && r.clock == s.clock
    && r.active.Keys == s.active.Keys
    && (forall i :: i in s.active ==> r.active[i].remaining == s.active[i].remaining)
    && s.next <= r.next
    && Enters(r) == Enters(s)
  }

  lemma RetimeOne(s: State, i: nat)
    requires i in s.active && s.rate > 0.0 && Linked(s)
    ensures var r := Retime(s, i);
      && SameFlows(s, r) && Linked(r) && Timed(r, i) && r.active[i].handle == Some(s.next)
      && (forall j :: j in s.active && j != i ==> r.active[j] == s.active[j] && (Timed(s, j) ==> Timed(r, j)))
  {
    var r := Retime(s, i);
    assert r.active.Keys == s.active.Keys;
    assert Enters(r) == Enters(s);
  }

  /** What the loop leaves behind for the transfers of `todo`, and for the others. */
  ghost predicate Retimed(s: State, r: State, todo: set<nat>)
    requires todo <= s.active.Keys && s.rate > 0.0
  {
    && SameFlows(s, r)
    && (forall i :: i in todo ==> Timed(r, i) && r.active[i].handle.Some? && r.active[i].handle.value >= s.next)
    && (forall i, j :: i in todo && j in todo && i < j ==> r.active[i].handle.value < r.active[j].handle.value)
    && (forall j :: j in s.active && j !in todo ==> r.active[j] == s.active[j] && (Timed(s, j) ==> Timed(r, j)))
  }

  lemma RetimedOneMore(s: State, m: State, r: State, i: nat, todo: set<nat>)
    requires i in todo && todo <= s.active.Keys && s.rate > 0.0 && forall j :: j in todo ==> i <= j
    requires SameFlows(s, m) && Timed(m, i) && m.active[i].handle == Some(s.next) && s.next < m.next
    requires forall j :: j in s.active && j != i ==> m.active[j] == s.active[j] && (Timed(s, j) ==> Timed(m, j))
    requires Retimed(m, r, todo - {i})
    ensures Retimed(s, r, todo)
  {
    hide Timed, Enters;
    assert r.active[i] == m.active[i] && Timed(r, i);
    forall j | j in todo && j != i
      ensures Timed(r, j) && r.active[j].handle.Some? && r.active[j].handle.value > s.next
    {
      assert j in todo - {i};
    }
  }

  /**
   The loop leaves each transfer of `todo` one live timer, at `clock + remaining / rate`, numbered
   in transfer order, and leaves the latency timers and the other transfers alone.
   */
  lemma {:induction false} RetimeAllExact(s: State, todo: set<nat>)
    requires todo <= s.active.Keys && s.rate > 0.0 && Linked(s)
    ensures Linked(RetimeAll(s, todo)) && Retimed(s, RetimeAll(s, todo), todo)
    decreases |todo|
  {
    hide Retime, Enters, Retimed, Timed;
    if todo == {} {
      NothingRetimed(s);
    } else {
      var i := Least(todo);
      var m := Retime(s, i);
      RetimeOne(s, i);
      assert s.next < m.next;
      hide Linked;
      RetimeAllExact(m, todo - {i});
      RetimedOneMore(s, m, RetimeAll(m, todo - {i}), i, todo);
    }
  }

  lemma NothingRetimed(s: State)
    requires s.rate > 0.0
    ensures Retimed(s, s, {})
  {}
}
