/**
 The serialize channel of `sim_common/resources.py`: one transfer at a time at full bandwidth, the
 rest waiting in arrival order.
 */
module Serial {
  import opened Basics

  datatype Request = Request(id: nat, latency: real, nbytes: real, capacity: real)

  /** Bandwidth is positive, and neither the setup delay nor the payload is negative. */
  type Transfer = t: Request | t.capacity > 0.0 && t.latency >= 0.0 && t.nbytes >= 0.0
    witness Request(0, 0.0, 0.0, 1.0)

  /**
   The channel's queue and what it is serving (with the instant it ends), beside the loop's clock
   and the completions so far.
   */
  datatype Queue = Queue(
    clock: real,
    waiting: seq<Transfer>,
    serving: Option<(Transfer, real)>,
    done: seq<(nat, real)>)

  /** `latency + nbytes / capacity`: what one transfer costs alone. */
  function Cost(t: Transfer): (cost: real)
    ensures cost >= t.latency
  {
    assert t.nbytes / t.capacity >= 0.0;
    t.latency + t.nbytes / t.capacity
  }

  // ----- what each callback does ----------------------------------------------------------

  function StartNext(q: Queue): Queue {
    if q.waiting == [] then q.(serving := None)
    else q.(waiting := q.waiting[1..], serving := Some((q.waiting[0], q.clock + Cost(q.waiting[0]))))
  }

  function Register(q: Queue, t: Transfer): Queue {
    var p := q.(waiting := q.waiting + [t]);
    if p.serving.None? then StartNext(p) else p
  }

  /** `_finish`, at the instant of the transfer being served. */
  function Finish(q: Queue): Queue
    requires q.serving.Some?
  {
    StartNext(q.(clock := q.serving.value.1, done := q.done + [(q.serving.value.0.id, q.serving.value.1)]))
  }

  // ----- whole runs -----------------------------------------------------------------------

  /** Every registration so far, in order, beside the channel. */
  datatype World = World(q: Queue, log: seq<(real, Transfer)>)

  datatype Event = Asks(at: real, t: Transfer) | Fires

  predicate Enabled(w: World, e: Event) {
    match e
    case Fires => w.q.serving.Some?
    case Asks(at, t) => w.q.clock <= at && (w.q.serving.Some? ==> at <= w.q.serving.value.1)
  }

  function Step(w: World, e: Event): World
    requires Enabled(w, e)
  {
    match e
    case Fires => w.(q := Finish(w.q))
    case Asks(at, t) => World(Register(w.q.(clock := at), t), w.log + [(at, t)])
  }

  ghost predicate Legal(w: World, es: seq<Event>)
    decreases |es|
  {
    es == [] || (Enabled(w, es[0]) && Legal(Step(w, es[0]), es[1..]))
  }

  ghost function Run(w: World, es: seq<Event>): World
    requires Legal(w, es)
    decreases |es|
  {
    if es == [] then w else Run(Step(w, es[0]), es[1..])
  }

  function Fresh(now: real): World {
    World(Queue(now, [], None, []), [])
  }

  /**
   The reference: each transfer starts when it has arrived and its predecessor has ended.
   `Ends(log)[n]` is when the n-th registered transfer ends.
   */
  function Ends(log: seq<(real, Transfer)>): (ends: seq<real>)
    ensures |ends| == |log|
  {
    if log == [] then [] else
      var before := Ends(log[..|log| - 1]);
      var (at, t) := log[|log| - 1];
      before + [(if before == [] then at else Max(at, before[|before| - 1])) + Cost(t)]
  }

  /** The first transfers are done in order, the next is being served and the rest wait, in order. */
  ghost predicate Inv(w: World) {
    var served := |w.q.done|;
    && served <= |w.log|
    && (forall k :: 0 <= k < |w.log| ==> w.log[k].0 <= w.q.clock)
    && (forall k :: 0 <= k < served ==> w.q.done[k] == (w.log[k].1.id, Ends(w.log)[k]) && w.q.done[k].1 <= w.q.clock)
    && match w.q.serving
       case None => served == |w.log| && w.q.waiting == []
       case Some((t, end)) =>
         && served < |w.log| && t == w.log[served].1 && end == Ends(w.log)[served] >= w.q.clock
         && |w.q.waiting| == |w.log| - served - 1
         && forall k :: 0 <= k < |w.q.waiting| ==> w.q.waiting[k] == w.log[served + 1 + k].1
  }

  lemma EndsAppend(log: seq<(real, Transfer)>, at: real, t: Transfer)
    ensures var more := log + [(at, t)];
      && (forall k :: 0 <= k < |log| ==> Ends(more)[k] == Ends(log)[k])
      && Ends(more)[|log|] == (if log == [] then at else Max(at, Ends(log)[|log| - 1])) + Cost(t)
  {
    var more := log + [(at, t)];
    assert more[..|more| - 1] == log && more[|more| - 1] == (at, t);
    assert Ends(more)[..|log|] == Ends(log);
  }

  lemma {:induction false} EndsAt(log: seq<(real, Transfer)>, k: nat)
    requires k < |log|
    ensures Ends(log)[k] == (if k == 0 then log[0].0 else Max(log[k].0, Ends(log)[k - 1])) + Cost(log[k].1)
  {
    if k < |log| - 1 {
      EndsAt(log[..|log| - 1], k);
    }
  }

  lemma FinishKeepsInv(w: World)
    requires Inv(w) && w.q.serving.Some?
    ensures Inv(Step(w, Fires))
  {
    hide Ends, Cost;
    if |w.q.done| + 1 < |w.log| {
      EndsAt(w.log, |w.q.done| + 1);
    }
  }

  lemma AskKeepsInv(w: World, at: real, t: Transfer)
    requires Inv(w) && Enabled(w, Asks(at, t))
    ensures Inv(Step(w, Asks(at, t)))
  {
    hide Ends, Cost;
    EndsAppend(w.log, at, t);
  }

  lemma FreshInv(now: real)
    ensures Inv(Fresh(now))
  {}

  lemma StepKeepsInv(w: World, e: Event)
    requires Inv(w) && Enabled(w, e)
    ensures Inv(Step(w, e))
  {
    hide Inv;
    match e {
      case Fires => FinishKeepsInv(w);
      case Asks(at, t) => AskKeepsInv(w, at, t);
    }
  }

  lemma {:induction false} RunKeepsInv(w: World, es: seq<Event>)
    requires Inv(w) && Legal(w, es)
    ensures Inv(Run(w, es))
    decreases |es|
  {
    hide Inv, Step, Enabled;
    if es != [] {
      StepKeepsInv(w, es[0]);
      RunKeepsInv(Step(w, es[0]), es[1..]);
    }
  }

  // ----- nobody waits forever -------------------------------------------------------------

  function Firings(n: nat): (es: seq<Event>)
    ensures |es| == n && forall k: nat :: k < n ==> es[k] == Fires
  {
    seq(n, _ => Fires)
  }

  /** With nobody new, one firing for each transfer not yet done serves them all. */
  lemma {:induction false} FiringsServeAll(w: World)
    requires Inv(w)
    ensures var es := Firings(|w.log| - |w.q.done|);
      && Legal(w, es) && Inv(Run(w, es)) && Run(w, es).log == w.log && Run(w, es).q.serving.None?
    decreases |w.log| - |w.q.done|
  {
    hide Ends, Cost;
    var n := |w.log| - |w.q.done|;
    if n > 0 {
      var r := Step(w, Fires);
      FinishKeepsInv(w);
      FiringsServeAll(r);
      assert Firings(n)[1..] == Firings(n - 1);
    }
  }

  /** Every transfer registered is done, in order, each at the reference's instant. */
  ghost predicate AllServed(w: World) {
    && w.q.serving.None? && w.q.waiting == [] && |w.q.done| == |w.log|
    && forall k: nat :: k < |w.log| ==> w.q.done[k] == (w.log[k].1.id, Ends(w.log)[k])
  }

  /** The channel once it has run out of transfers. */
  ghost function Drained(w: World): (r: World)
    requires Inv(w)
    ensures r.log == w.log && AllServed(r)
  {
    FiringsServeAll(w);
    Run(w, Firings(|w.log| - |w.q.done|))
  }

  /**
   Over every run of a new channel service is in arrival order and every completion is the
   reference's: one transfer at a time, none started before it arrived, the channel never idle while
   one waits. And every transfer registered is served: from there on it only takes the firings.
   */
  lemma EveryRunIsFifo(now: real, es: seq<Event>)
    requires Legal(Fresh(now), es)
    ensures var w := Run(Fresh(now), es);
      && Inv(w)
      && var rest := Firings(|w.log| - |w.q.done|);
         Legal(w, rest) && Run(w, rest).log == w.log && AllServed(Run(w, rest))
  {
    hide Legal, Run, Ends;
    FreshInv(now);
    RunKeepsInv(Fresh(now), es);
    FiringsServeAll(Run(Fresh(now), es));
  }

  // ----- completions as the registrations tell them ---------------------------------------

  /** What was registered and when. */
  function Registered(es: seq<Event>): seq<(real, Transfer)> {
    if es == [] then [] else
      (match es[0] case Asks(at, t) => [(at, t)] case Fires => []) + Registered(es[1..])
  }

  lemma {:induction false} RunLogs(w: World, es: seq<Event>)
    requires Legal(w, es)
    ensures Run(w, es).log == w.log + Registered(es)
    decreases |es|
  {
    hide StartNext, Cost;
    if es != [] { RunLogs(Step(w, es[0]), es[1..]); }
  }

  /** The `k`-th registered ends by its cost from when it arrived or the one before it ended. */
  ghost predicate EndsInTurn(log: seq<(real, Transfer)>, done: seq<(nat, real)>, k: nat, end: real)
    requires k < |log| && k <= |done|
  {
    var (at, t) := log[k];
    var free := if k == 0 then at else done[k - 1].1;
    && (at >= free ==> end == at + t.latency + t.nbytes / t.capacity)
    && (at <= free ==> end == free + t.latency + t.nbytes / t.capacity)
  }

  lemma EndsAreInTurn(log: seq<(real, Transfer)>, done: seq<(nat, real)>, k: nat)
    requires k < |log| && k <= |done| && (k > 0 ==> done[k - 1].1 == Ends(log)[k - 1])
    ensures EndsInTurn(log, done, k, Ends(log)[k])
  {
    hide Ends;
    EndsAt(log, k);
  }

  /**
   In every run of a new channel the completions are those of the transfers registered, in order, each
   taking its latency and its bytes at full capacity from when it arrived or its predecessor ended,
   whichever is later; the one being served will end so too, and only with none left is none served.
   */
  lemma EveryCompletionInTurn(now: real, es: seq<Event>)
    requires Legal(Fresh(now), es)
    ensures var q, log := Run(Fresh(now), es).q, Registered(es);
      && |q.done| <= |log|
      && (forall k: nat :: k < |q.done| ==>
            && q.done[k].0 == log[k].1.id
            && EndsInTurn(log, q.done, k, q.done[k].1))
      && match q.serving
         case None => |q.done| == |log|
         case Some((t, end)) =>
           && |q.done| < |log| && t == log[|q.done|].1
           && EndsInTurn(log, q.done, |q.done|, end)
  {
    hide Legal, Run, Ends, Registered, EndsInTurn;
    FreshInv(now);
    RunKeepsInv(Fresh(now), es);
    RunLogs(Fresh(now), es);
    var w := Run(Fresh(now), es);
    assert [] + Registered(es) == Registered(es);
    forall k: nat | k < |w.q.done|
      ensures EndsInTurn(w.log, w.q.done, k, w.q.done[k].1)
    {
      EndsAreInTurn(w.log, w.q.done, k);
    }
    if w.q.serving.Some? { EndsAreInTurn(w.log, w.q.done, |w.q.done|); }
  }

  /** A transfer that finds the channel idle takes what it costs alone. */
  lemma AloneCostsSolo(w: World, at: real, t: Transfer)
    requires Inv(w) && w.q.serving.None? && w.q.clock <= at
    ensures var r := Step(w, Asks(at, t));
      && Enabled(r, Fires)
      && Step(r, Fires).q.done == w.q.done + [(t.id, at + t.latency + t.nbytes / t.capacity)]
      && Step(r, Fires).q.serving.None?
  {
    hide Ends;
  }

  // ----- a burst --------------------------------------------------------------------------

  /** Registrations of one instant. */
  function Arrivals(now: real, ts: seq<Transfer>): (es: seq<Event>)
    ensures |es| == |ts| && forall k: nat :: k < |ts| ==> es[k] == Asks(now, ts[k])
  {
    seq(|ts|, k requires 0 <= k < |ts| => Asks(now, ts[k]))
  }

  function Logged(now: real, ts: seq<Transfer>): (log: seq<(real, Transfer)>)
    ensures |log| == |ts| && forall k: nat :: k < |ts| ==> log[k] == (now, ts[k])
  {
    seq(|ts|, k requires 0 <= k < |ts| => (now, ts[k]))
  }

  lemma ArrivesNow(w: World, t: Transfer)
    requires Inv(w)
    ensures var e := Asks(w.q.clock, t);
      && Enabled(w, e) && Inv(Step(w, e)) && Step(w, e).q.clock == w.q.clock
      && Step(w, e).log == w.log + [(w.q.clock, t)]
  {
    hide Ends, Cost;
    AskKeepsInv(w, w.q.clock, t);
  }

  lemma {:induction false} ArrivalsAreLegal(w: World, ts: seq<Transfer>)
    requires Inv(w)
    ensures var es := Arrivals(w.q.clock, ts);
      && Legal(w, es) && Inv(Run(w, es)) && Run(w, es).log == w.log + Logged(w.q.clock, ts)
      && Run(w, es).q.clock == w.q.clock
    decreases |ts|
  {
    hide Inv, Step, Enabled;
    var now := w.q.clock;
    if ts != [] {
      var e := Asks(now, ts[0]);
      ArrivesNow(w, ts[0]);
      ArrivalsAreLegal(Step(w, e), ts[1..]);
      assert Arrivals(now, ts)[1..] == Arrivals(now, ts[1..]);
      assert w.log + Logged(now, ts) == w.log + [(now, ts[0])] + Logged(now, ts[1..]);
    }
  }
}
