/**
 Route-once: hosts that answer with an address, a caller that follows it, and a control plane that
 remembers each decision that moves a request until its one re-ask. `kvcache_sim/control/scheduler.py`
 (`decide`), `kvcache_sim/data/serving.py` (`prefill`) and `proposed/routed.py` (`_call`). Which hosts
 a decision names is an input: whatever the chains answered, or a refusal.
 */
module Routing {
  import opened Basics

  type Host = string
  type RequestId = string

  datatype Response = Response(prefill: Host, decode: Host)

  /** A call still to be asked at `at`, sent on `hops` times; or how it ended, with the answer it was served on. */
  datatype Call = Asking(at: Host, hops: nat) | Served(response: Response) | Refused | Failed

  datatype Booking = Booking(id: RequestId, response: Response)

  /** `placed` is the control plane's memo; the rest is the callers' and the record of what was booked and asked. */
  datatype World = World(
    maxHops: nat,
    placed: map<RequestId, Response>,
    calls: map<RequestId, Call>,
    origins: map<RequestId, Host>,
    bookings: seq<Booking>,
    asks: seq<RequestId>)

  // ----- deciding -------------------------------------------------------------------------

  /** `decide`: a request already placed is answered with that, once; else what is decided is booked. */
  function Decision(w: World, id: RequestId, requester: Host, verdict: Option<Response>): (World, Option<Response>) {
    if id in w.placed then (w.(placed := w.placed - {id}), Some(w.placed[id]))
    else if verdict.None? then (w, None)
    else
      var r := verdict.value;
      (w.(bookings := w.bookings + [Booking(id, r)],
          placed := if r.prefill != requester then w.placed[id := r] else w.placed), Some(r))
  }

  /** `prefill` at `at`, and what the caller makes of its answer. */
  function Ask(w: World, id: RequestId, at: Host, hops: nat, verdict: Option<Response>): World {
    var (d, answer) := Decision(w, id, at, verdict);
    var call := if answer.None? then Refused
                else if answer.value.prefill == at then Served(answer.value)
                else if hops + 1 < w.maxHops then Asking(answer.value.prefill, hops + 1)
                else Failed;
    d.(calls := d.calls[id := call], asks := d.asks + [id])
  }

  function Start(w: World, id: RequestId, at: Host): World {
    w.(origins := w.origins[id := at], calls := w.calls[id := if w.maxHops == 0 then Failed else Asking(at, 0)])
  }

  datatype Event = Starts(id: RequestId, at: Host) | Asks(id: RequestId, verdict: Option<Response>)

  /** Request ids are distinct. */
  predicate Legal(w: World, ev: Event) {
    match ev
    case Starts(id, _) => id !in w.calls
    case Asks(id, _) => id in w.calls && w.calls[id].Asking?
  }

  function Next(w: World, ev: Event): World
    requires Legal(w, ev)
  {
    match ev
    case Starts(id, at) => Start(w, id, at)
    case Asks(id, verdict) => Ask(w, id, w.calls[id].at, w.calls[id].hops, verdict)
  }

  function New(maxHops: nat): World {
    World(maxHops, map[], map[], map[], [], [])
  }

  // ----- what every event keeps -----------------------------------------------------------

  function Booked(bookings: seq<Booking>, id: RequestId): seq<Response> {
    if bookings == [] then [] else
      (if bookings[0].id == id then [bookings[0].response] else []) + Booked(bookings[1..], id)
  }

  function Asked(asks: seq<RequestId>, id: RequestId): nat {
    if asks == [] then 0 else (if asks[0] == id then 1 else 0) + Asked(asks[1..], id)
  }

  /** Where one request stands: what was booked for it, whether it is remembered, and how often it was asked. */
  ghost predicate Standing(w: World, id: RequestId) {
    var booked, asked := Booked(w.bookings, id), Asked(w.asks, id);
    if id !in w.calls then booked == [] && id !in w.placed && asked == 0
    else
      && id in w.origins
      && match w.calls[id]
         case Asking(at, hops) =>
           if hops == 0 then booked == [] && id !in w.placed && asked == 0 && at == w.origins[id] && w.maxHops >= 1
           else
             && w.maxHops >= 2 && hops == 1 && asked == 1 && id in w.placed
             && booked == [w.placed[id]] && w.placed[id].prefill == at && at != w.origins[id]
         case Served(r) =>
           && id !in w.placed && booked == [r] && w.maxHops >= 1
           && asked == (if r.prefill == w.origins[id] then 1 else 2) && (asked == 2 ==> w.maxHops >= 2)
         case Refused => booked == [] && id !in w.placed && asked == 1 && w.maxHops >= 1
         case Failed =>
           || (w.maxHops == 0 && booked == [] && id !in w.placed && asked == 0)
           || (w.maxHops == 1 && asked == 1 && id in w.placed && booked == [w.placed[id]]
                && booked[0].prefill != w.origins[id])
  }

  ghost predicate Inv(w: World) {
    forall id: RequestId :: Standing(w, id)
  }

  lemma {:induction false} BookedMore(bookings: seq<Booking>, b: Booking, id: RequestId)
    ensures Booked(bookings + [b], id) == Booked(bookings, id) + if b.id == id then [b.response] else []
    decreases |bookings|
  {
    if bookings != [] {
      assert (bookings + [b])[1..] == bookings[1..] + [b];
      BookedMore(bookings[1..], b, id);
    }
  }

  lemma {:induction false} AskedMore(asks: seq<RequestId>, a: RequestId, id: RequestId)
    ensures Asked(asks + [a], id) == Asked(asks, id) + if a == id then 1 else 0
    decreases |asks|
  {
    if asks != [] {
      assert (asks + [a])[1..] == asks[1..] + [a];
      AskedMore(asks[1..], a, id);
    }
  }

  lemma AskKeepsStanding(w: World, id: RequestId, verdict: Option<Response>, other: RequestId)
    requires Inv(w) && Legal(w, Asks(id, verdict))
    ensures Standing(Next(w, Asks(id, verdict)), other)
  {
    hide Booked, Asked;
    assert Standing(w, id) && Standing(w, other);
    AskedMore(w.asks, id, other);
    if verdict.Some? { BookedMore(w.bookings, Booking(id, verdict.value), other); }
  }

  lemma NextKeepsInv(w: World, ev: Event)
    requires Inv(w) && Legal(w, ev)
    ensures Inv(Next(w, ev))
  {
    forall other: RequestId
      ensures Standing(Next(w, ev), other)
    {
      if ev.Asks? {
        AskKeepsStanding(w, ev.id, ev.verdict, other);
      } else {
        assert Standing(w, other) && Standing(w, ev.id);
      }
    }
  }

  ghost predicate Possible(w: World, evs: seq<Event>)
    decreases |evs|
  {
    evs == [] || (Legal(w, evs[0]) && Possible(Next(w, evs[0]), evs[1..]))
  }

  ghost function Run(w: World, evs: seq<Event>): World
    requires Possible(w, evs)
    decreases |evs|
  {
    if evs == [] then w else Run(Next(w, evs[0]), evs[1..])
  }

  lemma {:induction false} EveryRunKeepsInv(w: World, evs: seq<Event>)
    requires Inv(w) && Possible(w, evs)
    ensures Inv(Run(w, evs)) && Run(w, evs).maxHops == w.maxHops
    decreases |evs|
  {
    hide Inv;
    if evs != [] {
      NextKeepsInv(w, evs[0]);
      EveryRunKeepsInv(Next(w, evs[0]), evs[1..]);
    }
  }

  lemma NewInv(maxHops: nat)
    ensures Inv(New(maxHops))
  {}

  // ----- what runs promise ----------------------------------------------------------------

  /** No request is still being asked. */
  ghost predicate Quiet(w: World) {
    forall id :: id in w.calls ==> !w.calls[id].Asking?
  }

  /** How one request stands in a run with room for two hops. */
  ghost predicate Routed(w: World, id: RequestId) {
    && (id in w.calls && w.calls[id].Served? ==>
          && Booked(w.bookings, id) == [w.calls[id].response]
          && 1 <= Asked(w.asks, id) <= 2)
    && (id in w.calls && w.calls[id].Refused? ==> Booked(w.bookings, id) == [])
    && (id in w.calls ==> !w.calls[id].Failed?)
    && (id in w.placed <==> id in w.calls && w.calls[id].Asking? && w.calls[id].hops > 0)
  }

  /**
   However the requests' asks interleave: one that is served was booked once, for the host serving it,
   and asked there or once elsewhere first; a refused one was never booked. With room for two hops
   none fails, and the memo holds exactly those moved and not yet re-asked, so nothing in the end.
   */
  lemma EveryRunRoutesOnce(maxHops: nat, evs: seq<Event>)
    requires Possible(New(maxHops), evs) && maxHops >= 2
    ensures var w := Run(New(maxHops), evs);
      (forall id: RequestId :: Routed(w, id)) && (Quiet(w) ==> w.placed == map[])
  {
    NewInv(maxHops);
    EveryRunKeepsInv(New(maxHops), evs);
    var w := Run(New(maxHops), evs);
    hide Run, Possible, Booked, Asked;
    forall id: RequestId
      ensures Routed(w, id)
    {
      assert Standing(w, id);
    }
    if Quiet(w) {
      forall id: RequestId
        ensures id !in w.placed
      {
        assert Routed(w, id);
      }
    }
  }

  ghost predicate Fails(w: World, id: RequestId) {
    id in w.calls && w.calls[id].Failed?
  }

  /** A call can fail exactly when fewer than two hops are allowed, whatever is asked and decided. */
  lemma FailsIffOutOfHops(maxHops: nat)
    ensures (exists evs: seq<Event>, id: RequestId :: Possible(New(maxHops), evs) && Fails(Run(New(maxHops), evs), id))
      <==> maxHops < 2
  {
    if maxHops >= 2 {
      forall evs: seq<Event>, id: RequestId | Possible(New(maxHops), evs)
        ensures !Fails(Run(New(maxHops), evs), id)
      {
        EveryRunRoutesOnce(maxHops, evs);
        assert Routed(Run(New(maxHops), evs), id);
      }
    } else if maxHops == 1 {
      OneHopStrands();
    } else {
      NoHopFails();
      assert New(maxHops) == New(0);
    }
  }

  /** With no hop the first call fails without asking anybody. */
  lemma NoHopFails()
    ensures exists evs: seq<Event>, id: RequestId :: Possible(New(0), evs) && Fails(Run(New(0), evs), id)
  {
    var evs := [Starts("r", "a")];
    var w := Next(New(0), Starts("r", "a"));
    assert evs[1..] == [] && Run(w, []) == w && Possible(w, []);
    assert Possible(New(0), evs) && Fails(Run(New(0), evs), "r");
  }

  /** With one hop, a request decided elsewhere fails: it stays booked for that host and in the memo. */
  lemma OneHopStrands()
    ensures var there := Response("b", "b");
      var evs := [Starts("r", "a"), Asks("r", Some(there))];
      && Possible(New(1), evs)
      && var w := Run(New(1), evs);
         Fails(w, "r") && Quiet(w) && w.placed == map["r" := there] && w.bookings == [Booking("r", there)]
  {
    var there := Response("b", "b");
    var v := Next(New(1), Starts("r", "a"));
    assert v.calls["r"] == Asking("a", 0);
    var w := Next(v, Asks("r", Some(there)));
    var evs := [Starts("r", "a"), Asks("r", Some(there))];
    assert evs[1..] == [Asks("r", Some(there))] && evs[1..][1..] == [];
    assert Run(w, []) == w && Possible(w, []);
    assert Possible(v, evs[1..]) && Run(v, evs[1..]) == w;
  }

  /**
   Whose call fails, and what it leaves behind: with one hop a settled call fails exactly if its
   request is still in the memo, which is then all that was ever booked for it, at a host not asked.
   */
  lemma FailedStaysBehind(maxHops: nat, evs: seq<Event>, id: RequestId)
    requires Possible(New(maxHops), evs)
    ensures var w := Run(New(maxHops), evs);
      id in w.calls && !w.calls[id].Asking? ==>
        && id in w.origins && (Fails(w, id) <==> maxHops == 0 || id in w.placed)
        && (Fails(w, id) && maxHops == 0 ==> Booked(w.bookings, id) == [] && id !in w.placed)
        && (id in w.placed ==>
              && maxHops == 1 && Asked(w.asks, id) == 1 && w.placed[id].prefill != w.origins[id]
              && Booked(w.bookings, id) == [w.placed[id]])
  {
    NewInv(maxHops);
    EveryRunKeepsInv(New(maxHops), evs);
    var w := Run(New(maxHops), evs);
    hide Run, Possible, Booked, Asked;
    assert Standing(w, id);
  }

  // ----- the caller's loop ----------------------------------------------------------------

  /** What one hop answered: nothing, or something that may carry an address. */
  datatype Answered = Nothing | Something(elsewhere: Option<Host>)

  predicate SentOn(a: Answered) {
    a.Something? && a.elsewhere.Some?
  }

  /** The i-th call, made at `here`, was answered with `there`'s address. */
  predicate Leads(routed: bool, hop: (nat, Host) -> Answered, i: nat, here: Host, there: Host) {
    routed && SentOn(hop(i, here)) && hop(i, here).elsewhere.value == there
  }

  datatype HopError = StillSentOn

  class RoutedPlane {
    const maxHops: nat

    constructor (maxHops: nat)
      ensures this.maxHops == maxHops
    {
      this.maxHops := maxHops;
    }

    /**
     Calls at `at` and again wherever the answer sends it. `hop` is what the world answers the i-th call
     made at a host with; a member without a route never has an address read out of its answer.
     */
    method Call(routed: bool, at: Host, hop: (nat, Host) -> Answered)
      returns (result: Result<Answered, HopError>, visited: seq<Host>)
      ensures |visited| <= maxHops && (maxHops > 0 ==> visited != [] && visited[0] == at)
      ensures forall i: nat :: 0 < i < |visited| ==> Leads(routed, hop, i - 1, visited[i - 1], visited[i])
      ensures result.Ok? <==>
        visited != [] && !(routed && SentOn(hop(|visited| - 1, visited[|visited| - 1])))
      ensures result.Ok? ==> result.value == hop(|visited| - 1, visited[|visited| - 1])
      ensures result.Err? ==> |visited| == maxHops
    {
      var host := at;
      visited := [];
      for i := 0 to maxHops
        invariant |visited| == i && (if i == 0 then host == at else visited[0] == at)
        invariant forall j: nat :: 0 < j < |visited| ==> Leads(routed, hop, j - 1, visited[j - 1], visited[j])
        invariant i > 0 ==> Leads(routed, hop, i - 1, visited[i - 1], host)
      {
        var answered := hop(i, host);
        visited := visited + [host];
        if !routed || answered.Nothing? {
          return Ok(answered), visited;
        }
        if answered.elsewhere.None? {
          return Ok(answered), visited;
        }
        host := answered.elsewhere.value;
      }
      result := Err(StillSentOn);
    }
  }

  /** The part of the scheduler that routes once. */
  class Scheduler {
    var placed: map<RequestId, Response>
    /** Every decision committed, for the record only. */
    ghost var bookings: seq<Booking>

    constructor ()
      ensures placed == map[] && bookings == []
    {
      placed, bookings := map[], [];
    }

    /** Answers a request once placed with that; else books what the chains name, remembering a move. */
    method Decide(id: RequestId, requester: Host, verdict: Option<Response>) returns (answer: Option<Response>)
      modifies this
      ensures forall w: World :: w.placed == old(placed) && w.bookings == old(bookings) ==>
        (w.(placed := placed, bookings := bookings), answer) == Decision(w, id, requester, verdict)
    {
      if id in placed {
        answer := Some(placed[id]);
        placed := placed - {id};
        return;
      }
      if verdict.None? {
        return None;
      }
      var response := verdict.value;
      bookings := bookings + [Booking(id, response)];
      if response.prefill != requester {
        placed := placed[id := response];
      }
      answer := Some(response);
    }
  }
}
