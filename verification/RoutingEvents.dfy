/** Where every request of a run ends up, told by where it started and what was first decided for it. */
module RoutingEvents {
  import opened Basics
  import opened Routing

  /** The hosts a request's calls start at, in a legal run one at most. */
  function Starting(evs: seq<Event>, id: RequestId): seq<Host> {
    if evs == [] then [] else
      Starting(evs[..|evs| - 1], id)
        + (if evs[|evs| - 1].Starts? && evs[|evs| - 1].id == id then [evs[|evs| - 1].at] else [])
  }

  /** What would be decided at each ask of a request. */
  function Verdicts(evs: seq<Event>, id: RequestId): seq<Option<Response>> {
    if evs == [] then [] else
      Verdicts(evs[..|evs| - 1], id)
        + (if evs[|evs| - 1].Asks? && evs[|evs| - 1].id == id then [evs[|evs| - 1].verdict] else [])
  }

  /** How a request stands that started at `a`, sent no further than `maxHops` allow. */
  ghost predicate Decided(w: World, id: RequestId, a: Host, verdicts: seq<Option<Response>>) {
    && id in w.calls
    && if w.maxHops == 0 then verdicts == [] && w.calls[id] == Failed && Stands(w, id, [], None)
       else if verdicts == [] then w.calls[id] == Asking(a, 0) && Stands(w, id, [], None)
       else if verdicts[0].None? then |verdicts| == 1 && w.calls[id] == Refused && Stands(w, id, [], None)
       else var r := verdicts[0].value;
         if r.prefill == a then |verdicts| == 1 && w.calls[id] == Served(r) && Stands(w, id, [r], None)
         else if w.maxHops == 1 then |verdicts| == 1 && w.calls[id] == Failed && Stands(w, id, [r], Some(r))
         else if |verdicts| == 1 then w.calls[id] == Asking(r.prefill, 1) && Stands(w, id, [r], Some(r))
         else |verdicts| == 2 && w.calls[id] == Served(r) && Stands(w, id, [r], None)
  }

  /** What was booked for a request and what is remembered of it. */
  ghost predicate Stands(w: World, id: RequestId, booked: seq<Response>, memo: Option<Response>) {
    && Booked(w.bookings, id) == booked
    && match memo
       case None => id !in w.placed
       case Some(r) => id in w.placed && w.placed[id] == r
  }

  ghost predicate Told(w: World, id: RequestId, starts: seq<Host>, verdicts: seq<Option<Response>>) {
    if starts == [] then id !in w.calls && verdicts == [] && Stands(w, id, [], None)
    else |starts| == 1 && Decided(w, id, starts[0], verdicts)
  }

  lemma Then(evs: seq<Event>, ev: Event)
    ensures (evs + [ev])[..|evs + [ev]| - 1] == evs && (evs + [ev])[|evs + [ev]| - 1] == ev
  {}

  lemma OtherTells(w: World, ev: Event, id: RequestId, starts: seq<Host>, verdicts: seq<Option<Response>>)
    requires Legal(w, ev) && Told(w, id, starts, verdicts) && ev.id != id
    ensures Told(Next(w, ev), id, starts, verdicts)
  {
    hide Booked;
    var r := Next(w, ev);
    assert Booked(r.bookings, id) == Booked(w.bookings, id) by {
      if ev.Asks? && ev.verdict.Some? { BookedMore(w.bookings, Booking(ev.id, ev.verdict.value), id); }
    }
    assert (id in r.calls <==> id in w.calls) && (id in w.calls ==> r.calls[id] == w.calls[id]);
    assert (id in r.placed <==> id in w.placed) && (id in w.placed ==> r.placed[id] == w.placed[id]);
    hide Next;
  }

  lemma AskTells(w: World, id: RequestId, verdict: Option<Response>, a: Host, verdicts: seq<Option<Response>>)
    requires Legal(w, Asks(id, verdict)) && Decided(w, id, a, verdicts)
    ensures Decided(Next(w, Asks(id, verdict)), id, a, verdicts + [verdict])
  {
    hide Booked;
    if verdict.Some? { BookedMore(w.bookings, Booking(id, verdict.value), id); }
  }

  /** One event moves its own request on and no other. */
  lemma NextTells(w: World, ev: Event, id: RequestId, starts: seq<Host>, verdicts: seq<Option<Response>>)
    requires Legal(w, ev) && Told(w, id, starts, verdicts)
    ensures Told(Next(w, ev), id,
              starts + (if ev.Starts? && ev.id == id then [ev.at] else []),
              verdicts + (if ev.Asks? && ev.id == id then [ev.verdict] else []))
  {
    assert starts + [] == starts && verdicts + [] == verdicts;
    if ev.id != id {
      OtherTells(w, ev, id, starts, verdicts);
    } else if ev.Asks? {
      hide Next, Decided;
      AskTells(w, id, ev.verdict, starts[0], verdicts);
    }
  }

  lemma {:induction false} RunTells(past: seq<Event>, w: World, evs: seq<Event>, id: RequestId)
    requires Possible(w, evs) && Told(w, id, Starting(past, id), Verdicts(past, id))
    ensures Told(Run(w, evs), id, Starting(past + evs, id), Verdicts(past + evs, id))
    ensures Run(w, evs).maxHops == w.maxHops
    decreases |evs|
  {
    hide Told, Legal;
    if evs == [] {
      assert past + evs == past;
    } else {
      assert past + evs == past + [evs[0]] + evs[1..];
      Then(past, evs[0]);
      NextTells(w, evs[0], id, Starting(past, id), Verdicts(past, id));
      RunTells(past + [evs[0]], Next(w, evs[0]), evs[1..], id);
    }
  }

  /**
   In every run, and for any number of hops, a request stands as its own events say, however others'
   interleave: it is booked and served, with the whole answer, as was decided when it was first asked;
   what would be decided when it is asked again changes nothing.
   */
  lemma FirstVerdictStands(maxHops: nat, evs: seq<Event>, id: RequestId)
    requires Possible(New(maxHops), evs)
    ensures Run(New(maxHops), evs).maxHops == maxHops
    ensures Told(Run(New(maxHops), evs), id, Starting(evs, id), Verdicts(evs, id))
  {
    hide Run, Possible;
    RunTells([], New(maxHops), evs, id);
    assert [] + evs == evs;
  }
}
