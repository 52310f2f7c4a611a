/** The decode engine's answers told by what happened to it: who asked when, and what each step was booked for. */
module DecodeEvents {
  import opened Basics
  import opened Decode
  import opened DecodeRuns
  import opened DecodeOutcomes

  /** When each step ended: when the latest booking before it said, the first of them `booked`. */
  function StepEnds(evs: seq<Event>, booked: real): seq<real> {
    if evs == [] then [] else
      match evs[0]
      case Begin(end) => StepEnds(evs[1..], end)
      case Land(end) => [booked] + StepEnds(evs[1..], end)
      case _ => StepEnds(evs[1..], booked)
  }

  /** Who asked, for how much, and when. Waiting moves the clock, and so does a step that lands. */
  function Asks(evs: seq<Event>, clock: real, booked: real): seq<Admission> {
    if evs == [] then [] else
      match evs[0]
      case Ask(outputTokens) => [Admission(outputTokens, clock)] + Asks(evs[1..], clock, booked)
      case Begin(end) => Asks(evs[1..], clock, end)
      case Land(end) => Asks(evs[1..], booked, end)
      case Wait(until) => Asks(evs[1..], until, booked)
      case Die => Asks(evs[1..], clock, booked)
  }

  /** What the step loop was last booked for. */
  function Booked(evs: seq<Event>, booked: real): real {
    if evs == [] then booked else Booked(evs[1..], if evs[0].Begin? || evs[0].Land? then evs[0].end else booked)
  }

  /** What one event does to the engine's record of time. */
  lemma NextTells(e: Engine, ev: Event)
    requires Inv(e) && Legal(e, ev)
    ensures var r := Next(e, ev);
      && r.ends == (if ev.Land? then e.ends + [e.loop.end] else e.ends)
      && r.admitted == (if ev.Ask? then e.admitted + [Admission(ev.outputTokens, e.now)] else e.admitted)
      && r.now == (if ev.Wait? then ev.until else if ev.Land? then e.loop.end else e.now)
      && (r.loop.InStep? && !ev.Begin? && !ev.Land? ==> r.loop == e.loop)
      && (e.loop.InStep? && (ev.Ask? || ev.Wait?) ==> r.loop == e.loop)
      && (!e.loop.InStep? && (ev.Ask? || ev.Wait?) ==> !r.loop.InStep?)
  {
    hide Inv, AfterStep, CeilDiv;
    LoopingOf(e);
    match ev
    case Land(_) =>
      StepIsAfterStep(e);
      AfterStepTells(e);
    case Die => ResolvedShape(e, e.batch + e.pending);
    case Ask(_) => {}
    case Begin(_) => {}
    case Wait(_) => {}
  }

  lemma AfterStepTells(e: Engine)
    requires e.loop.InStep? && |e.loop.members| <= |e.batch| && e.blockTokens > 0
    ensures var r := AfterStep(e);
      r.ends == e.ends + [e.loop.end] && r.admitted == e.admitted && r.now == e.loop.end
  {}

  /** A turn of the loop freezes the whole batch and ends when it was booked to, or is the last. */
  lemma BookingTells(e: Engine, ev: Event)
    requires Inv(e) && Legal(e, ev) && (ev.Begin? || ev.Land?)
    ensures Freezes(Next(e, ev), Next(e, ev), ev.end)
  {
    hide Inv, AfterStep, StepComplete;
    LoopingOf(e);
  }

  /** `r` waits out a step of everyone in the batch of `at`, until `end`; with nobody there, none. */
  ghost predicate Freezes(at: Engine, r: Engine, end: real) {
    if at.batch == [] then !r.loop.InStep? else
      && r.loop.InStep? && r.loop.end == end && |r.loop.members| == |at.batch|
      && forall i: nat :: i < |at.batch| ==> r.loop.members[i] == at.batch[i].id
  }

  lemma {:induction false} RunTells(e: Engine, evs: seq<Event>, booked: real)
    requires Inv(e) && Possible(e, evs) && (e.loop.InStep? ==> e.loop.end == booked)
    ensures var r := Run(e, evs);
      && r.ends == e.ends + StepEnds(evs, booked)
      && r.admitted == e.admitted + Asks(evs, e.now, booked)
      && (r.loop.InStep? ==> r.loop.end == Booked(evs, booked))
    decreases |evs|
  {
    hide Inv, Next;
    if evs != [] {
      var ev := evs[0];
      NextKeepsInv(e, ev);
      NextTells(e, ev);
      if ev.Begin? || ev.Land? { BookingTells(e, ev); }
      LoopingOf(e);
      RunTells(Next(e, ev), evs[1..], if ev.Begin? || ev.Land? then ev.end else booked);
    }
  }

  /**
   In every run of a new engine each step ended at what it was booked for, a step under way ends at
   what was booked last, and everyone is on record as having asked when and for what they did.
   */
  lemma EveryRunKeepsTime(maxBatch: int, blockTokens: nat, evs: seq<Event>)
    requires blockTokens > 0 && Inv(Fresh(maxBatch, blockTokens)) && Possible(Fresh(maxBatch, blockTokens), evs)
    ensures var r := Run(Fresh(maxBatch, blockTokens), evs);
      && r.ends == StepEnds(evs, 0.0)
      && r.admitted == Asks(evs, 0.0, 0.0)
      && (r.loop.InStep? ==> r.loop.end == Booked(evs, 0.0))
  {
    hide Inv, Run, Possible, StepEnds, Asks, Booked;
    RunTells(Fresh(maxBatch, blockTokens), evs, 0.0);
    assert [] + StepEnds(evs, 0.0) == StepEnds(evs, 0.0) && [] + Asks(evs, 0.0, 0.0) == Asks(evs, 0.0, 0.0);
  }

  // ----- runs in two parts ----------------------------------------------------------------

  lemma {:induction false} RunOn(e: Engine, first: seq<Event>, rest: seq<Event>)
    requires Inv(e) && Possible(e, first + rest)
    ensures Possible(e, first) && Possible(Run(e, first), rest)
    ensures Run(e, first + rest) == Run(Run(e, first), rest)
    decreases |first|
  {
    hide Inv, Next;
    LoopingOf(e);
    if first == [] {
      assert first + rest == rest;
    } else {
      assert (first + rest)[1..] == first[1..] + rest;
      NextKeepsInv(e, first[0]);
      RunOn(Next(e, first[0]), first[1..], rest);
    }
  }

  lemma {:induction false} StillFrozen(at: Engine, e: Engine, end: real, evs: seq<Event>)
    requires Inv(e) && Possible(e, evs) && (forall ev :: ev in evs ==> ev.Ask? || ev.Wait?) && Freezes(at, e, end)
    ensures Freezes(at, Run(e, evs), end)
    decreases |evs|
  {
    hide Inv, Next;
    if evs != [] {
      assert evs[0] in evs;
      LoopingOf(e);
      NextKeepsInv(e, evs[0]);
      NextTells(e, evs[0]);
      StillFrozen(at, Next(e, evs[0]), end, evs[1..]);
    }
  }

  /**
   In every run, from a booking on and until it lands, the step is of exactly those in the batch when
   it was booked, and ends when it was booked to, whoever asks meanwhile. With an empty batch there is none.
   */
  lemma StepIsFrozen(maxBatch: int, blockTokens: nat, before: seq<Event>, booking: Event, since: seq<Event>)
    requires blockTokens > 0 && Inv(Fresh(maxBatch, blockTokens)) && (booking.Begin? || booking.Land?)
    requires Possible(Fresh(maxBatch, blockTokens), before + [booking] + since)
    requires forall ev :: ev in since ==> ev.Ask? || ev.Wait?
    ensures Possible(Fresh(maxBatch, blockTokens), before + [booking])
    ensures Freezes(Run(Fresh(maxBatch, blockTokens), before + [booking]),
              Run(Fresh(maxBatch, blockTokens), before + [booking] + since), booking.end)
  {
    hide Inv, Next, Freezes;
    var e := Fresh(maxBatch, blockTokens);
    RunOn(e, before + [booking], since);
    var at := Last2(e, before, booking);
    LoopingOf(at);
    BookingTells(at, booking);
    StillFrozen(Next(at, booking), Next(at, booking), booking.end, since);
  }

  lemma Last2(e: Engine, before: seq<Event>, ev: Event) returns (at: Engine)
    requires Inv(e) && Possible(e, before + [ev])
    ensures Possible(e, before) && at == Run(e, before) && Legal(at, ev) && Run(e, before + [ev]) == Next(at, ev)
  {
    hide Inv, Next;
    RunOn(e, before, [ev]);
    at := Run(e, before);
    LoopingOf(at);
    assert [ev][1..] == [];
    NextKeepsInv(at, ev);
  }

  // ----- whose token is whose -------------------------------------------------------------

  /** A request has these tokens so far: in its answer, or in its slot while it has none. */
  ghost predicate Has(e: Engine, id: nat, tokens: seq<Token>) {
    || (id in e.answers && e.answers[id].Generated? && e.answers[id].tokens == tokens)
    || exists s :: s in e.batch + e.pending && s.id == id && s.tokens == tokens
  }

  lemma MemberGains(e: Engine, place: nat, tokens: seq<Token>)
    requires Inv(e) && e.loop.InStep? && place < |e.loop.members| && Has(e, e.loop.members[place], tokens)
    ensures Has(AfterStep(e), e.loop.members[place], tokens + [Token(|e.ends|, place)])
  {
    hide Kept, Answered, SlotsOk, AnswersOk, Packed, Barred, Accounted, Increasing;
    LoopingOf(e);
    FrontIncreasing(e);
    BatchIsUnanswered(e);
    var s, all := e.batch[place], e.batch + e.pending;
    assert s.id == e.loop.members[place] by { assert Ids(e.batch)[..|e.loop.members|][place] == s.id; }
    assert s in e.batch && all[place] == s;
    var t :| t in all && t.id == s.id && t.tokens == tokens;
    var n: nat :| n < |all| && all[n] == t;
    SameId(all, n, place);
    MemberEmits(e, place);
  }

  lemma MemberEmits(e: Engine, place: nat)
    requires e.loop.InStep? && place < |e.loop.members| <= |e.batch| && e.blockTokens > 0 && Increasing(Front(e))
    ensures Has(AfterStep(e), e.batch[place].id, e.batch[place].tokens + [Token(|e.ends|, place)])
  {
    hide Kept, Answered, Increasing;
    var s, r, step, end := e.batch[place], AfterStep(e), |e.ends|, e.loop.end;
    var a := Advanced(s, Token(step, place), end);
    assert Front(e)[place] == s;
    if s.remaining != 1 {
      KeptCovers(Front(e), 0, step, end, place);
      assert a in r.batch + r.pending;
    } else {
      AnsweredKeys(Front(e), 0, step, end, e.blockTokens);
      assert Last(Front(e), s.id);
      var j := AnsweredValue(Front(e), 0, step, end, e.blockTokens, s.id);
      SameId(Front(e), place, j);
      assert a.tokens == s.tokens + [Token(step, place)];
    }
  }

  lemma FrontAreMembers(e: Engine)
    requires Looping(e) && e.loop.InStep?
    ensures |e.loop.members| <= |e.batch| && forall s :: s in Front(e) ==> s.id in e.loop.members
  {
    forall i: nat | i < |e.loop.members|
      ensures e.batch[i].id in e.loop.members
    {
      assert Ids(e.batch)[..|e.loop.members|][i] == e.batch[i].id;
    }
  }

  lemma OtherKeeps(e: Engine, id: nat, tokens: seq<Token>)
    requires Inv(e) && e.loop.InStep? && id !in e.loop.members && Has(e, id, tokens)
    ensures Has(AfterStep(e), id, tokens)
  {
    hide Kept, Answered, SlotsOk, AnswersOk, Packed, Barred, Accounted, Increasing;
    LoopingOf(e);
    var r := AfterStep(e);
    StepAnswersAreNew(e);
    if s :| s in e.batch + e.pending && s.id == id && s.tokens == tokens {
      AfterStepSlots(e);
      FrontAreMembers(e);
      assert s in Rest(e) && s in r.batch + r.pending;
    }
  }

  lemma LandThenTurns(e: Engine, end: real)
    requires Inv(e) && Legal(e, Land(end))
    ensures |e.loop.members| <= |e.batch| && Next(e, Land(end)) == AfterStep(e).(loop := Next(e, Land(end)).loop)
  {
    hide Inv, AfterStep, StepComplete;
    LoopingOf(e);
    StepIsAfterStep(e);
  }

  lemma TurnHas(e: Engine, r: Engine, id: nat, tokens: seq<Token>)
    requires r == e.(loop := r.loop) && Has(e, id, tokens)
    ensures Has(r, id, tokens)
  {}

  /**
   In every run a step that lands gives each member one token, the one made for its place in the
   step, behind those it had; everyone else's tokens are what they were.
   */
  lemma EachMemberItsToken(maxBatch: int, blockTokens: nat, evs: seq<Event>, end: real)
    requires blockTokens > 0 && Inv(Fresh(maxBatch, blockTokens))
    requires Possible(Fresh(maxBatch, blockTokens), evs + [Land(end)])
    ensures Possible(Fresh(maxBatch, blockTokens), evs)
    ensures var e, r := Run(Fresh(maxBatch, blockTokens), evs), Run(Fresh(maxBatch, blockTokens), evs + [Land(end)]);
      && e.loop.InStep?
      && (forall place: nat, tokens :: place < |e.loop.members| && Has(e, e.loop.members[place], tokens) ==>
            Has(r, e.loop.members[place], tokens + [Token(|StepEnds(evs, 0.0)|, place)]))
      && (forall id: nat, tokens :: id !in e.loop.members && Has(e, id, tokens) ==> Has(r, id, tokens))
  {
    hide Inv, Next, AfterStep, Has, StepEnds;
    var e := Last2(Fresh(maxBatch, blockTokens), evs, Land(end));
    EveryRunKeepsTime(maxBatch, blockTokens, evs);
    LoopingOf(e);
    StepIsAfterStep(e);
    var r := Next(e, Land(end));
    LandThenTurns(e, end);
    forall place: nat, tokens | place < |e.loop.members| && Has(e, e.loop.members[place], tokens)
      ensures Has(r, e.loop.members[place], tokens + [Token(|e.ends|, place)])
    {
      MemberGains(e, place, tokens);
      TurnHas(AfterStep(e), r, e.loop.members[place], tokens + [Token(|e.ends|, place)]);
    }
    forall id: nat, tokens | id !in e.loop.members && Has(e, id, tokens)
      ensures Has(r, id, tokens)
    {
      OtherKeeps(e, id, tokens);
      TurnHas(AfterStep(e), r, id, tokens);
    }
  }

  // ----- what an answer holds -------------------------------------------------------------

  function EndOf(ends: seq<real>, t: Token): real {
    if t.step < |ends| then ends[t.step] else 0.0
  }

  /** How long the `i`-th token kept its caller waiting: since the one before, or since it asked. */
  function Gap(ends: seq<real>, at: real, tokens: seq<Token>, i: nat): real
    requires i < |tokens|
  {
    EndOf(ends, tokens[i]) - if i == 0 then at else EndOf(ends, tokens[i - 1])
  }

  /** All of the output but its first token, from consecutive steps; their KV; and the longest wait. */
  ghost predicate Promised(blockTokens: nat, ask: Admission, ends: seq<real>, a: Answer)
    requires a.Generated?
  {
    var n := |a.tokens|;
    && n == (if ask.outputTokens <= 1 then 0 else ask.outputTokens - 1)
    && (a.kv - 1) * blockTokens < n <= a.kv * blockTokens
    && (forall i: nat :: i < n ==> a.tokens[i].step == a.tokens[0].step + i && a.tokens[i].step < |ends|)
    && (forall i: nat :: i < n ==> Gap(ends, ask.at, a.tokens, i) <= a.tbtMax)
    && (a.tbtMax == 0.0 || exists i: nat :: i < n && a.tbtMax == Gap(ends, ask.at, a.tokens, i))
  }

  lemma {:induction false} InstantsAt(ends: seq<real>, at: real, tokens: seq<Token>, i: nat)
    requires i <= |tokens|
    ensures Instants(ends, at, tokens)[i] == if i == 0 then at else EndOf(ends, tokens[i - 1])
    decreases |tokens|
  {
    if i < |tokens| { InstantsAt(ends, at, tokens[..|tokens| - 1], i); }
  }

  lemma WorstIsLongest(ends: seq<real>, at: real, tokens: seq<Token>)
    ensures var worst := WorstGap(Instants(ends, at, tokens));
      && (forall i: nat :: i < |tokens| ==> Gap(ends, at, tokens, i) <= worst)
      && (worst == 0.0 || exists i: nat :: i < |tokens| && worst == Gap(ends, at, tokens, i))
  {
    hide Instants, WorstGap;
    var ts := Instants(ends, at, tokens);
    GapsTelescope(ts);
    forall i: nat | i < |tokens|
      ensures Gap(ends, at, tokens, i) <= WorstGap(ts)
    {
      assert 0 < i + 1 < |ts| && ts[i + 1] - ts[i + 1 - 1] <= WorstGap(ts);
      InstantsAt(ends, at, tokens, i);
      InstantsAt(ends, at, tokens, i + 1);
    }
    if i: nat :| 0 < i < |ts| && WorstGap(ts) == ts[i] - ts[i - 1] {
      InstantsAt(ends, at, tokens, i);
      InstantsAt(ends, at, tokens, i - 1);
      assert WorstGap(ts) == Gap(ends, at, tokens, i - 1);
    }
  }

  /**
   In every run of a new engine an answer with tokens is what its caller's request was owed, timed by
   the steps as they were booked: nothing of the engine but the answers themselves is named here.
   */
  lemma EveryAnswerIsOwed(maxBatch: int, blockTokens: nat, evs: seq<Event>)
    requires blockTokens > 0 && Inv(Fresh(maxBatch, blockTokens)) && Possible(Fresh(maxBatch, blockTokens), evs)
    ensures var answers, asks := Run(Fresh(maxBatch, blockTokens), evs).answers, Asks(evs, 0.0, 0.0);
      forall id: nat :: id in answers ==>
        && id < |asks|
        && (answers[id].Generated? ==> Promised(blockTokens, asks[id], StepEnds(evs, 0.0), answers[id]))
  {
    hide Inv, Run, Possible, StepEnds, Asks, Booked, Promised, Consecutive;
    var e := Fresh(maxBatch, blockTokens);
    EveryRunKeepsTime(maxBatch, blockTokens, evs);
    EveryRunAnswersOnce(e, evs);
    var r := Run(e, evs);
    forall id: nat | id in r.answers && r.answers[id].Generated?
      ensures Promised(blockTokens, r.admitted[id], r.ends, r.answers[id])
    {
      AnswerPromised(blockTokens, r.admitted[id], r.ends, r.answers[id]);
    }
  }

  lemma AnswerPromised(blockTokens: nat, ask: Admission, ends: seq<real>, a: Answer)
    requires blockTokens > 0 && a.Generated? && |a.tokens| == Owed(ask.outputTokens)
    requires a.kv == CeilDiv(|a.tokens|, blockTokens) && Consecutive(a.tokens, |ends|)
    requires a.tbtMax == WorstGap(Instants(ends, ask.at, a.tokens))
    ensures Promised(blockTokens, ask, ends, a)
  {
    hide Instants, WorstGap, Gap;
    WorstIsLongest(ends, ask.at, a.tokens);
    CeilDivIs(|a.tokens|, blockTokens, a.kv);
  }
}
