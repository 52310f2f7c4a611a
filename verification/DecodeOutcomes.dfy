/** What the decode engine promises its callers over whole runs. */
module DecodeOutcomes {
  import opened Basics
  import opened Decode
  import opened DecodeRuns

  ghost predicate Possible(e: Engine, evs: seq<Event>)
    requires Inv(e)
    decreases |evs|
  {
    evs == [] || (Legal(e, evs[0]) && (NextKeepsInv(e, evs[0]); Possible(Next(e, evs[0]), evs[1..])))
  }

  ghost function Run(e: Engine, evs: seq<Event>): (r: Engine)
    requires Inv(e) && Possible(e, evs)
    ensures Inv(r)
    decreases |evs|
  {
    if evs == [] then e else
      NextKeepsInv(e, evs[0]);
      Run(Next(e, evs[0]), evs[1..])
  }

  lemma FreshInv(maxBatch: int, blockTokens: nat)
    requires blockTokens > 0
    ensures Inv(Fresh(maxBatch, blockTokens))
  {}

  // ----- one answer each ------------------------------------------------------------------

  /** An answer once given is never touched, nor a request's terms. */
  ghost predicate Extends(e: Engine, r: Engine) {
    && (forall id :: id in e.answers ==> id in r.answers && r.answers[id] == e.answers[id])
    && |e.admitted| <= |r.admitted| && r.admitted[..|e.admitted|] == e.admitted
    && r.maxBatch == e.maxBatch && r.blockTokens == e.blockTokens
  }

  lemma StepAnswersAreNew(e: Engine)
    requires Inv(e) && e.loop.InStep?
    ensures Extends(e, AfterStep(e))
  {
    hide Kept, Answered, Increasing, SlotsOk, AnswersOk, Packed, Barred;
    var r := AfterStep(e);
    var answered := Answered(Front(e), 0, |e.ends|, e.loop.end, e.blockTokens);
    forall id | id in answered
      ensures id !in e.answers
    {
      var i := AnsweredValue(Front(e), 0, |e.ends|, e.loop.end, e.blockTokens, id);
      assert e.batch[i] in e.batch + e.pending;
    }
  }

  lemma NextExtends(e: Engine, ev: Event)
    requires Inv(e) && Legal(e, ev)
    ensures Extends(e, Next(e, ev))
  {
    hide Inv, AfterStep;
    match ev
    case Ask(n) => AskExtends(e, n);
    case Begin(_) => {}
    case Wait(_) => {}
    case Die => ResolvedShape(e, e.batch + e.pending);
    case Land(_) => {
      StepIsAfterStep(e);
      StepAnswersAreNew(e);
    }
  }

  lemma AskExtends(e: Engine, outputTokens: int)
    requires Inv(e)
    ensures e.blockTokens > 0 && Extends(e, Admit(e, outputTokens))
  {
    hide Increasing, SlotsOk, AnswersOk, Packed, Barred, Looping, CeilDiv;
    assert |e.admitted| !in e.answers;
  }

  /**
   Over every run from a new engine, each admitted request is answered once or still outstanding,
   and an answer carries exactly the tokens owed, one from each of consecutive steps, with their KV
   in whole blocks and the worst of their gaps.
   */
  lemma {:induction false} EveryRunAnswersOnce(e: Engine, evs: seq<Event>)
    requires Inv(e) && Possible(e, evs)
    ensures var r := Run(e, evs);
      && !r.twice && Extends(e, r)
      && (forall id: nat :: id < |r.admitted| <==> id in r.answers || Waiting(r.batch + r.pending, id))
      && (forall id: nat :: id in r.answers ==> !Waiting(r.batch + r.pending, id))
      && (forall id: nat :: id in r.answers && r.answers[id].Generated? ==>
            && |r.answers[id].tokens| == Owed(r.admitted[id].outputTokens)
            && r.answers[id].kv == CeilDiv(|r.answers[id].tokens|, r.blockTokens)
            && Consecutive(r.answers[id].tokens, |r.ends|)
            && r.answers[id].tbtMax == WorstGap(Instants(r.ends, r.admitted[id].at, r.answers[id].tokens)))
    decreases |evs|
  {
    hide Increasing, SlotsOk, Packed, Looping, Barred, Instants, WorstGap, Consecutive, CeilDiv;
    if evs != [] {
      NextKeepsInv(e, evs[0]);
      NextExtends(e, evs[0]);
      EveryRunAnswersOnce(Next(e, evs[0]), evs[1..]);
    }
  }

  // ----- whole blocks ---------------------------------------------------------------------

  /** The KV an answer carries is the least number of blocks that hold its tokens. */
  lemma CeilDivIsLeast(tokens: nat, blockTokens: nat, n: nat)
    requires blockTokens > 0
    ensures n * blockTokens >= tokens <==> n >= CeilDiv(tokens, blockTokens)
  {
    var k := CeilDiv(tokens, blockTokens);
    CeilDivIs(tokens, blockTokens, k);
    if n >= k { Scaled(k, n, blockTokens); } else { Scaled(n, k - 1, blockTokens); }
  }

  // ----- no answer is lost ----------------------------------------------------------------

  predicate Serving(evs: seq<Event>) {
    forall ev :: ev in evs ==> !ev.Ask? && !ev.Die?
  }

  function Landings(evs: seq<Event>): nat {
    if evs == [] then 0 else (if evs[0].Land? then 1 else 0) + Landings(evs[1..])
  }

  lemma {:induction false} WorkCovers(slots: seq<Slot>)
    requires forall s :: s in slots ==> s.remaining >= 1
    ensures Work(slots) >= |slots|
  {
    if slots != [] { WorkCovers(slots[1..]); }
  }

  /** With nobody new, every step brings the end nearer, whatever the steps take. */
  lemma {:induction false} StepsAreBounded(e: Engine, evs: seq<Event>)
    requires Inv(e) && Possible(e, evs) && Serving(evs)
    ensures var r := Run(e, evs);
      Landings(evs) + Work(r.batch + r.pending) <= Work(e.batch + e.pending)
    decreases |evs|
  {
    hide Inv, Work, AfterStep;
    if evs != [] {
      LoopingOf(e);
      assert evs[0] in evs;
      NextKeepsInv(e, evs[0]);
      if evs[0].Land? {
        StepIsAfterStep(e);
        StepSpends(e);
      }
      StepsAreBounded(Next(e, evs[0]), evs[1..]);
    }
  }

  /** Once the steps have done all the work there was, everyone admitted has been answered. */
  lemma EnoughStepsAnswerAll(e: Engine, evs: seq<Event>)
    requires Inv(e) && Possible(e, evs) && Serving(evs) && Landings(evs) >= Work(e.batch + e.pending)
    ensures var r := Run(e, evs);
      r.batch == r.pending == [] && forall id: nat :: id < |r.admitted| ==> id in r.answers
  {
    StepsAreBounded(e, evs);
    EveryRunAnswersOnce(e, evs);
    hide Increasing, AnswersOk, Packed, Looping, Barred, Instants, WorstGap, Consecutive;
    WorkCovers(Run(e, evs).batch + Run(e, evs).pending);
  }

  /** While anything is in the batch the loop can take its next turn, however long steps take. */
  lemma LoopNeverStalls(e: Engine, cost: real)
    requires Inv(e) && e.batch != [] && cost >= 0.0
    ensures (e.loop.Created? && Legal(e, Begin(e.now + cost))) || (e.loop.InStep? && Legal(e, Land(e.loop.end + cost)))
  {}

  /**
   When the loop has gone idle everyone has been answered, exactly when the engine has a slot or
   nobody asked for more than a first token. At `max_batch <= 0` a request waits forever.
   */
  lemma IdleAnswersAllIff(maxBatch: int, blockTokens: nat, evs: seq<Event>)
    requires blockTokens > 0 && Inv(Fresh(maxBatch, blockTokens)) && Possible(Fresh(maxBatch, blockTokens), evs)
    requires Run(Fresh(maxBatch, blockTokens), evs).loop.Idle?
    ensures var r := Run(Fresh(maxBatch, blockTokens), evs);
      (forall id: nat :: id < |r.admitted| ==> id in r.answers)
        <==> (maxBatch >= 1 || forall id: nat :: id < |r.admitted| ==> r.admitted[id].outputTokens <= 1)
  {
    var r := Run(Fresh(maxBatch, blockTokens), evs);
    EveryRunAnswersOnce(Fresh(maxBatch, blockTokens), evs);
    hide Run, Possible, Increasing, WorstGap, Instants;
    if maxBatch >= 1 {
      assert r.batch + r.pending == [];
    } else {
      forall id: nat | id < |r.admitted|
        ensures id in r.answers <==> Owed(r.admitted[id].outputTokens) == 0
      {
        UnservedIff(r, id);
      }
    }
  }

  /** No slot, one request owed a token: the loop is idle and the request waits. */
  lemma NoSlotNoAnswer()
    ensures var e := Fresh(0, 1);
      && Inv(e) && Possible(e, [Ask(2)])
      && var r := Run(e, [Ask(2)]);
         r.loop.Idle? && |r.admitted| == 1 && 0 !in r.answers && |r.pending| == 1
  {
    FreshInv(0, 1);
    var r := Next(Fresh(0, 1), Ask(2));
    NextKeepsInv(Fresh(0, 1), Ask(2));
    assert [Ask(2)][1..] == [] && Run(r, []) == r;
  }

  lemma UnservedIff(e: Engine, id: nat)
    requires Inv(e) && e.maxBatch <= 0 && id < |e.admitted|
    ensures id in e.answers <==> Owed(e.admitted[id].outputTokens) == 0
  {
    hide Increasing, Packed, Looping, Instants, WorstGap;
    if id !in e.answers {
      var s :| s in e.batch + e.pending && s.id == id;
    }
  }

  // ----- first come, first decoded --------------------------------------------------------

  /** A request's first token came from step `k`. */
  ghost predicate First(e: Engine, id: nat, k: nat) {
    (id in e.answers && FirstOf(e.answers[id], k)) || exists s :: s in e.batch && s.id == id && FromStep(s.tokens, k)
  }

  ghost predicate FirstOf(a: Answer, k: nat) {
    a.Generated? && FromStep(a.tokens, k)
  }

  ghost predicate FromStep(tokens: seq<Token>, k: nat) {
    tokens != [] && tokens[0].step == k
  }

  ghost predicate StartedBy(e: Engine, id: nat, k: nat) {
    exists j: nat :: j <= k && First(e, id, j)
  }

  /** A request that has a token to come, and was not failed with the loop. */
  ghost predicate Due(e: Engine, id: nat) {
    id < |e.admitted| && Owed(e.admitted[id].outputTokens) > 0 && !(id in e.answers && e.answers[id].Abandoned?)
  }

  /** Nobody admitted later has a first token from an earlier step. */
  ghost predicate InTurn(e: Engine) {
    forall i: nat, j: nat, k: nat ::
      (i < j < |e.admitted| && First(e, j, k) && Due(e, i)) ==> StartedBy(e, i, k)
  }

  lemma SameId(slots: seq<Slot>, i: nat, j: nat)
    requires Increasing(slots) && i < |slots| && j < |slots| && slots[i].id == slots[j].id
    ensures i == j
  {
    assert forall a: nat, b: nat :: a < b < |slots| ==> slots[a].id < slots[b].id;
  }

  lemma Earlier(e: Engine, i: nat, j: nat, k: nat) returns (h: nat)
    requires InTurn(e) && i < j < |e.admitted| && First(e, j, k) && Due(e, i)
    ensures h <= k && First(e, i, h)
  {
    assert StartedBy(e, i, k);
    h :| h <= k && First(e, i, h);
  }

  /** A member of the step has its first token from it, or keeps the one it had. */
  lemma MemberStarts(e: Engine, i: nat)
    requires Inv(e) && e.loop.InStep? && i < |Front(e)|
    ensures var s := e.batch[i];
      First(AfterStep(e), s.id, if s.tokens == [] then |e.ends| else s.tokens[0].step)
  {
    hide Kept, Answered, Increasing, SlotsOk, AnswersOk, Packed, Barred, Accounted, Looping;
    LoopingOf(e);
    var s, r := e.batch[i], AfterStep(e);
    var a := Advanced(s, Token(|e.ends|, i), e.loop.end);
    FrontIncreasing(e);
    AnsweredKeys(Front(e), 0, |e.ends|, e.loop.end, e.blockTokens);
    assert Front(e)[i] == s && a.tokens[0] == (if s.tokens == [] then Token(|e.ends|, i) else s.tokens[0]);
    if s.remaining != 1 {
      KeptCovers(Front(e), 0, |e.ends|, e.loop.end, i);
      assert a in r.batch;
    } else {
      assert Last(Front(e), s.id);
      var j := AnsweredValue(Front(e), 0, |e.ends|, e.loop.end, e.blockTokens, s.id);
      SameId(Front(e), i, j);
    }
  }

  lemma FirstStays(e: Engine, id: nat, k: nat)
    requires Inv(e) && e.loop.InStep? && First(e, id, k)
    ensures First(AfterStep(e), id, k)
  {
    hide AfterStep, Increasing, AnswersOk, Packed, Barred, Accounted;
    StepAnswersAreNew(e);
    if !(id in e.answers && FirstOf(e.answers[id], k)) {
      var s :| s in e.batch && s.id == id && FromStep(s.tokens, k);
      var i: nat :| i < |e.batch| && e.batch[i] == s;
      MemberStarts(e, i);
    }
  }

  lemma FirstOrigin(e: Engine, id: nat, k: nat)
    requires Inv(e) && e.loop.InStep? && First(AfterStep(e), id, k)
    ensures First(e, id, k) || (k == |e.ends| && Waiting(Front(e), id))
  {
    hide Kept, Answered, Increasing, SlotsOk, AnswersOk, Packed, Barred, Accounted, Looping;
    LoopingOf(e);
    var r := AfterStep(e);
    if id in r.answers && FirstOf(r.answers[id], k) {
      if id in Answered(Front(e), 0, |e.ends|, e.loop.end, e.blockTokens) {
        var i := AnsweredValue(Front(e), 0, |e.ends|, e.loop.end, e.blockTokens, id);
        assert e.batch[i] in e.batch && e.batch[i] in Front(e);
      }
    } else {
      var t :| t in r.batch && t.id == id && FromStep(t.tokens, k);
      if t in Kept(Front(e), 0, |e.ends|, e.loop.end) {
        var i := KeptOrigin(Front(e), 0, |e.ends|, e.loop.end, t);
        assert e.batch[i] in e.batch && e.batch[i] in Front(e);
      } else {
        RestHasNone(e, t);
      }
    }
  }

  lemma RestHasNone(e: Engine, t: Slot)
    requires Inv(e) && e.loop.InStep? && t in Rest(e)
    ensures t.tokens == []
  {
    RestIsNew(e, t);
  }

  /** Ahead of a member of the step is an answered request or another member. */
  lemma AheadOfMember(e: Engine, i: nat, j: nat)
    requires Inv(e) && e.loop.InStep? && i < j < |e.admitted| && Waiting(Front(e), j)
    ensures i in e.answers || Waiting(Front(e), i)
  {
    hide SlotsOk, AnswersOk, Packed, Barred, Looping;
    LoopingOf(e);
    AfterStepSlots(e);
    if i !in e.answers {
      WaitingConcat(Front(e), Rest(e), i);
      if Waiting(Rest(e), i) {
        var s :| s in Front(e) && s.id == j;
        var m: nat :| m < |Front(e)| && Front(e)[m] == s;
        var t :| t in Rest(e) && t.id == i;
        var n: nat :| n < |Rest(e)| && Rest(e)[n] == t;
        Before(Front(e), Rest(e), m, n);
      }
    }
  }

  lemma LandInTurn(e: Engine)
    requires Inv(e) && e.loop.InStep? && InTurn(e)
    ensures InTurn(AfterStep(e))
  {
    hide Inv, Kept, Answered, AfterStep, First;
    LoopingOf(e);
    var r := AfterStep(e);
    StepAnswersAreNew(e);
    AfterStepTerms(e);
    forall i: nat, j: nat, k: nat | i < j < |r.admitted| && First(r, j, k) && Due(r, i)
      ensures StartedBy(r, i, k)
    {
      FirstOrigin(e, j, k);
      if First(e, j, k) {
        var h := Earlier(e, i, j, k);
        FirstStays(e, i, h);
      } else {
        AheadOfMember(e, i, j);
        StartsByNow(e, i);
      }
    }
  }

  lemma AfterStepTerms(e: Engine)
    requires e.loop.InStep? && |e.loop.members| <= |e.batch| && e.blockTokens > 0
    ensures AfterStep(e).admitted == e.admitted
  {}

  lemma StartsByNow(e: Engine, id: nat)
    requires Inv(e) && e.loop.InStep? && id < |e.admitted| && Owed(e.admitted[id].outputTokens) > 0
    requires (id in e.answers && e.answers[id].Generated?) || Waiting(Front(e), id)
    ensures StartedBy(AfterStep(e), id, |e.ends|)
  {
    hide AfterStep, Increasing, Packed, Barred, Accounted, Instants, WorstGap;
    if id in e.answers && e.answers[id].Generated? {
      var k := e.answers[id].tokens[0].step;
      assert First(e, id, k);
      FirstStays(e, id, k);
    } else {
      var s :| s in Front(e) && s.id == id;
      var i: nat :| i < |Front(e)| && Front(e)[i] == s;
      assert e.batch[i] == s && s in e.batch;
      MemberStarts(e, i);
    }
  }

  lemma TurnInTurn(e: Engine, r: Engine)
    requires InTurn(e) && r == e.(loop := r.loop, now := r.now)
    ensures InTurn(r)
  {
    hide FromStep, FirstOf;
    forall i: nat, j: nat, k: nat | i < j < |r.admitted| && First(r, j, k) && Due(r, i)
      ensures StartedBy(r, i, k)
    {
      var h := Earlier(e, i, j, k);
      assert First(r, i, h);
    }
  }

  lemma AskInTurn(e: Engine, outputTokens: int)
    requires Inv(e) && InTurn(e)
    ensures InTurn(Next(e, Ask(outputTokens)))
  {
    hide SlotsOk, AnswersOk, Barred, Packed, Looping, Increasing, FirstOf, FromStep;
    var r := Next(e, Ask(outputTokens));
    forall i: nat, k: nat
      ensures First(r, i, k) == First(e, i, k)
    {
      AskedFirsts(e, outputTokens, i, k);
    }
    forall i: nat, j: nat, k: nat | i < j < |r.admitted| && First(r, j, k) && Due(r, i)
      ensures StartedBy(r, i, k)
    {
      AskedHasNone(e, j, k);
      assert r.admitted[i] == e.admitted[i];
      var h := Earlier(e, i, j, k);
      assert First(r, i, h);
    }
  }

  lemma AskedFirsts(e: Engine, outputTokens: int, i: nat, k: nat)
    requires Inv(e)
    ensures First(Next(e, Ask(outputTokens)), i, k) == First(e, i, k)
  {
    hide SlotsOk, AnswersOk, Barred, Packed, Looping, Increasing, Waiting;
    assert |e.admitted| !in e.answers;
    var r := Next(e, Ask(outputTokens));
    var slot := Slot(|e.admitted|, Owed(outputTokens), e.now, 0.0, []);
    assert forall s :: s in r.batch && s != slot ==> s in e.batch;
    assert forall s :: s in e.batch ==> s in r.batch;
  }

  lemma AskedHasNone(e: Engine, j: nat, k: nat)
    requires Inv(e) && First(e, j, k)
    ensures j < |e.admitted|
  {
    hide SlotsOk, AnswersOk, Barred, Packed, Looping, Increasing;
    if j !in e.answers {
      var s :| s in e.batch && s.id == j && FromStep(s.tokens, k);
      assert s in e.batch + e.pending;
    }
  }

  lemma DieInTurn(e: Engine)
    requires Inv(e) && !e.loop.Idle? && InTurn(e)
    ensures InTurn(Abandon(e))
  {
    var r := Abandon(e);
    ResolvedShape(e, e.batch + e.pending);
    hide Inv, FromStep;
    assert forall i: nat, k: nat :: First(r, i, k) ==> First(e, i, k);
    forall i: nat, j: nat, k: nat | i < j < |r.admitted| && First(r, j, k) && Due(r, i)
      ensures StartedBy(r, i, k)
    {
      DieAnswers(e, i);
      var h := Earlier(e, i, j, k);
      AnsweredFirst(e, i, h);
      assert First(r, i, h);
    }
  }

  lemma DieAnswers(e: Engine, i: nat)
    requires Inv(e) && !e.loop.Idle? && Due(Abandon(e), i)
    ensures i in e.answers && e.answers[i].Generated?
  {
    DieKeepsInv(e);
    ResolvedShape(e, e.batch + e.pending);
  }

  lemma AnsweredFirst(e: Engine, i: nat, k: nat)
    requires Inv(e) && i in e.answers && First(e, i, k)
    ensures FirstOf(e.answers[i], k)
  {
    hide SlotsOk, AnswersOk, Barred, Packed, Looping, Increasing;
    forall s | s in e.batch
      ensures s.id != i
    {
      assert s in e.batch + e.pending;
    }
  }

  lemma {:induction false} RunStaysInTurn(e: Engine, evs: seq<Event>)
    requires Inv(e) && Possible(e, evs) && InTurn(e)
    ensures InTurn(Run(e, evs))
    decreases |evs|
  {
    hide InTurn, Extends, AfterStep;
    if evs != [] {
      NextKeepsInv(e, evs[0]);
      NextInTurn(e, evs[0]);
      RunStaysInTurn(Next(e, evs[0]), evs[1..]);
    }
  }

  /** In every run of a new engine, requests get their first decoded token in the order they were admitted. */
  lemma EveryRunInTurn(maxBatch: int, blockTokens: nat, evs: seq<Event>)
    requires blockTokens > 0 && Inv(Fresh(maxBatch, blockTokens)) && Possible(Fresh(maxBatch, blockTokens), evs)
    ensures InTurn(Run(Fresh(maxBatch, blockTokens), evs))
  {
    FreshInTurn(maxBatch, blockTokens);
    hide *;
    RunStaysInTurn(Fresh(maxBatch, blockTokens), evs);
  }

  lemma FreshInTurn(maxBatch: int, blockTokens: nat)
    requires blockTokens > 0
    ensures InTurn(Fresh(maxBatch, blockTokens))
  {}

  lemma NextInTurn(e: Engine, ev: Event)
    requires Inv(e) && Legal(e, ev) && InTurn(e)
    ensures InTurn(Next(e, ev))
  {
    hide InTurn, AfterStep, SlotsOk, AnswersOk, Barred, Packed, Increasing, Accounted;
    match ev
    case Ask(n) => AskInTurn(e, n);
    case Die => DieInTurn(e);
    case Begin(_) => TurnInTurn(e, Next(e, ev));
    case Wait(_) => TurnInTurn(e, Next(e, ev));
    case Land(end) =>
      StepIsAfterStep(e);
      LandInTurn(e);
      TurnInTurn(AfterStep(e), Next(e, ev));
  }
}
