/** What every run of the decode engine keeps: order, occupancy, token counts, gaps and one answer each. */
module DecodeRuns {
  import opened Basics
  import opened Decode

  // ----- gaps between tokens --------------------------------------------------------------

  /** When a request was admitted and when each of its tokens landed. */
  function Instants(ends: seq<real>, at: real, tokens: seq<Token>): (ts: seq<real>)
    ensures |ts| == |tokens| + 1
    decreases |tokens|
  {
    if tokens == [] then [at] else
      var t := tokens[|tokens| - 1].step;
      Instants(ends, at, tokens[..|tokens| - 1]) + [if t < |ends| then ends[t] else 0.0]
  }

  /** The worst of the gaps between consecutive instants. */
  function WorstGap(ts: seq<real>): real {
    if |ts| <= 1 then 0.0 else Max(WorstGap(ts[..|ts| - 1]), ts[|ts| - 1] - ts[|ts| - 2])
  }

  function SumGaps(ts: seq<real>): real {
    if |ts| <= 1 then 0.0 else SumGaps(ts[..|ts| - 1]) + (ts[|ts| - 1] - ts[|ts| - 2])
  }

  /** The gaps telescope, and the worst of them is a bound that one of them meets. */
  lemma {:induction false} GapsTelescope(ts: seq<real>)
    requires ts != []
    ensures SumGaps(ts) == ts[|ts| - 1] - ts[0]
    ensures forall i: nat :: 0 < i < |ts| ==> ts[i] - ts[i - 1] <= WorstGap(ts)
    ensures WorstGap(ts) == 0.0 || exists i: nat :: 0 < i < |ts| && WorstGap(ts) == ts[i] - ts[i - 1]
  {
    if |ts| > 1 {
      var init := ts[..|ts| - 1];
      GapsTelescope(init);
      assert forall i: nat :: i < |init| ==> init[i] == ts[i];
      assert WorstGap(ts) == WorstGap(init) || WorstGap(ts) == ts[|ts| - 1] - ts[|ts| - 2];
    }
  }

  lemma Appended(ts: seq<real>, t: real)
    requires ts != []
    ensures WorstGap(ts + [t]) == Max(WorstGap(ts), t - ts[|ts| - 1])
  {
    assert (ts + [t])[..|ts|] == ts;
  }

  // ----- one request ----------------------------------------------------------------------

  /** One token from each of a stretch of consecutive steps, all of them over. */
  ghost predicate Consecutive(tokens: seq<Token>, steps: nat) {
    && (forall i: nat :: i < |tokens| ==> tokens[i].step == tokens[0].step + i)
    && (tokens != [] ==> tokens[0].step + |tokens| <= steps)
  }

  lemma {:induction false} InstantsStay(ends: seq<real>, end: real, at: real, tokens: seq<Token>)
    requires Consecutive(tokens, |ends|)
    ensures Instants(ends + [end], at, tokens) == Instants(ends, at, tokens)
    ensures Consecutive(tokens, |ends| + 1)
    decreases |tokens|
  {
    if tokens != [] {
      InstantsStay(ends, end, at, tokens[..|tokens| - 1]);
      assert tokens[|tokens| - 1].step < |ends|;
    }
  }

  /** What an outstanding slot records about its request. */
  ghost predicate SlotOk(admitted: seq<Admission>, ends: seq<real>, s: Slot) {
    && s.id < |admitted| && s.remaining >= 1
    && |s.tokens| + s.remaining == Owed(admitted[s.id].outputTokens)
    && Consecutive(s.tokens, |ends|)
    && var ts := Instants(ends, admitted[s.id].at, s.tokens);
       s.lastTokenTime == ts[|s.tokens|] && s.tbtMax == WorstGap(ts)
  }

  /** What a request is answered with: every token owed, their KV, and the worst gap. */
  ghost predicate AnswerOk(blockTokens: nat, admitted: seq<Admission>, ends: seq<real>, id: nat, a: Answer)
    requires blockTokens > 0
  {
    && id < |admitted|
    && (a.Generated? ==>
          && |a.tokens| == Owed(admitted[id].outputTokens)
          && a.kv == CeilDiv(|a.tokens|, blockTokens)
          && Consecutive(a.tokens, |ends|)
          && a.tbtMax == WorstGap(Instants(ends, admitted[id].at, a.tokens)))
  }

  /** In every step since its first. */
  ghost predicate Current(steps: nat, s: Slot) {
    s.tokens != [] ==> s.tokens[0].step + |s.tokens| == steps
  }

  /** A member's next token: one more, one fewer to go, and the gap it closes counted. */
  lemma AdvancedOk(admitted: seq<Admission>, ends: seq<real>, s: Slot, place: nat, end: real, blockTokens: nat)
    requires SlotOk(admitted, ends, s) && Current(|ends|, s) && blockTokens > 0
    ensures var a := Advanced(s, Token(|ends|, place), end);
      && Current(|ends| + 1, a)
      && (s.remaining != 1 ==> SlotOk(admitted, ends + [end], a))
      && (s.remaining == 1 ==> AnswerOk(blockTokens, admitted, ends + [end], s.id,
                                        Generated(a.tokens, CeilDiv(|a.tokens|, blockTokens), a.tbtMax)))
  {
    var a := Advanced(s, Token(|ends|, place), end);
    var at := admitted[s.id].at;
    InstantsStay(ends, end, at, s.tokens);
    assert a.tokens[..|s.tokens|] == s.tokens;
    assert Instants(ends + [end], at, a.tokens) == Instants(ends, at, s.tokens) + [end];
    Appended(Instants(ends, at, s.tokens), end);
  }

  /** Another step ending leaves what others recorded as it is. */
  lemma UnmovedOk(admitted: seq<Admission>, ends: seq<real>, end: real, s: Slot)
    requires SlotOk(admitted, ends, s)
    ensures SlotOk(admitted, ends + [end], s)
  {
    InstantsStay(ends, end, admitted[s.id].at, s.tokens);
  }

  lemma AnswerStaysOk(blockTokens: nat, admitted: seq<Admission>, ends: seq<real>, end: real, id: nat, a: Answer)
    requires blockTokens > 0 && AnswerOk(blockTokens, admitted, ends, id, a)
    ensures AnswerOk(blockTokens, admitted, ends + [end], id, a)
  {
    if a.Generated? { InstantsStay(ends, end, admitted[id].at, a.tokens); }
  }

  // ----- the whole engine -----------------------------------------------------------------

  ghost predicate SlotsOk(e: Engine) {
    && (forall s :: s in e.batch ==> SlotOk(e.admitted, e.ends, s) && Current(|e.ends|, s))
    && (forall s :: s in e.pending ==> SlotOk(e.admitted, e.ends, s) && s.tokens == [])
  }

  ghost predicate AnswersOk(e: Engine)
    requires e.blockTokens > 0
  {
    forall id :: id in e.answers ==> AnswerOk(e.blockTokens, e.admitted, e.ends, id, e.answers[id])
  }

  ghost predicate Waiting(slots: seq<Slot>, id: nat) {
    exists s :: s in slots && s.id == id
  }

  /** Every admitted request is answered or outstanding, and never both. */
  ghost predicate Accounted(e: Engine) {
    forall id: nat ::
      && (id < |e.admitted| <==> id in e.answers || Waiting(e.batch + e.pending, id))
      && !(id in e.answers && Waiting(e.batch + e.pending, id))
  }

  /** At most `maxBatch` decode at once, and none queues while there is room. */
  ghost predicate Packed(e: Engine) {
    && (e.batch == [] || |e.batch| <= e.maxBatch)
    && (e.pending != [] ==> |e.batch| >= e.maxBatch)
  }

  /** The loop runs exactly while there is a batch; its frozen members are the front of the batch. */
  ghost predicate Looping(e: Engine) {
    match e.loop
    case Idle => e.batch == []
    case Created => e.batch != [] && forall s :: s in e.batch ==> s.tokens == []
    case InStep(members, end) =>
      && members != [] && |members| <= |e.batch| && e.now <= end
      && Ids(e.batch)[..|members|] == members
      && forall i: nat :: |members| <= i < |e.batch| ==> e.batch[i].tokens == []
  }

  /** An engine with no slot at all never steps. */
  ghost predicate Barred(e: Engine) {
    e.maxBatch <= 0 ==> e.ends == [] && forall id :: id in e.answers ==> e.answers[id].Generated?
  }

  ghost predicate Inv(e: Engine) {
    && e.blockTokens > 0 && !e.twice
    && Increasing(e.batch + e.pending)
    && SlotsOk(e) && AnswersOk(e) && Accounted(e) && Packed(e) && Looping(e) && Barred(e)
  }

  // ----- a step ---------------------------------------------------------------------------

  /** How many queued requests the freed slots admit. */
  function Room(e: Engine, batch: nat): (n: nat)
    ensures n <= |e.pending|
  {
    if batch >= e.maxBatch then 0
    else if |e.pending| <= e.maxBatch - batch then |e.pending| else e.maxBatch - batch
  }

  function Staying(e: Engine): seq<Slot>
    requires e.loop.InStep? && |e.loop.members| <= |e.batch|
  {
    Kept(e.batch[..|e.loop.members|], 0, |e.ends|, e.loop.end) + e.batch[|e.loop.members|..]
  }

  /** The engine after its step has completed, said at once. */
  function AfterStep(e: Engine): Engine
    requires e.loop.InStep? && |e.loop.members| <= |e.batch| && e.blockTokens > 0
  {
    var n := Room(e, |Staying(e)|);
    e.(now := e.loop.end, ends := e.ends + [e.loop.end],
       batch := Staying(e) + e.pending[..n], pending := e.pending[n..],
       answers := e.answers + Answered(e.batch[..|e.loop.members|], 0, |e.ends|, e.loop.end, e.blockTokens))
  }

  lemma IdsTake(slots: seq<Slot>, n: nat)
    requires n <= |slots|
    ensures Ids(slots[..n]) == Ids(slots)[..n]
  {}

  lemma BatchIsUnanswered(e: Engine)
    requires Inv(e)
    ensures Increasing(e.batch) && forall s :: s in e.batch ==> s.id !in e.answers
  {
    hide SlotsOk, AnswersOk, Packed, Barred, Looping;
    assert forall i: nat :: i < |e.batch| ==> e.batch[i] == (e.batch + e.pending)[i];
    forall s | s in e.batch
      ensures s.id !in e.answers
    {
      assert s in e.batch + e.pending;
    }
  }

  lemma StepFront(e: Engine)
    requires Looping(e) && e.loop.InStep?
    ensures var m := |e.loop.members|;
      && m <= |e.batch| && e.batch == [] + e.batch[..m] + e.batch[m..]
      && Ids(e.batch[..m]) == e.loop.members[0..]
  {
    hide Ids;
    var m := |e.loop.members|;
    IdsTake(e.batch, m);
    assert e.loop.members[0..] == e.loop.members;
    assert [] + e.batch[..m] == e.batch[..m];
  }

  lemma StepIsAfterStep(e: Engine)
    requires Inv(e) && e.loop.InStep?
    ensures |e.loop.members| <= |e.batch|
    ensures StepComplete(e.(now := e.loop.end), e.loop.members, e.loop.end) == AfterStep(e)
  {
    hide Inv, Increasing, Kept, Answered, Emit, Promote, Looping, Ids;
    LoopingOf(e);
    var m := |e.loop.members|;
    var front, late := e.batch[..m], e.batch[m..];
    StepFront(e);
    BatchIsUnanswered(e);
    var step, end, members := |e.ends|, e.loop.end, e.loop.members;
    EmitShape(e.(now := end), members, 0, step, end, [], front, late);
    var n := Emit(e.(now := end), members, 0, step, end);
    assert n == e.(now := end, batch := Staying(e),
      answers := e.answers + Answered(front, 0, step, end, e.blockTokens)) by {
      assert [] + Kept(front, 0, step, end) + late == Staying(e);
    }
    PromoteShape(n.(ends := e.ends + [end]));
  }

  // ----- what a step leaves of its members ------------------------------------------------

  lemma {:induction false} KeptOrigin(slots: seq<Slot>, k: nat, step: nat, end: real, t: Slot) returns (i: nat)
    requires t in Kept(slots, k, step, end)
    ensures i < |slots| && slots[i].remaining != 1 && t == Advanced(slots[i], Token(step, k + i), end)
  {
    if slots[0].remaining != 1 && t == Advanced(slots[0], Token(step, k), end) {
      i := 0;
    } else {
      i := KeptOrigin(slots[1..], k + 1, step, end, t);
      i := i + 1;
    }
  }

  lemma {:induction false} KeptCovers(slots: seq<Slot>, k: nat, step: nat, end: real, i: nat)
    requires i < |slots| && slots[i].remaining != 1
    ensures Advanced(slots[i], Token(step, k + i), end) in Kept(slots, k, step, end)
  {
    if i > 0 { KeptCovers(slots[1..], k + 1, step, end, i - 1); }
  }

  lemma {:induction false} AnsweredValue(slots: seq<Slot>, k: nat, step: nat, end: real, blockTokens: nat, id: nat)
      returns (i: nat)
    requires blockTokens > 0 && id in Answered(slots, k, step, end, blockTokens)
    ensures i < |slots| && slots[i].id == id && slots[i].remaining == 1
    ensures var a := Advanced(slots[i], Token(step, k + i), end);
      Answered(slots, k, step, end, blockTokens)[id] == Generated(a.tokens, CeilDiv(|a.tokens|, blockTokens), a.tbtMax)
  {
    if id in Answered(slots[1..], k + 1, step, end, blockTokens) {
      i := AnsweredValue(slots[1..], k + 1, step, end, blockTokens, id);
      i := i + 1;
    } else {
      i := 0;
    }
  }

  lemma KeptCons(slots: seq<Slot>, k: nat, step: nat, end: real, rest: seq<Slot>)
    requires slots != []
    ensures slots + rest == [slots[0]] + (slots[1..] + rest)
    ensures var first := if slots[0].remaining == 1 then [] else [Advanced(slots[0], Token(step, k), end)];
      && Kept(slots, k, step, end) + rest == first + (Kept(slots[1..], k + 1, step, end) + rest)
      && |Kept(slots, k, step, end)| == |first| + |Kept(slots[1..], k + 1, step, end)|
  {
    var first := if slots[0].remaining == 1 then [] else [Advanced(slots[0], Token(step, k), end)];
    var others := Kept(slots[1..], k + 1, step, end);
    assert Kept(slots, k, step, end) == first + others;
    hide *;
    assert first + others + rest == first + (others + rest);
  }

  /** Survivors stay in order, ahead of whatever follows. */
  lemma {:induction false} KeptIncreasing(slots: seq<Slot>, k: nat, step: nat, end: real, rest: seq<Slot>)
    requires Increasing(slots + rest)
    ensures Increasing(Kept(slots, k, step, end) + rest)
    ensures |Kept(slots, k, step, end)| <= |slots|
    decreases |slots|
  {
    if slots == [] {
      assert Kept([], k, step, end) + rest == rest && slots + rest == rest;
    } else {
      hide Increasing, Kept;
      KeptCons(slots, k, step, end, rest);
      IncreasingParts(slots[0], slots[1..] + rest);
      KeptIncreasing(slots[1..], k + 1, step, end, rest);
      var tail := Kept(slots[1..], k + 1, step, end) + rest;
      forall t | t in tail
        ensures slots[0].id < t.id
      {
        if t !in rest {
          var i := KeptOrigin(slots[1..], k + 1, step, end, t);
          assert slots[1..][i] in slots[1..] + rest;
        }
      }
      IncreasingCons(Advanced(slots[0], Token(step, k), end), tail);
      assert [] + tail == tail;
    }
  }

  lemma IncreasingParts(first: Slot, rest: seq<Slot>)
    requires Increasing([first] + rest)
    ensures Increasing(rest) && forall t :: t in rest ==> first.id < t.id
  {
    var all := [first] + rest;
    forall i, j | 0 <= i < j < |rest|
      ensures rest[i].id < rest[j].id
    {
      assert all[i + 1] == rest[i] && all[j + 1] == rest[j];
    }
    forall t | t in rest
      ensures first.id < t.id
    {
      var i: nat :| i < |rest| && rest[i] == t;
      assert all[0] == first && all[i + 1] == t;
    }
  }

  lemma IncreasingCons(a: Slot, tail: seq<Slot>)
    requires Increasing(tail) && forall t :: t in tail ==> a.id < t.id
    ensures Increasing([a] + tail)
  {}

  function Work(slots: seq<Slot>): int {
    if slots == [] then 0 else slots[0].remaining + Work(slots[1..])
  }

  lemma {:induction false} WorkConcat(a: seq<Slot>, b: seq<Slot>)
    ensures Work(a + b) == Work(a) + Work(b)
    decreases |a|
  {
    if a == [] {
      assert a + b == b;
    } else {
      assert (a + b)[1..] == a[1..] + b;
      WorkConcat(a[1..], b);
    }
  }

  lemma {:induction false} KeptWork(slots: seq<Slot>, k: nat, step: nat, end: real)
    ensures Work(Kept(slots, k, step, end)) == Work(slots) - |slots|
  {
    if slots != [] {
      KeptWork(slots[1..], k + 1, step, end);
      var a := Advanced(slots[0], Token(step, k), end);
      WorkConcat(if slots[0].remaining == 1 then [] else [a], Kept(slots[1..], k + 1, step, end));
    }
  }

  /** Each step takes exactly its members' number of tokens off what is left to do. */
  lemma StepSpends(e: Engine)
    requires Inv(e) && e.loop.InStep?
    ensures var r := AfterStep(e);
      Work(r.batch + r.pending) == Work(e.batch + e.pending) - |e.loop.members|
  {
    hide Inv, Kept, Work;
    assert Looping(e) by { LoopingOf(e); }
    var m, n := |e.loop.members|, Room(e, |Staying(e)|);
    var front, late := e.batch[..m], e.batch[m..];
    var kept := Kept(front, 0, |e.ends|, e.loop.end);
    KeptWork(front, 0, |e.ends|, e.loop.end);
    assert e.pending[..n] + e.pending[n..] == e.pending;
    assert (kept + late + e.pending[..n]) + e.pending[n..] == kept + (late + e.pending);
    assert e.batch + e.pending == front + (late + e.pending);
    WorkConcat(kept, late + e.pending);
    WorkConcat(front, late + e.pending);
  }

  lemma LoopingOf(e: Engine)
    requires Inv(e)
    ensures Looping(e) && e.blockTokens > 0
  {}

  // ----- every event keeps the invariant --------------------------------------------------

  function Front(e: Engine): seq<Slot>
    requires e.loop.InStep? && |e.loop.members| <= |e.batch|
  {
    e.batch[..|e.loop.members|]
  }

  function Rest(e: Engine): seq<Slot>
    requires e.loop.InStep? && |e.loop.members| <= |e.batch|
  {
    e.batch[|e.loop.members|..] + e.pending
  }

  lemma AfterStepSlots(e: Engine)
    requires e.loop.InStep? && |e.loop.members| <= |e.batch| && e.blockTokens > 0
    ensures e.batch + e.pending == Front(e) + Rest(e)
    ensures var r := AfterStep(e); r.batch + r.pending == Kept(Front(e), 0, |e.ends|, e.loop.end) + Rest(e)
  {
    hide Kept, Answered;
    var n := Room(e, |Staying(e)|);
    assert e.pending == e.pending[..n] + e.pending[n..];
  }

  lemma StepOrders(e: Engine)
    requires Inv(e) && e.loop.InStep?
    ensures var r := AfterStep(e); Increasing(r.batch + r.pending) && Packed(r)
  {
    hide Kept, Answered, Increasing, SlotsOk, AnswersOk, Accounted, Barred;
    AfterStepSlots(e);
    KeptIncreasing(Front(e), 0, |e.ends|, e.loop.end, Rest(e));
  }

  lemma StepKeepsSlots(e: Engine)
    requires Inv(e) && e.loop.InStep?
    ensures SlotsOk(AfterStep(e))
  {
    hide Kept, Answered, Increasing, AnswersOk, Accounted, Barred, Packed, SlotOk, Current;
    var r := AfterStep(e);
    forall s | s in r.batch
      ensures SlotOk(r.admitted, r.ends, s) && Current(|r.ends|, s)
    {
      if s in Kept(Front(e), 0, |e.ends|, e.loop.end) {
        var i := KeptOrigin(Front(e), 0, |e.ends|, e.loop.end, s);
        assert e.batch[i] in e.batch;
        AdvancedOk(e.admitted, e.ends, e.batch[i], i, e.loop.end, e.blockTokens);
      } else {
        assert s in Rest(e);
        RestIsNew(e, s);
      }
    }
    forall s | s in r.pending
      ensures SlotOk(r.admitted, r.ends, s) && s.tokens == []
    {
      assert s in Rest(e);
      RestIsNew(e, s);
    }
  }

  /** Whoever was not in the step has no token yet. */
  lemma RestIsNew(e: Engine, s: Slot)
    requires Inv(e) && e.loop.InStep? && s in Rest(e)
    ensures s.tokens == [] && SlotOk(e.admitted, e.ends + [e.loop.end], s) && Current(|e.ends| + 1, s)
  {
    hide Increasing, AnswersOk, Accounted, Barred, Packed, SlotOk;
    if s in e.batch[|e.loop.members|..] {
      var i: nat :| i < |e.batch[|e.loop.members|..]| && s == e.batch[|e.loop.members|..][i];
      assert s == e.batch[|e.loop.members| + i];
    }
    UnmovedOk(e.admitted, e.ends, e.loop.end, s);
  }

  lemma StepKeepsAnswers(e: Engine)
    requires Inv(e) && e.loop.InStep?
    ensures AnswersOk(AfterStep(e))
  {
    hide Kept, Answered, Increasing, Accounted, Barred, Packed, SlotOk, Current, AnswerOk;
    var r := AfterStep(e);
    forall id | id in r.answers
      ensures AnswerOk(r.blockTokens, r.admitted, r.ends, id, r.answers[id])
    {
      if id in Answered(Front(e), 0, |e.ends|, e.loop.end, e.blockTokens) {
        var i := AnsweredValue(Front(e), 0, |e.ends|, e.loop.end, e.blockTokens, id);
        assert e.batch[i] in e.batch;
        AdvancedOk(e.admitted, e.ends, e.batch[i], i, e.loop.end, e.blockTokens);
      } else {
        AnswerStaysOk(e.blockTokens, e.admitted, e.ends, e.loop.end, id, e.answers[id]);
      }
    }
  }

  lemma WaitingConcat(a: seq<Slot>, b: seq<Slot>, id: nat)
    ensures Waiting(a + b, id) <==> Waiting(a, id) || Waiting(b, id)
  {
    if Waiting(a, id) {
      var s :| s in a && s.id == id;
      assert s in a + b;
    }
    if Waiting(b, id) {
      var s :| s in b && s.id == id;
      assert s in a + b;
    }
  }

  /** A step answers exactly the members it does not keep. */
  lemma KeptOrAnswered(slots: seq<Slot>, step: nat, end: real, blockTokens: nat, id: nat)
    requires blockTokens > 0 && Increasing(slots)
    ensures Waiting(slots, id)
      <==> Waiting(Kept(slots, 0, step, end), id) || id in Answered(slots, 0, step, end, blockTokens)
    ensures !(Waiting(Kept(slots, 0, step, end), id) && id in Answered(slots, 0, step, end, blockTokens))
  {
    hide Kept, Answered;
    AnsweredKeys(slots, 0, step, end, blockTokens);
    if s :| s in slots && s.id == id {
      var i: nat :| i < |slots| && slots[i] == s;
      if s.remaining != 1 { KeptCovers(slots, 0, step, end, i); }
    }
    if t :| t in Kept(slots, 0, step, end) && t.id == id {
      var i := KeptOrigin(slots, 0, step, end, t);
      assert slots[i] in slots;
    }
  }

  lemma StepAccounts(e: Engine)
    requires Inv(e) && e.loop.InStep?
    ensures Accounted(AfterStep(e))
  {
    hide Kept, Answered, SlotsOk, AnswersOk, Barred, Packed, Waiting, Increasing;
    var r := AfterStep(e);
    AfterStepSlots(e);
    FrontIncreasing(e);
    forall id: nat
      ensures id < |r.admitted| <==> id in r.answers || Waiting(r.batch + r.pending, id)
      ensures !(id in r.answers && Waiting(r.batch + r.pending, id))
    {
      WaitingConcat(Front(e), Rest(e), id);
      WaitingConcat(Kept(Front(e), 0, |e.ends|, e.loop.end), Rest(e), id);
      KeptOrAnswered(Front(e), |e.ends|, e.loop.end, e.blockTokens, id);
      Apart(Front(e), Rest(e), id);
    }
  }

  lemma FrontIncreasing(e: Engine)
    requires Inv(e) && e.loop.InStep?
    ensures Increasing(Front(e))
  {
    hide SlotsOk, AnswersOk, Barred, Packed, Accounted;
    assert forall i: nat :: i < |Front(e)| ==> Front(e)[i] == (e.batch + e.pending)[i];
  }

  lemma Before(a: seq<Slot>, b: seq<Slot>, i: nat, j: nat)
    requires Increasing(a + b) && i < |a| && j < |b|
    ensures a[i].id < b[j].id
  {
    assert (a + b)[i] == a[i] && (a + b)[|a| + j] == b[j];
  }

  lemma Apart(a: seq<Slot>, b: seq<Slot>, id: nat)
    requires Increasing(a + b)
    ensures !(Waiting(a, id) && Waiting(b, id))
  {
    if Waiting(a, id) {
      var s :| s in a && s.id == id;
      var i: nat :| i < |a| && a[i] == s;
      forall t | t in b
        ensures t.id != id
      {
        var j: nat :| j < |b| && b[j] == t;
        Before(a, b, i, j);
      }
    }
  }

  lemma TurnLoops(e: Engine, end: real)
    requires end >= e.now
    ensures Looping(Turn(e, end))
  {
    if e.batch != [] {
      var ids := Ids(e.batch);
      assert ids[..|ids|] == ids;
    }
  }

  /** A running step means the engine has a slot. */
  lemma SteppingHasRoom(e: Engine)
    requires Inv(e) && e.loop.InStep?
    ensures e.maxBatch >= 1
  {}

  /** Nothing but the loop of the engine's invariant looks at the loop. */
  lemma SameButLoop(e: Engine, r: Engine)
    requires e.blockTokens > 0 && r == e.(loop := r.loop)
    ensures SlotsOk(e) == SlotsOk(r) && AnswersOk(e) == AnswersOk(r) && Accounted(e) == Accounted(r)
      && Packed(e) == Packed(r)
  {
    hide SlotOk, Current, AnswerOk, Waiting;
  }

  lemma LandKeepsInv(e: Engine, end: real)
    requires Inv(e) && Legal(e, Land(end))
    ensures Inv(Next(e, Land(end)))
  {
    hide Increasing, SlotsOk, AnswersOk, Accounted, Packed, Waiting, Kept, Answered;
    StepIsAfterStep(e);
    StepOrders(e);
    StepKeepsSlots(e);
    StepKeepsAnswers(e);
    StepAccounts(e);
    TurnLoops(AfterStep(e), end);
    SameButLoop(AfterStep(e), Turn(AfterStep(e), end));
    SteppingHasRoom(e);
  }

  /** A request that joins the batch or the queue is last in line. */
  lemma JoinOrders(e: Engine, slot: Slot)
    requires Increasing(e.batch + e.pending) && Accounted(e) && slot.id == |e.admitted|
    ensures Increasing(e.batch + e.pending + [slot])
  {
    var all := e.batch + e.pending;
    forall i: nat | i < |all|
      ensures all[i].id < slot.id
    {
      assert Waiting(all, all[i].id);
    }
  }

  /** Where an admitted request with tokens to decode goes. */
  function Joined(e: Engine, outputTokens: int): Engine {
    var slot := Slot(|e.admitted|, Owed(outputTokens), e.now, 0.0, []);
    var r := e.(admitted := e.admitted + [Admission(outputTokens, e.now)]);
    if |r.batch| < r.maxBatch then r.(batch := r.batch + [slot]) else r.(pending := r.pending + [slot])
  }

  lemma JoinedLine(e: Engine, outputTokens: int)
    requires Inv(e)
    ensures var r := Joined(e, outputTokens);
      r.batch + r.pending == e.batch + e.pending + [Slot(|e.admitted|, Owed(outputTokens), e.now, 0.0, [])]
  {
    hide Increasing, SlotsOk, AnswersOk, Accounted, Barred, Looping;
  }

  lemma JoinAccounts(e: Engine, outputTokens: int)
    requires Inv(e)
    ensures Accounted(Joined(e, outputTokens))
      && Increasing(Joined(e, outputTokens).batch + Joined(e, outputTokens).pending)
  {
    hide SlotsOk, AnswersOk, Barred, Looping, Packed, Waiting, Increasing;
    var r := Joined(e, outputTokens);
    var slot := Slot(|e.admitted|, Owed(outputTokens), e.now, 0.0, []);
    JoinedLine(e, outputTokens);
    JoinOrders(e, slot);
    forall id: nat
      ensures id < |r.admitted| <==> id in r.answers || Waiting(r.batch + r.pending, id)
      ensures !(id in r.answers && Waiting(r.batch + r.pending, id))
    {
      WaitingConcat(e.batch + e.pending, [slot], id);
      assert Waiting([slot], id) <==> id == slot.id by { OnlyOne(slot, id); }
    }
  }

  lemma OnlyOne(slot: Slot, id: nat)
    ensures Waiting([slot], id) <==> id == slot.id
  {
    assert slot in [slot];
  }

  /** Admitting another request leaves what is recorded of the others as it is. */
  lemma AdmittedOk(e: Engine, a: Admission)
    requires e.blockTokens > 0 && SlotsOk(e) && AnswersOk(e)
    ensures var r := e.(admitted := e.admitted + [a]); SlotsOk(r) && AnswersOk(r)
  {
    var r := e.(admitted := e.admitted + [a]);
    hide Instants, WorstGap, Consecutive, Current;
    assert forall id: nat :: id < |e.admitted| ==> r.admitted[id] == e.admitted[id];
  }

  lemma NewSlotOk(e: Engine, outputTokens: int)
    requires Owed(outputTokens) > 0
    ensures SlotOk(e.admitted + [Admission(outputTokens, e.now)], e.ends,
      Slot(|e.admitted|, Owed(outputTokens), e.now, 0.0, []))
  {}

  lemma JoinKeepsSlots(e: Engine, outputTokens: int)
    requires Inv(e) && Owed(outputTokens) > 0
    ensures SlotsOk(Joined(e, outputTokens)) && AnswersOk(Joined(e, outputTokens))
  {
    hide Increasing, Accounted, Barred, Looping, Packed, SlotOk, AnswerOk;
    AdmittedOk(e, Admission(outputTokens, e.now));
    NewSlotOk(e, outputTokens);
  }

  lemma IdsPrefix(a: seq<Slot>, b: seq<Slot>, n: nat)
    requires n <= |a|
    ensures Ids(a + b)[..n] == Ids(a)[..n]
  {}

  lemma JoinLoops(e: Engine, outputTokens: int)
    requires Inv(e)
    ensures Looping(EnsureStepping(Joined(e, outputTokens))) && Packed(Joined(e, outputTokens))
  {
    hide Increasing, SlotsOk, AnswersOk, Accounted, Barred, Ids;
    var r := Joined(e, outputTokens);
    if e.loop.InStep? {
      IdsPrefix(e.batch, r.batch[|e.batch|..], |e.loop.members|);
      assert r.batch == e.batch + r.batch[|e.batch|..];
    }
  }

  lemma AskKeepsInv(e: Engine, outputTokens: int)
    requires Inv(e)
    ensures Inv(Next(e, Ask(outputTokens)))
  {
    if Owed(outputTokens) == 0 {
      AskedNothing(e, outputTokens);
    } else {
      hide Increasing, SlotsOk, AnswersOk, Accounted, Packed, Looping;
      JoinAccounts(e, outputTokens);
      JoinKeepsSlots(e, outputTokens);
      JoinLoops(e, outputTokens);
      var r := EnsureStepping(Joined(e, outputTokens));
      SameButLoop(Joined(e, outputTokens), r);
      assert Next(e, Ask(outputTokens)) == r;
    }
  }

  /** Nothing to decode: answered where it arrived, with no token and no KV. */
  lemma AskedNothing(e: Engine, outputTokens: int)
    requires Inv(e) && Owed(outputTokens) == 0
    ensures Inv(Next(e, Ask(outputTokens)))
    ensures Next(e, Ask(outputTokens)).answers == e.answers[|e.admitted| := Generated([], 0, 0.0)]
  {
    hide Increasing, SlotsOk, AnswersOk, Packed, Looping, Waiting;
    var r := Next(e, Ask(outputTokens));
    assert |e.admitted| !in e.answers;
    AdmittedOk(e, Admission(outputTokens, e.now));
    AddAnswer(e.(admitted := r.admitted), |e.admitted|, Generated([], 0, 0.0));
    SamePacking(e, r);
  }

  lemma AddAnswer(e: Engine, id: nat, a: Answer)
    requires e.blockTokens > 0 && SlotsOk(e) && AnswersOk(e) && AnswerOk(e.blockTokens, e.admitted, e.ends, id, a)
    ensures SlotsOk(e.(answers := e.answers[id := a])) && AnswersOk(e.(answers := e.answers[id := a]))
  {
    hide SlotOk, AnswerOk, Current;
  }

  lemma SamePacking(e: Engine, r: Engine)
    requires r == e.(admitted := r.admitted, answers := r.answers)
    ensures Packed(e) == Packed(r) && Looping(e) == Looping(r)
  {}

  // ----- a loop that dies -----------------------------------------------------------------

  lemma {:induction false} ResolvedShape(e: Engine, slots: seq<Slot>)
    ensures var r := Resolved(e, slots);
      && r == e.(answers := r.answers)
      && (forall id :: id in r.answers <==> id in e.answers || Waiting(slots, id))
      && (forall id :: id in e.answers ==> r.answers[id] == e.answers[id])
      && (forall id :: id in r.answers && id !in e.answers ==> r.answers[id] == Abandoned)
    decreases |slots|
  {
    if slots != [] {
      var n := if slots[0].id in e.answers then e else Resolve(e, slots[0].id, Abandoned);
      ResolvedShape(n, slots[1..]);
      assert slots == [slots[0]] + slots[1..];
      forall id: nat
        ensures Waiting(slots, id) <==> id == slots[0].id || Waiting(slots[1..], id)
      {
        WaitingConcat([slots[0]], slots[1..], id);
        OnlyOne(slots[0], id);
      }
    }
  }

  lemma DieKeepsInv(e: Engine)
    requires Inv(e) && !e.loop.Idle?
    ensures var r := Abandon(e);
      && Inv(r) && r.batch == [] && r.pending == []
      && (forall id: nat :: id < |e.admitted| <==> id in r.answers)
  {
    hide SlotsOk, Instants, WorstGap, Consecutive, Resolved;
    var r := Abandon(e);
    ResolvedShape(e, e.batch + e.pending);
    assert r.batch + r.pending == [];
    assert SlotsOk(r) by { NoSlotsOk(r); }
  }

  lemma NoSlotsOk(e: Engine)
    requires e.batch == [] && e.pending == []
    ensures SlotsOk(e)
  {}

  /** Every event the engine can meet keeps it in order. */
  lemma NextKeepsInv(e: Engine, ev: Event)
    requires Inv(e) && Legal(e, ev)
    ensures Inv(Next(e, ev))
  {
    hide Increasing, SlotsOk, AnswersOk, Accounted, Packed, Barred;
    match ev
    case Ask(outputTokens) => AskKeepsInv(e, outputTokens);
    case Land(end) => LandKeepsInv(e, end);
    case Die => DieKeepsInv(e);
    case Begin(end) =>
      TurnLoops(e, end);
      SameButLoop(e, Next(e, ev));
      BarredLoop(e, end);
    case Wait(until) =>
      SameButClock(e, Next(e, ev));
  }

  lemma BarredLoop(e: Engine, end: real)
    requires Barred(e)
    ensures Barred(Turn(e, end))
  {}

  lemma SameButClock(e: Engine, r: Engine)
    requires e.blockTokens > 0 && r == e.(now := r.now)
    ensures SlotsOk(e) == SlotsOk(r) && AnswersOk(e) == AnswersOk(r) && Accounted(e) == Accounted(r)
    ensures Packed(e) == Packed(r) && Barred(e) == Barred(r)
  {
    hide SlotOk, Current, AnswerOk, Waiting;
  }
}
