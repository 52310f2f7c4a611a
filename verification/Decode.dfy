/**
 One host's batched decode engine, `kvcache_sim/data/_decode.py`: a capped batch, a queue for the
 requests over the cap, one step loop, and one answer per request. The code between two suspensions
 is one event here; the end of each step is the accelerator's to choose.
 */
module Decode {
  import opened Basics

  /** What one decode step emits for one batch member: the step, and the member's place in it. */
  datatype Token = Token(step: nat, place: nat)

  datatype Slot = Slot(id: nat, remaining: int, lastTokenTime: real, tbtMax: real, tokens: seq<Token>)

  /** What a request's future resolves to, and the worst gap reported with it. */
  datatype Answer = Generated(tokens: seq<Token>, kv: nat, tbtMax: real) | Abandoned

  /** `_step_task`: none running, created but not yet run, or waiting out a step of frozen members. */
  datatype Loop = Idle | Created | InStep(members: seq<nat>, end: real)

  datatype Admission = Admission(outputTokens: int, at: real)

  /**
   The engine. A request's id is its place in `admitted`; `ends` is when each step so far ended;
   `twice` is whether a future was ever resolved a second time, which asyncio refuses.
   */
  datatype Engine = Engine(
    maxBatch: int,
    blockTokens: nat,
    now: real,
    batch: seq<Slot>,
    pending: seq<Slot>,
    loop: Loop,
    answers: map<nat, Answer>,
    twice: bool,
    admitted: seq<Admission>,
    ends: seq<real>)

  /** The tokens decode owes a request: all of its output but the first. */
  function Owed(outputTokens: int): nat {
    if outputTokens - 1 > 0 then outputTokens - 1 else 0
  }

  function Ids(slots: seq<Slot>): (ids: seq<nat>)
    ensures |ids| == |slots| && forall i: nat :: i < |slots| ==> ids[i] == slots[i].id
  {
    if slots == [] then [] else [slots[0].id] + Ids(slots[1..])
  }

  // ----- the events -----------------------------------------------------------------------

  /** `done.set_result`: the first answer stands. */
  function Resolve(e: Engine, id: nat, a: Answer): Engine {
    if id in e.answers then e.(twice := true) else e.(answers := e.answers[id := a])
  }

  function Finish(e: Engine, id: nat, tbtMax: real, tokens: seq<Token>): Engine
    requires e.blockTokens > 0
  {
    Resolve(e, id, Generated(tokens, CeilDiv(|tokens|, e.blockTokens), tbtMax))
  }

  function EnsureStepping(e: Engine): Engine {
    if !e.loop.Idle? || e.batch == [] then e else e.(loop := Created)
  }

  function Admit(e: Engine, outputTokens: int): Engine
    requires e.blockTokens > 0
  {
    var id := |e.admitted|;
    var r := e.(admitted := e.admitted + [Admission(outputTokens, e.now)]);
    if Owed(outputTokens) == 0 then Finish(r, id, 0.0, []) else
      var slot := Slot(id, Owed(outputTokens), e.now, 0.0, []);
      EnsureStepping(if |r.batch| < r.maxBatch then r.(batch := r.batch + [slot])
          else r.(pending := r.pending + [slot]))
  }

  /** Where a request sits in a list of slots; its length when it does not. */
  function Find(slots: seq<Slot>, id: nat): (i: nat)
    ensures i <= |slots|
    ensures i < |slots| ==> slots[i].id == id
    ensures forall j: nat :: j < i ==> slots[j].id != id
  {
    if slots == [] || slots[0].id == id then 0 else 1 + Find(slots[1..], id)
  }

  /** A slot after the step that ended at `end` emitted `token` for it. */
  function Advanced(s: Slot, token: Token, end: real): Slot {
    Slot(s.id, s.remaining - 1, end, Max(s.tbtMax, end - s.lastTokenTime), s.tokens + [token])
  }

  function EmitOne(e: Engine, id: nat, token: Token, end: real): Engine
    requires e.blockTokens > 0
  {
    var i := Find(e.batch, id);
    if i == |e.batch| then e else
      var s := Advanced(e.batch[i], token, end);
      if s.remaining == 0 then Finish(e.(batch := e.batch[..i] + e.batch[i + 1..]), id, s.tbtMax, s.tokens)
      else e.(batch := e.batch[i := s])
  }

  /** Emits to the members from place `k` on. */
  function Emit(e: Engine, members: seq<nat>, k: nat, step: nat, end: real): (r: Engine)
    requires e.blockTokens > 0 && k <= |members|
    ensures r.blockTokens == e.blockTokens
    decreases |members| - k
  {
    if k == |members| then e else Emit(EmitOne(e, members[k], Token(step, k), end), members, k + 1, step, end)
  }

  /** A freed slot admits the next queued request. */
  function Promote(e: Engine): (r: Engine)
    ensures r.blockTokens == e.blockTokens
    decreases |e.pending|
  {
    if e.pending == [] || |e.batch| >= e.maxBatch then e else
      Promote(e.(batch := e.batch + [e.pending[0]], pending := e.pending[1..]))
  }

  function StepComplete(e: Engine, members: seq<nat>, end: real): (r: Engine)
    requires e.blockTokens > 0
    ensures r.blockTokens == e.blockTokens
  {
    Promote(Emit(e, members, 0, |e.ends|, end).(ends := e.ends + [end]))
  }

  /** The head of the loop: the next step's members are frozen and its end booked, or it is over. */
  function Turn(e: Engine, end: real): Engine {
    e.(loop := if e.batch == [] then Idle else InStep(Ids(e.batch), end))
  }

  function Resolved(e: Engine, slots: seq<Slot>): Engine
    decreases |slots|
  {
    if slots == [] then e else
      Resolved(if slots[0].id in e.answers then e else Resolve(e, slots[0].id, Abandoned), slots[1..])
  }

  /** The step loop dies: everything outstanding is answered with its exception. */
  function Abandon(e: Engine): Engine {
    Resolved(e, e.batch + e.pending).(batch := [], pending := [], loop := Idle)
  }

  /** What can happen next; `end` is what the accelerator books for the step that follows. */
  datatype Event = Ask(outputTokens: int) | Begin(end: real) | Land(end: real) | Die | Wait(until: real)

  predicate Legal(e: Engine, ev: Event) {
    match ev
    case Ask(_) => true
    case Begin(end) => e.loop.Created? && end >= e.now
    case Land(end) => e.loop.InStep? && end >= e.loop.end
    case Die => !e.loop.Idle?
    case Wait(until) => until >= e.now && (e.loop.InStep? ==> until <= e.loop.end)
  }

  function Next(e: Engine, ev: Event): Engine
    requires e.blockTokens > 0 && Legal(e, ev)
  {
    match ev
    case Ask(outputTokens) => Admit(e, outputTokens)
    case Begin(end) => Turn(e, end)
    case Land(end) => Turn(StepComplete(e.(now := e.loop.end), e.loop.members, e.loop.end), end)
    case Die => Abandon(e)
    case Wait(until) => e.(now := until)
  }

  function Fresh(maxBatch: int, blockTokens: nat): Engine {
    Engine(maxBatch, blockTokens, 0.0, [], [], Idle, map[], false, [], [])
  }

  // ----- what one step does to its members ------------------------------------------------

  /** The members still decoding after a step, from place `k` on. */
  function Kept(slots: seq<Slot>, k: nat, step: nat, end: real): seq<Slot> {
    if slots == [] then [] else
      (if slots[0].remaining == 1 then [] else [Advanced(slots[0], Token(step, k), end)])
        + Kept(slots[1..], k + 1, step, end)
  }

  /** The answers a step gives to the members it finishes. */
  function Answered(slots: seq<Slot>, k: nat, step: nat, end: real, blockTokens: nat): map<nat, Answer>
    requires blockTokens > 0
  {
    if slots == [] then map[] else
      var s := Advanced(slots[0], Token(step, k), end);
      (if s.remaining != 0 then map[] else map[s.id := Generated(s.tokens, CeilDiv(|s.tokens|, blockTokens), s.tbtMax)])
        + Answered(slots[1..], k + 1, step, end, blockTokens)
  }

  ghost predicate Increasing(slots: seq<Slot>) {
    forall i, j :: 0 <= i < j < |slots| ==> slots[i].id < slots[j].id
  }

  /** One of the slots is this request's and has one token to go. */
  ghost predicate Last(slots: seq<Slot>, id: nat) {
    exists i: nat :: i < |slots| && slots[i].id == id && slots[i].remaining == 1
  }

  lemma {:induction false} AnsweredKeys(slots: seq<Slot>, k: nat, step: nat, end: real, blockTokens: nat)
    requires blockTokens > 0
    ensures forall id :: id in Answered(slots, k, step, end, blockTokens) <==> Last(slots, id)
  {
    if slots != [] {
      var rest := slots[1..];
      AnsweredKeys(rest, k + 1, step, end, blockTokens);
      forall id
        ensures id in Answered(slots, k, step, end, blockTokens) <==> Last(slots, id)
      {
        if i: nat :| i < |rest| && rest[i].id == id && rest[i].remaining == 1 {
          assert slots[i + 1].id == id && slots[i + 1].remaining == 1;
        }
        if i: nat :| i < |slots| && slots[i].id == id && slots[i].remaining == 1 {
          assert i > 0 ==> rest[i - 1].id == id && rest[i - 1].remaining == 1;
        }
      }
    }
  }

  lemma FindAfter(pre: seq<Slot>, s: Slot, post: seq<Slot>)
    requires Increasing(pre + [s] + post)
    ensures Find(pre + [s] + post, s.id) == |pre|
  {
    var all := pre + [s] + post;
    assert all[|pre|] == s;
    assert forall i: nat :: i < |pre| ==> all[i].id < all[|pre|].id;
  }

  lemma IncreasingUpdate(pre: seq<Slot>, s: Slot, post: seq<Slot>, t: Slot)
    requires Increasing(pre + [s] + post) && s.id == t.id
    ensures Increasing(pre + post) && Increasing(pre + [t] + post)
    ensures forall i: nat :: i < |post| ==> s.id < post[i].id
  {
    var all := pre + [s] + post;
    assert forall i: nat :: i < |pre + post| ==> (pre + post)[i] == all[if i < |pre| then i else i + 1];
    assert all[|pre|] == s;
    forall i: nat | i < |post|
      ensures s.id < post[i].id
    {
      assert post[i] == all[|pre| + 1 + i];
    }
    assert forall i: nat :: i < |all| ==> (pre + [t] + post)[i].id == all[i].id;
  }

  /** One member's token: it is replaced where it stands, or leaves and is answered. */
  lemma EmitOneShape(e: Engine, pre: seq<Slot>, s: Slot, post: seq<Slot>, token: Token, end: real)
    requires e.blockTokens > 0 && e.batch == pre + [s] + post && Increasing(e.batch) && s.id !in e.answers
    ensures var a := Advanced(s, token, end);
      EmitOne(e, s.id, token, end)
        == e.(batch := (if a.remaining == 0 then pre else pre + [a]) + post,
              answers := if a.remaining == 0
                then e.answers[a.id := Generated(a.tokens, CeilDiv(|a.tokens|, e.blockTokens), a.tbtMax)]
                    else e.answers)
  {
    FindAfter(pre, s, post);
    assert e.batch[..|pre|] == pre && e.batch[|pre| + 1..] == post;
  }

  /** The first member's part of a step, and that what is left of it is another step's front. */
  lemma EmitStep(e: Engine, members: seq<nat>, k: nat, step: nat, end: real,
                 pre: seq<Slot>, slots: seq<Slot>, late: seq<Slot>)
    requires e.blockTokens > 0 && k <= |members| && slots != []
    requires e.batch == pre + slots + late && Increasing(e.batch) && Ids(slots) == members[k..]
    requires forall i: nat :: i < |slots| ==> slots[i].id !in e.answers
    ensures k < |members| && members[k] == slots[0].id && Ids(slots[1..]) == members[k + 1..]
    ensures var a := Advanced(slots[0], Token(step, k), end);
      var kept := if a.remaining == 0 then pre else pre + [a];
      var n := EmitOne(e, members[k], Token(step, k), end);
      && n == e.(batch := kept + slots[1..] + late,
                 answers := if a.remaining == 0
                   then e.answers[a.id := Generated(a.tokens, CeilDiv(|a.tokens|, e.blockTokens), a.tbtMax)]
                   else e.answers)
      && Increasing(n.batch) && (forall i: nat :: i < |slots| - 1 ==> slots[1..][i].id !in n.answers)
  {
    var s, post := slots[0], slots[1..] + late;
    FirstMember(members, k, slots);
    Headed(pre, slots, late);
    hide EmitOne, Increasing, CeilDiv, Ids;
    EmitOneShape(e, pre, s, post, Token(step, k), end);
    IncreasingUpdate(pre, s, post, Advanced(s, Token(step, k), end));
    assert forall i: nat :: i < |slots| - 1 ==> slots[1..][i] == post[i];
    Grouped(pre, Advanced(s, Token(step, k), end), slots[1..], late);
  }

  lemma FirstMember(members: seq<nat>, k: nat, slots: seq<Slot>)
    requires k <= |members| && slots != [] && Ids(slots) == members[k..]
    ensures k < |members| && members[k] == slots[0].id && Ids(slots[1..]) == members[k + 1..]
  {
    assert members[k..][0] == slots[0].id && members[k..][1..] == members[k + 1..];
  }

  lemma Grouped(pre: seq<Slot>, a: Slot, rest: seq<Slot>, late: seq<Slot>)
    ensures pre + (rest + late) == pre + rest + late && pre + [a] + (rest + late) == pre + [a] + rest + late
    ensures pre + ([a] + rest) + late == pre + [a] + (rest + late)
  {}

  lemma Headed(pre: seq<Slot>, slots: seq<Slot>, late: seq<Slot>)
    requires slots != []
    ensures pre + slots + late == pre + [slots[0]] + (slots[1..] + late)
  {
    assert slots == [slots[0]] + slots[1..];
    Grouped(pre, slots[0], slots[1..], late);
  }

  /**
   The step loop's search-and-remove over the frozen members is one pass over the front of the
   batch: survivors keep their order, latecomers keep their place, and the finished are answered.
   */
  lemma {:induction false} EmitShape(e: Engine, members: seq<nat>, k: nat, step: nat, end: real,
                                     pre: seq<Slot>, slots: seq<Slot>, late: seq<Slot>)
    requires e.blockTokens > 0 && k <= |members|
    requires e.batch == pre + slots + late && Increasing(e.batch) && Ids(slots) == members[k..]
    requires forall i: nat :: i < |slots| ==> slots[i].id !in e.answers
    ensures Emit(e, members, k, step, end)
      == e.(batch := pre + Kept(slots, k, step, end) + late,
            answers := e.answers + Answered(slots, k, step, end, e.blockTokens))
    decreases |slots|
  {
    hide EmitOne, Increasing, CeilDiv, Kept, Answered, Advanced;
    if slots == [] {
      EmitNone(e.answers, k, step, end, e.blockTokens);
      assert pre + [] + late == e.batch && e.answers + map[] == e.answers;
    } else {
      var a := Advanced(slots[0], Token(step, k), end);
      EmitStep(e, members, k, step, end, pre, slots, late);
      var n := EmitOne(e, members[k], Token(step, k), end);
      EmitShape(n, members, k + 1, step, end, if a.remaining == 0 then pre else pre + [a], slots[1..], late);
      EmitNext(e.answers, pre, slots, k, step, end, e.blockTokens);
    }
  }

  lemma EmitNone(answers: map<nat, Answer>, k: nat, step: nat, end: real, blockTokens: nat)
    requires blockTokens > 0
    ensures Kept([], k, step, end) == [] && answers + Answered([], k, step, end, blockTokens) == answers
  {}

  lemma EmitNext(answers: map<nat, Answer>, pre: seq<Slot>, slots: seq<Slot>, k: nat, step: nat, end: real,
      blockTokens: nat)
    requires slots != [] && blockTokens > 0
    ensures var a := Advanced(slots[0], Token(step, k), end);
      && a.id == slots[0].id
      && (if a.remaining == 0 then pre else pre + [a]) + Kept(slots[1..], k + 1, step, end) == pre
           + Kept(slots, k, step, end)
      && (if a.remaining == 0
          then answers[a.id := Generated(a.tokens, CeilDiv(|a.tokens|, blockTokens), a.tbtMax)] else answers)
           + Answered(slots[1..], k + 1, step, end, blockTokens)
         == answers + Answered(slots, k, step, end, blockTokens)
  {}

  lemma {:induction false} PromoteShape(e: Engine)
    ensures var n := if |e.batch| >= e.maxBatch then 0
                     else if |e.pending| <= e.maxBatch - |e.batch| then |e.pending| else e.maxBatch - |e.batch|;
      Promote(e) == e.(batch := e.batch + e.pending[..n], pending := e.pending[n..])
    decreases |e.pending|
  {
    if e.pending == [] || |e.batch| >= e.maxBatch {
      assert e.batch + e.pending[..0] == e.batch && e.pending[0..] == e.pending;
    } else {
      PromoteShape(e.(batch := e.batch + [e.pending[0]], pending := e.pending[1..]));
      var n := if |e.pending| <= e.maxBatch - |e.batch| then |e.pending| else e.maxBatch - |e.batch|;
      assert e.batch + [e.pending[0]] + e.pending[1..][..n - 1] == e.batch + e.pending[..n];
      assert e.pending[1..][n - 1..] == e.pending[n..];
    }
  }
}
