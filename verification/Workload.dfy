/**
 The multi-turn workload of `kvcache_sim/workload/_generator.py` (`make_workload`): draws cut into
 dialogues of at most `maxTurns` turns, and which blocks any two of their prompts share. Which rank
 each turn belongs to is an input, as are the blocks a turn's generation leaves.
 */
module Workload {
  import opened Basics
  import opened Prefixes

  datatype Shape = Shape(
    ranks: nat, systemBlocks: nat, baseBlocks: nat, queryBlocks: nat, generatedBlocks: nat, maxTurns: nat)

  /** One dialogue: its popularity rank, which of that rank's it is, and which draws its turns are. */
  datatype Dialogue = Dialogue(rank: nat, nth: nat, takes: seq<nat>)

  /** `active` is where each rank's current dialogue stands in `built`. */
  datatype State = State(built: seq<Dialogue>, active: map<nat, nat>, started: map<nat, nat>)

  // ----- cutting draws into dialogues -----------------------------------------------------

  function Started(g: State, c: nat): nat {
    if c in g.started then g.started[c] else 0
  }

  predicate Fits(g: State, c: nat) {
    c in g.active ==> g.active[c] < |g.built|
  }

  /** Whether a rank's next turn opens a dialogue. */
  predicate Opens(p: Shape, g: State, c: nat)
    requires Fits(g, c)
  {
    c !in g.active || |g.built[g.active[c]].takes| >= p.maxTurns
  }

  /** The i-th turn, drawn for rank `c`. */
  function Take(p: Shape, g: State, i: nat, c: nat): State
    requires Fits(g, c)
  {
    if Opens(p, g, c) then
      State(g.built + [Dialogue(c, Started(g, c), [i])], g.active[c := |g.built|], g.started[c := Started(g, c) + 1])
    else
      var d := g.built[g.active[c]];
      g.(built := g.built[g.active[c] := d.(takes := d.takes + [i])])
  }

  function Count(draws: seq<nat>, c: nat): nat
    decreases |draws|
  {
    if draws == [] then 0 else Count(draws[..|draws| - 1], c) + if draws[|draws| - 1] == c then 1 else 0
  }

  /** The dialogues `n` turns need. */
  function Needed(n: nat, maxTurns: nat): nat
    requires maxTurns > 0
  {
    CeilDiv(n, maxTurns)
  }

  /** One rank's current dialogue holds what the full ones before it do not. */
  ghost predicate RankOk(p: Shape, g: State, draws: seq<nat>, c: nat) {
    && p.maxTurns > 0 && Started(g, c) == Needed(Count(draws, c), p.maxTurns)
    && (c in g.active <==> Count(draws, c) > 0)
    && (c in g.active ==>
          && g.active[c] < |g.built| && g.built[g.active[c]].rank == c && g.built[g.active[c]].nth + 1 == Started(g, c)
          && |g.built[g.active[c]].takes| == Count(draws, c) - Full(p.maxTurns, Started(g, c) - 1))
  }

  /** Turns in `k` full dialogues. */
  function Full(maxTurns: nat, k: int): int {
    k * maxTurns
  }

  ghost predicate DialogueOk(p: Shape, g: State, draws: seq<nat>, k: nat)
    requires k < |g.built|
  {
    var d := g.built[k];
    && 1 <= |d.takes| <= p.maxTurns && d.nth < Started(g, d.rank)
    && d.rank in g.active && (g.active[d.rank] != k ==> |d.takes| == p.maxTurns)
    && (forall t :: t in d.takes ==> t < |draws| && draws[t] == d.rank)
    && (forall i, j :: 0 <= i < j < |d.takes| ==> d.takes[i] < d.takes[j])
  }

  ghost predicate Apart(g: State) {
    && (forall a: nat, b: nat :: a < b < |g.built| && g.built[a].rank == g.built[b].rank
         ==> g.built[a].nth < g.built[b].nth)
    && (forall a: nat, b: nat, t :: a < b < |g.built| && t in g.built[a].takes ==> t !in g.built[b].takes)
  }

  function Turns(built: seq<Dialogue>): nat {
    if built == [] then 0 else |built[0].takes| + Turns(built[1..])
  }

  /** The dialogues of the first `ranks` ranks. */
  function Dialogues(draws: seq<nat>, ranks: nat, maxTurns: nat): nat
    requires maxTurns > 0
  {
    if ranks == 0 then 0 else Dialogues(draws, ranks - 1, maxTurns) + Needed(Count(draws, ranks - 1), maxTurns)
  }

  ghost predicate Inv(p: Shape, g: State, draws: seq<nat>) {
    && p.maxTurns > 0
    && (forall c: nat :: RankOk(p, g, draws, c))
    && (forall k: nat :: k < |g.built| ==> DialogueOk(p, g, draws, k))
    && Apart(g)
    && Turns(g.built) == |draws|
    && ((forall t :: t in draws ==> t < p.ranks) ==> |g.built| == Dialogues(draws, p.ranks, p.maxTurns))
  }

  lemma CountMore(draws: seq<nat>, d: nat, c: nat)
    ensures Count(draws + [d], c) == Count(draws, c) + if d == c then 1 else 0
  {
    assert (draws + [d])[..|draws|] == draws;
  }

  /** One more turn needs one more dialogue exactly when those needed so far are full. */
  lemma NeededMore(n: nat, maxTurns: nat)
    requires maxTurns > 0
    ensures var k := Needed(n, maxTurns);
      && Full(maxTurns, k - 1) < n + (if n == 0 then 1 else 0) && n <= Full(maxTurns, k)
      && Needed(n + 1, maxTurns) == if n == Full(maxTurns, k) then k + 1 else k
  {
    var k := Needed(n, maxTurns);
    Division(n + maxTurns - 1, maxTurns, k);
    Division(n + maxTurns, maxTurns, Needed(n + 1, maxTurns));
    if n == Full(maxTurns, k) { Quotient(n + maxTurns, maxTurns, k + 1); } else { Quotient(n + maxTurns, maxTurns, k); }
  }

  lemma {:induction false} TurnsMore(built: seq<Dialogue>, d: Dialogue)
    ensures Turns(built + [d]) == Turns(built) + |d.takes|
    decreases |built|
  {
    if built != [] {
      assert (built + [d])[1..] == built[1..] + [d];
      TurnsMore(built[1..], d);
    }
  }

  lemma {:induction false} TurnsOneMore(built: seq<Dialogue>, k: nat, d: Dialogue)
    requires k < |built| && |d.takes| == |built[k].takes| + 1
    ensures Turns(built[k := d]) == Turns(built) + 1
    decreases |built|
  {
    if k > 0 {
      assert built[k := d][1..] == built[1..][k - 1 := d];
      TurnsOneMore(built[1..], k - 1, d);
    } else {
      assert built[k := d][1..] == built[1..];
    }
  }

  lemma {:induction false} DialoguesMore(draws: seq<nat>, d: nat, ranks: nat, maxTurns: nat)
    requires maxTurns > 0
    ensures var k := Needed(Count(draws, d), maxTurns);
      Dialogues(draws + [d], ranks, maxTurns) == Dialogues(draws, ranks, maxTurns)
        + if d < ranks && Count(draws, d) == Full(maxTurns, k) then 1 else 0
    decreases ranks
  {
    hide Needed, Full;
    if ranks > 0 {
      DialoguesMore(draws, d, ranks - 1, maxTurns);
      CountMore(draws, d, ranks - 1);
      NeededMore(Count(draws, d), maxTurns);
    }
  }

  // ----- a turn keeps it all --------------------------------------------------------------

  /** A turn opens a dialogue exactly when the rank's are all full. */
  lemma OpensIff(p: Shape, g: State, draws: seq<nat>, c: nat)
    requires RankOk(p, g, draws, c)
    ensures Fits(g, c)
    ensures Opens(p, g, c) <==> Count(draws, c) == Full(p.maxTurns, Started(g, c))
  {
    NeededMore(Count(draws, c), p.maxTurns);
    assert Full(p.maxTurns, Started(g, c)) == Full(p.maxTurns, Started(g, c) - 1) + p.maxTurns;
  }

  lemma TakeRank(p: Shape, g: State, draws: seq<nat>, c: nat, b: nat)
    requires Inv(p, g, draws)
    ensures Fits(g, c) && RankOk(p, Take(p, g, |draws|, c), draws + [c], b)
  {
    hide Needed, Full, DialogueOk, Apart, Turns, Dialogues, Count;
    assert RankOk(p, g, draws, c) && RankOk(p, g, draws, b);
    OpensIff(p, g, draws, c);
    CountMore(draws, c, b);
    NeededMore(Count(draws, c), p.maxTurns);
    var r := Take(p, g, |draws|, c);
    if b == c {
      if Opens(p, g, c) {
        assert Started(r, c) == Started(g, c) + 1;
      } else {
        assert Started(r, c) == Started(g, c);
      }
    } else {
      assert Started(r, b) == Started(g, b);
      if b in g.active { assert r.built[g.active[b]] == g.built[g.active[b]]; }
    }
  }

  lemma TakeDialogue(p: Shape, g: State, draws: seq<nat>, c: nat, k: nat)
    requires Inv(p, g, draws) && Fits(g, c)
    requires k < |Take(p, g, |draws|, c).built|
    ensures DialogueOk(p, Take(p, g, |draws|, c), draws + [c], k)
  {
    hide Needed, Full, Apart, Turns, Dialogues, Count;
    assert RankOk(p, g, draws, c);
    var r, more := Take(p, g, |draws|, c), draws + [c];
    if k < |g.built| {
      assert DialogueOk(p, g, draws, k);
      assert forall t :: t in g.built[k].takes ==> more[t] == draws[t];
      assert RankOk(p, g, draws, g.built[k].rank);
      if Opens(p, g, c) {
        assert c in g.active ==> DialogueOk(p, g, draws, g.active[c]);
      } else if k == g.active[c] {
        assert more[|draws|] == c;
        assert forall t :: t in r.built[k].takes <==> t in g.built[k].takes || t == |draws|;
        assert forall i: nat :: i < |g.built[k].takes| ==> g.built[k].takes[i] in g.built[k].takes;
      } else {
        assert r.built[k] == g.built[k];
      }
    }
  }

  lemma TakeApart(p: Shape, g: State, draws: seq<nat>, c: nat)
    requires Inv(p, g, draws) && Fits(g, c)
    ensures Apart(Take(p, g, |draws|, c))
  {
    hide Needed, Full, Turns, Dialogues, Count;
    assert RankOk(p, g, draws, c);
    var r := Take(p, g, |draws|, c);
    forall a: nat, b: nat | a < b < |r.built| && r.built[a].rank == r.built[b].rank
      ensures r.built[a].nth < r.built[b].nth
    {
      assert DialogueOk(p, g, draws, a);
    }
    forall a: nat, b: nat, t | a < b < |r.built| && t in r.built[a].takes
      ensures t !in r.built[b].takes
    {
      assert DialogueOk(p, g, draws, a);
      assert b < |g.built| ==> DialogueOk(p, g, draws, b);
    }
  }

  lemma TakeCounts(p: Shape, g: State, draws: seq<nat>, c: nat)
    requires Inv(p, g, draws) && Fits(g, c)
    ensures var r, more := Take(p, g, |draws|, c), draws + [c];
      && Turns(r.built) == |more|
      && ((forall t :: t in more ==> t < p.ranks) ==> |r.built| == Dialogues(more, p.ranks, p.maxTurns))
  {
    hide Needed, Full, DialogueOk, Apart, Turns, Dialogues, Count;
    assert RankOk(p, g, draws, c);
    OpensIff(p, g, draws, c);
    DialoguesMore(draws, c, p.ranks, p.maxTurns);
    if Opens(p, g, c) {
      TurnsMore(g.built, Dialogue(c, Started(g, c), [|draws|]));
    } else {
      var d := g.built[g.active[c]];
      TurnsOneMore(g.built, g.active[c], d.(takes := d.takes + [|draws|]));
    }
    if forall t :: t in draws + [c] ==> t < p.ranks {
      assert forall t :: t in draws ==> t in draws + [c];
      assert c in draws + [c];
    }
  }

  lemma TakeKeepsInv(p: Shape, g: State, draws: seq<nat>, c: nat)
    requires Inv(p, g, draws)
    ensures Fits(g, c) && Inv(p, Take(p, g, |draws|, c), draws + [c])
  {
    hide RankOk, DialogueOk, Apart, Turns, Dialogues, Take;
    assert RankOk(p, g, draws, c);
    RankFits(p, g, draws, c);
    forall b: nat
      ensures RankOk(p, Take(p, g, |draws|, c), draws + [c], b)
    {
      TakeRank(p, g, draws, c, b);
    }
    forall k: nat | k < |Take(p, g, |draws|, c).built|
      ensures DialogueOk(p, Take(p, g, |draws|, c), draws + [c], k)
    {
      TakeDialogue(p, g, draws, c, k);
    }
    TakeApart(p, g, draws, c);
    TakeCounts(p, g, draws, c);
  }

  lemma RankFits(p: Shape, g: State, draws: seq<nat>, c: nat)
    requires RankOk(p, g, draws, c)
    ensures Fits(g, c)
  {}

  lemma {:induction false} NothingNeeded(ranks: nat, maxTurns: nat)
    requires maxTurns > 0
    ensures Dialogues([], ranks, maxTurns) == 0
  {
    if ranks > 0 { NothingNeeded(ranks - 1, maxTurns); }
  }

  lemma EmptyInv(p: Shape)
    requires p.maxTurns > 0
    ensures Inv(p, State([], map[], map[]), [])
  {
    NothingNeeded(p.ranks, p.maxTurns);
  }

  /** The dialogues a list of draws is cut into. */
  ghost function Generate(p: Shape, draws: seq<nat>): (g: State)
    requires p.maxTurns > 0
    ensures Inv(p, g, draws)
    decreases |draws|
  {
    if draws == [] then
      EmptyInv(p);
      State([], map[], map[])
    else
      var last := |draws| - 1;
      var g := Generate(p, draws[..last]);
      TakeKeepsInv(p, g, draws[..last], draws[last]);
      assert draws == draws[..last] + [draws[last]];
      Take(p, g, last, draws[last])
  }

  /**
   Every turn drawn is a turn of one dialogue, every dialogue has between one turn and the most, only
   a rank's latest may have fewer, and there are as many as the counts alone say there will be.
   */
  lemma DialoguesAreAsCounted(p: Shape, draws: seq<nat>)
    requires p.maxTurns > 0 && forall t :: t in draws ==> t < p.ranks
    ensures var g := Generate(p, draws);
      && Turns(g.built) == |draws|
      && |g.built| == Dialogues(draws, p.ranks, p.maxTurns)
      && (forall k: nat :: k < |g.built| ==> 1 <= |g.built[k].takes| <= p.maxTurns)
      && (forall a: nat, b: nat :: a < b < |g.built| && g.built[a].rank == g.built[b].rank ==>
            |g.built[a].takes| == p.maxTurns && g.built[a].nth < g.built[b].nth)
  {
    hide Generate, Needed, Full, Count, Turns, Dialogues;
    var g := Generate(p, draws);
    forall a: nat, b: nat | a < b < |g.built| && g.built[a].rank == g.built[b].rank
      ensures |g.built[a].takes| == p.maxTurns
    {
      assert DialogueOk(p, g, draws, a) && DialogueOk(p, g, draws, b) && RankOk(p, g, draws, g.built[a].rank);
    }
    forall k: nat | k < |g.built|
      ensures 1 <= |g.built[k].takes| <= p.maxTurns
    {
      assert DialogueOk(p, g, draws, k);
    }
  }

  // ----- what the prompts share -----------------------------------------------------------

  function Range(from: nat, n: nat): (r: seq<nat>)
    ensures |r| == n && forall i: nat :: i < n ==> r[i] == from + i
  {
    seq(n, i requires 0 <= i => from + i)
  }

  /** Where a rank's own context starts among the segment ids, and where the queries do. */
  function BaseFrom(p: Shape, c: nat): nat {
    1000 + c * p.baseBlocks
  }

  function QueryFrom(p: Shape, i: nat): nat {
    BaseFrom(p, p.ranks) + i * p.queryBlocks
  }

  function Opening(p: Shape, c: nat): seq<nat> {
    Range(0, p.systemBlocks) + Range(BaseFrom(p, c), p.baseBlocks)
  }

  function Query(p: Shape, i: nat): seq<nat> {
    Range(QueryFrom(p, i), p.queryBlocks)
  }

  /** The prompt after these turns: all of the one before, what its generation left, and the new message. */
  function Segments(p: Shape, c: nat, takes: seq<nat>): seq<Segment>
    requires takes != []
    decreases |takes|
  {
    var last := |takes| - 1;
    if last == 0 then AllGiven(Opening(p, c) + Query(p, takes[0]))
    else Segments(p, c, takes[..last]) + Leaves(p.generatedBlocks) + AllGiven(Query(p, takes[last]))
  }

  lemma {:induction false} SegmentsExtend(p: Shape, c: nat, takes: seq<nat>, n: nat)
    requires 0 < n <= |takes|
    ensures var a, b := Segments(p, c, takes[..n]), Segments(p, c, takes);
      |a| <= |b| && b[..|a|] == a
    decreases |takes|
  {
    if n == |takes| {
      assert takes[..n] == takes;
    } else {
      var last := |takes| - 1;
      SegmentsExtend(p, c, takes[..last], n);
      assert takes[..last][..n] == takes[..n];
      var a, m, b := Segments(p, c, takes[..n]), Segments(p, c, takes[..last]), Segments(p, c, takes);
      assert b[..|a|] == m[..|a|];
    }
  }

  /** How every prompt of a rank starts. */
  lemma SegmentsOpen(p: Shape, c: nat, takes: seq<nat>)
    requires takes != []
    ensures var a := Segments(p, c, takes);
      && p.systemBlocks + p.baseBlocks + p.queryBlocks <= |a|
      && (forall i: nat :: i < p.systemBlocks ==> a[i] == Given(i))
      && (forall i: nat :: p.systemBlocks <= i < p.systemBlocks + p.baseBlocks ==>
            a[i] == Given(BaseFrom(p, c) + (i - p.systemBlocks)))
      && (p.queryBlocks > 0 ==> a[p.systemBlocks + p.baseBlocks] == Given(QueryFrom(p, takes[0])))
  {
    hide BaseFrom, QueryFrom;
    SegmentsExtend(p, c, takes, 1);
    assert takes[..1] == [takes[0]];
    var ids := Opening(p, c) + Query(p, takes[0]);
    assert Segments(p, c, [takes[0]]) == AllGiven(ids);
    hide Segments, AllGiven, Opening, Query;
    OpeningIs(p, c, takes[0]);
    var a := Segments(p, c, takes);
    forall i: nat | i < |ids|
      ensures a[i] == Given(ids[i])
    {
      assert a[i] == a[..|ids|][i];
    }
  }

  /** How a rank's first prompt is numbered. */
  lemma OpeningIs(p: Shape, c: nat, i: nat)
    ensures var ids := Opening(p, c) + Query(p, i);
      && |ids| == p.systemBlocks + p.baseBlocks + p.queryBlocks
      && (forall j: nat :: j < p.systemBlocks ==> ids[j] == j)
      && (forall j: nat :: p.systemBlocks <= j < p.systemBlocks + p.baseBlocks ==>
            ids[j] == BaseFrom(p, c) + (j - p.systemBlocks))
      && (p.queryBlocks > 0 ==> ids[p.systemBlocks + p.baseBlocks] == QueryFrom(p, i))
  {
    hide BaseFrom, QueryFrom;
  }

  /** Where the `m`-th turn's message stands in a prompt: behind the opening, and a message and an answer each turn. */
  function MessageAt(p: Shape, m: nat): nat {
    p.systemBlocks + p.baseBlocks + m * (p.queryBlocks + p.generatedBlocks)
  }

  lemma MessageNext(p: Shape, m: nat, n: nat)
    ensures MessageAt(p, 0) == p.systemBlocks + p.baseBlocks
    ensures MessageAt(p, m + 1) == MessageAt(p, m) + p.queryBlocks + p.generatedBlocks
    ensures m < n ==> MessageAt(p, m) + p.queryBlocks + p.generatedBlocks <= MessageAt(p, n)
  {
    var step := p.queryBlocks + p.generatedBlocks;
    assert (m + 1) * step == m * step + step;
    if m < n { Scaled(m + 1, n, step); }
  }

  /** The `i`-th draw's message stands at `at`, numbered behind every rank's context and every earlier message. */
  ghost predicate Message(p: Shape, a: seq<Segment>, at: nat, i: nat) {
    at + p.queryBlocks <= |a|
    && forall j: nat :: at <= j < at + p.queryBlocks ==>
         a[j] == Given(1000 + p.ranks * p.baseBlocks + i * p.queryBlocks + (j - at))
  }

  /** What an answer left stands at `at`, counted from one. */
  ghost predicate Answer(p: Shape, a: seq<Segment>, at: nat) {
    at + p.generatedBlocks <= |a| && forall j: nat :: at <= j < at + p.generatedBlocks ==> a[j] == Left(j - at + 1)
  }

  /** The shared system segments, then the rank's own from 1000 on. */
  ghost predicate Openly(p: Shape, c: nat, a: seq<Segment>) {
    && p.systemBlocks + p.baseBlocks <= |a|
    && (forall j: nat :: j < p.systemBlocks ==> a[j] == Given(j))
    && (forall j: nat :: p.systemBlocks <= j < p.systemBlocks + p.baseBlocks ==>
          a[j] == Given(1000 + c * p.baseBlocks + (j - p.systemBlocks)))
  }

  /**
   A prompt block by block: the shared system segments, the rank's own from 1000 on, then each turn's
   message and, between messages, what the answers left.
   */
  ghost predicate Numbered(p: Shape, c: nat, takes: seq<nat>, a: seq<Segment>)
    requires takes != []
  {
    && |a| == MessageAt(p, |takes| - 1) + p.queryBlocks
    && Openly(p, c, a)
    && (forall m: nat :: m < |takes| ==> Message(p, a, MessageAt(p, m), takes[m]))
    && (forall m: nat :: m + 1 < |takes| ==> Answer(p, a, MessageAt(p, m) + p.queryBlocks))
  }

  lemma {:induction false} PromptIsNumbered(p: Shape, c: nat, takes: seq<nat>)
    requires takes != []
    ensures Numbered(p, c, takes, Segments(p, c, takes))
    decreases |takes|
  {
    var last := |takes| - 1;
    if last == 0 {
      FirstIsNumbered(p, c, takes);
    } else {
      PromptIsNumbered(p, c, takes[..last]);
      hide Segments;
      NextIsNumbered(p, c, takes, Segments(p, c, takes[..last]));
      Split(p, c, takes);
    }
  }

  lemma Split(p: Shape, c: nat, takes: seq<nat>)
    requires |takes| > 1
    ensures var last := |takes| - 1;
      Segments(p, c, takes)
        == Segments(p, c, takes[..last]) + Leaves(p.generatedBlocks) + AllGiven(Query(p, takes[last]))
  {}

  lemma QueryIsMessage(p: Shape, lead: seq<Segment>, i: nat)
    ensures Message(p, lead + AllGiven(Query(p, i)), |lead|, i)
  {
    var a := lead + AllGiven(Query(p, i));
    forall j: nat | |lead| <= j < |lead| + p.queryBlocks
      ensures a[j] == Given(1000 + p.ranks * p.baseBlocks + i * p.queryBlocks + (j - |lead|))
    {
      assert a[j] == AllGiven(Query(p, i))[j - |lead|];
    }
  }

  lemma OpeningIsNumbered(p: Shape, c: nat)
    ensures |AllGiven(Opening(p, c))| == p.systemBlocks + p.baseBlocks
    ensures forall more :: Openly(p, c, AllGiven(Opening(p, c)) + more)
  {}

  lemma FirstIsNumbered(p: Shape, c: nat, takes: seq<nat>)
    requires |takes| == 1
    ensures Numbered(p, c, takes, AllGiven(Opening(p, c) + Query(p, takes[0])))
  {
    hide MessageAt, Opening, Query, Message, Answer, Openly;
    var lead := AllGiven(Opening(p, c));
    assert AllGiven(Opening(p, c) + Query(p, takes[0])) == lead + AllGiven(Query(p, takes[0]));
    MessageNext(p, 0, 0);
    OpeningIsNumbered(p, c);
    QueryIsMessage(p, lead, takes[0]);
    QuerySize(p, takes[0]);
  }

  lemma QuerySize(p: Shape, i: nat)
    ensures |Query(p, i)| == p.queryBlocks
  {}

  /** Whatever stood in a prompt stands where it did in a longer one. */
  lemma StandsStill(p: Shape, b: seq<Segment>, a: seq<Segment>, at: nat, i: nat)
    requires |b| <= |a| && a[..|b|] == b
    ensures Message(p, b, at, i) ==> Message(p, a, at, i)
    ensures Answer(p, b, at) ==> Answer(p, a, at)
    ensures forall c: nat :: Openly(p, c, b) ==> Openly(p, c, a)
  {
    assert forall j: nat :: j < |b| ==> a[..|b|][j] == a[j];
  }

  /** Every message of a prompt still stands in the next turn's, and so does its own. */
  lemma MessagesStand(p: Shape, takes: seq<nat>, b: seq<Segment>, a: seq<Segment>, m: nat)
    requires |takes| > 1 && m < |takes| && |b| <= |a| && a[..|b|] == b
    requires forall k: nat :: k < |takes| - 1 ==> Message(p, b, MessageAt(p, k), takes[..|takes| - 1][k])
    requires Message(p, a, MessageAt(p, |takes| - 1), takes[|takes| - 1])
    ensures Message(p, a, MessageAt(p, m), takes[m])
  {
    hide MessageAt, Message, Answer;
    if m < |takes| - 1 { StandsStill(p, b, a, MessageAt(p, m), takes[m]); }
  }

  /** And so do the answers between them. */
  lemma AnswersStand(p: Shape, turns: nat, b: seq<Segment>, a: seq<Segment>, m: nat)
    requires turns > 1 && m + 1 < turns && |b| <= |a| && a[..|b|] == b
    requires forall k: nat :: k + 1 < turns - 1 ==> Answer(p, b, MessageAt(p, k) + p.queryBlocks)
    requires Answer(p, a, MessageAt(p, turns - 2) + p.queryBlocks)
    ensures Answer(p, a, MessageAt(p, m) + p.queryBlocks)
  {
    hide MessageAt, Message, Answer;
    if m + 1 < turns - 1 { StandsStill(p, b, a, MessageAt(p, m) + p.queryBlocks, 0); }
  }

  lemma NextIsNumbered(p: Shape, c: nat, takes: seq<nat>, b: seq<Segment>)
    requires |takes| > 1 && Numbered(p, c, takes[..|takes| - 1], b)
    ensures Numbered(p, c, takes, b + Leaves(p.generatedBlocks) + AllGiven(Query(p, takes[|takes| - 1])))
  {
    hide MessageAt, Message, Answer, Openly, Query, Leaves, AllGiven;
    var last := |takes| - 1;
    var a := b + Leaves(p.generatedBlocks) + AllGiven(Query(p, takes[last]));
    MessageNext(p, last - 1, last);
    LastMessage(p, b, takes[last]);
    QuerySize(p, takes[last]);
    assert a[..|b|] == b;
    forall m: nat | m < |takes|
      ensures Message(p, a, MessageAt(p, m), takes[m])
    {
      MessagesStand(p, takes, b, a, m);
    }
    forall m: nat | m + 1 < |takes|
      ensures Answer(p, a, MessageAt(p, m) + p.queryBlocks)
    {
      AnswersStand(p, |takes|, b, a, m);
    }
    StandsStill(p, b, a, 0, 0);
  }

  lemma LastMessage(p: Shape, b: seq<Segment>, i: nat)
    ensures var a := b + Leaves(p.generatedBlocks) + AllGiven(Query(p, i));
      Answer(p, a, |b|) && Message(p, a, |b| + p.generatedBlocks, i)
  {
    QueryIsMessage(p, b + Leaves(p.generatedBlocks), i);
  }

  lemma Spread(m: nat, n: nat, b: nat)
    requires m != n && b > 0
    ensures m * b != n * b
  {
    if m < n { Steps(m, n, b); } else { Steps(n, m, b); }
  }

  /** Different dialogues of one rank share its opening and no more. */
  lemma SameRankShare(p: Shape, c: nat, xs: seq<nat>, ys: seq<nat>)
    requires xs != [] && ys != [] && xs[0] != ys[0] && p.queryBlocks > 0
    ensures Common(Segments(p, c, xs), Segments(p, c, ys)) == p.systemBlocks + p.baseBlocks
  {
    hide Segments, BaseFrom, QueryFrom;
    SegmentsOpen(p, c, xs);
    SegmentsOpen(p, c, ys);
    QueriesApart(p, xs[0], ys[0]);
    OpenAlike(p, c, c, xs, ys);
    CommonUnique(Segments(p, c, xs), Segments(p, c, ys), p.systemBlocks + p.baseBlocks);
  }

  /** Different ranks share the system prompt and no more, with or without contexts of their own. */
  lemma OtherRankShare(p: Shape, c: nat, d: nat, xs: seq<nat>, ys: seq<nat>)
    requires xs != [] && ys != [] && xs[0] != ys[0] && c != d && (p.baseBlocks > 0 || p.queryBlocks > 0)
    ensures Common(Segments(p, c, xs), Segments(p, d, ys)) == p.systemBlocks
  {
    hide Segments, BaseFrom, QueryFrom;
    SegmentsOpen(p, c, xs);
    SegmentsOpen(p, d, ys);
    var n := p.systemBlocks;
    var a, b := Segments(p, c, xs), Segments(p, d, ys);
    if p.baseBlocks > 0 {
      BasesApart(p, c, d);
      assert a[n] == Given(BaseFrom(p, c)) && b[n] == Given(BaseFrom(p, d));
    } else {
      QueriesApart(p, xs[0], ys[0]);
      assert a[n] == Given(QueryFrom(p, xs[0])) && b[n] == Given(QueryFrom(p, ys[0]));
    }
    assert a[..n] == b[..n];
    CommonUnique(a, b, n);
  }

  lemma BasesApart(p: Shape, c: nat, d: nat)
    requires c != d && p.baseBlocks > 0
    ensures BaseFrom(p, c) != BaseFrom(p, d)
  {
    Spread(c, d, p.baseBlocks);
  }

  lemma QueriesApart(p: Shape, x: nat, y: nat)
    requires x != y && p.queryBlocks > 0
    ensures QueryFrom(p, x) != QueryFrom(p, y)
  {
    Spread(x, y, p.queryBlocks);
  }

  /** With no query blocks a prompt says how many turns it has had, and not which. */
  lemma {:induction false} QueryFree(p: Shape, c: nat, xs: seq<nat>, ys: seq<nat>)
    requires p.queryBlocks == 0 && |xs| == |ys| > 0
    ensures Segments(p, c, xs) == Segments(p, c, ys)
    decreases |xs|
  {
    hide Opening, Query;
    var last := |xs| - 1;
    NoQuery(p, xs[last]);
    NoQuery(p, ys[last]);
    if last > 0 { QueryFree(p, c, xs[..last], ys[..last]); }
  }

  lemma NoQuery(p: Shape, i: nat)
    requires p.queryBlocks == 0
    ensures Query(p, i) == []
  {}

  /** No block in any prompt: its generated blocks then continue the id of the dialogue's first request. */
  predicate Bare(p: Shape) {
    p.systemBlocks + p.baseBlocks + p.queryBlocks == 0
  }

  function RequestId(i: nat): string {
    "r" + Decimal(i)
  }

  function Root(p: Shape, model: string, d: Dialogue): string
    requires d.takes != []
  {
    if Bare(p) then RequestId(d.takes[0]) else model
  }

  /** The keys of the k-th turn of a dialogue. */
  function Keys(p: Shape, model: string, d: Dialogue, k: nat): seq<Key>
    requires k < |d.takes|
  {
    Chain(Root(p, model, d), Segments(p, d.rank, d.takes[..k + 1]))
  }

  /** Every chain continues the model's name, or with no block in any prompt the id of the dialogue's first request. */
  lemma FirstKeyContinues(p: Shape, model: string, d: Dialogue, k: nat)
    requires k < |d.takes| && Keys(p, model, d, k) != []
    ensures var root := if Bare(p) then "r" + Decimal(d.takes[0]) else model;
      Keys(p, model, d, k)[0] == root + "|" + Text(Segments(p, d.rank, d.takes[..k + 1])[0])
  {
    hide Segments, Decimal;
    KeysContinue(Root(p, model, d), Segments(p, d.rank, d.takes[..k + 1]), 0);
  }

  lemma FirstTakesDiffer(g: State, a: nat, b: nat)
    requires Apart(g) && a < |g.built| && b < |g.built| && a != b && g.built[a].takes != [] && g.built[b].takes != []
    ensures g.built[a].takes[0] != g.built[b].takes[0]
  {
    assert g.built[a].takes[0] in g.built[a].takes && g.built[b].takes[0] in g.built[b].takes;
  }

  /** Two dialogues that continue their requests' ids share nothing. */
  lemma RequestsShareNothing(i: nat, j: nat, a: seq<Segment>, b: seq<Segment>)
    requires i != j
    ensures Common(Chain(RequestId(i), a), Chain(RequestId(j), b)) == 0
  {
    var x, y := Chain(RequestId(i), a), Chain(RequestId(j), b);
    if a != [] && b != [] && x[0] == y[0] {
      DecimalIsDigits(i);
      DecimalIsDigits(j);
      PlainRootsNeverAlias(RequestId(i), RequestId(j), a[..1], b[..1]);
      assert RequestId(i)[1..] == Decimal(i) && RequestId(j)[1..] == Decimal(j);
      DecimalInjective(i, j);
    }
  }

  /** Whether the i-th turn of one dialogue and the j-th of another share what the workload promises. */
  ghost predicate SharesAsPromised(p: Shape, model: string, g: State, a: nat, i: nat, b: nat, j: nat)
    requires a < |g.built| && b < |g.built| && i < |g.built[a].takes| && j < |g.built[b].takes|
  {
    Common(Keys(p, model, g.built[a], i), Keys(p, model, g.built[b], j))
      == if a == b then |Keys(p, model, g.built[a], i)|
         else if g.built[a].rank == g.built[b].rank then p.systemBlocks + p.baseBlocks
         else p.systemBlocks
  }

  predicate TurnsOf(g: State, a: nat, i: nat, b: nat, j: nat) {
    a < |g.built| && b < |g.built| && i < |g.built[a].takes| && j < |g.built[b].takes| && (a == b ==> i <= j)
  }

  /** Queries, generations and dialogue lengths under which turns share as promised, whatever is drawn. */
  predicate Telling(p: Shape) {
    p.queryBlocks > 0 || p.generatedBlocks == 0 || p.maxTurns == 1 || p.systemBlocks + p.baseBlocks == 0
  }

  /**
   Any two turns of a workload share exactly: the earlier's whole chain within one dialogue, the
   system prompt and the rank's context within one rank, the system prompt alone across ranks.
   */
  lemma TurnsShare(p: Shape, model: string, draws: seq<nat>, a: nat, i: nat, b: nat, j: nat)
    requires p.maxTurns > 0 && TurnsOf(Generate(p, draws), a, i, b, j)
    requires Telling(p) || a == b || i == 0 || j == 0
    ensures SharesAsPromised(p, model, Generate(p, draws), a, i, b, j)
  {
    var g := Generate(p, draws);
    assert DialogueOk(p, g, draws, a) && DialogueOk(p, g, draws, b);
    assert |g.built[a].takes| <= p.maxTurns && Apart(g);
    hide Generate, Segments, RankOk, DialogueOk, Turns, Dialogues, Chain, Common, RequestId;
    var d, e := g.built[a], g.built[b];
    var xs, ys := Segments(p, d.rank, d.takes[..i + 1]), Segments(p, e.rank, e.takes[..j + 1]);
    if Bare(p) && a != b {
      FirstTakesDiffer(g, a, b);
      RequestsShareNothing(d.takes[0], e.takes[0], xs, ys);
    } else {
      SegmentsShare(p, g, a, i, b, j);
      ChainsShare(Root(p, model, d), xs, ys);
    }
  }

  lemma SegmentsShare(p: Shape, g: State, a: nat, i: nat, b: nat, j: nat)
    requires Apart(g) && TurnsOf(g, a, i, b, j) && (a == b || !Bare(p))
    requires p.queryBlocks > 0 || p.generatedBlocks == 0 || a == b || i == 0 || j == 0
    ensures var d, e := g.built[a], g.built[b];
      var xs, ys := d.takes[..i + 1], e.takes[..j + 1];
      Common(Segments(p, d.rank, xs), Segments(p, e.rank, ys))
        == if a == b then |Segments(p, d.rank, xs)|
           else if d.rank == e.rank then p.systemBlocks + p.baseBlocks
           else p.systemBlocks
  {
    hide Segments, Common, Apart;
    var d, e := g.built[a], g.built[b];
    var xs, ys := d.takes[..i + 1], e.takes[..j + 1];
    if a == b {
      assert ys[..i + 1] == xs;
      SegmentsExtend(p, d.rank, ys, i + 1);
      CommonUnique(Segments(p, d.rank, xs), Segments(p, d.rank, ys), |Segments(p, d.rank, xs)|);
    } else {
      FirstTakesDiffer(g, a, b);
      if d.rank != e.rank && (p.baseBlocks > 0 || p.queryBlocks > 0) {
        OtherRankShare(p, d.rank, e.rank, xs, ys);
      } else if p.queryBlocks > 0 {
        SameRankShare(p, d.rank, xs, ys);
      } else {
        SameOpening(p, d.rank, e.rank, xs, ys);
      }
    }
  }

  /** With no query, and one of the two a first turn or nothing generated, what is shared is the opening. */
  lemma SameOpening(p: Shape, c: nat, d: nat, xs: seq<nat>, ys: seq<nat>)
    requires xs != [] && ys != [] && p.queryBlocks == 0 && (c == d || p.baseBlocks == 0)
    requires p.generatedBlocks == 0 || |xs| == 1 || |ys| == 1
    ensures Common(Segments(p, c, xs), Segments(p, d, ys)) == p.systemBlocks + p.baseBlocks
  {
    hide Segments, BaseFrom, Common;
    var n := p.systemBlocks + p.baseBlocks;
    var a, b := Segments(p, c, xs), Segments(p, d, ys);
    OnlyOpening(p, c, xs);
    OnlyOpening(p, d, ys);
    OpenAlike(p, c, d, xs, ys);
    CommonUnique(a, b, n);
  }

  lemma OpenAlike(p: Shape, c: nat, d: nat, xs: seq<nat>, ys: seq<nat>)
    requires xs != [] && ys != [] && (c == d || p.baseBlocks == 0)
    ensures var n := p.systemBlocks + p.baseBlocks;
      && n <= |Segments(p, c, xs)| && n <= |Segments(p, d, ys)|
      && Segments(p, c, xs)[..n] == Segments(p, d, ys)[..n]
  {
    hide Segments, BaseFrom, QueryFrom;
    SegmentsOpen(p, c, xs);
    SegmentsOpen(p, d, ys);
    var a, b := Segments(p, c, xs), Segments(p, d, ys);
    forall i: nat | i < p.systemBlocks + p.baseBlocks
      ensures a[i] == b[i]
    {
      if i >= p.systemBlocks { assert a[i] == Given(BaseFrom(p, c) + (i - p.systemBlocks)); }
    }
  }

  lemma {:induction false} OnlyOpening(p: Shape, c: nat, xs: seq<nat>)
    requires xs != [] && p.queryBlocks == 0
    ensures p.generatedBlocks == 0 || |xs| == 1 ==> |Segments(p, c, xs)| == p.systemBlocks + p.baseBlocks
    ensures |xs| == 2 ==> |Segments(p, c, xs)| == p.systemBlocks + p.baseBlocks + p.generatedBlocks
    decreases |xs|
  {
    hide Query;
    NoQuery(p, xs[|xs| - 1]);
    if |xs| > 1 { OnlyOpening(p, c, xs[..|xs| - 1]); }
  }

  // ----- when it fails --------------------------------------------------------------------

  /** Turns enough for two dialogues of rank 0 with two turns each. */
  function Zeros(n: nat): (r: seq<nat>)
    ensures |r| == n && forall t :: t in r ==> t == 0
  {
    seq(n, _ => 0)
  }

  lemma {:induction false} CountZeros(n: nat)
    ensures Count(Zeros(n), 0) == n
  {
    if n > 0 {
      assert Zeros(n)[..n - 1] == Zeros(n - 1);
      CountZeros(n - 1);
    }
  }

  lemma TwoDialogues(p: Shape) returns (a: nat, b: nat)
    requires p.maxTurns > 1
    ensures var g := Generate(p, Zeros(p.maxTurns + 2));
      && a < |g.built| && b < |g.built| && a != b && g.built[a].rank == 0 == g.built[b].rank
      && |g.built[a].takes| > 1 && |g.built[b].takes| > 1
  {
    var draws := Zeros(p.maxTurns + 2);
    var g := Generate(p, draws);
    hide Generate, Apart, Turns, Dialogues, Count;
    a := LatestOfTwo(p, g, draws);
    OneTurnCount(g.built);
    b := if a == 0 then 1 else 0;
    assert DialogueOk(p, g, draws, b);
    var t := g.built[b].takes[0];
    assert t in g.built[b].takes && draws[t] in draws;
  }

  lemma LatestOfTwo(p: Shape, g: State, draws: seq<nat>) returns (a: nat)
    requires p.maxTurns > 1 && draws == Zeros(p.maxTurns + 2) && RankOk(p, g, draws, 0)
    ensures 0 in g.active && g.active[0] == a < |g.built| && g.built[a].rank == 0 && |g.built[a].takes| == 2
  {
    CountZeros(p.maxTurns + 2);
    Quotient(p.maxTurns + 2 + p.maxTurns - 1, p.maxTurns, 2);
    a := g.active[0];
  }

  lemma OneTurnCount(built: seq<Dialogue>)
    ensures |built| == 1 ==> Turns(built) == |built[0].takes|
  {
    if |built| == 1 { assert built[1..] == []; }
  }

  /**
   Without a query block two dialogues of one rank are told apart only by their generated blocks, and
   those are numbered alike in every dialogue: their second turns have the very same keys.
   */
  lemma SecondTurnsAlias(p: Shape, model: string)
    requires p.maxTurns > 0 && !Telling(p)
    ensures var g := Generate(p, Zeros(p.maxTurns + 2));
      exists a: nat, b: nat ::
        && a != b && TurnsOf(g, a, 1, b, 1) && Keys(p, model, g.built[a], 1) == Keys(p, model, g.built[b], 1)
        && !SharesAsPromised(p, model, g, a, 1, b, 1)
  {
    var g := Generate(p, Zeros(p.maxTurns + 2));
    var a, b := TwoDialogues(p);
    hide Generate, Chain;
    QueryFree(p, 0, g.built[a].takes[..2], g.built[b].takes[..2]);
    OnlyOpening(p, 0, g.built[a].takes[..2]);
    hide Segments;
    var x := Keys(p, model, g.built[a], 1);
    CommonUnique(x, x, |x|);
    assert TurnsOf(g, a, 1, b, 1);
  }

  /** Turns share as promised in every workload of a shape exactly when the shape tells dialogues apart. */
  lemma TurnsShareIff(p: Shape, model: string)
    requires p.maxTurns > 0
    ensures (forall draws: seq<nat>, a: nat, i: nat, b: nat, j: nat ::
        (forall t :: t in draws ==> t < p.ranks) && TurnsOf(Generate(p, draws), a, i, b, j) ==>
          SharesAsPromised(p, model, Generate(p, draws), a, i, b, j))
      <==> Telling(p) || p.ranks == 0
  {
    hide Generate, SharesAsPromised, Keys;
    if Telling(p) || p.ranks == 0 {
      forall draws: seq<nat>, a: nat, i: nat, b: nat, j: nat
        | (forall t :: t in draws ==> t < p.ranks) && TurnsOf(Generate(p, draws), a, i, b, j)
        ensures SharesAsPromised(p, model, Generate(p, draws), a, i, b, j)
      {
        if p.ranks == 0 {
          NothingDrawn(p, draws, p.ranks);
        } else {
          TurnsShare(p, model, draws, a, i, b, j);
        }
      }
    } else {
      SecondTurnsAlias(p, model);
    }
  }

  lemma NothingDrawn(p: Shape, draws: seq<nat>, ranks: nat)
    requires p.maxTurns > 0 && forall t :: t in draws ==> t < ranks
    ensures ranks == 0 ==> Generate(p, draws).built == []
  {
    if draws != [] { assert draws[0] in draws; }
  }
}
