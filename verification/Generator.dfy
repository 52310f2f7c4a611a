/** The workload loop itself, tied to the dialogues and prompts of `Workload`. */
module Generator {
  import opened Basics
  import opened Prefixes
  import opened Workload

  /** One turn's request: which draw it is, and its key chain. */
  datatype Turn = Turn(number: nat, keys: seq<Key>)

  /** A conversation under construction: its turns so far. */
  datatype Built = Built(rank: nat, nth: nat, turns: seq<Turn>)

  /** What the loop over draws carries. */
  datatype Scratch = Scratch(built: seq<Built>, active: map<nat, nat>, started: map<nat, nat>)

  lemma EncodeOn(root: string, a: seq<Segment>, b: seq<Segment>)
    ensures Encode(root, a + b) == Encode(Encode(root, a), b)
    decreases |b|
  {
    if b == [] {
      assert a + b == a;
    } else {
      var init, s := b[..|b| - 1], b[|b| - 1];
      assert a + b == (a + init) + [s] && b == init + [s];
      EncodeMore(root, a + init, s);
      EncodeMore(Encode(root, a), init, s);
      EncodeOn(root, a, init);
    }
  }

  /** A chain continues from the last key of its front. */
  lemma ChainOn(root: string, a: seq<Segment>, b: seq<Segment>)
    ensures Chain(root, a + b) == Chain(root, a) + Chain(Encode(root, a), b)
    ensures a != [] ==> Chain(root, a)[|a| - 1] == Encode(root, a)
  {
    hide Encode, Chain;
    var all, r := Chain(root, a + b), Chain(root, a) + Chain(Encode(root, a), b);
    forall i: nat | i < |a + b|
      ensures all[i] == r[i]
    {
      if i < |a| {
        assert (a + b)[..i + 1] == a[..i + 1];
      } else {
        assert (a + b)[..i + 1] == a + b[..i - |a| + 1];
        EncodeOn(root, a, b[..i - |a| + 1]);
      }
    }
    assert a[..|a|] == a;
  }

  /** The chain of a dialogue's next turn, out of the one before; with nothing before it there is no last key. */
  method NextKeys(p: Shape, id: string, previous: seq<Key>, query: seq<nat>, ghost root: string,
      ghost before: seq<Segment>)
    returns (keys: Option<seq<Key>>)
    requires previous == Chain(root, before) && (before == [] && p.generatedBlocks > 0 ==> id == root)
    ensures keys == if before == [] && p.generatedBlocks == 0 then None
                    else Some(Chain(root, before + Leaves(p.generatedBlocks) + AllGiven(query)))
  {
    hide Chain, Encode;
    var generated := ContinuationKeys(id, previous, p.generatedBlocks);
    ghost var left := before + Leaves(p.generatedBlocks);
    ChainOn(root, before, Leaves(p.generatedBlocks));
    EncodeNone(root);
    var history := previous + generated;
    if history == [] {
      return None;
    }
    ChainOn(root, left, AllGiven(query));
    var unused := Extend(history[|history| - 1], query);
    keys := Some(history + unused);
  }

  lemma EncodeNone(root: string)
    ensures Encode(root, []) == root
  {}

  /** How many turns each rank draws, and how many dialogues that will make. */
  method CountDialogues(p: Shape, draws: seq<nat>) returns (dialogues: nat)
    requires p.maxTurns > 0 && forall t :: t in draws ==> t < p.ranks
    ensures dialogues == Dialogues(draws, p.ranks, p.maxTurns)
  {
    hide Needed, Dialogues;
    var counts := new nat[p.ranks](c => 0);
    for i := 0 to |draws|
      invariant forall c: nat :: c < p.ranks ==> counts[c] == Count(draws[..i], c)
    {
      assert draws[..i + 1] == draws[..i] + [draws[i]];
      forall c: nat
        ensures Count(draws[..i + 1], c) == Count(draws[..i], c) + if draws[i] == c then 1 else 0
      {
        CountMore(draws[..i], draws[i], c);
      }
      assert draws[i] in draws;
      counts[draws[i]] := counts[draws[i]] + 1;
    }
    assert draws[..|draws|] == draws;
    dialogues := 0;
    NoDialogues(draws, p.maxTurns);
    for c := 0 to p.ranks
      invariant dialogues == Dialogues(draws, c, p.maxTurns)
      invariant forall b: nat :: b < p.ranks ==> counts[b] == Count(draws, b)
    {
      DialoguesNext(draws, c, p.maxTurns);
      dialogues := dialogues + Needed(counts[c], p.maxTurns);
    }
  }

  lemma NoDialogues(draws: seq<nat>, maxTurns: nat)
    requires maxTurns > 0
    ensures Dialogues(draws, 0, maxTurns) == 0
  {}

  lemma DialoguesNext(draws: seq<nat>, c: nat, maxTurns: nat)
    requires maxTurns > 0
    ensures Dialogues(draws, c + 1, maxTurns) == Dialogues(draws, c, maxTurns) + Needed(Count(draws, c), maxTurns)
  {}

  /** Every rank's opening: the shared system segments and its own. */
  method Openings(p: Shape) returns (opening: seq<seq<nat>>, unused: nat)
    ensures |opening| == p.ranks && forall c: nat :: c < p.ranks ==> opening[c] == Opening(p, c)
    ensures unused == BaseFrom(p, p.ranks)
  {
    opening := [];
    unused := 1000;
    BaseFromNone(p);
    for c := 0 to p.ranks
      invariant |opening| == c && unused == BaseFrom(p, c)
      invariant forall d: nat :: d < c ==> opening[d] == Opening(p, d)
    {
      BaseFromNext(p, c);
      opening := opening + [Range(0, p.systemBlocks) + Range(unused, p.baseBlocks)];
      unused := unused + p.baseBlocks;
    }
  }

  lemma BaseFromNone(p: Shape)
    ensures BaseFrom(p, 0) == 1000
  {}

  lemma BaseFromNext(p: Shape, c: nat)
    ensures BaseFrom(p, c + 1) == BaseFrom(p, c) + p.baseBlocks
  {
    assert (c + 1) * p.baseBlocks == c * p.baseBlocks + p.baseBlocks;
  }

  lemma QueryFromNext(p: Shape, i: nat)
    ensures QueryFrom(p, 0) == BaseFrom(p, p.ranks) && QueryFrom(p, i + 1) == QueryFrom(p, i) + p.queryBlocks
  {
    assert (i + 1) * p.queryBlocks == i * p.queryBlocks + p.queryBlocks;
  }

  /** One dialogue as it was cut, with its turns' chains. */
  ghost predicate Written(p: Shape, model: string, b: Built, d: Dialogue) {
    && b.rank == d.rank && b.nth == d.nth && |b.turns| == |d.takes|
    && forall k: nat :: k < |d.takes| ==> b.turns[k] == Turn(d.takes[k], Keys(p, model, d, k))
  }

  ghost predicate AllWritten(p: Shape, model: string, built: seq<Built>, g: State) {
    |built| == |g.built| && forall k: nat :: k < |built| ==> Written(p, model, built[k], g.built[k])
  }

  /** The loop's lists stand for the dialogues cut so far. */
  ghost predicate Stands(p: Shape, model: string, s: Scratch, g: State) {
    AllWritten(p, model, s.built, g) && s.active == g.active && s.started == g.started
  }

  /** No turn of such a shape has a key, so none can be continued. */
  predicate Keyless(p: Shape) {
    Bare(p) && p.generatedBlocks == 0
  }

  /** One draw: its rank's next turn, in its current dialogue or a new one. */
  method TakeTurn(p: Shape, model: string, ghost g: State, ghost draws: seq<nat>, i: nat, c: nat,
                  opening: seq<nat>, query: seq<nat>, s: Scratch)
    returns (next: Option<Scratch>)
    requires Inv(p, g, draws) && Fits(g, c) && Stands(p, model, s, g)
    requires i == |draws| && opening == Opening(p, c) && query == Query(p, i)
    ensures next.None? <==> Keyless(p) && !Opens(p, g, c)
    ensures next.Some? ==> Stands(p, model, next.value, Take(p, g, i, c))
  {
    hide Inv, Take, Written, Chain, Segments, Opening, Query;
    ActiveWritten(p, model, g, draws, c, s.built);
    if c !in s.active || |s.built[s.active[c]].turns| >= p.maxTurns {
      var keys := Extend(model, opening + query);
      var nth := if c in s.started then s.started[c] else 0;
      TurnOpens(p, model, g, draws, c, keys);
      next := Some(Scratch(s.built + [Built(c, nth, [Turn(i, keys)])],
                           s.active[c := |s.built|], s.started[c := nth + 1]));
    } else {
      var b := s.built[s.active[c]];
      var last := b.turns[|b.turns| - 1];
      ghost var d := g.built[g.active[c]];
      OnlyFirstIsEmpty(p, c, d.takes);
      var keys := NextKeys(p, RequestId(last.number), last.keys, query, Root(p, model, d), Segments(p, c, d.takes));
      if keys.None? {
        return None;
      }
      TurnContinues(p, model, g, draws, c, b, keys.value);
      next := Some(s.(built := s.built[s.active[c] := b.(turns := b.turns + [Turn(i, keys.value)])]));
    }
  }

  /** Some dialogue has a second turn. */
  ghost predicate SomeoneReturns(g: State) {
    exists k: nat :: k < |g.built| && |g.built[k].takes| > 1
  }

  /** Some rank is drawn more than once. */
  ghost predicate DrawnAgain(draws: seq<nat>) {
    exists c: nat :: Count(draws, c) > 1
  }

  /**
   The workload: which turns make which dialogue, and each turn's chain. It fails exactly when turns
   have no key, dialogues more than one turn, and some rank is drawn again: its second turn has
   nothing to continue from.
   */
  method MakeWorkload(p: Shape, model: string, draws: seq<nat>) returns (built: Option<seq<Built>>, dialogues: nat)
    requires p.maxTurns > 0 && (forall t :: t in draws ==> t < p.ranks)
    ensures built.None? <==> Keyless(p) && p.maxTurns > 1 && DrawnAgain(draws)
    ensures built.Some? ==> AllWritten(p, model, built.value, Generate(p, draws)) && |built.value| == dialogues
    ensures dialogues == Dialogues(draws, p.ranks, p.maxTurns)
  {
    hide Generate, Inv, Take, Opening, AllWritten, SomeoneReturns, DrawnAgain;
    ReturnsIff(p, draws);
    dialogues := CountDialogues(p, draws);
    var opening, unused := Openings(p);
    var s := Scratch([], map[], map[]);
    ghost var g := State([], map[], map[]);
    QueryFromNext(p, 0);
    GenerateNone(p, draws);
    NothingWritten(p, model);
    for i := 0 to |draws|
      invariant g == Generate(p, draws[..i]) && Inv(p, g, draws[..i])
      invariant unused == QueryFrom(p, i)
      invariant Stands(p, model, s, g) && !(Keyless(p) && SomeoneReturns(g))
    {
      var c := draws[i];
      assert c in draws;
      GenerateNext(p, draws, i);
      TakeKeepsInv(p, g, draws[..i], c);
      TakeReturns(p, g, draws[..i], c);
      var next := TakeTurn(p, model, g, draws[..i], i, c, opening[c], Range(unused, p.queryBlocks), s);
      if next.None? {
        ReturnsStay(p, draws, i + 1);
        return None, dialogues;
      }
      s, g := next.value, Take(p, g, i, c);
      QueryFromNext(p, i);
      unused := unused + p.queryBlocks;
    }
    assert draws[..|draws|] == draws;
    GeneratedCount(p, draws);
    SameLength(p, model, s.built, g);
    built := Some(s.built);
  }

  /** A turn that opens no dialogue gives one a second turn, and no dialogue ever loses a turn. */
  lemma TakeReturns(p: Shape, g: State, draws: seq<nat>, c: nat)
    requires Inv(p, g, draws) && Fits(g, c)
    ensures SomeoneReturns(Take(p, g, |draws|, c)) <==> SomeoneReturns(g) || !Opens(p, g, c)
  {
    assert RankOk(p, g, draws, c);
    var r := Take(p, g, |draws|, c);
    if Opens(p, g, c) {
      assert forall k: nat :: k < |g.built| ==> r.built[k] == g.built[k];
    } else {
      assert DialogueOk(p, g, draws, g.active[c]);
      assert |r.built[g.active[c]].takes| > 1;
    }
  }

  /** With room for more turns a rank opens its dialogue at its first draw and not at its second. */
  lemma OpensAtFirst(p: Shape, g: State, draws: seq<nat>, c: nat)
    requires Inv(p, g, draws) && Fits(g, c)
    ensures Count(draws, c) == 0 || p.maxTurns == 1 ==> Opens(p, g, c)
    ensures Count(draws, c) == 1 && p.maxTurns > 1 ==> !Opens(p, g, c)
  {
    hide Apart, Turns, Dialogues, Count, Needed;
    assert RankOk(p, g, draws, c);
    OpensIff(p, g, draws, c);
    NeededMore(Count(draws, c), p.maxTurns);
    if c in g.active { assert DialogueOk(p, g, draws, g.active[c]); }
    if Count(draws, c) == 1 { CeilDivIs(1, p.maxTurns, 1); }
  }

  lemma DrawnMore(draws: seq<nat>, c: nat)
    ensures DrawnAgain(draws + [c]) <==> DrawnAgain(draws) || Count(draws, c) > 0
  {
    hide Count;
    forall b: nat
      ensures Count(draws + [c], b) == Count(draws, b) + if c == b then 1 else 0
    {
      CountMore(draws, c, b);
    }
    if DrawnAgain(draws) {
      var b: nat :| Count(draws, b) > 1;
      assert Count(draws + [c], b) > 1;
    }
    assert Count(draws, c) > 0 ==> Count(draws + [c], c) > 1;
  }

  /** Some dialogue has a second turn exactly when dialogues may have one and some rank is drawn again. */
  lemma {:induction false} ReturnsIff(p: Shape, draws: seq<nat>)
    requires p.maxTurns > 0
    ensures SomeoneReturns(Generate(p, draws)) <==> p.maxTurns > 1 && DrawnAgain(draws)
    decreases |draws|
  {
    hide SomeoneReturns, DrawnAgain, Take, Opens, Inv;
    if draws == [] {
      NobodyYet(p);
    } else {
      var last := |draws| - 1;
      var front, c := draws[..last], draws[last];
      var g := Generate(p, front);
      assert draws == front + [c];
      ReturnsIff(p, front);
      GenerateNext(p, draws, last);
      assert draws[..last + 1] == draws;
      TakeReturns(p, g, front, c);
      DrawnMore(front, c);
      OpensAtFirst(p, g, front, c);
      CountAgain(front, c);
    }
  }

  lemma NobodyYet(p: Shape)
    requires p.maxTurns > 0
    ensures !SomeoneReturns(Generate(p, [])) && !DrawnAgain([])
  {}

  lemma CountAgain(draws: seq<nat>, c: nat)
    ensures Count(draws, c) > 1 ==> DrawnAgain(draws)
  {}

  /** Some dialogue of the workload is to be continued from a turn without a key. */
  ghost predicate Stuck(p: Shape, model: string, draws: seq<nat>) {
    && p.maxTurns > 0
    && var g := Generate(p, draws);
       exists k: nat :: k < |g.built| && |g.built[k].takes| > 1 && Keys(p, model, g.built[k], 0) == []
  }

  /** Whatever such a workload draws twice is stuck. */
  lemma DrawnAgainIsStuck(p: Shape, model: string, draws: seq<nat>)
    requires Keyless(p) && p.maxTurns > 1 && DrawnAgain(draws)
    ensures Stuck(p, model, draws)
  {
    hide Generate, Keys, Keyless, DrawnAgain;
    ReturnsIff(p, draws);
    var g := Generate(p, draws);
    var k: nat :| k < |g.built| && |g.built[k].takes| > 1;
    NoFirstKey(p, model, g.built[k]);
  }

  /** One that is: no blocks, two turns a dialogue, and one rank drawn twice. */
  lemma NothingToContinue(p: Shape, model: string)
    requires p == Shape(1, 0, 0, 0, 0, 2)
    ensures Keyless(p) && p.maxTurns > 1 && DrawnAgain([0, 0]) && Stuck(p, model, [0, 0])
  {
    hide Stuck, DrawnAgain;
    ZeroDrawnAgain();
    DrawnAgainIsStuck(p, model, [0, 0]);
  }

  lemma ZeroDrawnAgain()
    ensures DrawnAgain([0, 0])
  {
    TwoDraws();
    CountAgain([0, 0], 0);
  }

  lemma TwoDraws()
    ensures Count([0, 0], 0) == 2
  {
    assert [0, 0][..1] == [0] && [0][..0] == [];
    assert Count([0], 0) == Count([], 0) + 1;
  }

  lemma NoFirstKey(p: Shape, model: string, d: Dialogue)
    requires Keyless(p) && d.takes != []
    ensures Keys(p, model, d, 0) == []
  {
    OnlyFirstIsEmpty(p, d.rank, d.takes[..1]);
  }

  lemma {:induction false} ReturnsStay(p: Shape, draws: seq<nat>, i: nat)
    requires p.maxTurns > 0 && i <= |draws| && SomeoneReturns(Generate(p, draws[..i]))
    ensures SomeoneReturns(Generate(p, draws))
    decreases |draws|
  {
    hide SomeoneReturns, Take;
    if i == |draws| {
      assert draws[..i] == draws;
    } else {
      var last := |draws| - 1;
      assert draws[..last][..i] == draws[..i];
      ReturnsStay(p, draws[..last], i);
      GenerateNext(p, draws, last);
      assert draws[..last + 1] == draws;
      TakeReturns(p, Generate(p, draws[..last]), draws[..last], draws[last]);
    }
  }

  /** A prompt with no block is a first turn, unless nothing is generated either. */
  lemma OnlyFirstIsEmpty(p: Shape, c: nat, takes: seq<nat>)
    requires takes != []
    ensures Segments(p, c, takes) == [] ==> Bare(p) && (|takes| == 1 || p.generatedBlocks == 0)
    ensures Keyless(p) ==> Segments(p, c, takes) == []
  {
    SegmentsOpen(p, c, takes);
    if Keyless(p) { OnlyOpening(p, c, takes); }
  }

  lemma NothingWritten(p: Shape, model: string)
    ensures Stands(p, model, Scratch([], map[], map[]), State([], map[], map[]))
    ensures !SomeoneReturns(State([], map[], map[]))
  {}

  lemma SameLength(p: Shape, model: string, built: seq<Built>, g: State)
    requires AllWritten(p, model, built, g)
    ensures |built| == |g.built|
  {}

  lemma GenerateNone(p: Shape, draws: seq<nat>)
    requires p.maxTurns > 0
    ensures Generate(p, draws[..0]) == State([], map[], map[]) && Inv(p, State([], map[], map[]), draws[..0])
  {
    EmptyInv(p);
  }

  lemma GenerateNext(p: Shape, draws: seq<nat>, i: nat)
    requires p.maxTurns > 0 && i < |draws|
    ensures var g := Generate(p, draws[..i]);
      && Fits(g, draws[i]) && draws[..i + 1] == draws[..i] + [draws[i]]
      && Generate(p, draws[..i + 1]) == Take(p, g, i, draws[i])
  {
    assert draws[..i + 1][..i] == draws[..i];
    TakeKeepsInv(p, Generate(p, draws[..i]), draws[..i], draws[i]);
  }

  lemma GeneratedCount(p: Shape, draws: seq<nat>)
    requires p.maxTurns > 0 && forall t :: t in draws ==> t < p.ranks
    ensures |Generate(p, draws).built| == Dialogues(draws, p.ranks, p.maxTurns)
  {
    DialoguesAreAsCounted(p, draws);
  }

  /** What is written of the active dialogue, so far as the loop reads it. */
  lemma ActiveWritten(p: Shape, model: string, g: State, draws: seq<nat>, c: nat, built: seq<Built>)
    requires Inv(p, g, draws) && AllWritten(p, model, built, g)
    ensures c in g.active ==>
      && g.active[c] < |built| && |built[g.active[c]].turns| == |g.built[g.active[c]].takes| > 0
      && g.built[g.active[c]].rank == c
      && var d := g.built[g.active[c]];
         built[g.active[c]].turns[|d.takes| - 1]
           == Turn(d.takes[|d.takes| - 1], Chain(Root(p, model, d), Segments(p, c, d.takes)))
  {
    hide Segments, Chain;
    assert RankOk(p, g, draws, c);
    if c in g.active {
      var d := g.built[g.active[c]];
      assert DialogueOk(p, g, draws, g.active[c]) && Written(p, model, built[g.active[c]], d);
      assert d.takes[..|d.takes|] == d.takes;
    }
  }

  lemma TurnOpens(p: Shape, model: string, g: State, draws: seq<nat>, c: nat, keys: seq<Key>)
    requires Fits(g, c) && Opens(p, g, c) && keys == Chain(model, AllGiven(Opening(p, c) + Query(p, |draws|)))
    ensures var r := Take(p, g, |draws|, c);
      var d := Dialogue(c, Started(g, c), [|draws|]);
      && r.built == g.built + [d]
      && r.active == g.active[c := |g.built|] && r.started == g.started[c := Started(g, c) + 1]
      && Written(p, model, Built(c, Started(g, c), [Turn(|draws|, keys)]), d)
  {
    WrittenFirst(p, model, Dialogue(c, Started(g, c), [|draws|]), keys);
    hide Opening, Query, Chain, Written;
  }

  lemma WrittenFirst(p: Shape, model: string, d: Dialogue, keys: seq<Key>)
    requires |d.takes| == 1 && keys == Chain(model, AllGiven(Opening(p, d.rank) + Query(p, d.takes[0])))
    ensures Written(p, model, Built(d.rank, d.nth, [Turn(d.takes[0], keys)]), d)
  {
    assert d.takes == [d.takes[0]] && d.takes[..1] == d.takes;
    OnlyFirst(p, d.rank, d.takes[0]);
    hide Opening, Query, Encode, Segments;
    assert Keys(p, model, d, 0) == keys;
  }

  lemma OnlyFirst(p: Shape, c: nat, i: nat)
    ensures Segments(p, c, [i]) == AllGiven(Opening(p, c) + Query(p, i))
    ensures Bare(p) ==> Segments(p, c, [i]) == []
  {}

  lemma TurnContinues(p: Shape, model: string, g: State, draws: seq<nat>, c: nat, b: Built, keys: seq<Key>)
    requires Inv(p, g, draws) && Fits(g, c) && !Opens(p, g, c) && Written(p, model, b, g.built[g.active[c]])
    requires g.built[g.active[c]].rank == c && g.built[g.active[c]].takes != []
    requires var d := g.built[g.active[c]];
      keys == Chain(Root(p, model, d),
                    Segments(p, c, d.takes) + Leaves(p.generatedBlocks) + AllGiven(Query(p, |draws|)))
    ensures var r := Take(p, g, |draws|, c);
      var d := g.built[g.active[c]].(takes := g.built[g.active[c]].takes + [|draws|]);
      && r == g.(built := g.built[g.active[c] := d])
      && Written(p, model, b.(turns := b.turns + [Turn(|draws|, keys)]), d)
  {
    WrittenMore(p, model, b, g.built[g.active[c]], |draws|, keys);
    hide Chain, Query, Inv, Written, Segments, Root, Leaves, AllGiven;
  }

  lemma WrittenMore(p: Shape, model: string, b: Built, d: Dialogue, i: nat, keys: seq<Key>)
    requires Written(p, model, b, d) && d.takes != []
    requires keys == Chain(Root(p, model, d),
                           Segments(p, d.rank, d.takes) + Leaves(p.generatedBlocks) + AllGiven(Query(p, i)))
    ensures Written(p, model, b.(turns := b.turns + [Turn(i, keys)]), d.(takes := d.takes + [i]))
  {
    hide Chain, Query, RequestId, Segments, Keys, Root, Leaves, AllGiven;
    var e := d.(takes := d.takes + [i]);
    LastKeys(p, model, d, i);
    forall k: nat | k < |d.takes|
      ensures Keys(p, model, e, k) == Keys(p, model, d, k)
    {
      KeysStay(p, model, d, i, k);
    }
  }

  lemma LastKeys(p: Shape, model: string, d: Dialogue, i: nat)
    requires d.takes != []
    ensures Keys(p, model, d.(takes := d.takes + [i]), |d.takes|)
      == Chain(Root(p, model, d),
               Segments(p, d.rank, d.takes) + Leaves(p.generatedBlocks) + AllGiven(Query(p, i)))
  {
    SegmentsMore(p, d.rank, d.takes, i);
    hide Chain, Query, RequestId, Segments, Leaves, AllGiven;
    var takes := d.takes + [i];
    assert takes[..|takes|] == takes && takes[0] == d.takes[0];
  }

  lemma KeysStay(p: Shape, model: string, d: Dialogue, i: nat, k: nat)
    requires k < |d.takes|
    ensures Keys(p, model, d.(takes := d.takes + [i]), k) == Keys(p, model, d, k)
  {
    hide Chain, Segments, RequestId;
    assert (d.takes + [i])[..k + 1] == d.takes[..k + 1] && (d.takes + [i])[0] == d.takes[0];
  }

  lemma SegmentsMore(p: Shape, c: nat, takes: seq<nat>, i: nat)
    requires takes != []
    ensures Segments(p, c, takes + [i]) == Segments(p, c, takes) + Leaves(p.generatedBlocks) + AllGiven(Query(p, i))
  {
    assert (takes + [i])[..|takes|] == takes;
  }
}
