/**
 The selector algebra of `proposed/selector.py`: selections of sources, what orders them, and the
 stages that order, cut and bound one. A stage answers with a selection, or with the error raised.
 */
module Selectors {
  import opened Basics

  type Id = string

  /** A priced plan, as far as orders and bounds read it. */
  datatype Plan = Plan(ttft: real)

  /** One dimension of a source's key: a figure, or something held beside the figures. */
  datatype Reading = Figure(value: real) | Held(plan: Plan)

  /** How one source's dimensions become what is compared, lower better. */
  type Fold = seq<Reading> -> seq<real>

  type Bound = seq<Reading> -> bool

  /** `sources`: nobody in particular (every holder, in directory order), or these. `ready` names a gate. */
  datatype Selection = Selection(
    sources: Option<seq<Id>>,
    key: Option<map<Id, seq<Reading>>>,
    ready: Option<nat>,
    fold: Option<Fold>)

  datatype Refusal = Repeated | CutsEveryone | Stray | NoHead | Unkeyed

  type Answer = Result<Selection, Refusal>

  // ----- building -------------------------------------------------------------------------

  ghost predicate Once(ids: seq<Id>) {
    forall i, j :: 0 <= i < j < |ids| ==> ids[i] != ids[j]
  }

  predicate NamedOnce(ids: seq<Id>)
    ensures NamedOnce(ids) <==> Once(ids)
  {
    ids == [] || (ids[0] !in ids[1..] && NamedOnce(ids[1..]))
  }

  function Of(sources: seq<Id>, ready: Option<nat>): Answer {
    if NamedOnce(sources) then Ok(Selection(Some(sources), None, ready, None)) else Err(Repeated)
  }

  function Named(candidates: seq<(Id, seq<Reading>)>): (ids: seq<Id>)
    ensures |ids| == |candidates| && forall i: nat :: i < |ids| ==> ids[i] == candidates[i].0
  {
    if candidates == [] then [] else [candidates[0].0] + Named(candidates[1..])
  }

  /** `dict(candidates)`: of two readings for one source, the later stands. */
  function Dict(candidates: seq<(Id, seq<Reading>)>): (m: map<Id, seq<Reading>>)
    ensures forall s :: s in m <==> exists i: nat :: i < |candidates| && candidates[i].0 == s
    decreases |candidates|
  {
    if candidates == [] then map[] else
      var last := |candidates| - 1;
      Dict(candidates[..last])[candidates[last].0 := candidates[last].1]
  }

  function Keyed(candidates: seq<(Id, seq<Reading>)>, ready: Option<nat>): Answer {
    if NamedOnce(Named(candidates)) then Ok(Selection(Some(Named(candidates)), Some(Dict(candidates)), ready, None))
    else Err(Repeated)
  }

  function Abstain(): Selection {
    Selection(Some([]), None, None, None)
  }

  // ----- the operations on one selection --------------------------------------------------

  predicate Abstains(s: Selection) {
    s.sources == Some([])
  }

  function SourcesOr(s: Selection): seq<Id> {
    if s.sources.Some? then s.sources.value else []
  }

  function DimsOf(s: Selection, id: Id): seq<Reading> {
    if s.key.Some? && id in s.key.value then s.key.value[id] else []
  }

  /** One reading per source, appended to what orders it. */
  function Annotated(s: Selection, readings: Id -> Reading): Selection {
    s.(key := Some(map id | id in SourcesOr(s) :: DimsOf(s, id) + [readings(id)]))
  }

  function Otherwise(s: Selection, other: Selection): Selection {
    if Abstains(s) then other else s
  }

  function Head(s: Selection): Option<Id> {
    if SourcesOr(s) == [] then None else Some(SourcesOr(s)[0])
  }

  predicate Among(ids: seq<Id>, sources: seq<Id>) {
    forall i: nat :: i < |ids| ==> ids[i] in sources
  }

  /** Cut down to `kept`, in the order given; whoever is kept keeps its key. */
  function Only(s: Selection, kept: seq<Id>): Answer {
    if s.sources.None? then Err(CutsEveryone)
    else if !Among(kept, s.sources.value) then Err(Stray)
    else Ok(Selection(Some(kept), Restricted(s.key, kept), s.ready, s.fold))
  }

  function Restricted(key: Option<map<Id, seq<Reading>>>, kept: seq<Id>): Option<map<Id, seq<Reading>>> {
    if key.None? then None else Some(map id | id in kept && id in key.value :: key.value[id])
  }

  function Take(s: Selection, n: nat): Answer {
    var all := SourcesOr(s);
    Only(s, if n <= |all| then all[..n] else all)
  }

  function Require(s: Selection, ok: Id -> bool): Answer {
    if s.sources.None? then Err(NoHead)
    else if s.sources.value == [] || ok(s.sources.value[0]) then Ok(s)
    else Ok(Abstain())
  }

  // ----- what every operation keeps -------------------------------------------------------

  /** Each source is named once, and a key covers exactly the sources. */
  ghost predicate Covered(s: Selection) {
    && Once(SourcesOr(s))
    && (s.key.Some? ==> forall id :: id in s.key.value <==> id in SourcesOr(s))
  }

  /** No two candidates name the same source. */
  ghost predicate Apart(candidates: seq<(Id, seq<Reading>)>) {
    forall i: nat, j: nat :: i < j < |candidates| ==> candidates[i].0 != candidates[j].0
  }

  lemma OnceIsApart(candidates: seq<(Id, seq<Reading>)>)
    requires Once(Named(candidates))
    ensures Apart(candidates)
  {
    hide Named;
    var ids := Named(candidates);
    forall i: nat, j: nat | i < j < |candidates|
      ensures candidates[i].0 != candidates[j].0
    {
      assert ids[i] != ids[j];
    }
  }

  lemma {:induction false} DictIs(candidates: seq<(Id, seq<Reading>)>, i: nat)
    requires Apart(candidates) && i < |candidates|
    ensures candidates[i].0 in Dict(candidates) && Dict(candidates)[candidates[i].0] == candidates[i].1
    decreases |candidates|
  {
    var last := |candidates| - 1;
    if i < last {
      var init := candidates[..last];
      assert init[i] == candidates[i];
      DictIs(init, i);
    }
  }

  /** What is built names each source once or is refused, and keys each with what it was given. */
  lemma BuildersCover(candidates: seq<(Id, seq<Reading>)>, ready: Option<nat>)
    ensures var a := Keyed(candidates, ready);
      && (a.Err? <==> !Once(Named(candidates)))
      && (a.Ok? ==>
            && Covered(a.value)
            && forall i: nat :: i < |candidates| ==> a.value.key.value[candidates[i].0] == candidates[i].1)
    ensures var a := Of(Named(candidates), ready);
      (a.Err? <==> !Once(Named(candidates))) && (a.Ok? ==> Covered(a.value))
  {
    var a := Keyed(candidates, ready);
    if a.Ok? {
      assert forall id :: id in Dict(candidates) <==> id in Named(candidates);
      OnceIsApart(candidates);
      forall i: nat | i < |candidates|
        ensures a.value.key.value[candidates[i].0] == candidates[i].1
      {
        DictIs(candidates, i);
      }
    }
  }

  /** Cutting is refused exactly for everyone's selection and for strangers; it keeps order, keys and gate. */
  lemma OnlyCuts(s: Selection, kept: seq<Id>)
    requires Covered(s)
    ensures var a := Only(s, kept);
      && (a.Ok? <==> s.sources.Some? && Among(kept, s.sources.value))
      && (a.Ok? ==>
            && a.value.sources == Some(kept) && a.value.ready == s.ready && a.value.fold == s.fold
            && (Covered(a.value) <==> Once(kept))
            && forall i: nat :: i < |kept| ==> DimsOf(a.value, kept[i]) == DimsOf(s, kept[i]))
  {}

  lemma AnnotatedCovers(s: Selection, readings: Id -> Reading, id: Id)
    requires Covered(s) && id in SourcesOr(s)
    ensures var r := Annotated(s, readings);
      Covered(r) && r.sources == s.sources && DimsOf(r, id) == DimsOf(s, id) + [readings(id)]
  {}

  /** `require` never promotes a source the ranking preferred less. */
  lemma RequireKeepsOrAbstains(s: Selection, ok: Id -> bool)
    ensures var a := Require(s, ok);
      && (a.Err? <==> s.sources.None?)
      && (a.Ok? ==>
            && (a.value == s || a.value == Abstain())
            && (Head(a.value).Some? ==> Head(a.value) == Head(s) && ok(Head(s).value))
            && (Head(s).None? || ok(Head(s).value) ==> a.value == s))
  {}

  // ----- falling through ------------------------------------------------------------------

  lemma OtherwiseIsAssociative(a: Selection, b: Selection, c: Selection)
    ensures Otherwise(Otherwise(a, b), c) == Otherwise(a, Otherwise(b, c))
  {}

  /** The abstention is the identity: on the left always, on the right of whatever is decided or is itself. */
  lemma AbstainIsIdentity(a: Selection)
    ensures Otherwise(Abstain(), a) == a
    ensures Otherwise(a, Abstain()) == a <==> !Abstains(a) || a == Abstain()
  {}

  /** A ranking of nobody, keyed: what it is replaced by is the abstention, and that is not it. */
  lemma KeyedNobodyIsReplaced()
    ensures var a := Selection(Some([]), Some(map[]), None, None);
      Keyed([], None) == Ok(a) && Covered(a) && Otherwise(a, Abstain()) != a
  {}

  /** A cut given a source twice answers with it twice. */
  lemma RepeatedCutRepeats()
    ensures var s := Selection(Some(["a"]), None, None, None);
      var a := Only(s, ["a", "a"]);
      Of(["a"], None) == Ok(s) && Covered(s) && a.Ok? && a.value.sources == Some(["a", "a"]) && !Covered(a.value)
  {
    var s := Selection(Some(["a"]), None, None, None);
    OnlyCuts(s, ["a", "a"]);
    assert ["a", "a"][0] == ["a", "a"][1];
  }

  /** A chain's answer: the fold of `otherwise`, seeded with the abstention. */
  function FirstOf(answers: seq<Selection>): Selection
    decreases |answers|
  {
    if answers == [] then Abstain() else Otherwise(answers[0], FirstOf(answers[1..]))
  }

  /** A chain of chains answers as one would. */
  lemma {:induction false} ChainOfChains(a: seq<Selection>, b: seq<Selection>)
    ensures FirstOf(a + b) == Otherwise(FirstOf(a), FirstOf(b))
    decreases |a|
  {
    if a == [] {
      assert a + b == b;
    } else {
      assert (a + b)[1..] == a[1..] + b;
      ChainOfChains(a[1..], b);
      OtherwiseIsAssociative(a[0], FirstOf(a[1..]), FirstOf(b));
    }
  }

  /** What every link would answer, had each been asked. */
  function Asked<Subject>(selectors: seq<Subject -> Selection>, subject: Subject): seq<Selection> {
    seq(|selectors|, i requires 0 <= i < |selectors| => selectors[i](subject))
  }

  /** Asks each link in order and stops at the first that decides; no link behind it is consulted. */
  method FirstMatch<Subject>(selectors: seq<Subject -> Selection>, subject: Subject)
    returns (answer: Selection, consulted: nat)
    ensures answer == FirstOf(Asked(selectors, subject))
    ensures consulted <= |selectors| && forall i: nat :: i + 1 < consulted ==> Abstains(selectors[i](subject))
    ensures consulted < |selectors| ==>
      consulted > 0 && answer == selectors[consulted - 1](subject) && !Abstains(answer)
  {
    ghost var answers := Asked(selectors, subject);
    answer := Abstain();
    consulted := 0;
    assert answers[0..] == answers;
    while consulted < |selectors|
      invariant consulted <= |selectors| && answer == Abstain()
      invariant forall i: nat :: i < consulted ==> Abstains(selectors[i](subject))
      invariant FirstOf(answers) == FirstOf(answers[consulted..])
    {
      answer := Otherwise(selectors[consulted](subject), answer);
      assert answers[consulted..][0] == answers[consulted] && answers[consulted..][1..] == answers[consulted + 1..];
      consulted := consulted + 1;
      if !Abstains(answer) {
        return;
      }
    }
  }
}
