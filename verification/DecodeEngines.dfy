/** The decode engine as the object requests are admitted to, tied to the events of `Decode`. */
module DecodeEngines {
  import opened Basics
  import D = Decode
  import R = DecodeRuns

  /** One request in the batch or the queue. */
  class Active {
    const id: nat
    var remaining: int
    var lastTokenTime: real
    var tbtMax: real
    var tokens: seq<D.Token>

    function Value(): D.Slot
      reads this
    {
      D.Slot(id, remaining, lastTokenTime, tbtMax, tokens)
    }

    constructor (id: nat, remaining: int, now: real)
      ensures Value() == D.Slot(id, remaining, now, 0.0, [])
    {
      this.id, this.remaining, lastTokenTime, tbtMax, tokens := id, remaining, now, 0.0, [];
    }

    /** One more token, landed at `end`. */
    method Take(token: D.Token, end: real)
      modifies this
      ensures Value() == D.Advanced(old(Value()), token, end)
    {
      var gap := end - lastTokenTime;
      tbtMax := Max(tbtMax, gap);
      lastTokenTime := end;
      remaining := remaining - 1;
      tokens := tokens + [token];
    }
  }

  function Slots(actives: seq<Active>): (r: seq<D.Slot>)
    reads actives
    ensures |r| == |actives| && forall i: nat :: i < |actives| ==> r[i] == actives[i].Value()
  {
    if actives == [] then [] else [actives[0].Value()] + Slots(actives[1..])
  }

  function IdsOf(actives: seq<Active>): (r: seq<nat>)
    ensures |r| == |actives| && forall i: nat :: i < |actives| ==> r[i] == actives[i].id
  {
    if actives == [] then [] else [actives[0].id] + IdsOf(actives[1..])
  }

  datatype Task = Idle | Created | InStep(members: seq<Active>, end: real)

  class DecodeEngine {
    const maxBatch: int
    const blockTokens: nat
    var now: real
    var batch: seq<Active>
    var pending: seq<Active>
    var stepTask: Task
    var answers: map<nat, D.Answer>
    var twice: bool
    var steps: nat
    var nextId: nat
    /** What was asked so far and when each step ended, for the record only. */
    ghost var admitted: seq<D.Admission>
    ghost var ends: seq<real>

    ghost function Abs(): D.Engine
      reads this, batch, pending
    {
      var loop := match stepTask
        case Idle => D.Idle
        case Created => D.Created
        case InStep(ms, end) => D.InStep(IdsOf(ms), end);
      D.Engine(maxBatch, blockTokens, now, Slots(batch), Slots(pending), loop, answers, twice, admitted, ends)
    }

    /** One object a request, the step's members at the front of the batch. */
    ghost predicate Sound()
      reads this, batch, pending
    {
      && steps == |ends| && nextId == |admitted| && blockTokens > 0
      && OneEach(batch + pending)
      && (stepTask.InStep? ==> stepTask.members <= batch)
    }

    ghost predicate Valid()
      reads this, batch, pending
    {
      Sound() && R.Inv(Abs())
    }

    constructor (maxBatch: int, blockTokens: nat)
      requires blockTokens > 0
      ensures Valid() && Abs() == D.Fresh(maxBatch, blockTokens)
    {
      this.maxBatch, this.blockTokens := maxBatch, blockTokens;
      now, batch, pending, stepTask, answers, twice := 0.0, [], [], Idle, map[], false;
      steps, nextId, admitted, ends := 0, 0, [], [];
    }

    method Finish(id: nat, tbtMax: real, tokens: seq<D.Token>)
      requires blockTokens > 0
      modifies this`answers, this`twice
      ensures Abs() == D.Finish(old(Abs()), id, tbtMax, tokens)
    {
      if id in answers {
        twice := true;
      } else {
        answers := answers[id := D.Generated(tokens, CeilDiv(|tokens|, blockTokens), tbtMax)];
      }
    }

    method EnsureStepping()
      modifies this`stepTask
      ensures Abs() == D.EnsureStepping(old(Abs()))
      ensures stepTask == old(stepTask) || stepTask.Created?
    {
      if !stepTask.Idle? || batch == [] {
        return;
      }
      stepTask := Created;
    }

    /** Drops `a` from the batch, where it is once. */
    method Remove(a: Active) returns (ghost at: nat)
      requires a in batch
      modifies this`batch
      ensures at < |old(batch)| && old(batch)[at] == a && a !in old(batch)[..at]
      ensures batch == old(batch)[..at] + old(batch)[at + 1..]
    {
      var i := 0;
      while batch[i] != a
        invariant i < |batch| && a !in batch[..i]
        decreases |batch| - i
      {
        i := i + 1;
      }
      at := i;
      batch := batch[..i] + batch[i + 1..];
    }

    /** A member's token, if it is still in the batch; its last one retires it. */
    method EmitOne(a: Active, token: D.Token, end: real)
      requires blockTokens > 0 && OneEach(batch) && Known([a], batch) && a !in pending
      modifies this`batch, this`answers, this`twice, a
      ensures Abs() == D.EmitOne(old(Abs()), a.id, token, end)
      ensures OneEach(batch) && forall x :: x in batch ==> x in old(batch)
    {
      hide Slots, IdsOf, D.EmitOne, D.Advanced, D.Finish, OneEach, Known;
      ghost var others := Slots(pending);
      ghost var was := Abs();
      if a !in batch {
        NotFound(was, batch, a, token, end);
        return;
      }
      ghost var i := PlaceOf(batch, a);
      a.Take(token, end);
      OnlyThere(batch, i);
      OneTook(was.batch, Slots(batch), i);
      assert Slots(pending) == others;
      EmitAt(was, batch, i, token, end);
      if a.remaining == 0 {
        Without(batch, i);
        ghost var at := Remove(a);
        OnlyAt(old(batch), i, at);
        assert Abs() == was.(batch := was.batch[..i] + was.batch[i + 1..]);
        Finish(a.id, a.tbtMax, a.tokens);
      }
    }

    /** One token for each member, in the order they were frozen in. */
    method EmitAll(members: seq<Active>, end: real)
      requires blockTokens > 0 && OneEach(batch + pending) && members <= batch
      modifies this`batch, this`answers, this`twice, members
      ensures Abs() == D.Emit(old(Abs()), IdsOf(members), 0, steps, end)
      ensures OneEach(batch + pending)
    {
      hide Slots, D.EmitOne, OneEach;
      ghost var ids, was, first := IdsOf(members), Abs(), batch;
      AmongAll(batch, pending);
      var k := 0;
      while k < |members|
        invariant k <= |members| && OneEach(batch) && forall x :: x in batch ==> x in first
        invariant D.Emit(Abs(), ids, k, steps, end) == D.Emit(was, ids, 0, steps, end)
      {
        MemberKnown(first, batch, members, k);
        assert members[k] == first[k] && first[k] in first;
        EmitOne(members[k], D.Token(steps, k), end);
        k := k + 1;
      }
      StillOneEach(first, batch, pending);
    }

    /** Freed slots go to the longest-queued. */
    method Promote()
      requires OneEach(batch + pending)
      modifies this`batch, this`pending
      ensures Abs() == D.Promote(old(Abs())) && OneEach(batch + pending) && batch + pending == old(batch + pending)
    {
      hide Slots, IdsOf, OneEach, D.Promote;
      ghost var line := batch + pending;
      while pending != [] && |batch| < maxBatch
        invariant batch + pending == line
        invariant D.Promote(Abs()) == D.Promote(old(Abs()))
        decreases |pending|
      {
        ghost var was := Abs();
        assert batch + [pending[0]] + pending[1..] == batch + pending;
        Moved(batch, pending);
        PromoteStep(was);
        batch, pending := batch + [pending[0]], pending[1..];
        assert Abs() == was.(batch := was.batch + [was.pending[0]], pending := was.pending[1..]);
      }
      PromoteStep(Abs());
    }

    /** The step ends: tokens out, finished requests answered, freed slots filled. */
    method StepComplete(members: seq<Active>, end: real)
      requires blockTokens > 0 && OneEach(batch + pending) && members <= batch && steps == |ends|
      modifies this`batch, this`pending, this`answers, this`twice, this`steps, this`ends, members
      ensures Abs() == D.StepComplete(old(Abs()), IdsOf(members), end)
      ensures OneEach(batch + pending) && steps == |ends|
    {
      hide Slots, IdsOf, OneEach, D.Emit, D.Promote;
      EmitAll(members, end);
      steps := steps + 1;
      ends := ends + [end];
      Promote();
    }

    /** The head of the loop: freeze the members and wait the step out, or stop. */
    method Turn(end: real)
      requires OneEach(batch + pending) && steps == |ends| && nextId == |admitted| && blockTokens > 0
      modifies this`stepTask
      ensures Sound() && Abs() == D.Turn(old(Abs()), end)
    {
      hide Slots, OneEach;
      if batch == [] {
        stepTask := Idle;
      } else {
        stepTask := InStep(batch, end);
        SameIds(batch);
      }
    }

    /** The step loop's first turn. */
    method Begin(end: real)
      requires Valid() && stepTask.Created? && end >= now
      modifies this`stepTask
      ensures Valid() && Abs() == D.Next(old(Abs()), D.Begin(end))
    {
      hide Slots, IdsOf, OneEach, R.Inv;
      R.NextKeepsInv(Abs(), D.Begin(end));
      Turn(end);
    }

    /** The step loop dies: whoever is not answered yet is answered with that. */
    method Abandon()
      requires Valid() && !stepTask.Idle?
      modifies this`batch, this`pending, this`answers, this`twice, this`stepTask
      ensures Valid() && Abs() == D.Abandon(old(Abs()))
    {
      hide Slots, IdsOf, OneEach, R.Inv, D.Resolved;
      R.NextKeepsInv(Abs(), D.Die);
      SlotsConcat(batch, pending);
      FailAll(batch + pending);
      batch, pending, stepTask := [], [], Idle;
      assert batch + pending == [];
      NobodyListed();
    }

    method FailAll(line: seq<Active>)
      modifies this`answers
      ensures Abs() == D.Resolved(old(Abs()), Slots(line))
    {
      hide Slots, IdsOf, D.Resolved;
      NothingResolved(Abs(), Slots(line));
      ghost var slots := Slots(line);
      var i := 0;
      while i < |line|
        invariant i <= |line|
        invariant D.Resolved(Abs(), slots[i..]) == D.Resolved(old(Abs()), slots)
        invariant Abs() == old(Abs()).(answers := answers)
      {
        ResolvedNext(Abs(), slots, i);
        if line[i].id !in answers {
          answers := answers[line[i].id := D.Abandoned];
        }
        i := i + 1;
      }
      NothingResolved(Abs(), slots);
    }

    /** The awaited end of a step, and straight into the next turn. */
    method Land(end: real)
      requires Valid() && stepTask.InStep? && end >= stepTask.end
      modifies this, stepTask.members
      ensures Valid() && Abs() == D.Next(old(Abs()), D.Land(end))
    {
      hide Slots, IdsOf, OneEach, D.StepComplete, R.Inv;
      R.NextKeepsInv(Abs(), D.Land(end));
      now := stepTask.end;
      StepComplete(stepTask.members, stepTask.end);
      Turn(end);
    }

    /** Enters a request; its answer is in `answers` from the event that retires it on. */
    method Admit(outputTokens: int) returns (id: nat)
      requires Valid()
      modifies this
      ensures Valid() && id == |old(admitted)| && Abs() == D.Admit(old(Abs()), outputTokens)
    {
      hide Slots, IdsOf, OneEach, R.Inv, D.Finish, D.EnsureStepping;
      R.NextKeepsInv(Abs(), D.Ask(outputTokens));
      ghost var r := D.Admit(Abs(), outputTokens);
      assert R.Inv(r);
      hide D.Next;
      ghost var line := batch + pending;
      IdsBelow(line, batch, pending, Abs());
      id := nextId;
      nextId := nextId + 1;
      admitted := admitted + [D.Admission(outputTokens, now)];
      ghost var was := Abs();
      assert was == old(Abs()).(admitted := admitted);
      var remaining := if outputTokens - 1 > 0 then outputTokens - 1 else 0;
      if remaining == 0 {
        Finish(id, 0.0, []);
        return;
      }
      LineUp(id, remaining);
    }

    /** A slot for the newest request, and the loop started if it is not running. */
    method LineUp(id: nat, remaining: nat)
      requires OneEach(batch + pending) && forall x :: x in batch + pending ==> x.id < id
      requires pending != [] ==> |batch| >= maxBatch
      modifies this`batch, this`pending, this`stepTask
      ensures OneEach(batch + pending) && old(batch) <= batch && (stepTask == old(stepTask) || stepTask.Created?)
      ensures var was, slot := old(Abs()), D.Slot(id, remaining, now, 0.0, []);
        Abs() == D.EnsureStepping(if |was.batch| < maxBatch then was.(batch := was.batch + [slot])
                                  else was.(pending := was.pending + [slot]))
    {
      hide Slots, IdsOf, OneEach, D.EnsureStepping;
      ghost var was := Abs();
      var a := new Active(id, remaining, now);
      assert Abs() == was;
      Enter(a);
      EnsureStepping();
    }

    /** Straight into the batch if there is room, else to the back of the queue. */
    method Enter(a: Active)
      requires OneEach(batch + pending) && forall x :: x in batch + pending ==> x.id < a.id
      requires pending != [] ==> |batch| >= maxBatch
      modifies this`batch, this`pending
      ensures OneEach(batch + pending) && old(batch) <= batch
      ensures Abs() == if |old(batch)| < maxBatch then old(Abs()).(batch := old(Abs()).batch + [a.Value()])
                       else old(Abs()).(pending := old(Abs()).pending + [a.Value()])
    {
      hide Slots, OneEach;
      ghost var line := batch + pending;
      OneMore(line, a);
      if |batch| < maxBatch {
        batch := batch + [a];
      } else {
        pending := pending + [a];
      }
      assert batch + pending == line + [a];
    }
  }

  lemma NothingResolved(e: D.Engine, slots: seq<D.Slot>)
    ensures D.Resolved(e, slots[|slots|..]) == e && slots[0..] == slots
  {}

  lemma ResolvedNext(e: D.Engine, slots: seq<D.Slot>, i: nat)
    requires i < |slots|
    ensures var id := slots[i].id;
      var answers := if id in e.answers then e.answers else e.answers[id := D.Abandoned];
      D.Resolved(e, slots[i..]) == D.Resolved(e.(answers := answers), slots[i + 1..])
  {
    assert slots[i..][0] == slots[i] && slots[i..][1..] == slots[i + 1..];
  }

  lemma IdsBelow(line: seq<Active>, batch: seq<Active>, pending: seq<Active>, e: D.Engine)
    requires R.Inv(e) && line == batch + pending && e.batch == Slots(batch) && e.pending == Slots(pending)
    ensures forall x :: x in line ==> x.id < |e.admitted|
    ensures pending != [] ==> |batch| >= e.maxBatch
  {
    hide Slots;
    forall x | x in line
      ensures x.id < |e.admitted|
    {
      assert x.Value() in e.batch + e.pending;
      assert R.Waiting(e.batch + e.pending, x.Value().id);
    }
  }

  lemma OneMore(line: seq<Active>, a: Active)
    requires OneEach(line) && forall x :: x in line ==> x.id < a.id
    ensures OneEach(line + [a])
  {}

  lemma SameIds(actives: seq<Active>)
    ensures IdsOf(actives) == D.Ids(Slots(actives))
  {
    hide Slots, IdsOf;
  }

  lemma PromoteStep(e: D.Engine)
    ensures D.Promote(e) ==
      if e.pending == [] || |e.batch| >= e.maxBatch then e
      else D.Promote(e.(batch := e.batch + [e.pending[0]], pending := e.pending[1..]))
  {}

  lemma SlotsConcat(a: seq<Active>, b: seq<Active>)
    ensures Slots(a + b) == Slots(a) + Slots(b)
  {
    hide Slots;
  }

  lemma NobodyListed()
    ensures OneEach([])
  {}

  lemma Moved(batch: seq<Active>, pending: seq<Active>)
    requires pending != []
    ensures Slots(batch + [pending[0]]) == Slots(batch) + [Slots(pending)[0]]
      && Slots(pending[1..]) == Slots(pending)[1..]
  {
    hide Slots;
  }

  lemma AmongAll(batch: seq<Active>, pending: seq<Active>)
    requires OneEach(batch + pending)
    ensures OneEach(batch) && forall x, y :: x in batch && y in pending ==> x != y
  {
    var all := batch + pending;
    forall i: nat, j: nat | i < |batch| && j < |pending|
      ensures batch[i] != pending[j]
    {
      assert all[i] == batch[i] && all[|batch| + j] == pending[j];
    }
    assert forall i: nat :: i < |batch| ==> batch[i] == all[i];
  }

  lemma MemberKnown(first: seq<Active>, batch: seq<Active>, members: seq<Active>, k: nat)
    requires OneEach(first) && members <= first && k < |members| && forall x :: x in batch ==> x in first
    ensures Known([members[k]], batch)
  {
    assert first[k] == members[k];
  }

  lemma StillOneEach(first: seq<Active>, batch: seq<Active>, pending: seq<Active>)
    requires OneEach(first + pending) && OneEach(batch) && forall x :: x in batch ==> x in first
    ensures OneEach(batch + pending)
  {
    var all, left := first + pending, batch + pending;
    forall i: nat, j: nat | i < j < |left|
      ensures left[i].id != left[j].id
    {
      if i < |batch| <= j {
        assert left[i] in first;
        var h: nat :| h < |first| && first[h] == left[i];
        assert all[h] == left[i] && all[|first| + (j - |batch|)] == left[j];
      } else if |batch| <= i {
        assert all[|first| + (i - |batch|)] == left[i] && all[|first| + (j - |batch|)] == left[j];
      }
    }
  }

  lemma PlaceOf(actives: seq<Active>, a: Active) returns (i: nat)
    requires a in actives
    ensures i < |actives| && actives[i] == a
  {
    i :| i < |actives| && actives[i] == a;
  }

  lemma Without(actives: seq<Active>, i: nat)
    requires i < |actives|
    ensures Slots(actives[..i] + actives[i + 1..]) == Slots(actives)[..i] + Slots(actives)[i + 1..]
    ensures forall x :: x in actives[..i] + actives[i + 1..] ==> x in actives
    ensures OneEach(actives) ==> OneEach(actives[..i] + actives[i + 1..])
  {
    hide Slots, OneEach;
    SlotsTake(actives, i);
    SlotsDrop(actives, i + 1);
    SlotsConcat(actives[..i], actives[i + 1..]);
    if OneEach(actives) { OneEachWithout(actives, i); }
  }

  lemma SlotsTake(actives: seq<Active>, n: nat)
    requires n <= |actives|
    ensures Slots(actives[..n]) == Slots(actives)[..n]
  {
    hide Slots;
  }

  lemma SlotsDrop(actives: seq<Active>, n: nat)
    requires n <= |actives|
    ensures Slots(actives[n..]) == Slots(actives)[n..]
  {
    hide Slots;
  }

  lemma OneEachWithout(actives: seq<Active>, i: nat)
    requires OneEach(actives) && i < |actives|
    ensures OneEach(actives[..i] + actives[i + 1..])
  {
    var left := actives[..i] + actives[i + 1..];
    assert forall j: nat :: j < |left| ==> left[j] == actives[if j < i then j else j + 1];
  }

  /** Only place `i` changed. */
  lemma OneTook(was: seq<D.Slot>, now: seq<D.Slot>, i: nat)
    requires i < |was| == |now| && forall j: nat :: j < |was| && j != i ==> now[j] == was[j]
    ensures now == was[i := now[i]]
  {}

  lemma OnlyThere(actives: seq<Active>, i: nat)
    requires OneEach(actives) && i < |actives|
    ensures forall j: nat :: j < |actives| && j != i ==> actives[j] != actives[i] && actives[j].id != actives[i].id
  {}

  lemma OnlyAt(actives: seq<Active>, i: nat, j: nat)
    requires OneEach(actives) && i < |actives| && j < |actives| && actives[i] == actives[j]
    ensures i == j
  {}

  /** What one member's token does, given where the member is. */
  lemma EmitAt(e: D.Engine, actives: seq<Active>, i: nat, token: D.Token, end: real)
    requires e.blockTokens > 0 && OneEach(actives) && i < |actives|
    requires |e.batch| == |actives| && forall j: nat :: j < |actives| ==> e.batch[j].id == actives[j].id
    ensures var s := D.Advanced(e.batch[i], token, end);
      && s.id == actives[i].id
      && D.EmitOne(e, actives[i].id, token, end)
        == if s.remaining == 0
           then D.Finish(e.(batch := e.batch[..i] + e.batch[i + 1..]), s.id, s.tbtMax, s.tokens)
           else e.(batch := e.batch[i := s])
  {
    OnlyThere(actives, i);
  }

  /** No two of the listed objects serve one request. */
  ghost predicate OneEach(actives: seq<Active>) {
    forall i: nat, j: nat :: i < j < |actives| ==> actives[i].id != actives[j].id
  }

  /** Whoever is listed for a request of `members` is that member. */
  ghost predicate Known(members: seq<Active>, actives: seq<Active>) {
    forall a, m :: a in actives && m in members && a.id == m.id ==> a == m
  }

  lemma NotFound(e: D.Engine, actives: seq<Active>, a: Active, token: D.Token, end: real)
    requires e.blockTokens > 0 && Known([a], actives) && a !in actives
    requires |e.batch| == |actives| && forall j: nat :: j < |actives| ==> e.batch[j].id == actives[j].id
    ensures D.EmitOne(e, a.id, token, end) == e
  {
    assert a in [a];
    assert forall j: nat :: j < |actives| ==> actives[j] in actives;
  }
}
