/**
 How a prefill is priced, run and published: block counts and control flow of
 `kvcache_sim/control/_selector.py` (`Priced`), `kvcache_sim/data/serving.py` (`prefill`, `_recompute`),
 `kvcache_sim/workload/_accelerator.py` (`prefill`) and `kvcache_sim/data/_store.py` (`publish`).
 */
module Serving {
  import opened Basics
  import Prefixes

  type Key = string
  type Id = string

  datatype Request = Request(keys: seq<Key>, promptTokens: nat)

  /** The part of a plan the serving host acts on. */
  datatype Plan = Plan(matched: nat, cached: nat, uncached: nat, source: Option<Id>, pull: seq<Key>)

  /** One block of KV: as it was pulled, or the i-th one a pass computed. */
  datatype Block = Pulled(key: Key) | Computed(i: nat)

  datatype Fault = OneBlockPerKey

  // ----- pricing --------------------------------------------------------------------------

  function Held(counts: map<Id, nat>, id: Id): nat {
    if id in counts then counts[id] else 0
  }

  /** `_worth_pulling`: the peer holds more than `threshold` times what the candidate does. */
  predicate WorthPulling(counts: map<Id, nat>, id: Id, threshold: real, peer: Id) {
    Held(counts, peer) as real > Held(counts, id) as real * threshold
  }

  /** `keys[from:to]`, empty when the bounds cross. */
  function Slice(keys: seq<Key>, from: nat, to: nat): (r: seq<Key>)
    ensures from <= to <= |keys| ==> r == keys[from..to]
    ensures to < from ==> r == []
  {
    var hi := Min(to, |keys|);
    if from <= hi then keys[from..hi] else []
  }

  /** What one candidate would reuse of a peer, if pulling is worth it. */
  function Reuse(
      counts: map<Id, nat>, keys: seq<Key>, id: Id, peer: Option<Id>, threshold: real): (nat, Option<Id>, seq<Key>)
  {
    if peer.None? || !WorthPulling(counts, id, threshold, peer.value) || peer.value == id
      then (Held(counts, id), None, [])
    else (Held(counts, peer.value), peer, Slice(keys, Held(counts, id), Held(counts, peer.value)))
  }

  /** `_candidate`: a match priced, with no source when there is nothing to pull. */
  function Priced(r: Request, blockTokens: nat, counts: map<Id, nat>, id: Id, peer: Option<Id>, threshold: real): Plan {
    var (m, source, pull) := Reuse(counts, r.keys, id, peer, threshold);
    var cached := Min(m * blockTokens, r.promptTokens);
    Plan(m, cached, r.promptTokens - cached, if pull == [] then None else source, pull)
  }

  /**
   Whether a candidate pulls, and what: from another host that holds more than `threshold` times the
   blocks it does itself, just those it lacks. Otherwise it reuses what it has.
   */
  lemma PullsIff(r: Request, blockTokens: nat, counts: map<Id, nat>, id: Id, peer: Option<Id>, threshold: real)
    requires forall i :: i in counts ==> counts[i] <= |r.keys|
    ensures var p, here := Priced(r, blockTokens, counts, id, peer, threshold), if id in counts then counts[id] else 0;
      match peer
      case None => p.matched == here && p.source == None && p.pull == []
      case Some(other) =>
        var there := if other in counts then counts[other] else 0;
        if other != id && there as real > here as real * threshold then
          && p.matched == there && (p.source.Some? <==> there > here)
          && (there > here ==> p.source == peer && p.pull == r.keys[here..there])
        else p.matched == here && p.source == None && p.pull == []
  {}

  /** Blocks the host already held: the match less what is pulled. */
  function LocalBlocks(p: Plan): int {
    p.matched - |p.pull|
  }

  /** What pricing answers, whichever peer it was offered. */
  ghost predicate Sensible(r: Request, blockTokens: nat, p: Plan) {
    && p.matched <= |r.keys| && |p.pull| <= p.matched
    && p.cached == Min(p.matched * blockTokens, r.promptTokens) && p.uncached == r.promptTokens - p.cached
    && p.pull == r.keys[LocalBlocks(p)..p.matched]
    && (p.source.Some? <==> p.pull != [])
  }

  /** Every plan covers the prompt, and pulls just the keys between what is local and what is matched. */
  lemma PricedIsSensible(r: Request, blockTokens: nat, counts: map<Id, nat>, id: Id, peer: Option<Id>, threshold: real)
    requires forall i :: i in counts ==> counts[i] <= |r.keys|
    ensures Sensible(r, blockTokens, Priced(r, blockTokens, counts, id, peer, threshold))
  {}

  /** `counts` is what `prefix_lengths_of` answers for these keys. */
  ghost predicate CountsRuns(located: map<Key, set<Id>>, keys: seq<Key>, counts: map<Id, nat>) {
    forall i :: i in counts ==> counts[i] == Prefixes.Leading(keys, Prefixes.HeldBy(located, keys, i))
  }

  /**
   Priced off the directory's own answer, a plan is sensible, whatever it counts as local the candidate
   is listed under, and whatever it pulls the peer it pulls from is.
   */
  lemma PlansAreHeld(
      r: Request, blockTokens: nat, located: map<Key, set<Id>>, counts: map<Id, nat>, id: Id, peer: Option<Id>,
      threshold: real)
    requires CountsRuns(located, r.keys, counts)
    ensures var p := Priced(r, blockTokens, counts, id, peer, threshold);
      && Sensible(r, blockTokens, p)
      && (forall i: nat :: i < LocalBlocks(p) ==> r.keys[i] in Prefixes.HeldBy(located, r.keys, id))
      && (p.source.Some? ==> forall k :: k in p.pull ==> k in Prefixes.HeldBy(located, r.keys, p.source.value))
  {
    hide Prefixes.Leading, Prefixes.HeldBy;
    forall i | i in counts
      ensures counts[i] <= |r.keys|
      ensures forall j: nat :: j < counts[i] ==> r.keys[j] in Prefixes.HeldBy(located, r.keys, i)
    {
      Prefixes.LeadingIs(r.keys, Prefixes.HeldBy(located, r.keys, i));
    }
    PricedIsSensible(r, blockTokens, counts, id, peer, threshold);
  }

  // ----- running and publishing -----------------------------------------------------------

  function Computes(n: nat): (blocks: seq<Block>)
    ensures |blocks| == n && forall i: nat :: i < n ==> blocks[i] == Computed(i)
  {
    seq(n, i requires 0 <= i => Computed(i))
  }

  function Arrive(keys: seq<Key>): (blocks: seq<Block>)
    ensures |blocks| == |keys| && forall i: nat :: i < |keys| ==> blocks[i] == Pulled(keys[i])
  {
    seq(|keys|, i requires 0 <= i < |keys| => Pulled(keys[i]))
  }

  /** The tokens the pass is given: the planned ones, or all past the local blocks when the pull came to nothing. */
  function Uncached(r: Request, blockTokens: nat, p: Plan, evicted: bool): nat
    requires LocalBlocks(p) >= 0
  {
    if evicted then r.promptTokens - Min(LocalBlocks(p) * blockTokens, r.promptTokens) else p.uncached
  }

  /** The KV a served request leaves: what was pulled, then what was computed. */
  function Kv(r: Request, blockTokens: nat, p: Plan, evicted: bool): seq<Block>
    requires blockTokens > 0 && LocalBlocks(p) >= 0
  {
    (if evicted then [] else Arrive(p.pull)) + Computes(CeilDiv(Uncached(r, blockTokens, p, evicted), blockTokens))
  }

  /** The keys it is published under. */
  function Fresh(r: Request, p: Plan): seq<Key>
    requires 0 <= LocalBlocks(p) <= |r.keys|
  {
    r.keys[LocalBlocks(p)..]
  }

  /** `publish`: nothing to do without keys; else exactly one block a key. */
  function Publish(keys: seq<Key>, blocks: seq<Block>): Result<seq<(Key, Block)>, Fault> {
    if keys == [] then Ok([])
    else if |keys| != |blocks| then Err(OneBlockPerKey)
    else Ok(seq(|keys|, i requires 0 <= i < |keys| => (keys[i], blocks[i])))
  }

  /** Taking whole blocks off a prompt takes as many off what it fills. */
  lemma BlocksLeft(tokens: nat, b: nat, n: nat, k: nat)
    requires b > 0 && CeilDiv(tokens, b) == n && k <= n
    ensures CeilDiv(tokens - Min(k * b, tokens), b) == n - k
  {
    CeilDivIs(tokens, b, n);
    Scaled(k, n, b);
    if k < n {
      Scaled(k, n - 1, b);
      assert (n - 1) * b - k * b == (n - k - 1) * b && n * b - k * b == (n - k) * b;
      CeilDivIs(tokens - k * b, b, n - k);
    } else {
      CeilDivIs(0, b, 0);
    }
  }

  /** What is published at place `i` past the local blocks: a pulled block under its own key, then what was computed. */
  function PublishedAt(r: Request, p: Plan, evicted: bool, i: nat): (Key, Block)
    requires 0 <= LocalBlocks(p) && i < |r.keys| - LocalBlocks(p)
  {
    var key := r.keys[LocalBlocks(p) + i];
    (key, if evicted then Computed(i) else if i < |p.pull| then Pulled(key) else Computed(i - |p.pull|))
  }

  /** A prompt cut into its keys' blocks leaves exactly one block for each key it publishes, pulled or recomputed. */
  lemma OneBlockPerKeyServed(r: Request, blockTokens: nat, p: Plan, evicted: bool)
    requires blockTokens > 0 && Sensible(r, blockTokens, p) && CeilDiv(r.promptTokens, blockTokens) == |r.keys|
    ensures |Kv(r, blockTokens, p, evicted)| == |Fresh(r, p)|
    ensures Publish(Fresh(r, p), Kv(r, blockTokens, p, evicted)).Ok?
    ensures forall i: nat :: i < |r.keys| - LocalBlocks(p) ==>
      Publish(Fresh(r, p), Kv(r, blockTokens, p, evicted)).value[i] == PublishedAt(r, p, evicted, i)
  {
    if evicted {
      BlocksLeft(r.promptTokens, blockTokens, |r.keys|, LocalBlocks(p));
    } else {
      BlocksLeft(r.promptTokens, blockTokens, |r.keys|, p.matched);
    }
  }

  /** Publishing never fails for want of a block, whatever is matched, pulled or lost, exactly for such prompts. */
  lemma NeverMismatchesIff(r: Request, blockTokens: nat)
    requires blockTokens > 0
    ensures (forall p: Plan, evicted: bool :: Sensible(r, blockTokens, p) ==> Publishes(r, blockTokens, p, evicted))
      <==> r.keys == [] || CeilDiv(r.promptTokens, blockTokens) == |r.keys|
  {
    hide CeilDiv;
    if r.keys == [] || CeilDiv(r.promptTokens, blockTokens) == |r.keys| {
      forall p: Plan, evicted: bool | Sensible(r, blockTokens, p)
        ensures Publishes(r, blockTokens, p, evicted)
      {
        if r.keys != [] { OneBlockPerKeyServed(r, blockTokens, p, evicted); }
      }
    } else {
      var cold := Plan(0, 0, r.promptTokens, None, []);
      assert Sensible(r, blockTokens, cold);
      assert !Publishes(r, blockTokens, cold, false);
    }
  }

  ghost predicate Publishes(r: Request, blockTokens: nat, p: Plan, evicted: bool)
    requires blockTokens > 0 && Sensible(r, blockTokens, p)
  {
    Publish(Fresh(r, p), Kv(r, blockTokens, p, evicted)).Ok?
  }

  /** A prompt of whole blocks is such a prompt. */
  lemma WholeBlocks(n: nat, blockTokens: nat)
    requires blockTokens > 0
    ensures CeilDiv(n * blockTokens, blockTokens) == n
  {
    CeilDivIs(n * blockTokens, blockTokens, n);
    assert (n - 1) * blockTokens == n * blockTokens - blockTokens;
  }

  // ----- the serving host -----------------------------------------------------------------

  /** One request's row, amended as the facts land. */
  class Row {
    var cached: nat
    var uncached: nat
    var pulledBlocks: nat
    var ttft: real

    constructor (p: Plan, ttft: real)
      ensures cached == p.cached && uncached == p.uncached && pulledBlocks == |p.pull| && this.ttft == ttft
    {
      cached, uncached, pulledBlocks, this.ttft := p.cached, p.uncached, |p.pull|, ttft;
    }
  }

  class ServingHost {
    const blockTokens: nat
    const cost: nat -> real

    constructor (blockTokens: nat, cost: nat -> real)
      requires blockTokens > 0
      ensures this.blockTokens == blockTokens && this.cost == cost
    {
      this.blockTokens, this.cost := blockTokens, cost;
    }

    /** `_recompute`: the row without the reuse that vanished. */
    method Recompute(r: Request, p: Plan, planned: real, row: Row) returns (uncached: nat)
      requires 0 <= LocalBlocks(p)
      modifies row
      ensures uncached == Uncached(r, blockTokens, p, true)
      ensures row.uncached == uncached && row.cached + row.uncached == r.promptTokens && row.pulledBlocks == 0
      ensures row.ttft == old(row.ttft) + (cost(uncached) - planned)
    {
      var cached := Min(LocalBlocks(p) * blockTokens, r.promptTokens);
      uncached := r.promptTokens - cached;
      row.cached := cached;
      row.uncached := uncached;
      row.pulledBlocks := 0;
      row.ttft := row.ttft + (cost(uncached) - planned);
    }

    /**
     The serving half of `prefill`: pull, compute, publish. `evicted` is whether the peer had dropped
     the planned prefix by the time it was asked.
     */
    method Serve(r: Request, p: Plan, planned: real, evicted: bool, row: Row)
      returns (published: Result<seq<(Key, Block)>, Fault>, computed: nat)
      requires blockTokens > 0 && Sensible(r, blockTokens, p)
      requires row.cached == p.cached && row.uncached == p.uncached && row.pulledBlocks == |p.pull|
      modifies row
      ensures published == Publish(Fresh(r, p), Kv(r, blockTokens, p, evicted && p.source.Some?))
      ensures computed == Uncached(r, blockTokens, p, evicted && p.source.Some?)
      ensures row.uncached == computed && row.cached + row.uncached == r.promptTokens
      ensures row.pulledBlocks == (if evicted then 0 else |p.pull|)
      ensures row.ttft == old(row.ttft) + (if evicted && p.source.Some? then cost(computed) - planned else 0.0)
    {
      hide Computes, Arrive, CeilDiv;
      computed := p.uncached;
      var pulled: seq<Block> := [];
      if p.source.Some? && p.pull != [] {
        if evicted {
          computed := Recompute(r, p, planned, row);
        } else {
          pulled := Arrive(p.pull);
        }
      }
      var kv := pulled + Computes(CeilDiv(computed, blockTokens));
      assert p.source.None? ==> pulled == Arrive(p.pull) == [];
      published := Publish(r.keys[LocalBlocks(p)..], kv);
    }
  }
}
