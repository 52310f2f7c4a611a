/**
 The fetch-graph picture of `sim_common/report.py`: who served whom as a tree, each node with children
 expanded where it first appears. This module holds the graph, the walk, and what the walk prints.
 */
module FetchGraph {
  import opened Basics

  type Node = string

  datatype Edge = Edge(src: Node, dst: Node)

  type Graph = map<Node, seq<Node>>

  /** A root's line, or a served node's under the one that served it; `again` marks a subtree shown before. */
  datatype Line = Top(node: Node) | Under(prefix: string, last: bool, src: Node, node: Node, again: bool)

  // ----- the graph of a list of edges -----------------------------------------------------

  function Kids(g: Graph, n: Node): seq<Node> {
    if n in g then g[n] else []
  }

  /** `children`: each source's distinct destinations, in the order they were first served. */
  function Children(edges: seq<Edge>): Graph
    decreases |edges|
  {
    if edges == [] then map[] else
      var g, e := Children(edges[..|edges| - 1]), edges[|edges| - 1];
      g[e.src := if e.dst in Kids(g, e.src) then Kids(g, e.src) else Kids(g, e.src) + [e.dst]]
  }

  ghost predicate Once(ns: seq<Node>) {
    forall i, j :: 0 <= i < j < |ns| ==> ns[i] != ns[j]
  }

  ghost predicate Simple(g: Graph) {
    forall n :: n in g ==> Once(g[n])
  }

  /** The graph has an edge exactly where one was recorded, and names it once. */
  lemma {:induction false} ChildrenAreEdges(edges: seq<Edge>)
    ensures Simple(Children(edges))
    ensures forall s, d :: d in Kids(Children(edges), s) <==> Edge(s, d) in edges
    ensures forall s :: s in Children(edges) <==> Sources(edges, s)
    decreases |edges|
  {
    hide Sources;
    if edges == [] {
      NoSources();
    } else {
      var init, e := edges[..|edges| - 1], edges[|edges| - 1];
      assert edges == init + [e];
      ChildrenAreEdges(init);
      OneMoreEdge(Children(init), e);
      forall s
        ensures s in Children(edges) <==> Sources(edges, s)
      {
        SourcesMore(init, e, s);
      }
    }
  }

  /** `s` was recorded serving `first` before it ever was serving `second`. */
  ghost predicate ServedSooner(edges: seq<Edge>, s: Node, first: Node, second: Node) {
    exists m: nat :: m < |edges| && edges[m] == Edge(s, first)
      && forall n: nat :: n <= m ==> edges[n] != Edge(s, second)
  }

  lemma SoonerStays(edges: seq<Edge>, e: Edge, s: Node, first: Node, second: Node)
    requires ServedSooner(edges, s, first, second)
    ensures ServedSooner(edges + [e], s, first, second)
  {
    var m: nat :| m < |edges| && edges[m] == Edge(s, first) && forall n: nat :: n <= m ==> edges[n] != Edge(s, second);
    assert (edges + [e])[m] == Edge(s, first);
  }

  lemma SoonerThanNew(edges: seq<Edge>, e: Edge, first: Node)
    requires Edge(e.src, first) in edges && e !in edges
    ensures ServedSooner(edges + [e], e.src, first, e.dst)
  {
    var m: nat :| m < |edges| && edges[m] == Edge(e.src, first);
    assert (edges + [e])[m] == Edge(e.src, first);
  }

  lemma LastServed(init: seq<Edge>, e: Edge, s: Node)
    ensures var kids, was := Kids(Children(init + [e]), s), Kids(Children(init), s);
      kids == if s == e.src && e.dst !in was then was + [e.dst] else was
  {
    ChildrenMore(init, e);
    hide Children;
  }

  /** A node's children stand in the order it first served them. */
  lemma {:induction false} ChildrenAsServed(edges: seq<Edge>, s: Node, i: nat, j: nat)
    requires i < j < |Kids(Children(edges), s)|
    ensures var kids := Kids(Children(edges), s); ServedSooner(edges, s, kids[i], kids[j])
    decreases |edges|
  {
    hide ServedSooner, Simple, Sources;
    var init, e := edges[..|edges| - 1], edges[|edges| - 1];
    ChildrenAreEdges(init);
    assert edges == init + [e];
    var kids, was := Kids(Children(edges), s), Kids(Children(init), s);
    LastServed(init, e, s);
    hide Children;
    if j < |was| {
      ChildrenAsServed(init, s, i, j);
      assert kids[i] == was[i] && kids[j] == was[j];
      SoonerStays(init, e, s, kids[i], kids[j]);
    } else {
      assert s == e.src && e.dst !in was && kids == was + [e.dst] && was[i] in was;
      SoonerThanNew(init, e, kids[i]);
    }
  }

  lemma NoSources()
    ensures forall s :: !Sources([], s)
  {}

  lemma OneMoreEdge(g: Graph, e: Edge)
    requires Simple(g)
    ensures var r := g[e.src := if e.dst in Kids(g, e.src) then Kids(g, e.src) else Kids(g, e.src) + [e.dst]];
      Simple(r) && forall s, d :: d in Kids(r, s) <==> d in Kids(g, s) || Edge(s, d) == e
  {}

  ghost predicate Sources(edges: seq<Edge>, s: Node) {
    exists e :: e in edges && e.src == s
  }

  lemma SourcesMore(edges: seq<Edge>, e: Edge, s: Node)
    ensures Sources(edges + [e], s) <==> Sources(edges, s) || e.src == s
  {
    if x :| x in edges && x.src == s { assert x in edges + [e]; }
    assert e in edges + [e];
  }

  // ----- the walk -------------------------------------------------------------------------

  function Parents(g: Graph): set<Node> {
    set n | n in g && g[n] != []
  }

  /** The rest of one node's subtree from its `i`-th child on, and what has been expanded by then. */
  function Walk(g: Graph, n: Node, i: nat, prefix: string, expanded: set<Node>): (r: (seq<Line>, set<Node>))
    requires i <= |Kids(g, n)|
    ensures expanded <= r.1
    decreases |Parents(g) - expanded|, |Kids(g, n)| - i
  {
    var kids := Kids(g, n);
    if i == |kids| then ([], expanded) else
      var kid, last := kids[i], i + 1 == |kids|;
      if kid in expanded && Kids(g, kid) != [] then
        var rest := Walk(g, n, i + 1, prefix, expanded);
        ([Under(prefix, last, n, kid, true)] + rest.0, rest.1)
      else
        Shrinks(g, kid, expanded);
        var under := Walk(g, kid, 0, prefix + (if last then "    " else "|   "), expanded + {kid});
        SubsetSize(Parents(g) - under.1, Parents(g) - expanded);
        var rest := Walk(g, n, i + 1, prefix, under.1);
        ([Under(prefix, last, n, kid, false)] + under.0 + rest.0, rest.1)
  }

  /** A node with children newly expanded leaves one fewer to expand. */
  lemma Shrinks(g: Graph, kid: Node, expanded: set<Node>)
    requires kid !in expanded || Kids(g, kid) == []
    ensures if Kids(g, kid) == [] then Parents(g) - (expanded + {kid}) == Parents(g) - expanded
            else |Parents(g) - (expanded + {kid})| < |Parents(g) - expanded|
  {
    if Kids(g, kid) != [] {
      assert Parents(g) - expanded == Parents(g) - (expanded + {kid}) + {kid};
    }
  }

  lemma SubsetSize<T>(a: set<T>, b: set<T>)
    requires a <= b
    ensures |a| <= |b|
  {
    assert b == a + (b - a);
  }

  /** Every root in turn. */
  function Render(g: Graph, roots: seq<Node>, expanded: set<Node>): (seq<Line>, set<Node>)
    decreases |roots|
  {
    if roots == [] then ([], expanded) else
      var under := Walk(g, roots[0], 0, "", expanded + {roots[0]});
      var rest := Render(g, roots[1..], under.1);
      ([Top(roots[0])] + under.0 + rest.0, rest.1)
  }

  // ----- what is printed ------------------------------------------------------------------

  /** How many lines show `d` served by `s`. */
  function Shown(lines: seq<Line>, s: Node, d: Node): nat {
    if lines == [] then 0 else
      (if lines[0].Under? && lines[0].src == s && lines[0].node == d then 1 else 0) + Shown(lines[1..], s, d)
  }

  lemma {:induction false} ShownConcat(a: seq<Line>, b: seq<Line>, s: Node, d: Node)
    ensures Shown(a + b, s, d) == Shown(a, s, d) + Shown(b, s, d)
    decreases |a|
  {
    if a == [] {
      assert a + b == b;
    } else {
      assert (a + b)[1..] == a[1..] + b;
      ShownConcat(a[1..], b, s, d);
    }
  }

  /** A child is still ahead of a walk at place `i`. */
  ghost predicate Ahead(g: Graph, n: Node, i: nat, d: Node) {
    exists j: nat :: i <= j < |Kids(g, n)| && Kids(g, n)[j] == d
  }

  /** What a walk shows of `s`: the rest of its own node, all of whoever it expands, and nothing else. */
  ghost function Showing(g: Graph, n: Node, i: nat, before: set<Node>, after: set<Node>, s: Node, d: Node): nat {
    if s == n then (if Ahead(g, n, i, d) then 1 else 0)
    else if s in after && s !in before then (if d in Kids(g, s) then 1 else 0)
    else 0
  }

  lemma AheadNext(g: Graph, n: Node, i: nat, d: Node)
    requires Simple(g) && i < |Kids(g, n)|
    ensures Ahead(g, n, i, d) <==> d == Kids(g, n)[i] || Ahead(g, n, i + 1, d)
    ensures d == Kids(g, n)[i] ==> !Ahead(g, n, i + 1, d)
  {
    assert n in g;
  }

  lemma AheadAll(g: Graph, n: Node, d: Node)
    ensures Ahead(g, n, 0, d) <==> d in Kids(g, n)
  {}

  lemma ShowingNothing(g: Graph, n: Node, expanded: set<Node>, s: Node, d: Node)
    ensures Showing(g, n, |Kids(g, n)|, expanded, expanded, s, d) == 0
  {}

  lemma ShowingNext(g: Graph, n: Node, i: nat, before: set<Node>, after: set<Node>, s: Node, d: Node)
    requires Simple(g) && i < |Kids(g, n)|
    ensures Showing(g, n, i, before, after, s, d)
      == (if s == n && d == Kids(g, n)[i] then 1 else 0) + Showing(g, n, i + 1, before, after, s, d)
  {
    hide Ahead;
    AheadNext(g, n, i, d);
  }

  /** A child's own walk and the rest of its parent's show different nodes' edges. */
  lemma ShowingAdds(g: Graph, n: Node, i: nat, kid: Node, before: set<Node>, mid: set<Node>, after: set<Node>,
      s: Node, d: Node)
    requires Simple(g) && i < |Kids(g, n)| && kid == Kids(g, n)[i] && n in before
    requires (kid !in before || Kids(g, kid) == []) && before + {kid} <= mid <= after
    ensures Showing(g, n, i, before, after, s, d)
      == (if s == n && d == kid then 1 else 0)
        + Showing(g, kid, 0, before + {kid}, mid, s, d) + Showing(g, n, i + 1, mid, after, s, d)
  {
    AheadNext(g, n, i, d);
    AheadAll(g, kid, d);
    hide Ahead, Simple;
    assert d in Kids(g, s) ==> Kids(g, s) != [];
  }

  /** Each edge under an expanded node is shown once, in whatever graph, cycles and shared subtrees included. */
  lemma {:induction false} WalkShows(g: Graph, n: Node, i: nat, prefix: string, expanded: set<Node>, s: Node, d: Node)
    requires Simple(g) && i <= |Kids(g, n)| && n in expanded
    ensures var r := Walk(g, n, i, prefix, expanded);
      Shown(r.0, s, d) == Showing(g, n, i, expanded, r.1, s, d)
    decreases |Parents(g) - expanded|, |Kids(g, n)| - i
  {
    hide Ahead, Shown, Showing;
    var kids := Kids(g, n);
    if i == |kids| {
      ShowingNothing(g, n, expanded, s, d);
      NothingAhead(g, n, s, d);
    } else {
      var kid, last := kids[i], i + 1 == |kids|;
      if kid in expanded && Kids(g, kid) != [] {
        ShowingNext(g, n, i, expanded, Walk(g, n, i + 1, prefix, expanded).1, s, d);
        WalkShows(g, n, i + 1, prefix, expanded, s, d);
        OneLine(Under(prefix, last, n, kid, true), Walk(g, n, i + 1, prefix, expanded).0, s, d);
      } else {
        Shrinks(g, kid, expanded);
        var deeper := prefix + (if last then "    " else "|   ");
        var under := Walk(g, kid, 0, deeper, expanded + {kid});
        WalkShows(g, kid, 0, deeper, expanded + {kid}, s, d);
        SubsetSize(Parents(g) - under.1, Parents(g) - expanded);
        WalkShows(g, n, i + 1, prefix, under.1, s, d);
        ShowingAdds(g, n, i, kid, expanded, under.1, Walk(g, n, i + 1, prefix, under.1).1, s, d);
        OneLine(Under(prefix, last, n, kid, false), under.0, s, d);
        ShownConcat([Under(prefix, last, n, kid, false)] + under.0, Walk(g, n, i + 1, prefix, under.1).0, s, d);
      }
    }
  }

  lemma NothingAhead(g: Graph, n: Node, s: Node, d: Node)
    ensures !Ahead(g, n, |Kids(g, n)|, d) && Shown([], s, d) == 0
  {}

  lemma OneLine(l: Line, rest: seq<Line>, s: Node, d: Node)
    ensures Shown([l] + rest, s, d) == (if l.Under? && l.src == s && l.node == d then 1 else 0) + Shown(rest, s, d)
  {
    assert ([l] + rest)[1..] == rest;
  }

  // ----- where the walk goes --------------------------------------------------------------

  ghost predicate Path(g: Graph, path: seq<Node>) {
    path != [] && forall i: nat :: 0 < i < |path| ==> path[i] in Kids(g, path[i - 1])
  }

  ghost predicate Reaches(g: Graph, from: Node, to: Node) {
    exists path :: Path(g, path) && path[0] == from && path[|path| - 1] == to
  }

  lemma ReachesSelf(g: Graph, n: Node)
    ensures Reaches(g, n, n)
  {
    assert Path(g, [n]) && [n][0] == n;
  }

  lemma ReachesThrough(g: Graph, n: Node, kid: Node, to: Node)
    requires kid in Kids(g, n) && Reaches(g, kid, to)
    ensures Reaches(g, n, to)
  {
    var path :| Path(g, path) && path[0] == kid && path[|path| - 1] == to;
    var longer := [n] + path;
    forall i: nat | 0 < i < |longer|
      ensures longer[i] in Kids(g, longer[i - 1])
    {
      assert longer[i] == path[i - 1];
      if i > 1 { assert longer[i - 1] == path[i - 2]; }
    }
    Through(g, longer);
  }

  lemma Through(g: Graph, path: seq<Node>)
    requires Path(g, path)
    ensures Reaches(g, path[0], path[|path| - 1])
  {}

  /** Whoever a walk expands is reachable, and nothing is left half expanded. */
  lemma {:induction false} WalkExpands(g: Graph, n: Node, i: nat, prefix: string, expanded: set<Node>)
    requires i <= |Kids(g, n)| && n in expanded
    ensures var r := Walk(g, n, i, prefix, expanded);
      && (forall x :: x in r.1 && x !in expanded ==> Reaches(g, n, x))
      && (forall x, kid :: x in r.1 && x !in expanded && kid in Kids(g, x) ==> kid in r.1)
      && (forall j: nat :: i <= j < |Kids(g, n)| ==> Kids(g, n)[j] in r.1)
    decreases |Parents(g) - expanded|, |Kids(g, n)| - i
  {
    hide Reaches;
    var kids := Kids(g, n);
    if i < |kids| {
      var kid, last := kids[i], i + 1 == |kids|;
      if kid in expanded && Kids(g, kid) != [] {
        WalkExpands(g, n, i + 1, prefix, expanded);
      } else {
        Shrinks(g, kid, expanded);
        var deeper := prefix + (if last then "    " else "|   ");
        var under := Walk(g, kid, 0, deeper, expanded + {kid});
        WalkExpands(g, kid, 0, deeper, expanded + {kid});
        SubsetSize(Parents(g) - under.1, Parents(g) - expanded);
        WalkExpands(g, n, i + 1, prefix, under.1);
        ReachesSelf(g, kid);
        forall x | x in under.1 && x !in expanded
          ensures Reaches(g, n, x)
        {
          ReachesThrough(g, n, kid, x);
        }
        assert forall x :: x in Kids(g, kid) ==> x in under.1;
      }
    }
  }

  // ----- the whole picture ----------------------------------------------------------------

  /** Served by nobody. */
  ghost predicate Unserved(g: Graph, n: Node) {
    forall m :: n !in Kids(g, m)
  }

  lemma UnservedIsReachedFromItself(g: Graph, n: Node, to: Node)
    requires Unserved(g, to) && Reaches(g, n, to)
    ensures n == to
  {
    var path :| Path(g, path) && path[0] == n && path[|path| - 1] == to;
    LastIsServed(g, path);
  }

  lemma LastIsServed(g: Graph, path: seq<Node>)
    requires Path(g, path)
    ensures |path| > 1 ==> path[|path| - 1] in Kids(g, path[|path| - 2])
  {}

  ghost predicate Tops(g: Graph, roots: seq<Node>, expanded: set<Node>) {
    && Once(roots)
    && forall r :: r in roots ==> Unserved(g, r) && r !in expanded
  }

  /** After one root is walked the others are still unexpanded. */
  lemma NextTops(g: Graph, roots: seq<Node>, expanded: set<Node>)
    requires Tops(g, roots, expanded) && roots != []
    ensures Tops(g, roots[1..], Walk(g, roots[0], 0, "", expanded + {roots[0]}).1)
  {
    hide Reaches, Walk;
    var under := Walk(g, roots[0], 0, "", expanded + {roots[0]}).1;
    WalkExpands(g, roots[0], 0, "", expanded + {roots[0]});
    forall r | r in roots[1..]
      ensures Unserved(g, r) && r !in under
    {
      var i: nat :| i < |roots[1..]| && roots[1..][i] == r;
      assert roots[i + 1] == r && r in roots;
      if r in under { UnservedIsReachedFromItself(g, roots[0], r); }
    }
  }

  lemma {:induction false} RenderShows(g: Graph, roots: seq<Node>, expanded: set<Node>, s: Node, d: Node)
    requires Simple(g) && Tops(g, roots, expanded)
    ensures var r := Render(g, roots, expanded);
      && expanded <= r.1
      && Shown(r.0, s, d) == if s in r.1 && s !in expanded && d in Kids(g, s) then 1 else 0
    decreases |roots|
  {
    hide Shown, Walk, Tops;
    if roots == [] {
      NothingAhead(g, "", s, d);
    } else {
      TopIsNew(g, roots, expanded);
      var under := Walk(g, roots[0], 0, "", expanded + {roots[0]});
      NextTops(g, roots, expanded);
      AheadAll(g, roots[0], d);
      WalkShows(g, roots[0], 0, "", expanded + {roots[0]}, s, d);
      RenderShows(g, roots[1..], under.1, s, d);
      OneLine(Top(roots[0]), under.0, s, d);
      ShownConcat([Top(roots[0])] + under.0, Render(g, roots[1..], under.1).0, s, d);
    }
  }

  lemma TopIsNew(g: Graph, roots: seq<Node>, expanded: set<Node>)
    requires Tops(g, roots, expanded) && roots != []
    ensures roots[0] !in expanded
  {}

  ghost predicate Reachable(g: Graph, roots: seq<Node>, n: Node) {
    exists r :: r in roots && Reaches(g, r, n)
  }

  /** What a root's walk newly expands it expands whole, the root included. */
  lemma UnderClosed(g: Graph, root: Node, expanded: set<Node>, n: Node, kid: Node)
    requires n in Walk(g, root, 0, "", expanded + {root}).1 && n !in expanded && kid in Kids(g, n)
    ensures kid in Walk(g, root, 0, "", expanded + {root}).1
  {
    hide Walk, Reaches;
    WalkExpands(g, root, 0, "", expanded + {root});
    var under := Walk(g, root, 0, "", expanded + {root}).1;
    if n == root {
      var j: nat :| j < |Kids(g, n)| && Kids(g, n)[j] == kid;
      assert Kids(g, root)[j] in under;
    } else {
      assert n in under && n !in expanded + {root};
    }
  }

  lemma {:induction false} RenderExpands(g: Graph, roots: seq<Node>, expanded: set<Node>)
    ensures var r := Render(g, roots, expanded);
      && expanded <= r.1
      && (forall n :: n in roots ==> n in r.1)
      && (forall n :: n in r.1 && n !in expanded ==> Reachable(g, roots, n))
      && (forall n, kid :: n in r.1 && n !in expanded && kid in Kids(g, n) ==> kid in r.1)
    decreases |roots|
  {
    hide Reaches, Walk;
    if roots != [] {
      var under := Walk(g, roots[0], 0, "", expanded + {roots[0]});
      WalkExpands(g, roots[0], 0, "", expanded + {roots[0]});
      RenderExpands(g, roots[1..], under.1);
      ReachesSelf(g, roots[0]);
      assert roots == [roots[0]] + roots[1..] && roots[0] in roots;
      var r := Render(g, roots, expanded);
      forall n | n in r.1 && n !in expanded
        ensures Reachable(g, roots, n)
        ensures forall kid :: kid in Kids(g, n) ==> kid in r.1
      {
        if n !in under.1 {
          assert Reachable(g, roots[1..], n);
          var root :| root in roots[1..] && Reaches(g, root, n);
          assert root in roots;
        } else {
          assert Reaches(g, roots[0], n);
          forall kid | kid in Kids(g, n)
            ensures kid in under.1
          {
            UnderClosed(g, roots[0], expanded, n, kid);
          }
        }
      }
    }
  }

  lemma {:induction false} ClosedHoldsReachable(g: Graph, closed: set<Node>, path: seq<Node>, n: nat)
    requires Path(g, path) && path[0] in closed && n < |path|
    requires forall x, kid :: x in closed && kid in Kids(g, x) ==> kid in closed
    ensures path[n] in closed
  {
    if n > 0 { ClosedHoldsReachable(g, closed, path, n - 1); }
  }

  /**
   Branching mode, on any graph: it ends, expands exactly what the roots reach, and shows each edge
   under a reachable node once and no other.
   */
  lemma EachEdgeShownOnce(g: Graph, roots: seq<Node>, s: Node, d: Node)
    requires Simple(g) && Tops(g, roots, {})
    ensures var r := Render(g, roots, {});
      && (s in r.1 <==> Reachable(g, roots, s))
      && Shown(r.0, s, d) == if Reachable(g, roots, s) && d in Kids(g, s) then 1 else 0
  {
    hide Render, Shown, Tops, Simple;
    RenderShows(g, roots, {}, s, d);
    RenderExpands(g, roots, {});
    if Reachable(g, roots, s) {
      var root :| root in roots && Reaches(g, root, s);
      var path :| Path(g, path) && path[0] == root && path[|path| - 1] == s;
      ClosedHoldsReachable(g, Render(g, roots, {}).1, path, |path| - 1);
    }
  }

  function TopsOf(lines: seq<Line>): seq<Node> {
    if lines == [] then [] else (if lines[0].Top? then [lines[0].node] else []) + TopsOf(lines[1..])
  }

  lemma {:induction false} TopsConcat(a: seq<Line>, b: seq<Line>)
    ensures TopsOf(a + b) == TopsOf(a) + TopsOf(b)
    decreases |a|
  {
    if a == [] {
      assert a + b == b;
    } else {
      assert (a + b)[1..] == a[1..] + b;
      TopsConcat(a[1..], b);
    }
  }

  lemma {:induction false} WalkHasNoTops(g: Graph, n: Node, i: nat, prefix: string, expanded: set<Node>)
    requires i <= |Kids(g, n)|
    ensures TopsOf(Walk(g, n, i, prefix, expanded).0) == []
    decreases |Parents(g) - expanded|, |Kids(g, n)| - i
  {
    var kids := Kids(g, n);
    if i < |kids| {
      var kid, last := kids[i], i + 1 == |kids|;
      if kid in expanded && Kids(g, kid) != [] {
        WalkHasNoTops(g, n, i + 1, prefix, expanded);
        TopsConcat([Under(prefix, last, n, kid, true)], Walk(g, n, i + 1, prefix, expanded).0);
      } else {
        Shrinks(g, kid, expanded);
        var deeper := prefix + (if last then "    " else "|   ");
        var under := Walk(g, kid, 0, deeper, expanded + {kid});
        WalkHasNoTops(g, kid, 0, deeper, expanded + {kid});
        SubsetSize(Parents(g) - under.1, Parents(g) - expanded);
        WalkHasNoTops(g, n, i + 1, prefix, under.1);
        TopsConcat([Under(prefix, last, n, kid, false)], under.0);
        TopsConcat([Under(prefix, last, n, kid, false)] + under.0, Walk(g, n, i + 1, prefix, under.1).0);
      }
    }
  }

  /** One line a root, in order. */
  lemma {:induction false} EachRootShownOnce(g: Graph, roots: seq<Node>, expanded: set<Node>)
    ensures TopsOf(Render(g, roots, expanded).0) == roots
    decreases |roots|
  {
    hide Walk;
    if roots != [] {
      var under := Walk(g, roots[0], 0, "", expanded + {roots[0]});
      WalkHasNoTops(g, roots[0], 0, "", expanded + {roots[0]});
      EachRootShownOnce(g, roots[1..], under.1);
      TopsConcat([Top(roots[0])], under.0);
      TopsConcat([Top(roots[0])] + under.0, Render(g, roots[1..], under.1).0);
    }
  }

  // ----- inline chains --------------------------------------------------------------------

  /** Nobody serves more than one. */
  predicate IsChain(g: Graph) {
    forall n :: n in g ==> |g[n]| <= 1
  }

  /** Where following first children leads in `k` steps, if it leads that far. */
  function Step(g: Graph, n: Node, k: nat): Option<Node> {
    if k == 0 then Some(n) else
      var m := Step(g, n, k - 1);
      if m.None? || Kids(g, m.value) == [] then None else Some(Kids(g, m.value)[0])
  }

  /** The inline loop ends: at some step there is no child to follow. */
  ghost predicate Ends(g: Graph, n: Node) {
    exists k: nat :: Step(g, n, k).None?
  }

  /** The chain comes back to a node it has been at. */
  ghost predicate Returns(g: Graph, n: Node) {
    exists i: nat, j: nat :: i < j && Step(g, n, i).Some? && Step(g, n, i) == Step(g, n, j)
  }

  lemma {:induction false} StepAdds(g: Graph, n: Node, i: nat, j: nat, k: nat)
    requires Step(g, n, i) == Step(g, n, j)
    ensures Step(g, n, i + k) == Step(g, n, j + k)
  {
    if k > 0 { StepAdds(g, n, i, j, k - 1); }
  }

  lemma {:induction false} StaysEnded(g: Graph, n: Node, i: nat, j: nat)
    requires Step(g, n, i).None? && i <= j
    ensures Step(g, n, j).None?
    decreases j
  {
    if i < j { StaysEnded(g, n, i, j - 1); }
  }

  lemma {:induction false} EndedBefore(g: Graph, n: Node, i: nat, j: nat, k: nat)
    requires i < j && Step(g, n, i) == Step(g, n, j) && Step(g, n, k).None?
    ensures Step(g, n, i).None?
    decreases k
  {
    if k <= i {
      StaysEnded(g, n, k, i);
    } else if k <= j {
      StaysEnded(g, n, k, j);
    } else {
      StepAdds(g, n, i, j, k - j);
      EndedBefore(g, n, i, j, i + (k - j));
    }
  }

  function Visited(g: Graph, n: Node, k: nat): set<Node> {
    if k == 0 then {} else
      Visited(g, n, k - 1) + (if Step(g, n, k - 1).Some? then {Step(g, n, k - 1).value} else {})
  }

  lemma {:induction false} VisitedIs(g: Graph, n: Node, k: nat)
    ensures forall x :: x in Visited(g, n, k) <==> At(g, n, k, x)
  {
    if k > 0 {
      VisitedIs(g, n, k - 1);
      forall x
        ensures x in Visited(g, n, k) <==> At(g, n, k, x)
      {
        if i: nat :| i < k && Step(g, n, i) == Some(x) {
          assert i < k - 1 ==> At(g, n, k - 1, x);
        }
      }
    }
  }

  ghost predicate At(g: Graph, n: Node, k: nat, x: Node) {
    exists i: nat :: i < k && Step(g, n, i) == Some(x)
  }

  /** Without coming back, `k` steps are from `k` different nodes with children. */
  lemma {:induction false} NewEveryStep(g: Graph, n: Node, k: nat)
    requires !Returns(g, n) && Step(g, n, k).Some?
    ensures |Visited(g, n, k)| == k && Visited(g, n, k) <= Parents(g)
  {
    if k > 0 {
      NewEveryStep(g, n, k - 1);
      VisitedIs(g, n, k - 1);
      var x := Step(g, n, k - 1).value;
      NotThere(g, n, k - 1, x);
      assert x in Parents(g);
    }
  }

  lemma NotThere(g: Graph, n: Node, k: nat, x: Node)
    requires !Returns(g, n) && Step(g, n, k) == Some(x)
    ensures !At(g, n, k, x)
  {
    hide Step;
    forall i: nat | i < k
      ensures Step(g, n, i) != Some(x)
    {}
  }

  /** The inline form of a chain ends exactly when it never comes back to a node. */
  lemma InlineEndsIff(g: Graph, n: Node)
    ensures Ends(g, n) <==> !Returns(g, n)
  {
    if Ends(g, n) {
      var k: nat :| Step(g, n, k).None?;
      forall i: nat, j: nat | i < j && Step(g, n, i) == Step(g, n, j)
        ensures Step(g, n, i).None?
      {
        EndedBefore(g, n, i, j, k);
      }
    } else if !Returns(g, n) {
      var k := |Parents(g)| + 1;
      assert Step(g, n, k).Some?;
      NewEveryStep(g, n, k);
      SubsetSize(Visited(g, n, k), Parents(g));
    }
  }

  /** A root that leads into a loop is a chain, and its inline form never ends. */
  lemma RhoNeverEnds()
    ensures var g := Children([Edge("r", "a"), Edge("a", "b"), Edge("b", "a")]);
      IsChain(g) && Unserved(g, "r") && !Ends(g, "r")
  {
    var edges := [Edge("r", "a"), Edge("a", "b"), Edge("b", "a")];
    hide Children;
    RhoGraph();
    var g := Children(edges);
    assert Step(g, "r", 0) == Some("r");
    assert Step(g, "r", 1) == Some("a");
    assert Step(g, "r", 2) == Some("b");
    assert Step(g, "r", 3) == Some("a");
    assert Returns(g, "r");
    InlineEndsIff(g, "r");
  }

  lemma RhoGraph()
    ensures Children([Edge("r", "a"), Edge("a", "b"), Edge("b", "a")]) == map["r" := ["a"], "a" := ["b"], "b" := ["a"]]
  {
    hide Children;
    ChildrenNone();
    ChildrenMore([], Edge("r", "a"));
    assert [] + [Edge("r", "a")] == [Edge("r", "a")];
    var one := Children([Edge("r", "a")]);
    assert one["r"] == ["a"];
    assert one == map["r" := ["a"]];
    ChildrenMore([Edge("r", "a")], Edge("a", "b"));
    assert [Edge("r", "a")] + [Edge("a", "b")] == [Edge("r", "a"), Edge("a", "b")];
    assert "a" !in one;
    var two := Children([Edge("r", "a"), Edge("a", "b")]);
    assert two["a"] == ["b"];
    assert two == map["r" := ["a"], "a" := ["b"]];
    ChildrenMore([Edge("r", "a"), Edge("a", "b")], Edge("b", "a"));
    assert [Edge("r", "a"), Edge("a", "b")] + [Edge("b", "a")] == [Edge("r", "a"), Edge("a", "b"), Edge("b", "a")];
    assert "b" !in two;
  }

  lemma ChildrenNone()
    ensures Children([]) == map[]
  {}

  lemma ChildrenMore(edges: seq<Edge>, e: Edge)
    ensures var g := Children(edges);
      Children(edges + [e]) == g[e.src := if e.dst in Kids(g, e.src) then Kids(g, e.src) else Kids(g, e.src) + [e.dst]]
  {
    assert (edges + [e])[..|edges|] == edges;
  }
}
