/** The fetch-graph renderer itself: loops over edges, roots and children, tied to `FetchGraph`. */
module Pictures {
  import opened Basics
  import opened FetchGraph

  /** Sources that nobody serves. */
  ghost predicate IsRoot(edges: seq<Edge>, n: Node) {
    Sources(edges, n) && forall e :: e in edges ==> e.dst != n
  }

  ghost predicate Ascending(ns: seq<Node>) {
    forall i, j :: 0 <= i < j < |ns| ==> StringLt(ns[i], ns[j])
  }

  /** `_edge_graph`: who served whom, who was served by nobody, and whether nobody serves two. */
  method EdgeGraph(edges: seq<Edge>) returns (children: Graph, roots: seq<Node>, isChain: bool)
    ensures children == Children(edges)
    ensures Ascending(roots) && forall n :: n in roots <==> IsRoot(edges, n)
    ensures isChain <==> IsChain(children)
  {
    hide Children, Kids, Sources, Served, IsRoot, IsChain;
    NoEdges();
    children := map[];
    var served: set<Node> := {};
    var sources: set<Node> := {};
    for i := 0 to |edges|
      invariant children == Children(edges[..i])
      invariant forall n :: n in served <==> Served(edges[..i], n)
      invariant forall n :: n in sources <==> Sources(edges[..i], n)
    {
      var e := edges[i];
      EdgeMore(edges, i);
      var kids := Kids(children, e.src);
      children := children[e.src := if e.dst in kids then kids else kids + [e.dst]];
      served := served + {e.dst};
      sources := sources + {e.src};
    }
    assert edges[..|edges|] == edges;
    roots := Sorted(sources - served);
    isChain := IsChain(children);
    UnservedSources(edges, sources, served);
  }

  lemma NoEdges()
    ensures Children([]) == map[] && forall n :: !Sources([], n) && !Served([], n)
  {}

  /** What one more edge adds. */
  lemma EdgeMore(edges: seq<Edge>, i: nat)
    requires i < |edges|
    ensures var g, e := Children(edges[..i]), edges[i];
      Children(edges[..i + 1])
        == g[e.src := if e.dst in Kids(g, e.src) then Kids(g, e.src) else Kids(g, e.src) + [e.dst]]
    ensures forall n :: Sources(edges[..i + 1], n) <==> Sources(edges[..i], n) || n == edges[i].src
    ensures forall n :: Served(edges[..i + 1], n) <==> Served(edges[..i], n) || n == edges[i].dst
  {
    hide Sources, Served, Children, Kids;
    var front, e := edges[..i], edges[i];
    assert edges[..i + 1] == front + [e];
    ChildrenMore(front, e);
    forall n
      ensures Sources(front + [e], n) <==> Sources(front, n) || n == e.src
      ensures Served(front + [e], n) <==> Served(front, n) || n == e.dst
    {
      SourcesMore(front, e, n);
      ServedMore(front, e, n);
    }
  }

  lemma UnservedSources(edges: seq<Edge>, sources: set<Node>, served: set<Node>)
    requires forall n :: n in served <==> Served(edges, n)
    requires forall n :: n in sources <==> Sources(edges, n)
    ensures forall n :: n in sources - served <==> IsRoot(edges, n)
  {
    hide Sources;
    forall n
      ensures Served(edges, n) <==> !forall e :: e in edges ==> e.dst != n
    {}
  }

  ghost predicate Served(edges: seq<Edge>, n: Node) {
    exists e :: e in edges && e.dst == n
  }

  lemma ServedMore(edges: seq<Edge>, e: Edge, n: Node)
    ensures Served(edges + [e], n) <==> Served(edges, n) || n == e.dst
  {
    if x :| x in edges && x.dst == n { assert x in edges + [e]; }
    assert e in edges + [e];
  }

  lemma {:induction false} FirstExists(s: set<Node>) returns (n: Node)
    requires s != {}
    ensures n in s && forall m :: m in s ==> m == n || StringLt(n, m)
    decreases |s|
  {
    n :| n in s;
    var rest := s - {n};
    if rest != {} {
      var m := FirstExists(rest);
      StringLtTotal(n, m);
      if StringLt(m, n) {
        n := m;
      } else {
        forall k | k in s
          ensures k == n || StringLt(n, k)
        {
          if k != n && k != m { StringLtTransitive(n, m, k); }
        }
      }
    }
  }

  method Sorted(s: set<Node>) returns (ns: seq<Node>)
    ensures Ascending(ns) && forall n :: n in ns <==> n in s
  {
    ns := [];
    var todo := s;
    while todo != {}
      invariant todo <= s && Ascending(ns) && forall n :: n in ns <==> n in s - todo
      invariant forall n, m :: n in ns && m in todo ==> StringLt(n, m)
      decreases |todo|
    {
      ghost var first := FirstExists(todo);
      var n :| n in todo && forall m :: m in todo ==> m == n || StringLt(n, m);
      ns := ns + [n];
      todo := todo - {n};
    }
  }

  class Picture {
    var lines: seq<Line>
    var expanded: set<Node>

    constructor ()
      ensures lines == [] && expanded == {}
    {
      lines, expanded := [], {};
    }

    /** `walk`: one node's children, each expanded the first time it is met. */
    method WalkOn(g: Graph, node: Node, prefix: string)
      modifies this
      ensures lines == old(lines) + Walk(g, node, 0, prefix, old(expanded)).0
      ensures expanded == Walk(g, node, 0, prefix, old(expanded)).1
      decreases |Parents(g) - expanded|, |Kids(g, node)|
    {
      hide Walk, Parents;
      var kids := Kids(g, node);
      ghost var all := Walk(g, node, 0, prefix, expanded);
      for i := 0 to |kids|
        invariant old(expanded) <= expanded
        invariant lines + Walk(g, node, i, prefix, expanded).0 == old(lines) + all.0
        invariant Walk(g, node, i, prefix, expanded).1 == all.1
      {
        var kid, last := kids[i], i == |kids| - 1;
        SubsetSize(Parents(g) - expanded, Parents(g) - old(expanded));
        WalkNext(g, node, i, prefix, expanded);
        if kid in expanded && Kids(g, kid) != [] {
          lines := lines + [Under(prefix, last, node, kid, true)];
        } else {
          Shrinks(g, kid, expanded);
          expanded := expanded + {kid};
          lines := lines + [Under(prefix, last, node, kid, false)];
          WalkOn(g, kid, prefix + (if last then "    " else "|   "));
        }
      }
      WalkDone(g, node, prefix, expanded);
    }

    method DrawAll(g: Graph, roots: seq<Node>)
      modifies this
      ensures lines == old(lines) + Render(g, roots, old(expanded)).0
      ensures expanded == Render(g, roots, old(expanded)).1
    {
      hide Walk, Kids;
      ghost var all := Render(g, roots, expanded);
      assert roots[0..] == roots;
      for i := 0 to |roots|
        invariant lines + Render(g, roots[i..], expanded).0 == old(lines) + all.0
        invariant Render(g, roots[i..], expanded).1 == all.1
      {
        assert roots[i..][0] == roots[i] && roots[i..][1..] == roots[i + 1..];
        lines := lines + [Top(roots[i])];
        expanded := expanded + {roots[i]};
        WalkOn(g, roots[i], "");
      }
    }
  }

  /** One child's part of a walk, and the rest. */
  lemma WalkNext(g: Graph, n: Node, i: nat, prefix: string, expanded: set<Node>)
    requires i < |Kids(g, n)|
    ensures var kid, last := Kids(g, n)[i], i == |Kids(g, n)| - 1;
      if kid in expanded && Kids(g, kid) != [] then
        var rest := Walk(g, n, i + 1, prefix, expanded);
        Walk(g, n, i, prefix, expanded) == ([Under(prefix, last, n, kid, true)] + rest.0, rest.1)
      else
        var under := Walk(g, kid, 0, prefix + (if last then "    " else "|   "), expanded + {kid});
        var rest := Walk(g, n, i + 1, prefix, under.1);
        Walk(g, n, i, prefix, expanded) == ([Under(prefix, last, n, kid, false)] + under.0 + rest.0, rest.1)
  {}

  lemma WalkDone(g: Graph, n: Node, prefix: string, expanded: set<Node>)
    ensures Walk(g, n, |Kids(g, n)|, prefix, expanded) == ([], expanded)
  {}

  /** The nodes met from `n` on, step by step. */
  ghost predicate Follows(g: Graph, n: Node, parts: seq<Node>) {
    parts != [] && forall i: nat :: i < |parts| ==> Step(g, n, i) == Some(parts[i])
  }

  lemma FollowsOn(g: Graph, n: Node, parts: seq<Node>)
    requires Follows(g, n, parts) && Kids(g, parts[|parts| - 1]) != []
    ensures Follows(g, n, parts + [Kids(g, parts[|parts| - 1])[0]])
  {
    assert Step(g, n, |parts|) == Some(Kids(g, parts[|parts| - 1])[0]);
  }

  lemma FollowsStart(g: Graph, n: Node)
    ensures Follows(g, n, [n])
  {}

  lemma EndsLater(g: Graph, n: Node, parts: seq<Node>, end: nat)
    requires Follows(g, n, parts) && Step(g, n, end).None?
    ensures |parts| <= end && parts != [] && parts[0] == n
  {
    var last := |parts| - 1;
    LaterThan(g, n, last, end);
  }

  lemma LaterThan(g: Graph, n: Node, k: nat, end: nat)
    requires Step(g, n, k).Some? && Step(g, n, end).None?
    ensures k < end
  {
    if end <= k { StaysEnded(g, n, end, k); }
  }

  /** The inline loop, from a root it ends from. */
  method Inline(g: Graph, root: Node) returns (parts: seq<Node>)
    requires Ends(g, root)
    ensures Follows(g, root, parts) && parts != [] && parts[0] == root && Kids(g, parts[|parts| - 1]) == []
  {
    ghost var end: nat :| Step(g, root, end).None?;
    hide Step, Kids, Follows;
    FollowsStart(g, root);
    parts := [root];
    var cur := root;
    EndsLater(g, root, parts, end);
    while Kids(g, cur) != []
      invariant Follows(g, root, parts) && parts != [] && parts[|parts| - 1] == cur
      invariant |parts| <= end
      decreases end - |parts|
    {
      FollowsOn(g, root, parts);
      cur := Kids(g, cur)[0];
      parts := parts + [cur];
      EndsLater(g, root, parts, end);
    }
    EndsLater(g, root, parts, end);
  }

  /** The roots a picture starts from meet what the picture's theorems ask of them. */
  lemma RootsAreTops(edges: seq<Edge>, roots: seq<Node>)
    requires Ascending(roots) && forall n :: n in roots <==> IsRoot(edges, n)
    ensures Simple(Children(edges)) && Tops(Children(edges), roots, {})
  {
    ChildrenAreEdges(edges);
    forall i, j | 0 <= i < j < |roots|
      ensures roots[i] != roots[j]
    {
      StringLtTotal(roots[i], roots[j]);
    }
    forall r, m | r in roots
      ensures r !in Kids(Children(edges), m)
    {
      assert r in Kids(Children(edges), m) <==> Edge(m, r) in edges;
    }
  }

  // ----- what is drawn --------------------------------------------------------------------

  datatype Drawing = NoTransfers | Chains(chains: seq<seq<Node>>) | Tree(lines: seq<Line>)

  ghost predicate AreRoots(edges: seq<Edge>, roots: seq<Node>) {
    Ascending(roots) && forall n :: n in roots <==> IsRoot(edges, n)
  }

  /** From a root along the only edge there is, to a node that serves nobody. */
  ghost predicate ChainFrom(g: Graph, root: Node, chain: seq<Node>) {
    Follows(g, root, chain) && chain[0] == root && Kids(g, chain[|chain| - 1]) == []
  }

  /** One top line a root, in order; every edge recorded under a node reached from one shown once, and no other. */
  ghost predicate ShowsAll(edges: seq<Edge>, roots: seq<Node>, lines: seq<Line>) {
    && TopsOf(lines) == roots
    && forall s, d :: Shown(lines, s, d) == if Reachable(Children(edges), roots, s) && Edge(s, d) in edges then 1 else 0
  }

  /** The form a graph asks for, and what each form holds. */
  ghost predicate Draws(edges: seq<Edge>, roots: seq<Node>, drawing: Drawing) {
    match drawing
    case NoTransfers => roots == []
    case Chains(chains) =>
      && roots != [] && IsChain(Children(edges)) && |chains| == |roots|
      && forall i: nat :: i < |roots| ==> ChainFrom(Children(edges), roots[i], chains[i])
    case Tree(lines) =>
      && roots != [] && !IsChain(Children(edges))
      && lines == Render(Children(edges), roots, {}).0 && ShowsAll(edges, roots, lines)
  }

  lemma RenderShowsAll(edges: seq<Edge>, roots: seq<Node>)
    requires AreRoots(edges, roots)
    ensures ShowsAll(edges, roots, Render(Children(edges), roots, {}).0)
  {
    hide Render, Shown, Tops, Simple, Reachable, TopsOf;
    var g := Children(edges);
    RootsAreTops(edges, roots);
    EachRootShownOnce(g, roots, {});
    ChildrenAreEdges(edges);
    forall s, d
      ensures Shown(Render(g, roots, {}).0, s, d) == if Reachable(g, roots, s) && Edge(s, d) in edges then 1 else 0
    {
      EachEdgeShownOnce(g, roots, s, d);
    }
  }

  /**
   `render_tree`: a picture of nothing without a root, of chains where every node serves at most one,
   and of a tree otherwise. The inline form is only asked for where it ends.
   */
  method RenderTree(edges: seq<Edge>) returns (drawing: Drawing)
    requires IsChain(Children(edges)) ==> forall n :: IsRoot(edges, n) ==> !Returns(Children(edges), n)
    ensures exists roots :: AreRoots(edges, roots) && Draws(edges, roots, drawing)
  {
    hide ChainFrom, ShowsAll, IsRoot, Ascending;
    var g, roots, isChain := EdgeGraph(edges);
    if roots == [] {
      drawing := NoTransfers;
    } else if isChain {
      var chains := InlineAll(g, roots);
      drawing := Chains(chains);
    } else {
      var picture := new Picture();
      picture.DrawAll(g, roots);
      RenderShowsAll(edges, roots);
      drawing := Tree(picture.lines);
    }
    assert AreRoots(edges, roots) && Draws(edges, roots, drawing);
  }

  method InlineAll(g: Graph, roots: seq<Node>) returns (chains: seq<seq<Node>>)
    requires forall n :: n in roots ==> !Returns(g, n)
    ensures |chains| == |roots| && forall i: nat :: i < |roots| ==> ChainFrom(g, roots[i], chains[i])
  {
    chains := [];
    for i := 0 to |roots|
      invariant |chains| == i && forall j: nat :: j < i ==> ChainFrom(g, roots[j], chains[j])
    {
      assert roots[i] in roots;
      InlineEndsIff(g, roots[i]);
      var parts := Inline(g, roots[i]);
      chains := chains + [parts];
    }
  }

  // ----- one drawing ----------------------------------------------------------------------

  lemma {:induction false} AscendingUnique(a: seq<Node>, b: seq<Node>)
    requires Ascending(a) && Ascending(b) && forall n :: n in a <==> n in b
    ensures a == b
    decreases |a|
  {
    BothOrNeither(a, b);
    if a != [] {
      AheadOfRest(a);
      AheadOfRest(b);
      StringLtTotal(a[0], b[0]);
      assert a[0] in b && b[0] in a;
      assert a[0] == b[0];
      AscendingUnique(a[1..], b[1..]);
      assert a == [a[0]] + a[1..] && b == [b[0]] + b[1..];
    }
  }

  lemma AheadOfRest(ns: seq<Node>)
    requires Ascending(ns) && ns != []
    ensures Ascending(ns[1..])
    ensures forall n :: n in ns <==> n == ns[0] || n in ns[1..]
    ensures forall n :: n in ns[1..] ==> n != ns[0] && StringLt(ns[0], n)
  {
    assert ns == [ns[0]] + ns[1..];
    forall i: nat | 0 < i < |ns|
      ensures ns[i] != ns[0]
    {
      StringLtTotal(ns[0], ns[i]);
    }
  }

  lemma ChainUnique(g: Graph, root: Node, a: seq<Node>, b: seq<Node>)
    requires ChainFrom(g, root, a) && ChainFrom(g, root, b)
    ensures a == b
  {
    NoFurther(g, root, a, b);
    NoFurther(g, root, b, a);
    assert forall i: nat :: i < |a| ==> Some(a[i]) == Step(g, root, i) == Some(b[i]);
  }

  lemma NoFurther(g: Graph, root: Node, a: seq<Node>, b: seq<Node>)
    requires ChainFrom(g, root, a) && Follows(g, root, b)
    ensures |b| <= |a|
  {
    assert Step(g, root, |a| - 1) == Some(a[|a| - 1]);
    assert Step(g, root, |a|).None?;
  }

  /** What is recorded settles what is drawn: no two drawings meet the contract of `RenderTree`. */
  lemma DrawingIsSettled(edges: seq<Edge>, roots: seq<Node>, others: seq<Node>, drawing: Drawing, other: Drawing)
    requires AreRoots(edges, roots) && Draws(edges, roots, drawing)
    requires AreRoots(edges, others) && Draws(edges, others, other)
    ensures roots == others && drawing == other
  {
    hide Ascending, IsRoot, ChainFrom, ShowsAll;
    AscendingUnique(roots, others);
    if drawing.Chains? {
      forall i: nat | i < |roots|
        ensures drawing.chains[i] == other.chains[i]
      {
        ChainUnique(Children(edges), roots[i], drawing.chains[i], other.chains[i]);
      }
    }
  }
}
