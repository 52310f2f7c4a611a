/** How a fetch-graph picture's lines stand: each under the one that serves it, in order, marked when seen before. */
module FetchLines {
  import opened Basics
  import opened FetchGraph

  // ----- what was shown before ------------------------------------------------------------

  function NodesOf(lines: seq<Line>): set<Node> {
    set l | l in lines :: l.node
  }

  /** A served node is marked exactly when it has children and was seen already, in `seen` or further up. */
  ghost predicate Marked(g: Graph, seen: set<Node>, lines: seq<Line>) {
    forall k: nat :: k < |lines| && lines[k].Under? ==>
      (lines[k].again <==> Kids(g, lines[k].node) != [] && lines[k].node in seen + NodesOf(lines[..k]))
  }

  lemma MarkedConcat(g: Graph, seen: set<Node>, a: seq<Line>, b: seq<Line>)
    requires Marked(g, seen, a) && Marked(g, seen + NodesOf(a), b)
    ensures Marked(g, seen, a + b)
    ensures seen + NodesOf(a) + NodesOf(b) == seen + NodesOf(a + b)
  {
    var all := a + b;
    forall k: nat | k < |all| && all[k].Under?
      ensures all[k].again <==> Kids(g, all[k].node) != [] && all[k].node in seen + NodesOf(all[..k])
    {
      if k < |a| {
        assert all[..k] == a[..k] && all[k] == a[k];
      } else {
        assert all[..k] == a + b[..k - |a|] && all[k] == b[k - |a|];
        assert NodesOf(all[..k]) == NodesOf(a) + NodesOf(b[..k - |a|]);
      }
    }
  }

  lemma MarkedOne(g: Graph, seen: set<Node>, l: Line)
    requires l.Under? ==> (l.again <==> Kids(g, l.node) != [] && l.node in seen)
    ensures Marked(g, seen, [l]) && NodesOf([l]) == {l.node}
  {
    assert [l][..0] == [] && l in [l];
  }

  lemma NoneMarked(g: Graph, seen: set<Node>)
    ensures Marked(g, seen, []) && seen + NodesOf([]) == seen
  {}

  lemma {:induction false} WalkMarks(g: Graph, n: Node, i: nat, prefix: string, expanded: set<Node>)
    requires i <= |Kids(g, n)|
    ensures var r := Walk(g, n, i, prefix, expanded); r.1 == expanded + NodesOf(r.0) && Marked(g, expanded, r.0)
    decreases |Parents(g) - expanded|, |Kids(g, n)| - i
  {
    hide Marked, NodesOf;
    NoneMarked(g, expanded);
    var kids := Kids(g, n);
    if i < |kids| {
      var kid, last := kids[i], i + 1 == |kids|;
      if kid in expanded && Kids(g, kid) != [] {
        var l := Under(prefix, last, n, kid, true);
        WalkMarks(g, n, i + 1, prefix, expanded);
        MarkedOne(g, expanded, l);
        assert expanded + {kid} == expanded;
        MarkedConcat(g, expanded, [l], Walk(g, n, i + 1, prefix, expanded).0);
      } else {
        Shrinks(g, kid, expanded);
        var deeper := prefix + (if last then "    " else "|   ");
        var under, l := Walk(g, kid, 0, deeper, expanded + {kid}), Under(prefix, last, n, kid, false);
        WalkMarks(g, kid, 0, deeper, expanded + {kid});
        SubsetSize(Parents(g) - under.1, Parents(g) - expanded);
        WalkMarks(g, n, i + 1, prefix, under.1);
        MarkedOne(g, expanded, l);
        MarkedConcat(g, expanded, [l], under.0);
        MarkedConcat(g, expanded, [l] + under.0, Walk(g, n, i + 1, prefix, under.1).0);
      }
    }
  }

  lemma {:induction false} RenderMarks(g: Graph, roots: seq<Node>, expanded: set<Node>)
    ensures Marked(g, expanded, Render(g, roots, expanded).0)
    decreases |roots|
  {
    hide Marked, NodesOf, Walk;
    NoneMarked(g, expanded);
    if roots != [] {
      var under := Walk(g, roots[0], 0, "", expanded + {roots[0]});
      WalkMarks(g, roots[0], 0, "", expanded + {roots[0]});
      RenderMarks(g, roots[1..], under.1);
      MarkedOne(g, expanded, Top(roots[0]));
      MarkedConcat(g, expanded, [Top(roots[0])], under.0);
      MarkedConcat(g, expanded, [Top(roots[0])] + under.0, Render(g, roots[1..], under.1).0);
    }
  }

  /** In a whole picture a served node is marked exactly when it has children and stood further up. */
  lemma MarkedWhenSeen(g: Graph, roots: seq<Node>, k: nat)
    requires k < |Render(g, roots, {}).0| && Render(g, roots, {}).0[k].Under?
    ensures var lines := Render(g, roots, {}).0;
      lines[k].again <==> Kids(g, lines[k].node) != [] && exists j: nat :: j < k && lines[j].node == lines[k].node
  {
    RenderMarks(g, roots, {});
    hide Render;
    var lines := Render(g, roots, {}).0;
    assert forall j: nat :: j < k ==> lines[..k][j] == lines[j];
  }

  // ----- in which order -------------------------------------------------------------------

  /** Whom the lines show `s` serving, from the top down. */
  function ServedBy(lines: seq<Line>, s: Node): seq<Node> {
    if lines == [] then [] else
      (if lines[0].Under? && lines[0].src == s then [lines[0].node] else []) + ServedBy(lines[1..], s)
  }

  lemma {:induction false} ServedConcat(a: seq<Line>, b: seq<Line>, s: Node)
    ensures ServedBy(a + b, s) == ServedBy(a, s) + ServedBy(b, s)
    decreases |a|
  {
    if a == [] {
      assert a + b == b;
    } else {
      assert (a + b)[1..] == a[1..] + b;
      ServedConcat(a[1..], b, s);
    }
  }

  lemma ServedOne(l: Line, s: Node)
    ensures ServedBy([l], s) == if l.Under? && l.src == s then [l.node] else []
  {
    assert [l][1..] == [];
  }

  lemma ServedChild(l: Line, under: seq<Line>, rest: seq<Line>, s: Node)
    ensures ServedBy([], s) == []
    ensures ServedBy([l] + under + rest, s)
      == (if l.Under? && l.src == s then [l.node] else []) + ServedBy(under, s) + ServedBy(rest, s)
  {
    ServedOne(l, s);
    ServedConcat([l], under, s);
    ServedConcat([l] + under, rest, s);
  }

  /** What a walk shows: the rest of its own node's children, and all of whoever it expands. */
  ghost function Serving(g: Graph, n: Node, i: nat, before: set<Node>, after: set<Node>, s: Node): seq<Node>
    requires i <= |Kids(g, n)|
  {
    if s == n then Kids(g, n)[i..] else if s in after && s !in before then Kids(g, s) else []
  }

  /** A child's own walk and the rest of its parent's serve from different nodes. */
  lemma ServingAdds(g: Graph, n: Node, i: nat, kid: Node, before: set<Node>, mid: set<Node>, after: set<Node>, s: Node)
    requires i < |Kids(g, n)| && kid == Kids(g, n)[i] && n in before
    requires (kid !in before || Kids(g, kid) == []) && before + {kid} <= mid <= after
    ensures Serving(g, n, i, before, after, s)
      == (if s == n then [kid] else [])
        + Serving(g, kid, 0, before + {kid}, mid, s) + Serving(g, n, i + 1, mid, after, s)
  {
    assert Kids(g, n)[i..] == [kid] + Kids(g, n)[i + 1..];
    assert Kids(g, s)[0..] == Kids(g, s);
  }

  lemma {:induction false} WalkServes(g: Graph, n: Node, i: nat, prefix: string, expanded: set<Node>, s: Node)
    requires i <= |Kids(g, n)| && n in expanded
    ensures var r := Walk(g, n, i, prefix, expanded); ServedBy(r.0, s) == Serving(g, n, i, expanded, r.1, s)
    decreases |Parents(g) - expanded|, |Kids(g, n)| - i
  {
    hide ServedBy;
    var kids := Kids(g, n);
    ServedChild(Top(n), [], [], s);
    if i < |kids| {
      var kid, last := kids[i], i + 1 == |kids|;
      if kid in expanded && Kids(g, kid) != [] {
        var l, rest := Under(prefix, last, n, kid, true), Walk(g, n, i + 1, prefix, expanded);
        WalkServes(g, n, i + 1, prefix, expanded, s);
        ServedChild(l, [], rest.0, s);
        assert [l] + [] + rest.0 == [l] + rest.0 && ServedBy([], s) == [];
        assert kids[i..] == [kid] + kids[i + 1..];
      } else {
        hide Serving;
        Shrinks(g, kid, expanded);
        var deeper := prefix + (if last then "    " else "|   ");
        var under, l := Walk(g, kid, 0, deeper, expanded + {kid}), Under(prefix, last, n, kid, false);
        WalkServes(g, kid, 0, deeper, expanded + {kid}, s);
        SubsetSize(Parents(g) - under.1, Parents(g) - expanded);
        var rest := Walk(g, n, i + 1, prefix, under.1);
        WalkServes(g, n, i + 1, prefix, under.1, s);
        ServingAdds(g, n, i, kid, expanded, under.1, rest.1, s);
        ServedChild(l, under.0, rest.0, s);
      }
    }
  }

  lemma {:induction false} RenderServes(g: Graph, roots: seq<Node>, expanded: set<Node>, s: Node)
    requires Tops(g, roots, expanded)
    ensures var r := Render(g, roots, expanded);
      && expanded <= r.1
      && ServedBy(r.0, s) == if s in r.1 && s !in expanded then Kids(g, s) else []
    decreases |roots|
  {
    hide Walk, Tops;
    if roots != [] {
      hide ServedBy;
      TopIsNew(g, roots, expanded);
      var under := Walk(g, roots[0], 0, "", expanded + {roots[0]});
      NextTops(g, roots, expanded);
      WalkServes(g, roots[0], 0, "", expanded + {roots[0]}, s);
      RenderServes(g, roots[1..], under.1, s);
      ServedOne(Top(roots[0]), s);
      ServedConcat([Top(roots[0])], under.0, s);
      ServedConcat([Top(roots[0])] + under.0, Render(g, roots[1..], under.1).0, s);
      assert Kids(g, s)[0..] == Kids(g, s);
    }
  }

  /** Whoever is reached is shown serving its children, all of them, in the order they were first served. */
  lemma ChildrenInOrder(g: Graph, roots: seq<Node>, s: Node)
    requires Simple(g) && Tops(g, roots, {})
    ensures ServedBy(Render(g, roots, {}).0, s) == if Reachable(g, roots, s) then Kids(g, s) else []
  {
    hide Render, Shown, Tops, Simple, ServedBy;
    RenderServes(g, roots, {}, s);
    EachEdgeShownOnce(g, roots, s, "");
  }

  // ----- where each line hangs ------------------------------------------------------------

  /** How far the lines under this one are drawn in: a rule goes on beside them unless it was its parent's last. */
  function Deeper(l: Line): string {
    if l.Top? then "" else l.prefix + (if l.last then "    " else "|   ")
  }

  /** Line `k` hangs under line `j`, which shows who serves it: only what hangs deeper or beside it stands between. */
  ghost predicate Hangs(lines: seq<Line>, j: nat, k: nat) {
    && j < k < |lines| && lines[k].Under?
    && lines[j].node == lines[k].src && !(lines[j].Under? && lines[j].again)
    && lines[k].prefix == Deeper(lines[j])
    && forall m: nat :: j < m < k ==> Within(lines[k].prefix, lines[m])
  }

  /** A line drawn in at least that far. */
  ghost predicate Within(prefix: string, l: Line) {
    l.Under? && prefix <= l.prefix
  }

  ghost predicate Hung(lines: seq<Line>, k: nat) {
    exists j: nat :: Hangs(lines, j, k)
  }

  lemma Deepens(prefix: string, more: string, l: Line)
    requires Within(prefix + more, l)
    ensures Within(prefix, l)
  {
    assert prefix == (prefix + more)[..|prefix|] == l.prefix[..|prefix|];
  }

  /** Line `k` of a walk of `n` is one of `n`'s own, or hangs under another. */
  ghost predicate Attached(lines: seq<Line>, k: nat, n: Node, prefix: string)
    requires k < |lines|
  {
    || (lines[k].Under? && lines[k].src == n && lines[k].prefix == prefix)
    || Hung(lines, k)
  }

  /** The last of a node's children is drawn as such. */
  ghost predicate Ending(g: Graph, l: Line) {
    l.Under? && Kids(g, l.src) != [] && (l.last <==> l.node == Kids(g, l.src)[|Kids(g, l.src)| - 1])
  }

  ghost predicate Drawn(g: Graph, n: Node, prefix: string, lines: seq<Line>) {
    forall k: nat :: k < |lines| ==>
      Ending(g, lines[k]) && Within(prefix, lines[k]) && Attached(lines, k, n, prefix)
  }

  /** Where a line hangs it goes on hanging with more above and below. */
  lemma HungWithin(a: seq<Line>, lines: seq<Line>, b: seq<Line>, k: nat)
    requires k < |lines| && Hung(lines, k)
    ensures Hung(a + lines + b, |a| + k)
  {
    hide Within;
    var all := a + lines + b;
    assert forall m: nat :: m < |lines| ==> all[|a| + m] == lines[m];
    var j: nat :| Hangs(lines, j, k);
    forall m: nat | |a| + j < m < |a| + k
      ensures Within(lines[k].prefix, all[m])
    {
      assert all[m] == lines[m - |a|];
    }
    assert Hangs(all, |a| + j, |a| + k);
  }

  lemma HungLater(a: seq<Line>, lines: seq<Line>, k: nat)
    requires k < |lines| && Hung(lines, k)
    ensures Hung(a + lines, |a| + k)
  {
    HungWithin(a, lines, [], k);
    assert a + lines + [] == a + lines;
  }

  lemma AttachedLater(a: seq<Line>, lines: seq<Line>, k: nat, n: Node, prefix: string)
    requires k < |lines| && Attached(lines, k, n, prefix)
    ensures Attached(a + lines, |a| + k, n, prefix)
  {
    hide Hung;
    assert (a + lines)[|a| + k] == lines[k];
    if Hung(lines, k) { HungLater(a, lines, k); }
  }

  /** A child's lines hang under its own, and what follows is its parent's. */
  lemma ChildDrawn(g: Graph, n: Node, prefix: string, l: Line, under: seq<Line>, rest: seq<Line>)
    requires l.Under? && !l.again && l.src == n && l.prefix == prefix && Ending(g, l)
    requires Drawn(g, l.node, Deeper(l), under) && Drawn(g, n, prefix, rest)
    ensures Drawn(g, n, prefix, [l] + under + rest)
  {
    hide Ending, Attached, Hung, Within;
    var all := [l] + under + rest;
    forall k: nat | k < |all|
      ensures Ending(g, all[k]) && Within(prefix, all[k]) && Attached(all, k, n, prefix)
    {
      if k == 0 {
        OwnLine(all, n, prefix);
      } else if k <= |under| {
        assert all[k] == under[k - 1];
        Deepens(prefix, if l.last then "    " else "|   ", under[k - 1]);
        UnderChild(g, l, under, rest, k - 1);
        HungAttached(all, k, n, prefix);
      } else {
        assert all[k] == rest[k - 1 - |under|];
        AttachedLater([l] + under, rest, k - 1 - |under|, n, prefix);
      }
    }
  }

  lemma OwnLine(lines: seq<Line>, n: Node, prefix: string)
    requires lines != [] && lines[0].Under? && lines[0].src == n && lines[0].prefix == prefix
    ensures Attached(lines, 0, n, prefix) && Within(prefix, lines[0])
  {}

  lemma HungAttached(lines: seq<Line>, k: nat, n: Node, prefix: string)
    requires k < |lines| && Hung(lines, k)
    ensures Attached(lines, k, n, prefix)
  {}

  lemma UnderChild(g: Graph, l: Line, under: seq<Line>, rest: seq<Line>, k: nat)
    requires (l.Under? ==> !l.again) && Drawn(g, l.node, Deeper(l), under) && k < |under|
    ensures Hung([l] + under + rest, k + 1)
  {
    hide Ending, Hung;
    if under[k].Under? && under[k].src == l.node && under[k].prefix == Deeper(l) {
      UnderOwn(l, under, rest, k);
    } else {
      HungWithin([l], under, rest, k);
    }
  }

  /** A line of the child's own hangs under the child's. */
  lemma UnderOwn(l: Line, under: seq<Line>, rest: seq<Line>, k: nat)
    requires (l.Under? ==> !l.again) && k < |under|
    requires forall m: nat :: m < |under| ==> Within(Deeper(l), under[m])
    requires under[k].Under? && under[k].src == l.node && under[k].prefix == Deeper(l)
    ensures Hung([l] + under + rest, k + 1)
  {
    hide Within, Deeper;
    var all := [l] + under + rest;
    assert forall m: nat :: m < |under| ==> all[m + 1] == under[m];
    forall m: nat | 0 < m < k + 1
      ensures Within(under[k].prefix, all[m])
    {
      assert all[m] == under[m - 1];
    }
    assert Hangs(all, 0, k + 1);
  }

  lemma AgainDrawn(g: Graph, n: Node, prefix: string, l: Line, rest: seq<Line>)
    requires l.Under? && l.src == n && l.prefix == prefix && Ending(g, l) && Drawn(g, n, prefix, rest)
    ensures Drawn(g, n, prefix, [l] + rest)
  {
    hide Ending, Attached, Hung, Within;
    var all := [l] + rest;
    OwnLine(all, n, prefix);
    forall k: nat | 0 < k < |all|
      ensures Ending(g, all[k]) && Within(prefix, all[k]) && Attached(all, k, n, prefix)
    {
      assert all[k] == rest[k - 1];
      AttachedLater([l], rest, k - 1, n, prefix);
    }
  }

  lemma EndingChild(g: Graph, n: Node, i: nat, prefix: string, again: bool)
    requires Simple(g) && i < |Kids(g, n)|
    ensures Ending(g, Under(prefix, i + 1 == |Kids(g, n)|, n, Kids(g, n)[i], again))
  {}

  lemma {:induction false} WalkDraws(g: Graph, n: Node, i: nat, prefix: string, expanded: set<Node>)
    requires Simple(g) && i <= |Kids(g, n)|
    ensures Drawn(g, n, prefix, Walk(g, n, i, prefix, expanded).0)
    decreases |Parents(g) - expanded|, |Kids(g, n)| - i
  {
    var kids := Kids(g, n);
    if i < |kids| {
      hide Drawn, Ending;
      var kid, last := kids[i], i + 1 == |kids|;
      if kid in expanded && Kids(g, kid) != [] {
        EndingChild(g, n, i, prefix, true);
        WalkDraws(g, n, i + 1, prefix, expanded);
        AgainDrawn(g, n, prefix, Under(prefix, last, n, kid, true), Walk(g, n, i + 1, prefix, expanded).0);
      } else {
        Shrinks(g, kid, expanded);
        EndingChild(g, n, i, prefix, false);
        var deeper := prefix + (if last then "    " else "|   ");
        var under := Walk(g, kid, 0, deeper, expanded + {kid});
        WalkDraws(g, kid, 0, deeper, expanded + {kid});
        SubsetSize(Parents(g) - under.1, Parents(g) - expanded);
        WalkDraws(g, n, i + 1, prefix, under.1);
        ChildDrawn(g, n, prefix, Under(prefix, last, n, kid, false), under.0, Walk(g, n, i + 1, prefix, under.1).0);
      }
    }
  }

  /** Every line of a picture but a root's hangs under the one that shows who serves it, and ends its branch or not. */
  ghost predicate AllHang(g: Graph, lines: seq<Line>) {
    forall k: nat :: k < |lines| && lines[k].Under? ==> Ending(g, lines[k]) && Hung(lines, k)
  }

  lemma RootDrawn(g: Graph, root: Node, under: seq<Line>, rest: seq<Line>)
    requires Drawn(g, root, "", under) && AllHang(g, rest)
    ensures AllHang(g, [Top(root)] + under + rest)
  {
    hide Ending, Hung, Attached, Within;
    var all := [Top(root)] + under + rest;
    forall k: nat | k < |all| && all[k].Under?
      ensures Ending(g, all[k]) && Hung(all, k)
    {
      if k <= |under| {
        assert all[k] == under[k - 1];
        UnderChild(g, Top(root), under, rest, k - 1);
      } else {
        assert all[k] == rest[k - 1 - |under|];
        HungLater([Top(root)] + under, rest, k - 1 - |under|);
      }
    }
  }

  /** A whole picture, on any graph: each line hangs under the one that shows who serves it. */
  lemma {:induction false} EveryLineHangs(g: Graph, roots: seq<Node>, expanded: set<Node>)
    requires Simple(g)
    ensures AllHang(g, Render(g, roots, expanded).0)
    decreases |roots|
  {
    hide Walk;
    if roots != [] {
      hide AllHang, Drawn;
      var under := Walk(g, roots[0], 0, "", expanded + {roots[0]});
      WalkDraws(g, roots[0], 0, "", expanded + {roots[0]});
      EveryLineHangs(g, roots[1..], under.1);
      RootDrawn(g, roots[0], under.0, Render(g, roots[1..], under.1).0);
    }
  }
}
