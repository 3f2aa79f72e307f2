/**
  What the vocabulary of Sizzle's passes comes to on the links and names of nodes
  themselves: where a walk ends, what a selector chain means, and what is returned.
*/
module SizzleMeaning {
  import opened Basics
  import opened Dom
  import opened SizzleWalk
  import opened SizzleSelect
  import opened SizzlePrune
  import opened SizzleHarvest

  // The simple selector holds of the node: the tag name is its own; or it is an
  // element, and the filter holds of it or it is the given one.
  predicate Satisfies(t: Test, x: Node) {
    && (t.ByName? ==> x.nodeName == t.name)
    && (t.ByFilter? ==> x.nodeType == 1 && t.p(x))
    && (t.ByNode? ==> x.nodeType == 1 && x == t.n)
  }

  predicate Follows(dir: Dir, x: Node, y: Node?) {
    (dir.ParentNode? ==> y == x.parentNode) && (dir.PreviousSibling? ==> y == x.previousSibling)
  }

  // `way` leads on from x along the direction, node by node.
  predicate LeadsOn(dir: Dir, x: Node, way: seq<Node>) {
    && (way != [] ==> Follows(dir, x, way[0]))
    && forall k :: 0 <= k < |way| - 1 ==> Follows(dir, way[k], way[k + 1])
  }

  // A walk from x ends at the first node along the direction for which the simple
  // selector holds, and is false only if it holds for none up to the end.
  ghost predicate EndsRight(dir: Dir, t: Test, x: Node, e: Entry, way: seq<Node>) {
    && LeadsOn(dir, x, way)
    && (forall k :: 0 <= k < |way| - 1 ==> !Satisfies(t, way[k]))
    && match e
       case At(n) => !t.ByNode? && way != [] && n == way[|way| - 1] && Satisfies(t, n)
       case Yes => t.ByNode? && way != [] && Satisfies(t, way[|way| - 1])
       case No =>
         && (way == [] ==> Follows(dir, x, null))
         && (way != [] ==> !Satisfies(t, way[|way| - 1]) && Follows(dir, way[|way| - 1], null))
       case Null => false
  }

  lemma {:induction false} WalkEndsRight(nodes: set<Node>, rank: map<Node, nat>, dir: Dir, t: Test, x: Node) returns (way: seq<Node>)
    requires Walkable(nodes, rank, dir) && x in nodes
    ensures EndsRight(dir, t, x, Walked(nodes, rank, dir, t, At(x)), way)
    decreases Left(rank, x)
  {
    var y := x.Along(dir);
    if y == null {
      way := [];
    } else if Passes(t, y) {
      way := [y];
    } else {
      var rest := WalkEndsRight(nodes, rank, dir, t, y);
      way := [y] + rest;
      assert forall k :: 0 < k < |way| ==> way[k] == rest[k - 1];
    }
  }

  // ---- what a selector chain means

  // `way` climbs from x to its ancestor a, parent by parent.
  predicate Climb(x: Node, a: Node, way: seq<Node>) {
    && |way| >= 2 && way[0] == x && way[|way| - 1] == a
    && forall k :: 0 <= k < |way| - 1 ==> way[k].parentNode == way[k + 1]
  }

  lemma {:induction false} AboveHasClimb(nodes: set<Node>, rank: map<Node, nat>, a: Node, x: Node) returns (way: seq<Node>)
    requires Walkable(nodes, rank, ParentNode) && x in nodes && Above(nodes, rank, a, x)
    ensures Climb(x, a, way)
    decreases Left(rank, x)
  {
    if x.parentNode == a {
      way := [x, a];
    } else {
      var rest := AboveHasClimb(nodes, rank, a, x.parentNode);
      way := [x] + rest;
    }
  }

  lemma {:induction false} ClimbIsAbove(nodes: set<Node>, rank: map<Node, nat>, a: Node, x: Node, way: seq<Node>)
    requires Walkable(nodes, rank, ParentNode) && x in nodes && Climb(x, a, way)
    ensures Above(nodes, rank, a, x)
    decreases |way|
  {
    if |way| > 2 {
      assert x.parentNode == way[1];
      ClimbIsAbove(nodes, rank, a, way[1], way[1..]);
    }
  }

  // Nodes for the parts of a chain, from the top down to x, and the climbs between
  // them: a child combinator is one step.
  ghost predicate Witnesses(nodes: set<Node>, context: Node, x: Node, parts: seq<Part>, chain: seq<Node>, ways: seq<seq<Node>>, top: seq<Node>) {
    && |chain| == |parts| + 1 && |ways| == |parts| && chain[|parts|] == x
    && (forall i :: 0 <= i < |chain| ==> chain[i] in nodes)
    && (forall i :: 0 <= i < |parts| ==>
          Satisfies(parts[i].t, chain[i]) && Climb(chain[i + 1], chain[i], ways[i]) && (parts[i].child ==> |ways[i]| == 2))
    && chain[0].nodeType == 1 && (context.nodeType == 1 ==> Climb(chain[0], context, top))
  }

  // The chain is satisfied exactly if there are such nodes, the top one an element,
  // and below the context if that is an element.
  lemma {:induction false} ChainedHasWitnesses(nodes: set<Node>, rank: map<Node, nat>, context: Node, x: Node, parts: seq<Part>)
    returns (chain: seq<Node>, ways: seq<seq<Node>>, top: seq<Node>)
    requires Walkable(nodes, rank, ParentNode) && x in nodes && Chained(nodes, rank, context, x, parts)
    ensures Witnesses(nodes, context, x, parts, chain, ways, top)
    decreases |parts|
  {
    top := [];
    if parts == [] {
      chain, ways := [x], [];
      if context.IsElement() {
        top := AboveHasClimb(nodes, rank, context, x);
      }
    } else {
      var n := |parts| - 1;
      var a :| a in nodes && Related(nodes, rank, parts[n].child, a, x) && Passes(parts[n].t, a)
            && Chained(nodes, rank, context, a, parts[..n]);
      chain, ways, top := ChainedHasWitnesses(nodes, rank, context, a, parts[..n]);
      var way := [x, a];
      if !parts[n].child {
        way := AboveHasClimb(nodes, rank, a, x);
      }
      WitnessesGrow(nodes, context, a, x, parts, chain, ways, top, way);
      chain, ways := chain + [x], ways + [way];
    }
  }

  lemma WitnessesGrow(nodes: set<Node>, context: Node, a: Node, x: Node, parts: seq<Part>,
                      chain: seq<Node>, ways: seq<seq<Node>>, top: seq<Node>, way: seq<Node>)
    requires parts != [] && Witnesses(nodes, context, a, parts[..|parts| - 1], chain, ways, top) && x in nodes
    requires Climb(x, a, way) && Passes(parts[|parts| - 1].t, a) && (parts[|parts| - 1].child ==> |way| == 2)
    ensures Witnesses(nodes, context, x, parts, chain + [x], ways + [way], top)
  {
    hide Climb;
    var n := |parts| - 1;
    var c, w := chain + [x], ways + [way];
    forall i | 0 <= i < |parts|
      ensures Satisfies(parts[i].t, c[i]) && Climb(c[i + 1], c[i], w[i]) && (parts[i].child ==> |w[i]| == 2)
    {
      if i < n {
        assert parts[..n][i] == parts[i];
      }
    }
  }

  lemma WitnessesShrink(nodes: set<Node>, context: Node, x: Node, parts: seq<Part>,
                        chain: seq<Node>, ways: seq<seq<Node>>, top: seq<Node>)
    requires parts != [] && Witnesses(nodes, context, x, parts, chain, ways, top)
    ensures var n := |parts| - 1;
            Witnesses(nodes, context, chain[n], parts[..n], chain[..n + 1], ways[..n], top)
  {
    hide Climb, Satisfies;
    var n := |parts| - 1;
    forall i | 0 <= i < n
      ensures Satisfies(parts[..n][i].t, chain[..n + 1][i]) && Climb(chain[..n + 1][i + 1], chain[..n + 1][i], ways[..n][i])
      ensures parts[..n][i].child ==> |ways[..n][i]| == 2
    {
      assert parts[..n][i] == parts[i];
    }
  }

  lemma {:induction false} WitnessesMakeChained(nodes: set<Node>, rank: map<Node, nat>, context: Node, x: Node, parts: seq<Part>,
                                                chain: seq<Node>, ways: seq<seq<Node>>, top: seq<Node>)
    requires Walkable(nodes, rank, ParentNode) && x in nodes && Witnesses(nodes, context, x, parts, chain, ways, top)
    ensures Chained(nodes, rank, context, x, parts)
    decreases |parts|
  {
    if parts == [] {
      if context.IsElement() {
        ClimbIsAbove(nodes, rank, context, x, top);
      }
    } else {
      var n := |parts| - 1;
      var a := chain[n];
      WitnessesShrink(nodes, context, x, parts, chain, ways, top);
      WitnessesMakeChained(nodes, rank, context, a, parts[..n], chain[..n + 1], ways[..n], top);
      ClimbIsAbove(nodes, rank, a, x, ways[n]);
      assert Related(nodes, rank, parts[n].child, a, x) && Passes(parts[n].t, a);
    }
  }

  // ---- what is returned

  ghost predicate IsPick(xs: seq<Node>, ix: seq<nat>, r: seq<Node>) {
    && |r| == |ix|
    && (forall k :: 0 <= k < |ix| ==> ix[k] < |xs| && r[k] == xs[ix[k]])
    && (forall k, m :: 0 <= k < m < |ix| ==> ix[k] < ix[m])
  }

  lemma PickMore(xs: seq<Node>, ix: seq<nat>, r: seq<Node>)
    requires xs != [] && IsPick(xs[..|xs| - 1], ix, r)
    ensures IsPick(xs, ix, r + []) && IsPick(xs, ix + [|xs| - 1], r + [xs[|xs| - 1]])
    ensures |xs| - 1 !in ix
  {
  }

  // What is kept are candidates in their order, each as often as it stands there.
  lemma {:induction false} MeantInOrder(nodes: set<Node>, rank: map<Node, nat>, context: Node, xs: seq<Node>, parts: seq<Part>) returns (ix: seq<nat>)
    requires Walkable(nodes, rank, ParentNode) && forall x :: x in xs ==> x in nodes
    ensures IsPick(xs, ix, Meant(nodes, rank, context, xs, parts))
    ensures forall i :: 0 <= i < |xs| ==>
              (i in ix <==> Chained(nodes, rank, context, xs[i], parts) && !Stuck(nodes, rank, xs[i], parts))
  {
    ix := [];
    if xs != [] {
      hide Chained, Stuck, Walkable;
      var n := |xs| - 1;
      ix := MeantInOrder(nodes, rank, context, xs[..n], parts);
      PickMore(xs, ix, Meant(nodes, rank, context, xs[..n], parts));
      assert Meant(nodes, rank, context, xs, parts) == Meant(nodes, rank, context, xs[..n], parts)
        + if Chained(nodes, rank, context, xs[n], parts) && !Stuck(nodes, rank, xs[n], parts) then [xs[n]] else [];
      hide IsPick, Meant;
      forall i | 0 <= i < n
        ensures i in ix <==> Chained(nodes, rank, context, xs[i], parts) && !Stuck(nodes, rank, xs[i], parts)
      {
        assert xs[..n][i] == xs[i];
      }
      if Chained(nodes, rank, context, xs[n], parts) && !Stuck(nodes, rank, xs[n], parts) {
        ix := ix + [n];
      }
    }
  }

  // A document (9) or an element (1) is searched; other nodes give nothing.
  lemma ContextsAre(nodes: set<Node>, rank: map<Node, nat>, context: Node, xs: seq<Node>, parts: seq<Part>)
    requires Walkable(nodes, rank, ParentNode) && InNodes(nodes, Live(xs)) && forall x :: x in xs ==> x in nodes
    ensures context.nodeType != 1 && context.nodeType != 9 ==> Selected(nodes, rank, context, xs, parts) == Some([])
    ensures (context.nodeType == 1 || context.nodeType == 9) && parts == [] ==> Selected(nodes, rank, context, xs, parts) == Some(xs)
    ensures (context.nodeType == 1 || context.nodeType == 9) && parts != [] && Pruned(nodes, rank, Live(xs), parts).Some? && IsTree(nodes, rank)
            && (forall p :: p in parts ==> IsPart(p)) ==>
              Selected(nodes, rank, context, xs, parts).Some?
  {
    if IsTree(nodes, rank) && forall p :: p in parts ==> IsPart(p) {
      ThrowsExactly(nodes, rank, Live(xs), parts);
    }
  }
}
