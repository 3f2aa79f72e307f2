/**
  Sizzle's right-to-left selection for chains of descendant and child combinators.
  Each step moves every candidate up, to its nearest matching ancestor or to its
  parent, and never goes back.  That finds only what the selector means, and all of
  it unless a child combinator stands to the left of a descendant one.
*/
module SizzleSelect {
  import opened Dom
  import opened SizzleWalk

  // A tree, of a document or detached: parents lead up in finitely many steps, and
  // only elements have names that a tag selector can spell.
  ghost predicate IsTree(nodes: set<Node>, rank: map<Node, nat>) {
    && Walkable(nodes, rank, ParentNode)
    && forall x :: x in nodes && !x.IsElement() ==> x.nodeName != "" && x.nodeName[0] == '#'
  }

  // A simple selector of the chain and the combinator to its right.
  datatype Part = Part(t: Test, child: bool)

  // Tag names are words.
  predicate IsPart(p: Part) {
    !p.t.ByNode? && (p.t.ByName? ==> p.t.name != "" && p.t.name[0] != '#')
  }

  // No child combinator stands to the left of a descendant one.
  predicate DescendantsFirst(parts: seq<Part>) {
    forall i, j :: 0 <= i < j < |parts| && !parts[j].child ==> !parts[i].child
  }

  ghost predicate Related(nodes: set<Node>, rank: map<Node, nat>, child: bool, a: Node, x: Node)
    requires Walkable(nodes, rank, ParentNode) && x in nodes
  {
    if child then x.parentNode == a else Above(nodes, rank, a, x)
  }

  // a is a proper ancestor of x
  ghost predicate Above(nodes: set<Node>, rank: map<Node, nat>, a: Node, x: Node)
    requires Walkable(nodes, rank, ParentNode) && x in nodes
    decreases Left(rank, x)
  {
    x.parentNode != null && (x.parentNode == a || Above(nodes, rank, a, x.parentNode))
  }

  // An element within the context: anywhere in it for a document, below it for an element.
  ghost predicate Inside(nodes: set<Node>, rank: map<Node, nat>, context: Node, x: Node)
    requires Walkable(nodes, rank, ParentNode) && x in nodes
  {
    x.IsElement() && (context.IsElement() ==> Above(nodes, rank, context, x))
  }

  // What the selector means: some nodes up from x pass `parts`, each in the relation
  // its combinator demands, and the topmost is within the context.
  ghost predicate Chained(nodes: set<Node>, rank: map<Node, nat>, context: Node, x: Node, parts: seq<Part>)
    requires Walkable(nodes, rank, ParentNode) && x in nodes
    decreases |parts|
  {
    if parts == [] then Inside(nodes, rank, context, x)
    else
      var last := parts[|parts| - 1];
      exists a :: a in nodes && Related(nodes, rank, last.child, a, x) && Passes(last.t, a)
                  && Chained(nodes, rank, context, a, parts[..|parts| - 1])
  }

  // The parent, if there is one and it passes.
  function ToParent(t: Test, e: Entry): Entry {
    if e.Null? then Null
    else if e.At? && e.n.parentNode != null && Passes(t, e.n.parentNode) then At(e.n.parentNode) else No
  }

  ghost function Moved(nodes: set<Node>, rank: map<Node, nat>, e: Entry, p: Part): (r: Entry)
    requires Walkable(nodes, rank, ParentNode) && (e.At? ==> e.n in nodes)
    ensures r.At? ==> r.n in nodes
  {
    WalkedInNodes(nodes, rank, ParentNode, p.t, e);
    if p.child then ToParent(p.t, e) else Walked(nodes, rank, ParentNode, p.t, e)
  }

  // What the passes make of an entry, part after part from the right.
  ghost function Ascend(nodes: set<Node>, rank: map<Node, nat>, e: Entry, parts: seq<Part>): (r: Entry)
    requires Walkable(nodes, rank, ParentNode) && (e.At? ==> e.n in nodes)
    ensures r.At? ==> r.n in nodes
    decreases |parts|
  {
    if parts == [] then e
    else Ascend(nodes, rank, Moved(nodes, rank, e, parts[|parts| - 1]), parts[..|parts| - 1])
  }

  ghost predicate Kept(nodes: set<Node>, rank: map<Node, nat>, context: Node, e: Entry)
    requires Walkable(nodes, rank, ParentNode) && (e.At? ==> e.n in nodes)
  {
    e.At? && Inside(nodes, rank, context, e.n)
  }

  lemma {:induction false} NearestInNodes(nodes: set<Node>, rank: map<Node, nat>, dir: Dir, t: Test, x: Node?)
    requires Walkable(nodes, rank, dir) && (x == null || x in nodes)
    ensures var r := Nearest(nodes, rank, dir, t, x); r.At? ==> r.n in nodes
    decreases Left(rank, x)
  {
    if x != null && !Passes(t, x) {
      NearestInNodes(nodes, rank, dir, t, x.Along(dir));
    }
  }

  lemma WalkedInNodes(nodes: set<Node>, rank: map<Node, nat>, dir: Dir, t: Test, e: Entry)
    requires Walkable(nodes, rank, dir) && (e.At? ==> e.n in nodes)
    ensures var r := Walked(nodes, rank, dir, t, e); r.At? ==> r.n in nodes
  {
    if e.At? {
      NearestInNodes(nodes, rank, dir, t, e.n.Along(dir));
    }
  }

  lemma {:induction false} AboveTransitive(nodes: set<Node>, rank: map<Node, nat>, a: Node, b: Node, x: Node)
    requires Walkable(nodes, rank, ParentNode) && x in nodes && b in nodes
    requires Above(nodes, rank, a, b) && Above(nodes, rank, b, x)
    ensures Above(nodes, rank, a, x)
    decreases Left(rank, x)
  {
    if x.parentNode != b {
      AboveTransitive(nodes, rank, a, b, x.parentNode);
    }
  }

  // The nearest ancestor that passes is an ancestor that passes, and every other
  // one is above it.
  lemma {:induction false} NearestAncestor(nodes: set<Node>, rank: map<Node, nat>, t: Test, x: Node)
    requires Walkable(nodes, rank, ParentNode) && x in nodes && !t.ByNode?
    ensures var e := Walked(nodes, rank, ParentNode, t, At(x));
            && !e.Yes? && !e.Null?
            && (e.At? ==> e.n in nodes && Passes(t, e.n) && Above(nodes, rank, e.n, x))
            && (forall b :: b in nodes && Above(nodes, rank, b, x) && Passes(t, b) ==>
                  e.At? && (b == e.n || Above(nodes, rank, b, e.n)))
    decreases Left(rank, x)
  {
    var p := x.parentNode;
    if p != null && !Passes(t, p) {
      NearestAncestor(nodes, rank, t, p);
    }
  }

  // A chain of descendant combinators that works from a node works from every node
  // below it.
  lemma ChainedBelow(nodes: set<Node>, rank: map<Node, nat>, context: Node, b: Node, a: Node, parts: seq<Part>)
    requires Walkable(nodes, rank, ParentNode) && a in nodes && b in nodes && a.IsElement()
    requires Above(nodes, rank, b, a) && Chained(nodes, rank, context, b, parts)
    requires forall p :: p in parts ==> !p.child
    ensures Chained(nodes, rank, context, a, parts)
  {
    if parts == [] {
      if context.IsElement() {
        AboveTransitive(nodes, rank, context, b, a);
      }
    } else {
      var last := parts[|parts| - 1];
      assert last in parts;
      var c :| c in nodes && Above(nodes, rank, c, b) && Passes(last.t, c)
            && Chained(nodes, rank, context, c, parts[..|parts| - 1]);
      AboveTransitive(nodes, rank, c, b, a);
      assert Related(nodes, rank, last.child, c, a);
    }
  }

  // One move of an entry goes to a related node that passes; for a child combinator
  // to the only one.
  lemma MovedRight(nodes: set<Node>, rank: map<Node, nat>, x: Node, p: Part)
    requires IsTree(nodes, rank) && x in nodes && IsPart(p)
    ensures var e := Moved(nodes, rank, At(x), p);
            && !e.Yes? && !e.Null?
            && (e.At? ==> Passes(p.t, e.n) && e.n.IsElement() && Related(nodes, rank, p.child, e.n, x))
            && (forall b :: b in nodes && Related(nodes, rank, p.child, b, x) && Passes(p.t, b) ==>
                  e.At? && (b == e.n || (!p.child && Above(nodes, rank, b, e.n))))
  {
    NearestAncestor(nodes, rank, p.t, x);
  }

  // Going up greedily finds only chains that are there.
  lemma {:induction false} GreedyIsSound(nodes: set<Node>, rank: map<Node, nat>, context: Node, x: Node, parts: seq<Part>)
    requires IsTree(nodes, rank) && x in nodes && forall p :: p in parts ==> IsPart(p)
    requires Kept(nodes, rank, context, Ascend(nodes, rank, At(x), parts))
    ensures Chained(nodes, rank, context, x, parts)
    decreases |parts|
  {
    if parts != [] {
      var p, rest := parts[|parts| - 1], parts[..|parts| - 1];
      assert IsPart(p);
      MovedRight(nodes, rank, x, p);
      var e := Moved(nodes, rank, At(x), p);
      if e.At? {
        GreedyIsSound(nodes, rank, context, e.n, rest);
      } else {
        NothingAscends(nodes, rank, rest);
      }
    }
  }

  // And it finds one whenever there is one, unless a child combinator stands to the
  // left of a descendant one.
  lemma {:induction false} GreedyIsExact(nodes: set<Node>, rank: map<Node, nat>, context: Node, x: Node, parts: seq<Part>)
    requires IsTree(nodes, rank) && x in nodes && forall p :: p in parts ==> IsPart(p)
    requires DescendantsFirst(parts)
    ensures Kept(nodes, rank, context, Ascend(nodes, rank, At(x), parts))
       <==> Chained(nodes, rank, context, x, parts)
    decreases |parts|
  {
    if Kept(nodes, rank, context, Ascend(nodes, rank, At(x), parts)) {
      GreedyIsSound(nodes, rank, context, x, parts);
    } else if parts != [] && Chained(nodes, rank, context, x, parts) {
      var p, rest := parts[|parts| - 1], parts[..|parts| - 1];
      assert IsPart(p);
      MovedRight(nodes, rank, x, p);
      var e := Moved(nodes, rank, At(x), p);
      var b :| b in nodes && Related(nodes, rank, p.child, b, x) && Passes(p.t, b)
            && Chained(nodes, rank, context, b, rest);
      if b != e.n {
        ChainedBelow(nodes, rank, context, b, e.n, rest);
      }
      GreedyIsExact(nodes, rank, context, e.n, rest);
    }
  }

  // The ascent from x comes to a child combinator and the parent does not pass.
  ghost predicate Stuck(nodes: set<Node>, rank: map<Node, nat>, x: Node, parts: seq<Part>)
    requires Walkable(nodes, rank, ParentNode) && x in nodes
    decreases |parts|
  {
    parts != [] &&
    var p := parts[|parts| - 1];
    var e := Moved(nodes, rank, At(x), p);
    if e.At? then Stuck(nodes, rank, e.n, parts[..|parts| - 1]) else p.child
  }

  // The ascent stays at or below any chain there is, until it is stuck.
  lemma {:induction false} StaysBelow(nodes: set<Node>, rank: map<Node, nat>, context: Node, x: Node, b: Node, parts: seq<Part>)
    requires IsTree(nodes, rank) && x in nodes && b in nodes && forall p :: p in parts ==> IsPart(p)
    requires b == x || (x.IsElement() && Above(nodes, rank, b, x))
    requires Chained(nodes, rank, context, b, parts) && !Stuck(nodes, rank, x, parts)
    ensures Kept(nodes, rank, context, Ascend(nodes, rank, At(x), parts))
    decreases |parts|
  {
    if parts == [] {
      if context.IsElement() && b != x {
        AboveTransitive(nodes, rank, context, b, x);
      }
    } else {
      var p, rest := parts[|parts| - 1], parts[..|parts| - 1];
      assert IsPart(p);
      MovedRight(nodes, rank, x, p);
      var a :| a in nodes && Related(nodes, rank, p.child, a, b) && Passes(p.t, a) && Chained(nodes, rank, context, a, rest);
      if !p.child && b != x {
        AboveTransitive(nodes, rank, a, b, x);
      } else if p.child && b != x && b != x.parentNode {
        AboveTransitive(nodes, rank, a, b, x.parentNode);
      }
      var e := Moved(nodes, rank, At(x), p);
      StaysBelow(nodes, rank, context, e.n, a, rest);
    }
  }

  // So an element that the selector means is kept exactly if its ascent never comes
  // to a child combinator whose parent does not pass; whether it does is decided
  // without going back.
  lemma MissedWhenStuck(nodes: set<Node>, rank: map<Node, nat>, context: Node, x: Node, parts: seq<Part>)
    requires IsTree(nodes, rank) && x in nodes && forall p :: p in parts ==> IsPart(p)
    requires Chained(nodes, rank, context, x, parts)
    ensures Kept(nodes, rank, context, Ascend(nodes, rank, At(x), parts)) <==> !Stuck(nodes, rank, x, parts)
  {
    if Stuck(nodes, rank, x, parts) {
      StuckIsDropped(nodes, rank, x, parts);
    } else {
      StaysBelow(nodes, rank, context, x, x, parts);
    }
  }

  lemma {:induction false} StuckIsDropped(nodes: set<Node>, rank: map<Node, nat>, x: Node, parts: seq<Part>)
    requires IsTree(nodes, rank) && x in nodes && forall p :: p in parts ==> IsPart(p)
    requires Stuck(nodes, rank, x, parts)
    ensures Ascend(nodes, rank, At(x), parts) == No
    decreases |parts|
  {
    var p, rest := parts[|parts| - 1], parts[..|parts| - 1];
    assert IsPart(p);
    var e := Moved(nodes, rank, At(x), p);
    if e.At? {
      StuckIsDropped(nodes, rank, e.n, rest);
    } else {
      NothingAscends(nodes, rank, rest);
    }
  }

  // x climbs to c parent by parent, each parent passing its part.
  ghost predicate Climbs(nodes: set<Node>, rank: map<Node, nat>, x: Node, c: Node, parts: seq<Part>)
    requires Walkable(nodes, rank, ParentNode) && x in nodes
    decreases |parts|
  {
    if parts == [] then x == c
    else
      && x.parentNode != null && Passes(parts[|parts| - 1].t, x.parentNode)
      && Climbs(nodes, rank, x.parentNode, c, parts[..|parts| - 1])
  }

  // The bottom of a chain that goes wrong at part i, a child combinator with a
  // descendant one to its right: the climb leads to c, whose parent does not pass
  // part i, while some b above c would do for part i + 1 and all that is left of it.
  ghost predicate Misled(nodes: set<Node>, rank: map<Node, nat>, context: Node, x: Node, c: Node, b: Node,
                         parts: seq<Part>, i: nat)
    requires Walkable(nodes, rank, ParentNode) && x in nodes
  {
    && i + 1 < |parts| && parts[i].child && !parts[i + 1].child
    && Climbs(nodes, rank, x, c, parts[i + 1..])
    && c in nodes && ToParent(parts[i].t, At(c)) == No
    && b in nodes && Above(nodes, rank, b, c) && Passes(parts[i + 1].t, b)
    && Chained(nodes, rank, context, b, parts[..i + 1])
  }

  // If a child combinator does stand to the left of a descendant one, the passes
  // miss every such element, whatever the parts and the tree.
  lemma {:induction false} GreedyMisses(nodes: set<Node>, rank: map<Node, nat>, context: Node, x: Node, c: Node, b: Node,
                                        parts: seq<Part>, i: nat)
    requires IsTree(nodes, rank) && x in nodes && forall p :: p in parts ==> IsPart(p)
    requires Misled(nodes, rank, context, x, c, b, parts, i)
    ensures Chained(nodes, rank, context, x, parts)
    ensures !Kept(nodes, rank, context, Ascend(nodes, rank, At(x), parts))
    decreases |parts|
  {
    var last, rest, y := parts[|parts| - 1], parts[..|parts| - 1], x.parentNode;
    var right := parts[i + 1..];
    assert right[|right| - 1] == last && IsPart(last);
    assert Moved(nodes, rank, At(x), last) == At(y);
    if i + 2 == |parts| {
      assert right[..|right| - 1] == [];
      assert Climbs(nodes, rank, y, c, []);
      assert rest == parts[..i + 1] && rest[|rest| - 1] == parts[i];
      assert Related(nodes, rank, last.child, b, x);
      assert Ascend(nodes, rank, At(c), rest) == Ascend(nodes, rank, No, rest[..i]);
      NothingAscends(nodes, rank, rest[..i]);
    } else {
      assert right[..|right| - 1] == rest[i + 1..] && rest[..i + 1] == parts[..i + 1];
      GreedyMisses(nodes, rank, context, y, c, b, rest, i);
      assert Related(nodes, rank, last.child, y, x);
    }
  }

  // Such parts are next to each other somewhere as soon as they are in the wrong
  // order anywhere.
  lemma {:induction false} WrongOrderIsAdjacent(parts: seq<Part>)
    ensures !DescendantsFirst(parts) <==> exists i :: 0 <= i && i + 1 < |parts| && parts[i].child && !parts[i + 1].child
  {
    if !DescendantsFirst(parts) {
      var i, j :| 0 <= i < j < |parts| && !parts[j].child && parts[i].child;
      AdjacentBetween(parts, i, j);
    }
  }

  lemma {:induction false} AdjacentBetween(parts: seq<Part>, i: nat, j: nat)
    requires i < j < |parts| && parts[i].child && !parts[j].child
    ensures exists k :: i <= k < j && parts[k].child && !parts[k + 1].child
    decreases j - i
  {
    if parts[i + 1].child {
      AdjacentBetween(parts, i + 1, j);
    }
  }

  // An instance: for "a > b c", the nearest b above c has a d for its parent, and
  // a b whose parent is an a stands above that.
  lemma MissesChildOfAncestor(nodes: set<Node>, rank: map<Node, nat>, context: Node,
                              c: Node, b2: Node, d: Node, b1: Node, a: Node)
    requires IsTree(nodes, rank) && {c, b2, d, b1, a} <= nodes && !context.IsElement() && a.IsElement()
    requires c.parentNode == b2 && b2.parentNode == d && d.parentNode == b1 && b1.parentNode == a
    requires b2.nodeName == b1.nodeName == "b" && d.nodeName == "d" && a.nodeName == "a"
    ensures var parts := [Part(ByName("a"), true), Part(ByName("b"), false)];
            && Chained(nodes, rank, context, c, parts)
            && !Kept(nodes, rank, context, Ascend(nodes, rank, At(c), parts))
  {
    var parts := [Part(ByName("a"), true), Part(ByName("b"), false)];
    assert parts[..1] == [Part(ByName("a"), true)] && parts[..1][..0] == [];
    assert parts[1..] == [Part(ByName("b"), false)] && parts[1..][..0] == [];
    assert Chained(nodes, rank, context, a, []);
    assert Related(nodes, rank, true, a, b1);
    assert Chained(nodes, rank, context, b1, parts[..1]);
    assert Above(nodes, rank, b1, d) && Above(nodes, rank, b1, b2);
    GreedyMisses(nodes, rank, context, c, b2, b1, parts, 0);
  }

  lemma {:induction false} NothingAscends(nodes: set<Node>, rank: map<Node, nat>, parts: seq<Part>)
    requires Walkable(nodes, rank, ParentNode)
    ensures Ascend(nodes, rank, No, parts) == No
    decreases |parts|
  {
    if parts != [] {
      NothingAscends(nodes, rank, parts[..|parts| - 1]);
    }
  }
}
