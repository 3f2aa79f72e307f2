/**
  Sizzle's last loop, and what a selector chain returns in all: never too much, and
  all that is meant unless an ascent gets stuck or an orphan hides what is behind it.
*/
module SizzleHarvest {
  import opened Basics
  import opened Dom
  import opened SizzleWalk
  import opened SizzleSelect
  import opened SizzlePrune

  // The DOM's `contains`, for nodes other than the container itself.
  method Contains(a: Node, x: Node, ghost nodes: set<Node>, ghost rank: map<Node, nat>) returns (r: bool)
    requires Walkable(nodes, rank, ParentNode) && x in nodes
    ensures r <==> Above(nodes, rank, a, x)
  {
    var n := x.parentNode;
    while n != null && n != a
      invariant n != null ==> n in nodes
      invariant Above(nodes, rank, a, x) <==> n != null && (n == a || Above(nodes, rank, a, n))
      decreases Left(rank, n)
    {
      n := n.parentNode;
    }
    return n != null;
  }

  // The candidates whose entry is an element within the context, in order.
  ghost function Survivors(nodes: set<Node>, rank: map<Node, nat>, context: Node, xs: seq<Node>, es: seq<Entry>): seq<Node>
    requires Walkable(nodes, rank, ParentNode) && InNodes(nodes, es) && |xs| == |es|
  {
    if xs == [] then []
    else
      var n := |xs| - 1;
      Survivors(nodes, rank, context, xs[..n], es[..n]) + if Kept(nodes, rank, context, es[n]) then [xs[n]] else []
  }

  // How many entries stand ahead of the first null.
  function FirstNull(es: seq<Entry>): (k: nat)
    ensures IsFirstNull(es, k)
  {
    if es == [] then 0
    else
      var k := FirstNull(es[..|es| - 1]);
      if k < |es| - 1 || es[|es| - 1].Null? then k else |es|
  }

  // The last loop, which ends at the first null.
  method Harvest(context: Node, candidates: seq<Node>, entries: seq<Entry>,
                 ghost nodes: set<Node>, ghost rank: map<Node, nat>) returns (results: seq<Node>)
    requires Walkable(nodes, rank, ParentNode) && InNodes(nodes, entries)
    requires |entries| == |candidates| && NoYes(entries)
    ensures var k := FirstNull(entries);
            results == Survivors(nodes, rank, context, candidates[..k], entries[..k])
  {
    hide Above;
    results := [];
    var i := 0;
    while i < |entries| && entries[i] != Null
      invariant 0 <= i <= |entries| && forall j :: 0 <= j < i ==> !entries[j].Null?
      invariant results == Survivors(nodes, rank, context, candidates[..i], entries[..i])
    {
      assert candidates[..i + 1][..i] == candidates[..i] && entries[..i + 1][..i] == entries[..i];
      var keep := entries[i] == Yes;
      if entries[i].At? && entries[i].n.IsElement() {
        keep := true;
        if context.IsElement() {
          keep := Contains(context, entries[i].n, nodes, rank);
        }
      }
      if keep {
        results := results + [candidates[i]];
      }
      i := i + 1;
    }
    assert FirstNull(entries) == i;
  }

  predicate IsContext(x: Node) {
    x.nodeType == ELEMENT || x.nodeType == DOCUMENT
  }

  // The candidates a selector chain selects, in order.
  ghost function Chosen(nodes: set<Node>, rank: map<Node, nat>, context: Node, xs: seq<Node>, parts: seq<Part>): seq<Node>
    requires Walkable(nodes, rank, ParentNode) && forall x :: x in xs ==> x in nodes
  {
    if xs == [] then []
    else
      var x := xs[|xs| - 1];
      Chosen(nodes, rank, context, xs[..|xs| - 1], parts)
      + if Chained(nodes, rank, context, x, parts) then [x] else []
  }

  // The candidates that the selector means and that never get stuck, in order.
  ghost function Meant(nodes: set<Node>, rank: map<Node, nat>, context: Node, xs: seq<Node>, parts: seq<Part>): seq<Node>
    requires Walkable(nodes, rank, ParentNode) && forall x :: x in xs ==> x in nodes
  {
    if xs == [] then []
    else
      var x := xs[|xs| - 1];
      Meant(nodes, rank, context, xs[..|xs| - 1], parts)
      + if Chained(nodes, rank, context, x, parts) && !Stuck(nodes, rank, x, parts) then [x] else []
  }

  lemma {:induction false} MeantMember(nodes: set<Node>, rank: map<Node, nat>, context: Node, xs: seq<Node>, parts: seq<Part>, x: Node)
    requires Walkable(nodes, rank, ParentNode) && forall y :: y in xs ==> y in nodes
    ensures x in Meant(nodes, rank, context, xs, parts)
       <==> x in xs && Chained(nodes, rank, context, x, parts) && !Stuck(nodes, rank, x, parts)
  {
    if xs != [] {
      hide Chained, Stuck, Walkable;
      MeantMember(nodes, rank, context, xs[..|xs| - 1], parts, x);
    }
  }

  // What a selector chain is to return: unless the passes throw, the candidates ahead
  // of the first orphan that it means and that never get stuck.
  ghost function Selected(nodes: set<Node>, rank: map<Node, nat>, context: Node, xs: seq<Node>, parts: seq<Part>): Option<seq<Node>>
    requires Walkable(nodes, rank, ParentNode) && InNodes(nodes, Live(xs)) && forall x :: x in xs ==> x in nodes
  {
    if !IsContext(context) then Some([])
    else if parts == [] then Some(xs)
    else if SomeTrips(nodes, rank, Live(xs), parts) then None
    else Some(Meant(nodes, rank, context, xs[..FirstOrphan(nodes, rank, Live(xs), parts)], parts))
  }

  // The candidates that pass the last simple selector are pruned by the parts before
  // it and then by the context.
  method Select(sizzle: Sizzle, context: Node, candidates: seq<Node>, parts: seq<Part>, isXML: bool,
                ghost nodes: set<Node>, ghost rank: map<Node, nat>) returns (results: Option<seq<Node>>)
    requires IsTree(nodes, rank) && sizzle.Valid(nodes) && forall p :: p in parts ==> IsPart(p)
    requires InNodes(nodes, Live(candidates)) && forall x :: x in candidates ==> x in nodes
    modifies sizzle, nodes`sizcache, nodes`sizset
    ensures sizzle.Valid(nodes)
    ensures results == Selected(nodes, rank, context, candidates, parts)
  {
    if !(context.nodeType == ELEMENT || context.nodeType == DOCUMENT) {
      return Some([]);
    }
    if |parts| == 0 {
      return Some(candidates);
    }
    hide Selected, Pruned, IsTree, Walkable, Survivors, SomeTrips;
    PruningDecides(nodes, rank, context, candidates, parts);
    var checkSet, thrown := Prune(sizzle, candidates, parts, isXML, nodes, rank);
    if thrown {
      return None;
    }
    var r := Harvest(context, candidates, checkSet[..], nodes, rank);
    HarvestIsMeant(nodes, rank, context, candidates, parts);
    results := Some(r);
  }

  lemma PruningDecides(nodes: set<Node>, rank: map<Node, nat>, context: Node, xs: seq<Node>, parts: seq<Part>)
    requires IsTree(nodes, rank) && InNodes(nodes, Live(xs)) && (forall x :: x in xs ==> x in nodes)
    requires (forall p :: p in parts ==> IsPart(p)) && IsContext(context) && parts != []
    ensures Selected(nodes, rank, context, xs, parts).None? <==> Pruned(nodes, rank, Live(xs), parts).None?
  {
    hide Pruned, SomeTrips, Meant, Walkable;
    ThrowsExactly(nodes, rank, Live(xs), parts);
  }

  lemma HarvestIsMeant(nodes: set<Node>, rank: map<Node, nat>, context: Node, xs: seq<Node>, parts: seq<Part>)
    requires IsTree(nodes, rank) && InNodes(nodes, Live(xs)) && (forall x :: x in xs ==> x in nodes)
    requires (forall p :: p in parts ==> IsPart(p)) && IsContext(context) && parts != []
    requires Pruned(nodes, rank, Live(xs), parts).Some?
    ensures var es := Pruned(nodes, rank, Live(xs), parts).value;
            var k := FirstNull(es);
            Selected(nodes, rank, context, xs, parts) == Some(Survivors(nodes, rank, context, xs[..k], es[..k]))
  {
    hide Pruned, SomeTrips, Lost, Walkable, Survivors, Meant;
    PruningDecides(nodes, rank, context, xs, parts);
    var k := FirstOrphan(nodes, rank, Live(xs), parts);
    AheadOfOrphan(nodes, rank, Live(xs), parts, k);
    assert FirstNull(Pruned(nodes, rank, Live(xs), parts).value) == k;
    assert Pruned(nodes, rank, Live(xs), parts).value[..k] == Ascents(nodes, rank, Live(xs[..k]), parts);
    SurvivorsAreMeant(nodes, rank, context, xs[..k], parts);
  }

  // A candidate that the selector means is missing exactly if it gets stuck or is not
  // ahead of the first orphan.
  lemma MissingExactly(nodes: set<Node>, rank: map<Node, nat>, context: Node, xs: seq<Node>, parts: seq<Part>, i: nat)
    requires Walkable(nodes, rank, ParentNode) && InNodes(nodes, Live(xs)) && forall x :: x in xs ==> x in nodes
    requires i < |xs| && forall j :: 0 <= j < |xs| && xs[j] == xs[i] ==> j == i
    requires (context.nodeType == DOCUMENT || context.nodeType == ELEMENT) && parts != [] && Chained(nodes, rank, context, xs[i], parts)
    requires Selected(nodes, rank, context, xs, parts).Some?
    ensures xs[i] !in Selected(nodes, rank, context, xs, parts).value
       <==> Stuck(nodes, rank, xs[i], parts) || i >= FirstOrphan(nodes, rank, Live(xs), parts)
  {
    hide Chained, Stuck, Meant, Walkable;
    var k := FirstOrphan(nodes, rank, Live(xs), parts);
    MeantMember(nodes, rank, context, xs[..k], parts, xs[i]);
    if i < k {
      assert xs[..k][i] == xs[i];
    }
  }

  // Whatever happens to the candidates, nothing is returned that the selector does
  // not mean.
  lemma NeverTooMuch(nodes: set<Node>, rank: map<Node, nat>, context: Node, xs: seq<Node>, parts: seq<Part>)
    requires Walkable(nodes, rank, ParentNode) && InNodes(nodes, Live(xs)) && forall x :: x in xs ==> x in nodes
    requires parts == [] ==> forall x :: x in xs ==> Inside(nodes, rank, context, x)
    ensures var r := Selected(nodes, rank, context, xs, parts);
            r.Some? ==> forall x :: x in r.value ==> x in xs && Chained(nodes, rank, context, x, parts)
  {
    hide Stuck, SomeTrips, Meant;
    if parts == [] {
      forall x | x in xs ensures Chained(nodes, rank, context, x, parts) {
      }
    } else {
      var ys := xs[..FirstOrphan(nodes, rank, Live(xs), parts)];
      forall x | x in Meant(nodes, rank, context, ys, parts)
        ensures x in xs && Chained(nodes, rank, context, x, parts)
      {
        MeantMember(nodes, rank, context, ys, parts, x);
      }
    }
  }

  // Nothing gets in the way: descendant combinators come first, nobody is an orphan,
  // and without any combinator all candidates were found within the context.
  ghost predicate Unspoiled(nodes: set<Node>, rank: map<Node, nat>, context: Node, xs: seq<Node>, parts: seq<Part>)
    requires Walkable(nodes, rank, ParentNode) && InNodes(nodes, Live(xs)) && forall x :: x in xs ==> x in nodes
  {
    && DescendantsFirst(parts) && NoOrphans(nodes, rank, Live(xs), parts)
    && (parts == [] ==> forall x :: x in xs ==> Inside(nodes, rank, context, x))
  }

  // Then what is returned is all that the selector selects.
  lemma UnspoiledIsExact(nodes: set<Node>, rank: map<Node, nat>, context: Node, xs: seq<Node>, parts: seq<Part>)
    requires IsTree(nodes, rank) && InNodes(nodes, Live(xs)) && (forall x :: x in xs ==> x in nodes)
    requires context.nodeType == DOCUMENT || context.nodeType == ELEMENT
    requires forall p :: p in parts ==> IsPart(p)
    requires Unspoiled(nodes, rank, context, xs, parts)
    ensures Selected(nodes, rank, context, xs, parts) == Some(Chosen(nodes, rank, context, xs, parts))
  {
    PrunedAlone(nodes, rank, Live(xs), parts);
    ThrowsExactly(nodes, rank, Live(xs), parts);
    assert xs[..|xs|] == xs;
    MeantIsChosen(nodes, rank, context, xs, parts);
    if parts == [] {
      ChosenInside(nodes, rank, context, xs);
    }
  }

  // An ascent is kept exactly if the selector means the candidate and it never gets
  // stuck.
  lemma KeptExactly(nodes: set<Node>, rank: map<Node, nat>, context: Node, x: Node, parts: seq<Part>)
    requires IsTree(nodes, rank) && x in nodes && forall p :: p in parts ==> IsPart(p)
    ensures Kept(nodes, rank, context, Ascend(nodes, rank, At(x), parts))
       <==> Chained(nodes, rank, context, x, parts) && !Stuck(nodes, rank, x, parts)
  {
    if Chained(nodes, rank, context, x, parts) {
      MissedWhenStuck(nodes, rank, context, x, parts);
    } else if Kept(nodes, rank, context, Ascend(nodes, rank, At(x), parts)) {
      GreedyIsSound(nodes, rank, context, x, parts);
    }
  }

  lemma {:induction false} SurvivorsAreMeant(nodes: set<Node>, rank: map<Node, nat>, context: Node, xs: seq<Node>, parts: seq<Part>)
    requires IsTree(nodes, rank) && InNodes(nodes, Live(xs)) && forall p :: p in parts ==> IsPart(p)
    requires forall x :: x in xs ==> x in nodes
    ensures Survivors(nodes, rank, context, xs, Ascents(nodes, rank, Live(xs), parts)) == Meant(nodes, rank, context, xs, parts)
  {
    if xs != [] {
      var n := |xs| - 1;
      assert Live(xs)[..n] == Live(xs[..n]);
      assert Live(xs)[n] == At(xs[n]);
      assert Ascents(nodes, rank, Live(xs), parts)[..n] == Ascents(nodes, rank, Live(xs[..n]), parts);
      SurvivorsAreMeant(nodes, rank, context, xs[..n], parts);
      KeptExactly(nodes, rank, context, xs[n], parts);
    }
  }

  // Where descendant combinators come first and nobody is an orphan, that is all the
  // selector selects.
  lemma {:induction false} MeantIsChosen(nodes: set<Node>, rank: map<Node, nat>, context: Node, xs: seq<Node>, parts: seq<Part>)
    requires IsTree(nodes, rank) && (forall x :: x in xs ==> x in nodes) && forall p :: p in parts ==> IsPart(p)
    requires DescendantsFirst(parts)
    ensures Meant(nodes, rank, context, xs, parts) == Chosen(nodes, rank, context, xs, parts)
  {
    if xs != [] {
      MeantIsChosen(nodes, rank, context, xs[..|xs| - 1], parts);
      KeptExactly(nodes, rank, context, xs[|xs| - 1], parts);
      GreedyIsExact(nodes, rank, context, xs[|xs| - 1], parts);
    }
  }

  lemma {:induction false} ChosenInside(nodes: set<Node>, rank: map<Node, nat>, context: Node, xs: seq<Node>)
    requires Walkable(nodes, rank, ParentNode)
    requires forall x :: x in xs ==> x in nodes && Inside(nodes, rank, context, x)
    ensures Chosen(nodes, rank, context, xs, []) == xs
  {
    if xs != [] {
      ChosenInside(nodes, rank, context, xs[..|xs| - 1]);
      assert xs[|xs| - 1] in xs;
    }
  }

  // So filters never let too much pass, but an orphan hides what is behind it: for
  // ".a > .b > c" with a detached root r as context, a c right under r turns into
  // null, and the c that is meant, behind it in the list, is not returned.
  lemma OrphanHidesNext(nodes: set<Node>, rank: map<Node, nat>, a: Node -> bool, b: Node -> bool,
                        r: Node, c1: Node, c2: Node, d: Node, f: Node)
    requires IsTree(nodes, rank) && {r, c1, c2, d, f} <= nodes
    requires r.IsElement() && d.IsElement() && f.IsElement() && b(r) && b(d) && a(f)
    requires r.parentNode == null && c1.parentNode == r
    requires c2.parentNode == d && d.parentNode == f && f.parentNode == r
    ensures var parts := [Part(ByFilter(a), true), Part(ByFilter(b), true)];
            && Pruned(nodes, rank, Live([c1, c2]), parts) == Some([Null, At(f)])
            && Selected(nodes, rank, r, [c1, c2], parts) == Some([])
            && Chained(nodes, rank, r, c2, parts) && !Stuck(nodes, rank, c2, parts)
  {
    var parts := [Part(ByFilter(a), true), Part(ByFilter(b), true)];
    assert parts[..1] == [Part(ByFilter(a), true)] && parts[..1][..0] == [];
    var es := Live([c1, c2]);
    var es1 := [At(r), At(d)];
    assert es == [At(c1), At(c2)];
    assert ChildPass(ByFilter(b), es).value == es1;
    assert CutOff(es1, 0) && CutOff(es1, 1) by {
      assert Raised(es1[0]).Null?;
    }
    assert ChildPass(ByFilter(a), es1).value == [Null, At(f)];
    assert Pruned(nodes, rank, es1, parts[..1]) == Some([Null, At(f)]);
    assert OrphanAt(nodes, rank, r, parts[..1]) == 1;
    assert Lost(nodes, rank, es[0], parts);
    assert FirstOrphan(nodes, rank, es, parts) == 0;
    ThrowsExactly(nodes, rank, es, parts);
    assert [c1, c2][..0] == [];
    assert Chained(nodes, rank, r, f, []) && Related(nodes, rank, true, f, d);
    assert Chained(nodes, rank, r, d, parts[..1]) && Related(nodes, rank, true, d, c2);
    assert !Stuck(nodes, rank, f, []) && !Stuck(nodes, rank, d, parts[..1]);
  }

  // And a tag name throws: "a > b > c" with a detached b as context that has a c.
  lemma DetachedThrows(nodes: set<Node>, rank: map<Node, nat>, r: Node, c: Node)
    requires IsTree(nodes, rank) && {r, c} <= nodes
    requires r.IsElement() && r.nodeName == "b" && r.parentNode == null && c.parentNode == r
    ensures Selected(nodes, rank, r, [c], [Part(ByName("a"), true), Part(ByName("b"), true)]) == None
  {
    var parts := [Part(ByName("a"), true), Part(ByName("b"), true)];
    assert parts[..1] == [Part(ByName("a"), true)];
    assert Live([c]) == [At(c)];
    assert ChildPass(ByName("b"), [At(c)]).value == [At(r)];
    assert Parentless([At(r)][0]);
    assert ChildPass(ByName("a"), [At(r)]) == None;
    assert Pruned(nodes, rank, [At(r)], parts[..1]) == None;
    ThrowsExactly(nodes, rank, Live([c]), parts);
  }
}
