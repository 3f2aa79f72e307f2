/**
  Sizzle's combinator passes for ancestors ("") and earlier siblings ("~").  A
  check set has one entry per candidate; a pass replaces every live entry by the
  nearest node along the direction that satisfies the next simple selector.  To
  do so in one go it marks the nodes it walks over and reuses earlier results.
*/
module SizzleWalk {
  import opened Dom

  // A simple selector: a bare tag name, any other filter, or a given node.
  datatype Test = ByName(name: string) | ByFilter(p: Node -> bool) | ByNode(n: Node)

  // An entry of a check set: false, true, a node, or null.
  datatype Entry = No | Yes | At(n: Node) | Null

  predicate Passes(t: Test, x: Node) {
    match t
    case ByName(s) => x.nodeName == s
    case ByFilter(p) => x.IsElement() && p(x)
    case ByNode(n) => x.IsElement() && x == n
  }

  function Hit(t: Test, x: Node): Entry {
    if t.ByNode? then Yes else At(x)
  }

  // The plain search: the first node from x on that passes.
  ghost function Nearest(nodes: set<Node>, rank: map<Node, nat>, dir: Dir, t: Test, x: Node?): Entry
    requires Walkable(nodes, rank, dir) && (x == null || x in nodes)
    decreases Left(rank, x)
  {
    if x == null then No
    else if Passes(t, x) then Hit(t, x)
    else Nearest(nodes, rank, dir, t, x.Along(dir))
  }

  // What a pass is to make of an entry.
  ghost function Walked(nodes: set<Node>, rank: map<Node, nat>, dir: Dir, t: Test, e: Entry): Entry
    requires Walkable(nodes, rank, dir) && (e.At? ==> e.n in nodes)
  {
    if e.At? then Nearest(nodes, rank, dir, t, e.n.Along(dir)) else if e.Null? then Null else No
  }

  class Sizzle {
    var done: nat    // passes so far; the next one is called done + 1

    // Marks come from passes already made.
    ghost predicate Valid(nodes: set<Node>)
      reads this, nodes
    {
      forall x :: x in nodes ==> x.sizcache <= done
    }

    // Walks for one pass, testing tag names only.
    method DirNodeCheck(dir: Dir, name: string, doneName: nat, checkSet: array<Entry>, isXML: bool,
                    ghost nodes: set<Node>, ghost rank: map<Node, nat>)
      requires Walkable(nodes, rank, dir) && Unmarked(nodes, doneName)
      requires forall i :: 0 <= i < checkSet.Length && checkSet[i].At? ==> checkSet[i].n in nodes
      modifies checkSet, nodes`sizcache, nodes`sizset
      ensures forall i :: 0 <= i < checkSet.Length ==>
                checkSet[i] == Walked(nodes, rank, dir, ByName(name), old(checkSet[i]))
      ensures forall x :: x in nodes ==> x.sizcache == old(x.sizcache) || x.sizcache == doneName
    {
      for i := 0 to checkSet.Length
        invariant forall j :: 0 <= j < i ==> checkSet[j] == Walked(nodes, rank, dir, ByName(name), old(checkSet[j]))
        invariant forall j :: i <= j < checkSet.Length ==> checkSet[j] == old(checkSet[j])
        invariant Sound(nodes, rank, dir, ByName(name), doneName, checkSet[..i])
        invariant forall x :: x in nodes ==> x.sizcache == old(x.sizcache) || x.sizcache == doneName
      {
        if checkSet[i] != No && checkSet[i] != Null {
          var start := if checkSet[i].At? then checkSet[i].n.Along(dir) else null;
          checkSet[i] := WalkByName(dir, name, doneName, checkSet[..i], start, isXML, nodes, rank);
        }
        assert checkSet[..i + 1] == checkSet[..i] + [checkSet[i]];
      }
    }

    // The inner loop: the walk of the entry that comes after `decided`.
    method WalkByName(dir: Dir, name: string, doneName: nat, decided: seq<Entry>, start: Node?, isXML: bool,
                      ghost nodes: set<Node>, ghost rank: map<Node, nat>) returns (found: Entry)
      requires Walkable(nodes, rank, dir) && (start != null ==> start in nodes)
      requires Sound(nodes, rank, dir, ByName(name), doneName, decided)
      modifies nodes`sizcache, nodes`sizset
      ensures found == Nearest(nodes, rank, dir, ByName(name), start)
      ensures Sound(nodes, rank, dir, ByName(name), doneName, decided + [found])
      ensures forall x :: x in nodes ==> x.sizcache == old(x.sizcache) || x.sizcache == doneName
    {
      found := No;
      var elem := start;
      ghost var goal := Nearest(nodes, rank, dir, ByName(name), start);
      while elem != null
        invariant elem != null ==> elem in nodes
        invariant found == No && Nearest(nodes, rank, dir, ByName(name), elem) == goal
        // nodes this walk has marked lie behind it and share its goal
        invariant forall x :: x in nodes && x.sizcache == doneName ==>
                    if x.sizset == |decided|
                    then Nearest(nodes, rank, dir, ByName(name), x) == goal && Left(rank, elem) < Left(rank, x)
                    else x.sizset < |decided| && decided[x.sizset] == Nearest(nodes, rank, dir, ByName(name), x)
        invariant forall x :: x in nodes ==> x.sizcache == old(x.sizcache) || x.sizcache == doneName
        decreases Left(rank, elem)
      {
        if elem.sizcache == doneName {
          found := decided[elem.sizset];
          break;
        }
        if elem.IsElement() && !isXML {
          elem.sizcache := doneName;
          elem.sizset := |decided|;
        }
        if elem.nodeName == name {
          found := At(elem);
          break;
        }
        elem := elem.Along(dir);
      }
    }

    // Walks for one pass with any other test, which only elements can pass.
    method DirCheck(dir: Dir, t: Test, doneName: nat, checkSet: array<Entry>, isXML: bool,
                    ghost nodes: set<Node>, ghost rank: map<Node, nat>)
      requires !t.ByName? && Walkable(nodes, rank, dir) && Unmarked(nodes, doneName)
      requires forall i :: 0 <= i < checkSet.Length && checkSet[i].At? ==> checkSet[i].n in nodes
      modifies checkSet, nodes`sizcache, nodes`sizset
      ensures forall i :: 0 <= i < checkSet.Length ==>
                checkSet[i] == Walked(nodes, rank, dir, t, old(checkSet[i]))
      ensures forall x :: x in nodes ==> x.sizcache == old(x.sizcache) || x.sizcache == doneName
    {
      for i := 0 to checkSet.Length
        invariant forall j :: 0 <= j < i ==> checkSet[j] == Walked(nodes, rank, dir, t, old(checkSet[j]))
        invariant forall j :: i <= j < checkSet.Length ==> checkSet[j] == old(checkSet[j])
        invariant Sound(nodes, rank, dir, t, doneName, checkSet[..i])
        invariant forall x :: x in nodes ==> x.sizcache == old(x.sizcache) || x.sizcache == doneName
      {
        if checkSet[i] != No && checkSet[i] != Null {
          var start := if checkSet[i].At? then checkSet[i].n.Along(dir) else null;
          checkSet[i] := WalkByTest(dir, t, doneName, checkSet[..i], start, isXML, nodes, rank);
        }
        assert checkSet[..i + 1] == checkSet[..i] + [checkSet[i]];
      }
    }

    // The inner loop: the walk of the entry that comes after `decided`.
    method WalkByTest(dir: Dir, t: Test, doneName: nat, decided: seq<Entry>, start: Node?, isXML: bool,
                      ghost nodes: set<Node>, ghost rank: map<Node, nat>) returns (found: Entry)
      requires !t.ByName? && Walkable(nodes, rank, dir) && (start != null ==> start in nodes)
      requires Sound(nodes, rank, dir, t, doneName, decided)
      modifies nodes`sizcache, nodes`sizset
      ensures found == Nearest(nodes, rank, dir, t, start)
      ensures Sound(nodes, rank, dir, t, doneName, decided + [found])
      ensures forall x :: x in nodes ==> x.sizcache == old(x.sizcache) || x.sizcache == doneName
    {
      found := No;
      var elem := start;
      ghost var goal := Nearest(nodes, rank, dir, t, start);
      while elem != null
        invariant elem != null ==> elem in nodes
        invariant found == No && Nearest(nodes, rank, dir, t, elem) == goal
        // nodes this walk has marked lie behind it and share its goal
        invariant forall x :: x in nodes && x.sizcache == doneName ==>
                    if x.sizset == |decided|
                    then Nearest(nodes, rank, dir, t, x) == goal && Left(rank, elem) < Left(rank, x)
                    else x.sizset < |decided| && decided[x.sizset] == Nearest(nodes, rank, dir, t, x)
        invariant forall x :: x in nodes ==> x.sizcache == old(x.sizcache) || x.sizcache == doneName
        decreases Left(rank, elem)
      {
        if elem.sizcache == doneName {
          found := decided[elem.sizset];
          break;
        }
        found := Visit(t, doneName, |decided|, elem, isXML);
        if found != No {
          break;
        }
        elem := elem.Along(dir);
      }
    }

    // One node of that walk: an element is marked and then tested.
    method Visit(t: Test, doneName: nat, index: nat, elem: Node, isXML: bool) returns (hit: Entry)
      requires !t.ByName?
      modifies elem`sizcache, elem`sizset
      ensures hit == if Passes(t, elem) then Hit(t, elem) else No
      ensures if elem.IsElement() && !isXML then elem.sizcache == doneName && elem.sizset == index
              else elem.sizcache == old(elem.sizcache) && elem.sizset == old(elem.sizset)
    {
      hit := No;
      if elem.IsElement() {
        if !isXML {
          elem.sizcache := doneName;
          elem.sizset := index;
        }
        if t.ByNode? {
          if elem == t.n {
            hit := Yes;
          }
        } else if t.p(elem) {
          hit := At(elem);
        }
      }
    }

    // The passes for "" and "~": a fresh pass number, then the matching walk.
    method Relative(dir: Dir, t: Test, checkSet: array<Entry>, isXML: bool,
                    ghost nodes: set<Node>, ghost rank: map<Node, nat>)
      requires Valid(nodes) && Walkable(nodes, rank, dir)
      requires forall i :: 0 <= i < checkSet.Length && checkSet[i].At? ==> checkSet[i].n in nodes
      modifies this, checkSet, nodes`sizcache, nodes`sizset
      ensures Valid(nodes) && done == old(done) + 1
      ensures forall i :: 0 <= i < checkSet.Length ==>
                checkSet[i] == Walked(nodes, rank, dir, t, old(checkSet[i]))
    {
      done := done + 1;
      if t.ByName? {
        DirNodeCheck(dir, t.name, done, checkSet, isXML, nodes, rank);
      } else {
        DirCheck(dir, t, done, checkSet, isXML, nodes, rank);
      }
    }
  }

  ghost predicate Unmarked(nodes: set<Node>, doneName: nat)
    reads nodes
  {
    forall x :: x in nodes ==> x.sizcache != doneName
  }

  // Every mark of this pass names an entry already decided, whose result is the
  // node's own.
  ghost predicate Sound(nodes: set<Node>, rank: map<Node, nat>, dir: Dir, t: Test, doneName: nat, decided: seq<Entry>)
    requires Walkable(nodes, rank, dir)
    reads nodes
  {
    forall x :: x in nodes && x.sizcache == doneName ==>
      x.sizset < |decided| && decided[x.sizset] == Nearest(nodes, rank, dir, t, x)
  }
}
