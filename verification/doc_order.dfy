/** Sizzle's fallback document-order comparator, and uniqueSort on top of it. */
module DocOrder {
  import opened Dom
  import opened Preorder

  type Doc = map<Path, Node>

  function NextSibling(p: Path): Path
    requires p != []
  {
    p[..|p| - 1] + [p[|p| - 1] + 1]
  }

  // The nodes of one tree, linked as the DOM links them; `sourceIndex`, where the
  // browser fills it in, follows the traversal.
  ghost predicate Laid(t: Tree, doc: Doc)
    reads doc.Values
  {
    && (forall p :: p in doc <==> IsPath(t, p))
    && (forall p, q :: p in doc && q in doc && doc[p] == doc[q] ==> p == q)
    && (forall p {:trigger Linked(doc, p)} :: p in doc ==> Linked(doc, p))
    && (forall p, q :: p in doc && q in doc && doc[p].sourceIndex != 0 && doc[q].sourceIndex != 0 && Before(p, q)
          ==> doc[p].sourceIndex < doc[q].sourceIndex)
  }

  ghost predicate Linked(doc: Doc, p: Path)
    requires p in doc
    reads doc.Values
  {
    if p == [] then doc[p].parentNode == null && doc[p].nextSibling == null
    else
      && p[..|p| - 1] in doc && doc[p].parentNode == doc[p[..|p| - 1]]
      && doc[p].nextSibling == if NextSibling(p) in doc then doc[NextSibling(p)] else null
  }

  const TWINS := Tree([Tree([]), Tree([])])

  lemma TwinPaths(p: Path)
    ensures IsPath(TWINS, p) <==> p == [] || p == [0] || p == [1]
  {
    if p != [] {
      assert |p| == 1 ==> p == [p[0]];
    }
  }

  // The smallest document with siblings.
  method TwoChildren() returns (ghost doc: Doc)
    ensures Laid(TWINS, doc)
  {
    hide IsPath, Before;
    var root := new Node(null, null, DOCUMENT, "#document", 0);
    var first := new Node(root, null, ELEMENT, "a", 0);
    var second := new Node(root, first, ELEMENT, "b", 0);
    first.nextSibling := second;
    root.firstChild := first;
    doc := map[[] := root, [0] := first, [1] := second];
    assert NextSibling([0]) == [1] && NextSibling([1]) == [2];
    assert [2] !in doc && [0][..0] == [] && [1][..0] == [];
    forall p ensures p in doc <==> IsPath(TWINS, p) {
      TwinPaths(p);
    }
    assert Linked(doc, []) && Linked(doc, [0]) && Linked(doc, [1]);
  }

  // r is negative, zero or positive as p comes before, is, or comes after q.
  predicate Ranks(r: int, p: Path, q: Path) {
    (r < 0 <==> Before(p, q)) && (r == 0 <==> p == q) && (r > 0 <==> Before(q, p))
  }

  // How many children a node has.
  function Kids(t: Tree, p: Path): nat
    requires IsPath(t, p)
    decreases |p|
  {
    if p == [] then |t.kids| else Kids(t.kids[p[0]], p[1..])
  }

  lemma {:induction false} KidPaths(t: Tree, p: Path, i: nat)
    requires IsPath(t, p)
    ensures IsPath(t, p + [i]) <==> i < Kids(t, p)
    decreases |p|
  {
    if p == [] {
      assert p + [i] == [i];
    } else {
      assert (p + [i])[1..] == p[1..] + [i];
      KidPaths(t.kids[p[0]], p[1..], i);
    }
  }

  // The next sibling of child k is child k + 1.
  lemma SiblingLink(t: Tree, doc: Doc, c: Path, k: nat)
    requires Laid(t, doc) && c + [k] in doc
    ensures IsPath(t, c) && k < Kids(t, c)
    ensures doc[c + [k]].nextSibling == if c + [k + 1] in doc then doc[c + [k + 1]] else null
  {
    hide IsPath, Kids, Before;
    var p := c + [k];
    assert p[..|p| - 1] == c && p[|p| - 1] == k;
    assert NextSibling(p) == c + [k + 1];
    assert Linked(doc, p);
    IsParent(t, c, k);
    KidPaths(t, c, k);
  }

  // Scans the siblings after x for y.
  method SiblingCheck(x: Node, y: Node, same: int, ghost t: Tree, ghost doc: Doc, ghost c: Path, ghost i: nat, ghost j: nat)
    returns (r: int)
    requires Laid(t, doc) && c + [i] in doc && c + [j] in doc && x == doc[c + [i]] && y == doc[c + [j]]
    ensures r == if i == j then same else if i < j then -1 else 1
  {
    hide Laid, IsPath, Kids;
    OneNodePerPath(t, doc, c + [i], c + [j]);
    assert (c + [i])[|c|] == i && (c + [j])[|c|] == j;
    if x == y {
      return same;
    }
    SiblingLink(t, doc, c, i);
    SiblingLink(t, doc, c, j);
    var cur := x.nextSibling;
    ghost var k := i + 1;
    while cur != null
      invariant k > i && (j <= i || j >= k)
      invariant cur == if c + [k] in doc then doc[c + [k]] else null
      decreases if k < Kids(t, c) then Kids(t, c) - k else 0
    {
      SiblingLink(t, doc, c, k);
      if cur == y {
        OneNodePerPath(t, doc, c + [k], c + [j]);
        assert (c + [k])[|c|] == k;
        return -1;
      }
      cur := cur.nextSibling;
      k := k + 1;
    }
    if i < j {
      EarlierSibling(t, doc, c, k, j);
    }
    return 1;
  }

  // Where child j is, every earlier child is.
  lemma EarlierSibling(t: Tree, doc: Doc, c: Path, k: nat, j: nat)
    requires Laid(t, doc) && IsPath(t, c) && c + [j] in doc && k <= j
    ensures c + [k] in doc
  {
    KidPaths(t, c, j);
    KidPaths(t, c, k);
  }

  lemma IsParent(t: Tree, c: Path, i: nat)
    requires IsPath(t, c + [i])
    ensures IsPath(t, c)
    decreases |c|
  {
    if c != [] {
      assert (c + [i])[1..] == c[1..] + [i];
      IsParent(t.kids[c[0]], c[1..], i);
    }
  }

  // Every start of a node's path is an ancestor's path.
  lemma {:induction false} Parent(t: Tree, doc: Doc, p: Path, m: nat)
    requires Laid(t, doc) && p in doc && m <= |p|
    ensures p[..m] in doc
    ensures doc[p[..m]].parentNode == if m == 0 then null else var q := p[..m - 1]; if q in doc then doc[q] else null
    ensures m > 0 ==> p[..m - 1] in doc
    decreases |p| - m
  {
    if m == |p| {
      assert p[..m] == p;
    } else {
      Parent(t, doc, p, m + 1);
    }
    assert Linked(doc, p[..m]);
    assert m > 0 ==> p[..m][..m - 1] == p[..m - 1];
  }

  // The ancestors of a node, from the root down.
  method Ancestors(x: Node, ghost t: Tree, ghost doc: Doc, ghost p: Path) returns (up: seq<Node>)
    requires Laid(t, doc) && p in doc && x == doc[p]
    ensures |up| == |p| && forall k :: 0 <= k < |p| ==> p[..k] in doc && up[k] == doc[p[..k]]
  {
    hide Laid;
    up := [];
    var cur := x.parentNode;
    ghost var m := |p|;
    Parent(t, doc, p, m);
    assert p[..m] == p;
    while cur != null
      invariant 0 <= m <= |p| && |up| == |p| - m
      invariant if m == 0 then cur == null else p[..m - 1] in doc && cur == doc[p[..m - 1]]
      invariant forall k :: m <= k < |p| ==> p[..k] in doc && up[k - m] == doc[p[..k]]
      decreases m
    {
      m := m - 1;
      Parent(t, doc, p, m);
      up := [cur] + up;
      cur := cur.parentNode;
    }
  }

  // Where two paths part decides their order.
  lemma PartingDecides(p: Path, q: Path, k: nat)
    requires k < |p| && k < |q| && p[..k] == q[..k] && p[k] != q[k]
    ensures Before(p, q) <==> p[k] < q[k]
    ensures Before(q, p) <==> q[k] < p[k]
  {
    assert p == p[..k] + p[k..] && q == p[..k] + q[k..];
    BeforeUnder(p[..k], p[k..], q[k..]);
    BeforeUnder(p[..k], q[k..], p[k..]);
  }

  lemma StartIsBefore(p: Path, q: Path)
    requires p < q
    ensures Before(p, q)
  {
    assert p == p + [] && q == p + q[|p|..];
    BeforeUnder(p, [], q[|p|..]);
  }

  // The comparator's last step: compares the nodes at the first k + 1 steps of two
  // paths that agree on k steps; `same` is the answer where they are one node.
  method Fork(x: Node, y: Node, same: int, ghost t: Tree, ghost doc: Doc, ghost p: Path, ghost q: Path, ghost k: nat)
    returns (r: int)
    requires Laid(t, doc) && p in doc && q in doc && p != q
    requires k < |p| && k < |q| && p[..k] == q[..k]
    requires p[..k + 1] in doc && x == doc[p[..k + 1]] && q[..k + 1] in doc && y == doc[q[..k + 1]]
    requires p[k] == q[k] ==> same != 0 && (same < 0 <==> Before(p, q)) && (same > 0 <==> Before(q, p))
    ensures Ranks(r, p, q)
  {
    hide Laid;
    assert p[..k + 1] == p[..k] + [p[k]] && q[..k + 1] == p[..k] + [q[k]];
    r := SiblingCheck(x, y, same, t, doc, p[..k], p[k], q[k]);
    if p[k] != q[k] {
      PartingDecides(p, q, k);
    }
  }

  lemma OneNodePerPath(t: Tree, doc: Doc, p: Path, q: Path)
    requires Laid(t, doc) && p in doc && q in doc
    ensures doc[p] == doc[q] <==> p == q
    ensures doc[p].sourceIndex != 0 && doc[q].sourceIndex != 0 ==>
              (Before(p, q) ==> doc[p].sourceIndex < doc[q].sourceIndex)
              && (Before(q, p) ==> doc[q].sourceIndex < doc[p].sourceIndex)
  {
  }

  lemma SameParent(t: Tree, doc: Doc, p: Path, q: Path)
    requires Laid(t, doc) && p in doc && q in doc && p != q && doc[p].parentNode == doc[q].parentNode
    ensures p != [] && q != [] && p[..|p| - 1] == q[..|q| - 1]
    ensures p[|p| - 1] != q[|q| - 1]
  {
    assert Linked(doc, p) && Linked(doc, q);
    if p != [] && q != [] {
      assert p == p[..|p| - 1] + [p[|p| - 1]] && q == q[..|q| - 1] + [q[|q| - 1]];
    }
  }

  // The comparator: negative, zero or positive as x stands before, at or after y.
  method Compare(x: Node, y: Node, ghost t: Tree, ghost doc: Doc, ghost p: Path, ghost q: Path) returns (r: int)
    requires Laid(t, doc) && p in doc && q in doc && x == doc[p] && y == doc[q]
    ensures (r < 0 <==> Before(p, q)) && (r == 0 <==> x == y) && (r > 0 <==> Before(q, p))
  {
    hide Laid;
    OneNodePerPath(t, doc, p, q);
    BeforeIsTotal(p, q);
    if x == y {
      return 0;
    }
    if x.sourceIndex != 0 && y.sourceIndex != 0 {
      return x.sourceIndex - y.sourceIndex;
    }
    Parent(t, doc, p, |p|);
    Parent(t, doc, q, |q|);
    assert p[..|p|] == p && q[..|q|] == q;
    if x.parentNode == y.parentNode {
      SameParent(t, doc, p, q);
      r := Fork(x, y, 0, t, doc, p, q, |p| - 1);
    } else if x.parentNode == null {
      r := -1;
    } else if y.parentNode == null {
      r := 1;
    } else {
      r := CompareDeep(x, y, t, doc, p, q);
    }
  }

  // Neither node is the root, and they have different parents.
  method CompareDeep(x: Node, y: Node, ghost t: Tree, ghost doc: Doc, ghost p: Path, ghost q: Path) returns (r: int)
    requires Laid(t, doc) && p in doc && q in doc && x == doc[p] && y == doc[q]
    requires p != [] && q != [] && p[..|p| - 1] != q[..|q| - 1]
    ensures Ranks(r, p, q)
  {
    hide Laid;
    BeforeIsTotal(p, q);
    var ap := Ancestors(x, t, doc, p);
    var bp := Ancestors(y, t, doc, q);
    var al, bl := |ap|, |bp|;
    var i := 0;
    while i < al && i < bl
      invariant 0 <= i <= al && i <= bl
      invariant i > 0 ==> p[..i - 1] == q[..i - 1]
    {
      assert p[..0] == q[..0];
      assert i > 0 ==> p[..i] == p[..i - 1] + [p[i - 1]] && q[..i] == q[..i - 1] + [q[i - 1]];
      if ap[i] != bp[i] {
        r := Fork(ap[i], bp[i], 0, t, doc, p, q, i - 1);
        return;
      }
      OneNodePerPath(t, doc, p[..i], q[..i]);
      i := i + 1;
    }
    assert p[..al] == p && q[..bl] == q;
    if i == al {
      OneIsAbove(p, q, i);
      r := Fork(x, bp[i], -1, t, doc, p, q, i - 1);
    } else {
      OneIsAbove(q, p, i);
      r := Fork(ap[i], y, 1, t, doc, p, q, i - 1);
    }
  }

  // The shorter path has no more to say: it ends at an ancestor, or parts from the
  // longer one at its last step.
  lemma OneIsAbove(p: Path, q: Path, n: nat)
    requires n == |p| > 0 && |q| >= n && p[..n - 1] == q[..n - 1] && p[..|p| - 1] != q[..|q| - 1]
    ensures |q| > n && p != q
    ensures p[n - 1] == q[n - 1] ==> Before(p, q) && !Before(q, p)
  {
    if p[n - 1] == q[n - 1] {
      assert p == q[..n];
      StartIsBefore(p, q);
      BeforeIsTotal(p, q);
    }
  }

  // Positions in the traversal and the order of paths are the same thing, so the
  // comparator compares positions.
  lemma OrderIsPosition(t: Tree, i: nat, j: nat)
    requires i < |Walk(t)| && j < |Walk(t)|
    ensures Before(Walk(t)[i], Walk(t)[j]) <==> i < j
  {
    WalkIncreasing(t);
    BeforeIsTotal(Walk(t)[i], Walk(t)[j]);
  }

  // ---- uniqueSort

  // The entries are nodes of the document, and `ps` says which.
  ghost predicate Spelled(doc: Doc, list: seq<Node>, ps: seq<Path>) {
    |list| == |ps| && forall i :: 0 <= i < |list| ==> ps[i] in doc && list[i] == doc[ps[i]]
  }

  // Sorted as the comparator sorts: nothing after what comes before it.
  ghost predicate Sorted(ps: seq<Path>) {
    forall i, j :: 0 <= i < j < |ps| ==> !Before(ps[j], ps[i])
  }

  // In a sorted list copies are neighbours.
  lemma CopiesAreNeighbours(ps: seq<Path>)
    requires Sorted(ps) && forall i :: 0 < i < |ps| ==> ps[i - 1] != ps[i]
    ensures forall i, j :: 0 <= i < j < |ps| ==> ps[i] != ps[j]
  {
    forall i, j | 0 <= i < j < |ps| ensures ps[i] != ps[j] {
      DistinctFrom(ps, j);
    }
  }

  // The engine's sort has put the list in order (`sorted`, spelled by `ps`).  No
  // sort can know its result without comparing each two neighbours in it, and the
  // comparator notes when it is given one node twice.  Adjacent copies are then
  // spliced out in place.
  method UniqueSort(sorted: seq<Node>, hasDuplicate: bool, ghost t: Tree, ghost doc: Doc, ghost ps: seq<Path>)
    returns (list: seq<Node>, ghost rs: seq<Path>)
    requires Laid(t, doc) && Spelled(doc, sorted, ps) && Sorted(ps)
    requires forall i :: 0 < i < |sorted| && sorted[i - 1] == sorted[i] ==> hasDuplicate
    ensures Spelled(doc, list, rs) && Increasing(rs)
    ensures forall x :: x in list <==> x in sorted
  {
    hide Laid;
    list, rs := sorted, ps;
    if hasDuplicate {
      var i := 1;
      while i < |list|
        invariant 1 <= i && (list != [] ==> i <= |list|)
        invariant Spelled(doc, list, rs) && Sorted(rs)
        invariant forall k, m :: 0 <= k < m < i && m < |rs| ==> rs[k] != rs[m]
        invariant forall x :: x in list <==> x in sorted
        decreases |list| - i
      {
        if list[i] == list[i - 1] {
          OneNodePerPath(t, doc, rs[i], rs[i - 1]);
          ghost var was := list;
          list := list[..i] + list[i + 1..];
          rs := rs[..i] + rs[i + 1..];
          SameMembers(was, i);
        } else {
          OneNodePerPath(t, doc, rs[i], rs[i - 1]);
          DistinctFrom(rs, i);
          i := i + 1;
        }
      }
    } else {
      CopiesAreNeighbours(rs);
    }
    forall i, j | 0 <= i < j < |rs| ensures Before(rs[i], rs[j]) {
      BeforeIsTotal(rs[i], rs[j]);
    }
  }

  lemma SameMembers(list: seq<Node>, i: nat)
    requires 0 < i < |list| && list[i] == list[i - 1]
    ensures forall x :: x in list <==> x in list[..i] + list[i + 1..]
  {
    var r := list[..i] + list[i + 1..];
    forall k | 0 <= k < |list| ensures list[k] in r {
      assert list[k] == r[if k < i then k else k - 1];
    }
  }

  // In a sorted list, what differs from its neighbour differs from all before it.
  lemma DistinctFrom(rs: seq<Path>, i: nat)
    requires 0 < i < |rs| && Sorted(rs) && rs[i - 1] != rs[i]
    ensures forall k :: 0 <= k < i ==> rs[k] != rs[i]
  {
    forall k | 0 <= k < i ensures rs[k] != rs[i] {
      if rs[k] == rs[i] {
        BeforeIsTotal(rs[i - 1], rs[i]);
      }
    }
  }
}
