/** Sizzle's :nth-child filter, with the element positions it caches on nodes. */
module NthChild {
  import opened Arithmetic
  import opened Dom

  function KidAt(kids: seq<Node>, i: nat): Node? {
    if i < |kids| then kids[i] else null
  }

  // The children of a node, linked in order.
  ghost predicate Children(parent: Node, kids: seq<Node>)
    reads parent`firstChild, kids`nextSibling
  {
    && parent !in kids
    && parent.firstChild == KidAt(kids, 0)
    && (forall i :: 0 <= i < |kids| ==> kids[i].parentNode == parent && kids[i].nextSibling == KidAt(kids, i + 1))
    && (forall i, j :: 0 <= i < j < |kids| ==> kids[i] != kids[j])
  }

  // How a document comes to be so: nodes are appended one by one.
  method AppendChild(parent: Node, kids: seq<Node>, nodeType: nat, nodeName: string) returns (x: Node)
    requires Children(parent, kids)
    modifies parent`firstChild, kids`nextSibling
    ensures fresh(x) && x.nodeType == nodeType && x.nodeName == nodeName && Children(parent, kids + [x])
  {
    var last := if kids == [] then null else kids[|kids| - 1];
    x := new Node(parent, last, nodeType, nodeName, 0);
    if last == null {
      parent.firstChild := x;
    } else {
      last.nextSibling := x;
    }
  }

  function Elements(kids: seq<Node>): nat {
    if kids == [] then 0
    else Elements(kids[..|kids| - 1]) + if kids[|kids| - 1].IsElement() then 1 else 0
  }

  // They are counted: the element children, which are those of type 1.
  lemma {:induction false} ElementsAreCounted(kids: seq<Node>)
    ensures Elements(kids) == |set i | 0 <= i < |kids| && kids[i].nodeType == 1|
  {
    var all := set i | 0 <= i < |kids| && kids[i].nodeType == 1;
    if kids == [] {
      assert all == {};
    } else {
      var n := |kids| - 1;
      ElementsAreCounted(kids[..n]);
      var most := set i | 0 <= i < |kids[..n]| && kids[..n][i].nodeType == 1;
      assert all == most + if kids[n].nodeType == 1 then {n} else {};
    }
  }

  // One plus the number of element siblings before child i.
  function Index(kids: seq<Node>, i: nat): nat
    requires i <= |kids|
  {
    Elements(kids[..i]) + 1
  }

  // So the first element child has index 1, and each is one more than those before it.
  lemma IndexIsPosition(kids: seq<Node>, i: nat)
    requires i < |kids|
    ensures Index(kids, i) == 1 + |set j | 0 <= j < i && kids[j].nodeType == 1|
  {
    ElementsAreCounted(kids[..i]);
    assert (set j | 0 <= j < i && kids[j].nodeType == 1) == set j | 0 <= j < |kids[..i]| && kids[..i][j].nodeType == 1;
  }

  // Once a pass has numbered a node's children, the numbers are theirs.
  ghost predicate Cached(parent: Node, kids: seq<Node>, token: nat)
    reads parent, kids
  {
    parent.sizcache == token ==> forall i :: 0 <= i < |kids| && kids[i].IsElement() ==> kids[i].nodeIndex == Index(kids, i)
  }

  method NumberChildren(parent: Node, token: nat, ghost kids: seq<Node>)
    requires Children(parent, kids)
    modifies parent`sizcache, kids`nodeIndex
    ensures parent.sizcache == token && Cached(parent, kids, token)
  {
    var count := 0;
    var node := parent.firstChild;
    ghost var k := 0;
    while node != null
      invariant 0 <= k <= |kids| && node == KidAt(kids, k)
      invariant Children(parent, kids) && count + 1 == Index(kids, k)
      invariant forall i :: 0 <= i < k && kids[i].IsElement() ==> kids[i].nodeIndex == Index(kids, i)
      decreases |kids| - k
    {
      assert kids[..k + 1][..k] == kids[..k];
      assert node == kids[k];
      if node.IsElement() {
        count := count + 1;
        node.nodeIndex := count;
      }
      node := node.nextSibling;
      k := k + 1;
    }
    parent.sizcache := token;
  }

  // The remainder as scripts compute it: it takes the sign of the dividend.
  function Rem(x: int, y: int): int
    requires y != 0
  {
    var m := if y < 0 then -y else y;
    if x < 0 then -((-x) % m) else x % m
  }

  // Some n >= 0 has a * n + b equal to the index.
  ghost predicate Named(index: int, a: int, b: int) {
    exists n: nat :: Times(a, n) + b == index
  }

  function Times(a: int, n: nat): (r: int)
    ensures r == a * n
  {
    a * n
  }

  // That is, the index is a * n + b for such an n.
  lemma NamedHas(index: int, a: int, b: int) returns (n: nat)
    requires Named(index, a, b)
    ensures index == a * n + b
  {
    n :| Times(a, n) + b == index;
  }

  lemma NamedBy(index: int, a: int, b: int, n: nat)
    requires index == a * n + b
    ensures Named(index, a, b)
  {
    assert Times(a, n) + b == index;
  }

  predicate Formula(diff: int, a: int)
    requires a != 0
  {
    Rem(diff, a) == 0 && (diff as real) / (a as real) >= 0.0
  }

  function Abs(x: int): nat { if x < 0 then -x else x }

  lemma AbsTimes(a: int, n: nat)
    ensures Abs(a * n) == Abs(a) * n
    ensures a * n == 0 <==> a == 0 || n == 0
    ensures n > 0 ==> (a * n > 0 <==> a > 0)
  {
    if n > 0 && a > 0 {
      AtLeastOnce(a, n);
    } else if n > 0 && a < 0 {
      AtLeastOnce(-a, n);
      assert (-a) * n == -(a * n);
    }
  }

  lemma MultipleHasNoRemainder(a: int, n: nat)
    requires a != 0
    ensures Rem(a * n, a) == 0
  {
    AbsTimes(a, n);
    var m, x := Abs(a), Abs(a * n);
    QuotientIsUnique(x, m, n, 0);
  }

  lemma QuotientSign(diff: int, a: int)
    requires a != 0
    ensures (diff as real) / (a as real) >= 0.0 <==> diff == 0 || (diff > 0 <==> a > 0)
  {
    var q := (diff as real) / (a as real);
    assert q * (a as real) == diff as real;
    if q > 0.0 {
      assert a > 0 ==> q * (a as real) > 0.0;
    } else if q < 0.0 {
      assert a > 0 ==> q * (a as real) < 0.0;
    }
  }

  // The filter's test holds exactly when the index is in the progression.
  lemma FormulaIsExact(index: int, a: int, b: int)
    requires a != 0
    ensures Formula(index - b, a) <==> Named(index, a, b)
  {
    var diff := index - b;
    QuotientSign(diff, a);
    if Formula(diff, a) {
      var m, x := Abs(a), Abs(diff);
      var n := x / m;
      assert x % m == 0 && x == m * n;
      AbsTimes(a, n);
      assert Times(a, n) + b == index;
    }
    if Named(index, a, b) {
      var n: nat :| Times(a, n) + b == index;
      MultipleHasNoRemainder(a, n);
      AbsTimes(a, n);
    }
  }

  function ParentSet(x: Node): set<Node> {
    if x.parentNode == null then {} else {x.parentNode}
  }

  // Whether an element is an :nth-child(an + b).  One without a parent has no
  // index of its own, only what an earlier parent may have left on it.
  method Nth(x: Node, a: int, b: int, token: nat, ghost kids: seq<Node>, ghost i: nat) returns (r: bool)
    requires x.IsElement()
    requires x.parentNode != null ==> Children(x.parentNode, kids) && i < |kids| && x == kids[i]
    requires x.parentNode != null ==> Cached(x.parentNode, kids, token)
    modifies ParentSet(x)`sizcache, (if x.parentNode == null then [] else kids)`nodeIndex
    ensures x.parentNode != null ==> Cached(x.parentNode, kids, token)
    ensures x.parentNode != null ==> (r <==> Named(Index(kids, i), a, b))
    ensures x.parentNode == null ==>
              (r <==> (a == 1 && b == 0) || (x.nodeIndex != 0 && Named(x.nodeIndex, a, b)))
  {
    if a == 1 && b == 0 {
      if x.parentNode != null {
        assert Times(1, Index(kids, i)) + 0 == Index(kids, i);
      }
      return true;
    }
    if x.parentNode != null && (x.parentNode.sizcache != token || x.nodeIndex == 0) {
      NumberChildren(x.parentNode, token, kids);
    }
    if x.nodeIndex == 0 {
      return false;   // undefined minus b is not a number
    }
    var diff := x.nodeIndex - b;
    if a == 0 {
      r := diff == 0;
      assert forall n: nat :: Times(0, n) == 0;
      assert Times(0, 0) == 0;
    } else {
      r := Formula(diff, a);
      FormulaIsExact(x.nodeIndex, a, b);
    }
  }
}
