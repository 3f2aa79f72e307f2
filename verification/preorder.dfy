/** Pre-order of a finite tree, with nodes named by their paths from the root. */
module Preorder {
  // The children chosen on the way down from the root.
  type Path = seq<nat>

  datatype Tree = Tree(kids: seq<Tree>)

  predicate IsPath(t: Tree, p: Path)
    decreases |p|
  {
    p == [] || (p[0] < |t.kids| && IsPath(t.kids[p[0]], p[1..]))
  }

  // The traversal: the root, then each child's traversal in turn.
  function Walk(t: Tree): seq<Path>
    decreases t, 1, 0
  {
    [[]] + WalkKids(t, 0)
  }

  function WalkKids(t: Tree, i: nat): seq<Path>
    requires i <= |t.kids|
    decreases t, 0, |t.kids| - i
  {
    if i == |t.kids| then [] else Under(i, Walk(t.kids[i])) + WalkKids(t, i + 1)
  }

  function Under(i: nat, ps: seq<Path>): (r: seq<Path>)
    ensures |r| == |ps| && forall k :: 0 <= k < |r| ==> r[k] == [i] + ps[k]
  {
    seq(|ps|, k requires 0 <= k < |ps| => [i] + ps[k])
  }

  // p's node comes before q's: an ancestor before its descendants, an earlier
  // branch before a later one.
  predicate Before(p: Path, q: Path)
    decreases |p|
  {
    q != [] && (p == [] || p[0] < q[0] || (p[0] == q[0] && Before(p[1..], q[1..])))
  }

  lemma {:induction false} BeforeIsTotal(p: Path, q: Path)
    ensures Before(p, q) <==> p != q && !Before(q, p)
    decreases |p|
  {
    if p != [] && q != [] {
      assert p == [p[0]] + p[1..] && q == [q[0]] + q[1..];
      BeforeIsTotal(p[1..], q[1..]);
    }
  }

  lemma {:induction false} BeforeTransitive(p: Path, q: Path, r: Path)
    requires Before(p, q) && Before(q, r)
    ensures Before(p, r)
    decreases |p|
  {
    if p != [] && p[0] == q[0] && q[0] == r[0] {
      BeforeTransitive(p[1..], q[1..], r[1..]);
    }
  }

  // Two paths with a common start are ordered by what follows it.
  lemma {:induction false} BeforeUnder(c: Path, p: Path, q: Path)
    ensures Before(c + p, c + q) <==> Before(p, q)
    decreases |c|
  {
    if c == [] {
      assert c + p == p && c + q == q;
    } else {
      assert (c + p)[1..] == c[1..] + p && (c + q)[1..] == c[1..] + q;
      BeforeUnder(c[1..], p, q);
    }
  }

  ghost predicate Increasing(ps: seq<Path>) {
    forall i, j :: 0 <= i < j < |ps| ==> Before(ps[i], ps[j])
  }

  lemma {:induction false} WalkIncreasing(t: Tree)
    ensures Increasing(Walk(t))
    decreases t, 1, 0
  {
    WalkKidsIncreasing(t, 0);
  }

  lemma {:induction false} WalkKidsIncreasing(t: Tree, i: nat)
    requires i <= |t.kids|
    ensures Increasing(WalkKids(t, i))
    ensures forall p :: p in WalkKids(t, i) ==> p != [] && p[0] >= i
    decreases t, 0, |t.kids| - i
  {
    if i < |t.kids| {
      WalkIncreasing(t.kids[i]);
      WalkKidsIncreasing(t, i + 1);
      var a, b := Under(i, Walk(t.kids[i])), WalkKids(t, i + 1);
      forall k, m | 0 <= k < m < |a| ensures Before(a[k], a[m]) {
        BeforeUnder([i], Walk(t.kids[i])[k], Walk(t.kids[i])[m]);
      }
      forall k, m | 0 <= k < |a| && 0 <= m < |b| ensures Before(a[k], b[m]) {
        assert b[m] in b;
      }
    }
  }

  lemma {:induction false} WalkComplete(t: Tree, p: Path)
    ensures p in Walk(t) <==> IsPath(t, p)
    decreases t, 1, 0
  {
    WalkKidsComplete(t, 0, p);
    assert Walk(t)[0] == [];
  }

  lemma {:induction false} WalkKidsComplete(t: Tree, i: nat, p: Path)
    requires i <= |t.kids|
    ensures p in WalkKids(t, i) <==> p != [] && p[0] >= i && IsPath(t, p)
    decreases t, 0, |t.kids| - i
  {
    if i < |t.kids| {
      WalkKidsComplete(t, i + 1, p);
      var w := Walk(t.kids[i]);
      var a := Under(i, w);
      if p != [] && p[0] == i {
        WalkComplete(t.kids[i], p[1..]);
        assert p == [i] + p[1..];
        if p[1..] in w {
          var k :| 0 <= k < |w| && w[k] == p[1..];
          assert a[k] == p;
        }
        if p in a {
          var k :| 0 <= k < |a| && a[k] == p;
          assert w[k] == a[k][1..];
        }
      }
    }
  }
}
