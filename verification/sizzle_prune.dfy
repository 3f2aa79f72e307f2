/**
  Sizzle's passes over a whole check set.  The pass for ">" takes it for granted that
  there is a parent.  As long as that is so, every candidate goes its own way; else
  the passes throw, or the candidate turns into null, at which later loops stop.
*/
module SizzlePrune {
  import opened Basics
  import opened Dom
  import opened SizzleWalk
  import opened SizzleSelect

  ghost predicate InNodes(nodes: set<Node>, es: seq<Entry>) {
    forall i :: 0 <= i < |es| && es[i].At? ==> es[i].n in nodes
  }

  predicate Parentless(e: Entry) {
    e.At? && e.n.parentNode == null
  }

  // An entry's parent, before it is tested.
  function Raised(e: Entry): Entry {
    if !e.At? then e else if e.n.parentNode == null then Null else At(e.n.parentNode)
  }

  // The filter's loop over the raised entries stops at the first null.
  predicate CutOff(es: seq<Entry>, i: nat)
    requires i < |es|
  {
    exists k :: 0 <= k <= i && Raised(es[k]).Null?
  }

  // The pass for ">".  A tag name is looked up on the parent whether there is one or
  // not, which throws (None); a filter tests the entries ahead of the first null.
  function ChildPass(t: Test, es: seq<Entry>): (r: Option<seq<Entry>>)
    ensures r.Some? ==> |r.value| == |es|
  {
    if t.ByName? then
      if exists i :: 0 <= i < |es| && Parentless(es[i]) then None
      else Some(seq(|es|, i requires 0 <= i < |es| => ToParent(t, es[i])))
    else Some(seq(|es|, i requires 0 <= i < |es| => if CutOff(es, i) then Raised(es[i]) else ToParent(t, es[i])))
  }

  ghost function WalkPass(nodes: set<Node>, rank: map<Node, nat>, t: Test, es: seq<Entry>): (r: seq<Entry>)
    requires Walkable(nodes, rank, ParentNode) && InNodes(nodes, es)
    ensures |r| == |es| && forall i :: 0 <= i < |r| ==> r[i] == Walked(nodes, rank, ParentNode, t, es[i])
  {
    seq(|es|, i requires 0 <= i < |es| => Walked(nodes, rank, ParentNode, t, es[i]))
  }

  ghost function OnePass(nodes: set<Node>, rank: map<Node, nat>, p: Part, es: seq<Entry>): (r: Option<seq<Entry>>)
    requires Walkable(nodes, rank, ParentNode) && InNodes(nodes, es)
    ensures r.Some? ==> |r.value| == |es| && InNodes(nodes, r.value)
  {
    if p.child then ChildPass(p.t, es)
    else
      var r := WalkPass(nodes, rank, p.t, es);
      assert InNodes(nodes, r) by {
        forall i | 0 <= i < |es| ensures r[i].At? ==> r[i].n in nodes {
          WalkedInNodes(nodes, rank, ParentNode, p.t, es[i]);
        }
      }
      Some(r)
  }

  // What the passes make of a check set, part after part from the right; None if
  // one of them throws.
  ghost function Pruned(nodes: set<Node>, rank: map<Node, nat>, es: seq<Entry>, parts: seq<Part>): (r: Option<seq<Entry>>)
    requires Walkable(nodes, rank, ParentNode) && InNodes(nodes, es)
    ensures r.Some? ==> |r.value| == |es| && InNodes(nodes, r.value)
    decreases |parts|
  {
    if parts == [] then Some(es)
    else match OnePass(nodes, rank, parts[|parts| - 1], es)
      case None => None
      case Some(es1) => Pruned(nodes, rank, es1, parts[..|parts| - 1])
  }

  // Where going up from x meets a child combinator at a node without a parent: how
  // many parts are left then, 0 if it never does.
  ghost function OrphanAt(nodes: set<Node>, rank: map<Node, nat>, x: Node, parts: seq<Part>): (n: nat)
    requires Walkable(nodes, rank, ParentNode) && x in nodes
    ensures n <= |parts|
    decreases |parts|
  {
    if parts == [] then 0
    else
      var p := parts[|parts| - 1];
      var e := Moved(nodes, rank, At(x), p);
      if p.child && x.parentNode == null then |parts|
      else if e.At? then OrphanAt(nodes, rank, e.n, parts[..|parts| - 1]) else 0
  }

  ghost predicate Orphan(nodes: set<Node>, rank: map<Node, nat>, x: Node, parts: seq<Part>)
    requires Walkable(nodes, rank, ParentNode) && x in nodes
  {
    OrphanAt(nodes, rank, x, parts) > 0
  }

  ghost predicate OrphanEntry(nodes: set<Node>, rank: map<Node, nat>, e: Entry, parts: seq<Part>)
    requires Walkable(nodes, rank, ParentNode) && (e.At? ==> e.n in nodes)
  {
    e.At? && Orphan(nodes, rank, e.n, parts)
  }

  ghost predicate NoOrphans(nodes: set<Node>, rank: map<Node, nat>, es: seq<Entry>, parts: seq<Part>)
    requires Walkable(nodes, rank, ParentNode) && InNodes(nodes, es)
  {
    forall i :: 0 <= i < |es| ==> !es[i].Null? && !OrphanEntry(nodes, rank, es[i], parts)
  }

  ghost function Ascents(nodes: set<Node>, rank: map<Node, nat>, es: seq<Entry>, parts: seq<Part>): (r: seq<Entry>)
    requires Walkable(nodes, rank, ParentNode) && InNodes(nodes, es)
    ensures |r| == |es| && forall i :: 0 <= i < |r| ==> r[i] == Ascend(nodes, rank, es[i], parts)
  {
    seq(|es|, i requires 0 <= i < |es| => Ascend(nodes, rank, es[i], parts))
  }

  predicate NoYes(es: seq<Entry>) {
    forall i :: 0 <= i < |es| ==> !es[i].Yes?
  }

  ghost predicate NoNull(es: seq<Entry>) {
    forall i :: 0 <= i < |es| ==> !es[i].Null?
  }

  // A pass that misses no parent moves every entry on its own.
  lemma PassAlone(nodes: set<Node>, rank: map<Node, nat>, es: seq<Entry>, parts: seq<Part>)
    requires IsTree(nodes, rank) && InNodes(nodes, es) && parts != [] && IsPart(parts[|parts| - 1])
    requires NoNull(es) && (parts[|parts| - 1].child ==> forall i :: 0 <= i < |es| ==> !Parentless(es[i]))
    ensures var p, rest := parts[|parts| - 1], parts[..|parts| - 1];
            var r := OnePass(nodes, rank, p, es);
            && r.Some? && NoNull(r.value)
            && Ascents(nodes, rank, r.value, rest) == Ascents(nodes, rank, es, parts)
            && (NoOrphans(nodes, rank, r.value, rest) <==> NoOrphans(nodes, rank, es, parts))
  {
    var p, rest := parts[|parts| - 1], parts[..|parts| - 1];
    var r := OnePass(nodes, rank, p, es);
    forall i | 0 <= i < |es|
      ensures r.Some? && r.value[i] == Moved(nodes, rank, es[i], p) && !r.value[i].Null?
      ensures OrphanEntry(nodes, rank, r.value[i], rest) <==> OrphanEntry(nodes, rank, es[i], parts)
    {
      if es[i].At? {
        MovedRight(nodes, rank, es[i].n, p);
      }
    }
    assert Ascents(nodes, rank, r.value, rest) == Ascents(nodes, rank, es, parts);
  }

  lemma {:induction false} NullStays(nodes: set<Node>, rank: map<Node, nat>, es: seq<Entry>, parts: seq<Part>, i: nat)
    requires IsTree(nodes, rank) && InNodes(nodes, es) && i < |es| && es[i].Null?
    ensures var r := Pruned(nodes, rank, es, parts); r.Some? ==> r.value[i].Null?
    decreases |parts|
  {
    if parts != [] {
      var r := OnePass(nodes, rank, parts[|parts| - 1], es);
      if r.Some? {
        NullStays(nodes, rank, r.value, parts[..|parts| - 1], i);
      }
    }
  }

  // A candidate that lacks a parent at a child combinator spoils the passes.
  lemma OrphanSpoils(nodes: set<Node>, rank: map<Node, nat>, es: seq<Entry>, parts: seq<Part>, i: nat)
    requires IsTree(nodes, rank) && InNodes(nodes, es) && parts != [] && parts[|parts| - 1].child
    requires i < |es| && Parentless(es[i])
    ensures Pruned(nodes, rank, es, parts) != Some(Ascents(nodes, rank, es, parts))
  {
    var p, rest := parts[|parts| - 1], parts[..|parts| - 1];
    var r := OnePass(nodes, rank, p, es);
    if r.Some? {
      assert CutOff(es, i) && r.value[i].Null?;
      NullStays(nodes, rank, r.value, rest, i);
      assert Ascend(nodes, rank, es[i], parts) == Ascend(nodes, rank, No, rest);
      NothingAscends(nodes, rank, rest);
    }
  }

  // The passes leave each candidate's own ascent exactly if none of them ever lacks
  // the parent that a child combinator asks for.
  lemma {:induction false} PrunedAlone(nodes: set<Node>, rank: map<Node, nat>, es: seq<Entry>, parts: seq<Part>)
    requires IsTree(nodes, rank) && InNodes(nodes, es) && NoNull(es) && forall p :: p in parts ==> IsPart(p)
    ensures Pruned(nodes, rank, es, parts) == Some(Ascents(nodes, rank, es, parts)) <==> NoOrphans(nodes, rank, es, parts)
    decreases |parts|
  {
    if parts == [] {
      assert Ascents(nodes, rank, es, parts) == es;
    } else {
      hide Ascend, Orphan, Walkable, ChildPass;
      var p, rest := parts[|parts| - 1], parts[..|parts| - 1];
      assert IsPart(p);
      if p.child && exists i :: 0 <= i < |es| && Parentless(es[i]) {
        var i :| 0 <= i < |es| && Parentless(es[i]);
        OrphanSpoils(nodes, rank, es, parts, i);
        OrphanHere(nodes, rank, es[i], parts);
      } else {
        PassAlone(nodes, rank, es, parts);
        PrunedAlone(nodes, rank, OnePass(nodes, rank, p, es).value, rest);
      }
    }
  }

  lemma OrphanHere(nodes: set<Node>, rank: map<Node, nat>, e: Entry, parts: seq<Part>)
    requires Walkable(nodes, rank, ParentNode) && e.At? && e.n in nodes
    requires parts != [] && parts[|parts| - 1].child && Parentless(e)
    ensures OrphanEntry(nodes, rank, e, parts)
  {
  }

  // ---- ahead of the first orphan

  ghost predicate Lost(nodes: set<Node>, rank: map<Node, nat>, e: Entry, parts: seq<Part>)
    requires Walkable(nodes, rank, ParentNode) && (e.At? ==> e.n in nodes)
  {
    e.Null? || OrphanEntry(nodes, rank, e, parts)
  }

  ghost function FirstOrphan(nodes: set<Node>, rank: map<Node, nat>, es: seq<Entry>, parts: seq<Part>): (k: nat)
    requires Walkable(nodes, rank, ParentNode) && InNodes(nodes, es)
    ensures k <= |es| && forall i :: 0 <= i < k ==> !Lost(nodes, rank, es[i], parts)
    ensures k < |es| ==> Lost(nodes, rank, es[k], parts)
  {
    if es == [] then 0
    else
      var n := |es| - 1;
      var k := FirstOrphan(nodes, rank, es[..n], parts);
      if k < n || Lost(nodes, rank, es[n], parts) then k else |es|
  }

  predicate IsFirstNull(es: seq<Entry>, k: nat) {
    k <= |es| && (forall i :: 0 <= i < k ==> !es[i].Null?) && (k < |es| ==> es[k].Null?)
  }

  // One pass treats the entries ahead of the first orphan on their own; the orphan
  // stays one or turns into null.
  lemma PassAhead(nodes: set<Node>, rank: map<Node, nat>, es: seq<Entry>, parts: seq<Part>, k: nat)
    requires IsTree(nodes, rank) && InNodes(nodes, es) && parts != [] && IsPart(parts[|parts| - 1])
    requires k <= |es| && (forall i :: 0 <= i < k ==> !Lost(nodes, rank, es[i], parts))
    requires k < |es| ==> Lost(nodes, rank, es[k], parts)
    requires OnePass(nodes, rank, parts[|parts| - 1], es).Some?
    ensures var p, rest := parts[|parts| - 1], parts[..|parts| - 1];
            var es1 := OnePass(nodes, rank, p, es).value;
            && (forall i :: 0 <= i < k ==> es1[i] == Moved(nodes, rank, es[i], p) && !Lost(nodes, rank, es1[i], rest))
            && (k < |es| ==> Lost(nodes, rank, es1[k], rest))
  {
    var p, rest := parts[|parts| - 1], parts[..|parts| - 1];
    var es1 := OnePass(nodes, rank, p, es).value;
    forall i | 0 <= i < k
      ensures p.child ==> !Raised(es[i]).Null?
      ensures var e := Moved(nodes, rank, es[i], p); !Lost(nodes, rank, e, rest)
    {
      if es[i].At? {
        MovedRight(nodes, rank, es[i].n, p);
      }
    }
    if k < |es| && p.child && !p.t.ByName? && Raised(es[k]).Null? {
      assert CutOff(es, k);
    }
  }

  // If nothing throws, each candidate ahead of the first orphan ends as its own
  // ascent, and the orphan ends as null.
  lemma {:induction false} AheadOfOrphan(nodes: set<Node>, rank: map<Node, nat>, es: seq<Entry>, parts: seq<Part>, k: nat)
    requires IsTree(nodes, rank) && InNodes(nodes, es) && forall p :: p in parts ==> IsPart(p)
    requires k <= |es| && (forall i :: 0 <= i < k ==> !Lost(nodes, rank, es[i], parts))
    requires k < |es| ==> Lost(nodes, rank, es[k], parts)
    requires Pruned(nodes, rank, es, parts).Some?
    ensures var r := Pruned(nodes, rank, es, parts).value;
            && IsFirstNull(r, k)
            && forall i :: 0 <= i < k ==> r[i] == Ascend(nodes, rank, es[i], parts)
    decreases |parts|
  {
    if parts != [] {
      hide Moved, Lost, Walkable, ChildPass;
      var p, rest := parts[|parts| - 1], parts[..|parts| - 1];
      assert IsPart(p);
      PassAhead(nodes, rank, es, parts, k);
      AheadOfOrphan(nodes, rank, OnePass(nodes, rank, p, es).value, rest, k);
    }
  }

  // ---- when the passes throw

  // Going up from x, with filters no longer tested once at most `cut` parts are left,
  // meets a child combinator with a tag name at a node without a parent.
  ghost predicate Trips(nodes: set<Node>, rank: map<Node, nat>, x: Node, parts: seq<Part>, cut: nat)
    requires Walkable(nodes, rank, ParentNode) && x in nodes
    decreases |parts|
  {
    parts != [] &&
    var p, rest := parts[|parts| - 1], parts[..|parts| - 1];
    if p.child && x.parentNode == null then p.t.ByName?
    else if p.child && !p.t.ByName? && |parts| <= cut then Trips(nodes, rank, x.parentNode, rest, cut)
    else
      var e := Moved(nodes, rank, At(x), p);
      e.At? && Trips(nodes, rank, e.n, rest, cut)
  }

  // From how many parts left on an entry is lost.
  ghost function LostAt(nodes: set<Node>, rank: map<Node, nat>, e: Entry, parts: seq<Part>): (n: nat)
    requires Walkable(nodes, rank, ParentNode) && (e.At? ==> e.n in nodes)
    ensures n <= |parts|
  {
    if e.Null? then |parts| else if e.At? then OrphanAt(nodes, rank, e.n, parts) else 0
  }

  // From how many parts left on filters are no longer tested at entry i, because an
  // entry ahead of it is lost.
  ghost function Cut(nodes: set<Node>, rank: map<Node, nat>, es: seq<Entry>, i: nat, parts: seq<Part>): (n: nat)
    requires Walkable(nodes, rank, ParentNode) && InNodes(nodes, es) && i <= |es|
    ensures n <= |parts|
  {
    if i == 0 then 0
    else
      var a, b := Cut(nodes, rank, es, i - 1, parts), LostAt(nodes, rank, es[i - 1], parts);
      if a < b then b else a
  }

  ghost predicate SomeTrips(nodes: set<Node>, rank: map<Node, nat>, es: seq<Entry>, parts: seq<Part>)
    requires Walkable(nodes, rank, ParentNode) && InNodes(nodes, es)
  {
    exists i :: 0 <= i < |es| && EntryTrips(nodes, rank, es, i, parts)
  }

  ghost predicate EntryTrips(nodes: set<Node>, rank: map<Node, nat>, es: seq<Entry>, i: nat, parts: seq<Part>)
    requires Walkable(nodes, rank, ParentNode) && InNodes(nodes, es) && i < |es|
  {
    es[i].At? && Trips(nodes, rank, es[i].n, parts, Cut(nodes, rank, es, i, parts))
  }

  lemma {:induction false} TripsBounded(nodes: set<Node>, rank: map<Node, nat>, x: Node, parts: seq<Part>, cut: nat, more: nat)
    requires Walkable(nodes, rank, ParentNode) && x in nodes && |parts| <= cut && |parts| <= more
    ensures Trips(nodes, rank, x, parts, cut) == Trips(nodes, rank, x, parts, more)
    decreases |parts|
  {
    if parts != [] {
      var p, rest := parts[|parts| - 1], parts[..|parts| - 1];
      if p.child && !p.t.ByName? && x.parentNode != null {
        TripsBounded(nodes, rank, x.parentNode, rest, cut, more);
      } else {
        var e := Moved(nodes, rank, At(x), p);
        if e.At? {
          TripsBounded(nodes, rank, e.n, rest, cut, more);
        }
      }
    }
  }

  // Filters are not tested at entry i in this pass exactly if it is cut off.
  lemma {:induction false} CutNow(nodes: set<Node>, rank: map<Node, nat>, es: seq<Entry>, i: nat, parts: seq<Part>)
    requires Walkable(nodes, rank, ParentNode) && InNodes(nodes, es) && i <= |es|
    requires parts != [] && parts[|parts| - 1].child
    ensures Cut(nodes, rank, es, i, parts) == |parts| <==> exists k :: 0 <= k < i && Raised(es[k]).Null?
  {
    if i > 0 {
      CutNow(nodes, rank, es, i - 1, parts);
    }
  }

  // What becomes of an entry in one pass that does not throw.
  lemma EntryMoves(nodes: set<Node>, rank: map<Node, nat>, es: seq<Entry>, i: nat, parts: seq<Part>)
    requires IsTree(nodes, rank) && InNodes(nodes, es) && i < |es| && parts != [] && IsPart(parts[|parts| - 1])
    requires OnePass(nodes, rank, parts[|parts| - 1], es).Some? && NoYes(es)
    ensures var p := parts[|parts| - 1];
            OnePass(nodes, rank, p, es).value[i]
            == if p.child && !p.t.ByName? && (Parentless(es[i]) || Cut(nodes, rank, es, i, parts) == |parts|)
               then Raised(es[i]) else Moved(nodes, rank, es[i], p)
    ensures parts[|parts| - 1].child && parts[|parts| - 1].t.ByName? ==> !Parentless(es[i])
  {
    var p := parts[|parts| - 1];
    if p.child {
      CutNow(nodes, rank, es, i, parts);
    }
  }

  lemma {:induction false} CutMoves(nodes: set<Node>, rank: map<Node, nat>, es: seq<Entry>, i: nat, parts: seq<Part>)
    requires IsTree(nodes, rank) && InNodes(nodes, es) && i <= |es| && parts != [] && IsPart(parts[|parts| - 1])
    requires OnePass(nodes, rank, parts[|parts| - 1], es).Some? && NoYes(es)
    ensures var rest := parts[..|parts| - 1];
            var c := Cut(nodes, rank, es, i, parts);
            Cut(nodes, rank, OnePass(nodes, rank, parts[|parts| - 1], es).value, i, rest)
            == if c == |parts| then |rest| else c
  {
    hide OnePass, Walkable;
    if i > 0 {
      CutMoves(nodes, rank, es, i - 1, parts);
      EntryMoves(nodes, rank, es, i - 1, parts);
      if es[i - 1].At? {
        MovedRight(nodes, rank, es[i - 1].n, parts[|parts| - 1]);
      }
    }
  }

  lemma EntryTripsMoves(nodes: set<Node>, rank: map<Node, nat>, es: seq<Entry>, i: nat, parts: seq<Part>)
    requires IsTree(nodes, rank) && InNodes(nodes, es) && i < |es| && parts != [] && IsPart(parts[|parts| - 1])
    requires OnePass(nodes, rank, parts[|parts| - 1], es).Some? && NoYes(es)
    ensures EntryTrips(nodes, rank, OnePass(nodes, rank, parts[|parts| - 1], es).value, i, parts[..|parts| - 1])
       <==> EntryTrips(nodes, rank, es, i, parts)
  {
    var p, rest := parts[|parts| - 1], parts[..|parts| - 1];
    var es1 := OnePass(nodes, rank, p, es).value;
    CutMoves(nodes, rank, es, i, parts);
    EntryMoves(nodes, rank, es, i, parts);
    if es[i].At? {
      MovedRight(nodes, rank, es[i].n, p);
    }
    if es1[i].At? {
      TripsBounded(nodes, rank, es1[i].n, rest, |parts|, |rest|);
    }
  }

  // The passes throw exactly if some candidate trips, for every chain.
  lemma {:induction false} ThrowsExactly(nodes: set<Node>, rank: map<Node, nat>, es: seq<Entry>, parts: seq<Part>)
    requires IsTree(nodes, rank) && InNodes(nodes, es) && NoYes(es) && forall p :: p in parts ==> IsPart(p)
    ensures Pruned(nodes, rank, es, parts).None? <==> SomeTrips(nodes, rank, es, parts)
    decreases |parts|
  {
    if parts != [] {
      var p, rest := parts[|parts| - 1], parts[..|parts| - 1];
      assert IsPart(p);
      var r := OnePass(nodes, rank, p, es);
      if r.None? {
        var i :| 0 <= i < |es| && Parentless(es[i]);
        assert EntryTrips(nodes, rank, es, i, parts);
      } else {
        hide EntryTrips, OnePass, Walkable;
        PassKeepsNoYes(nodes, rank, p, es);
        ThrowsExactly(nodes, rank, r.value, rest);
        forall i | 0 <= i < |es|
          ensures EntryTrips(nodes, rank, r.value, i, rest) <==> EntryTrips(nodes, rank, es, i, parts)
        {
          EntryTripsMoves(nodes, rank, es, i, parts);
        }
      }
    }
  }

  lemma {:induction false} NamesTrip(nodes: set<Node>, rank: map<Node, nat>, x: Node, parts: seq<Part>, cut: nat)
    requires Walkable(nodes, rank, ParentNode) && x in nodes
    requires forall p :: p in parts && p.child ==> p.t.ByName?
    ensures Trips(nodes, rank, x, parts, cut) <==> Orphan(nodes, rank, x, parts)
    decreases |parts|
  {
    if parts != [] {
      var p := parts[|parts| - 1];
      assert p in parts;
      var e := Moved(nodes, rank, At(x), p);
      if e.At? {
        NamesTrip(nodes, rank, e.n, parts[..|parts| - 1], cut);
      }
    }
  }

  // With nothing but tag names to the left of child combinators, they throw exactly
  // if there is an orphan.
  lemma NamesThrow(nodes: set<Node>, rank: map<Node, nat>, es: seq<Entry>, parts: seq<Part>)
    requires IsTree(nodes, rank) && InNodes(nodes, es) && NoYes(es) && NoNull(es) && forall p :: p in parts ==> IsPart(p)
    requires forall p :: p in parts && p.child ==> p.t.ByName?
    ensures Pruned(nodes, rank, es, parts).None? <==> !NoOrphans(nodes, rank, es, parts)
  {
    ThrowsExactly(nodes, rank, es, parts);
    forall i | 0 <= i < |es|
      ensures EntryTrips(nodes, rank, es, i, parts) <==> OrphanEntry(nodes, rank, es[i], parts)
    {
      if es[i].At? {
        NamesTrip(nodes, rank, es[i].n, parts, Cut(nodes, rank, es, i, parts));
      }
    }
  }

  // With nothing but filters there, they never throw.
  lemma {:induction false} FiltersNeverThrow(nodes: set<Node>, rank: map<Node, nat>, es: seq<Entry>, parts: seq<Part>)
    requires Walkable(nodes, rank, ParentNode) && InNodes(nodes, es)
    requires forall p :: p in parts && p.child ==> !p.t.ByName?
    ensures Pruned(nodes, rank, es, parts).Some?
    decreases |parts|
  {
    if parts != [] {
      var p := parts[|parts| - 1];
      assert p in parts;
      FiltersNeverThrow(nodes, rank, OnePass(nodes, rank, p, es).value, parts[..|parts| - 1]);
    }
  }

  // In a document, where every element has a parent, nobody is an orphan, and
  // nowhere if all combinators are descendant ones.
  lemma {:induction false} NobodyIsOrphan(nodes: set<Node>, rank: map<Node, nat>, x: Node, parts: seq<Part>)
    requires IsTree(nodes, rank) && x in nodes && x.IsElement() && forall p :: p in parts ==> IsPart(p)
    requires (forall n :: n in nodes && n.IsElement() ==> n.parentNode != null) || forall p :: p in parts ==> !p.child
    ensures !Orphan(nodes, rank, x, parts)
    decreases |parts|
  {
    if parts != [] {
      var p := parts[|parts| - 1];
      assert IsPart(p) && p in parts;
      MovedRight(nodes, rank, x, p);
      var e := Moved(nodes, rank, At(x), p);
      if e.At? {
        NobodyIsOrphan(nodes, rank, e.n, parts[..|parts| - 1]);
      }
    }
  }

  // ---- the passes themselves

  function Live(xs: seq<Node>): (es: seq<Entry>)
    ensures |es| == |xs| && forall i :: 0 <= i < |es| ==> es[i] == At(xs[i])
  {
    seq(|xs|, i requires 0 <= i < |xs| => At(xs[i]))
  }

  // The pass for ">" with a tag name.
  method ChildByName(name: string, checkSet: array<Entry>) returns (thrown: bool)
    requires NoYes(checkSet[..])
    modifies checkSet
    ensures thrown <==> ChildPass(ByName(name), old(checkSet[..])).None?
    ensures !thrown ==> ChildPass(ByName(name), old(checkSet[..])) == Some(checkSet[..])
  {
    ghost var was := checkSet[..];
    for i := 0 to checkSet.Length
      invariant forall j :: 0 <= j < i ==> !Parentless(was[j]) && checkSet[j] == ToParent(ByName(name), was[j])
      invariant forall j :: i <= j < checkSet.Length ==> checkSet[j] == was[j]
    {
      assert !was[i].Yes?;
      if checkSet[i].At? {
        var parent := checkSet[i].n.parentNode;
        if parent == null {
          assert Parentless(was[i]);
          return true;    // reads the name of null
        }
        checkSet[i] := if parent.nodeName == name then At(parent) else No;
      }
    }
    assert checkSet[..] == ChildPass(ByName(name), was).value;
    return false;
  }

  // The pass for ">" with another filter.
  method ChildByFilter(p: Node -> bool, checkSet: array<Entry>)
    requires NoYes(checkSet[..])
    modifies checkSet
    ensures ChildPass(ByFilter(p), old(checkSet[..])) == Some(checkSet[..])
  {
    ghost var was := checkSet[..];
    for i := 0 to checkSet.Length
      invariant forall j :: 0 <= j < i ==> checkSet[j] == Raised(was[j])
      invariant forall j :: i <= j < checkSet.Length ==> checkSet[j] == was[j]
    {
      if checkSet[i].At? {
        var parent := checkSet[i].n.parentNode;
        checkSet[i] := if parent == null then Null else At(parent);
      }
    }
    var i := 0;
    while i < checkSet.Length && checkSet[i] != Null
      invariant 0 <= i <= checkSet.Length
      invariant forall j :: 0 <= j < i ==> !Raised(was[j]).Null? && checkSet[j] == ToParent(ByFilter(p), was[j])
      invariant forall j :: i <= j < checkSet.Length ==> checkSet[j] == Raised(was[j])
    {
      if checkSet[i].At? {
        var x := checkSet[i].n;
        if !(x.IsElement() && p(x)) {
          checkSet[i] := No;
        }
      }
      i := i + 1;
    }
    forall j | 0 <= j < checkSet.Length
      ensures checkSet[j] == if CutOff(was, j) then Raised(was[j]) else ToParent(ByFilter(p), was[j])
    {
      if j >= i {
        assert Raised(was[i]).Null?;
      }
    }
    assert checkSet[..] == ChildPass(ByFilter(p), was).value;
  }

  // The loop over the parts, right to left.
  method Prune(sizzle: Sizzle, candidates: seq<Node>, parts: seq<Part>, isXML: bool,
               ghost nodes: set<Node>, ghost rank: map<Node, nat>) returns (checkSet: array<Entry>, thrown: bool)
    requires IsTree(nodes, rank) && sizzle.Valid(nodes) && forall p :: p in parts ==> IsPart(p)
    requires InNodes(nodes, Live(candidates))
    modifies sizzle, nodes`sizcache, nodes`sizset
    ensures sizzle.Valid(nodes) && fresh(checkSet)
    ensures thrown <==> Pruned(nodes, rank, Live(candidates), parts).None?
    ensures !thrown ==> Pruned(nodes, rank, Live(candidates), parts) == Some(checkSet[..]) && NoYes(checkSet[..])
  {
    hide Walkable, ChildPass, WalkPass;
    checkSet := new Entry[|candidates|](i requires 0 <= i < |candidates| => At(candidates[i]));
    var todo := |parts|;
    ghost var goal := Pruned(nodes, rank, Live(candidates), parts);
    assert parts[..todo] == parts && checkSet[..] == Live(candidates);
    while todo > 0
      invariant 0 <= todo <= |parts| && sizzle.Valid(nodes)
      invariant InNodes(nodes, checkSet[..]) && NoYes(checkSet[..])
      invariant Pruned(nodes, rank, checkSet[..], parts[..todo]) == goal
    {
      ghost var before := checkSet[..];
      var part := parts[todo - 1];
      assert IsPart(part) && parts[..todo][..todo - 1] == parts[..todo - 1];
      if part.child && part.t.ByName? {
        thrown := ChildByName(part.t.name, checkSet);
        if thrown {
          return;
        }
      } else if part.child {
        ChildByFilter(part.t.p, checkSet);
      } else {
        sizzle.Relative(ParentNode, part.t, checkSet, isXML, nodes, rank);
        assert checkSet[..] == WalkPass(nodes, rank, part.t, before);
      }
      PassKeepsNoYes(nodes, rank, part, before);
      todo := todo - 1;
    }
    assert parts[..todo] == [];
    thrown := false;
  }

  lemma PassKeepsNoYes(nodes: set<Node>, rank: map<Node, nat>, p: Part, es: seq<Entry>)
    requires IsTree(nodes, rank) && InNodes(nodes, es) && NoYes(es) && IsPart(p)
    ensures var r := OnePass(nodes, rank, p, es); r.Some? ==> NoYes(r.value)
  {
    var r := OnePass(nodes, rank, p, es);
    forall i | 0 <= i < |es| && r.Some? ensures !r.value[i].Yes? {
      if es[i].At? {
        MovedRight(nodes, rank, es[i].n, p);
      }
    }
  }
}
