/**
  The handlers of one element for one event type.  jQuery keeps those with a
  selector first and counts them; what the list stands for is simply the handlers
  in the order they were added.
*/
module EventTable {
  import opened Basics

  // An absent selector is the empty string; both are falsy.
  datatype Handler = Handler(guid: nat, origType: string, namespace: string, selector: string)

  predicate Delegated(h: Handler) { h.selector != "" }

  predicate Undelegated(h: Handler) { h.selector == "" }

  function Filter(hs: seq<Handler>, p: Handler -> bool): seq<Handler> {
    if hs == [] then []
    else Filter(hs[..|hs| - 1], p) + if p(hs[|hs| - 1]) then [hs[|hs| - 1]] else []
  }

  // Which handlers a call of remove names.
  datatype Criteria = Criteria(
    mapped: bool,                  // the type was expanded from "all types"
    origType: string,
    guid: Option<nat>,
    inNamespace: string -> bool,   // the namespace pattern, true where none is given
    selector: string)              // "" for any, "**" for any but the absent one

  predicate Meets(h: Handler, c: Criteria) {
    && (c.mapped || c.origType == h.origType)
    && (c.guid.None? || c.guid.value == h.guid)
    && c.inNamespace(h.namespace)
    && (c.selector == "" || c.selector == h.selector || (c.selector == "**" && h.selector != ""))
  }

  function Spared(c: Criteria): Handler -> bool {
    h => !Meets(h, c)
  }

  // Handlers to be called with the event at one node; None is the element itself.
  datatype Round = Round(node: Option<nat>, matches: seq<Handler>)

  // The delegated handlers whose selector matches node n.
  function Picked(matches: (nat, string) -> bool, n: nat): Handler -> bool {
    h => Delegated(h) && matches(n, h.selector)
  }

  // What an event runs: from its target up to just below the element (nodes
  // 0 .. depth - 1), the matching delegated handlers; then the plain ones.
  function Rounds(hs: seq<Handler>, matches: (nat, string) -> bool, depth: nat): seq<Round> {
    if depth == 0 then []
    else
      var m := Filter(hs, Picked(matches, depth - 1));
      Rounds(hs, matches, depth - 1) + if m == [] then [] else [Round(Some(depth - 1), m)]
  }

  function Selectors(hs: seq<Handler>): set<string> {
    set h | h in hs :: h.selector
  }

  // The event as far as delegation looks at it.
  datatype Target = Target(disabled: bool, isClick: bool, button: nat)

  // Disabled elements and clicks with another button than the left one do not
  // delegate.
  predicate Delegates(e: Target) {
    !e.disabled && !(e.isClick && e.button != 0)
  }

  function Plan(hs: seq<Handler>, matches: (nat, string) -> bool, depth: nat, e: Target): seq<Round> {
    var plain := Filter(hs, Undelegated);
    (if Delegates(e) then Rounds(hs, matches, depth) else []) + if plain == [] then [] else [Round(None, plain)]
  }

  // Where splice inserts: negative positions count from the end.
  function SpliceAt(start: int, len: nat): (r: nat)
    ensures r <= len
  {
    if start > len then len else if start >= 0 then start else if len + start > 0 then len + start else 0
  }

  class Handlers {
    var items: seq<Handler>
    var delegateCount: int
    ghost var all: seq<Handler>    // in the order they were added

    ghost predicate Valid()
      reads this
    {
      && items == Filter(all, Delegated) + Filter(all, Undelegated)
      && delegateCount == |Filter(all, Delegated)|
    }

    constructor ()
      ensures Valid() && all == []
    {
      items, delegateCount, all := [], 0, [];
    }

    // event.add, given `selector`; for a plain function it is the handler's own.
    method Add(h: Handler, selector: string)
      requires Valid()
      modifies this
      ensures all == old(all) + [h]
      ensures Valid() <==> (selector != "" <==> Delegated(h))
    {
      ghost var d, p := Filter(all, Delegated), Filter(all, Undelegated);
      if selector != "" {
        var at := SpliceAt(delegateCount, |items|);
        items := items[..at] + [h] + items[at..];
        delegateCount := delegateCount + 1;
      } else {
        items := items + [h];
      }
      all := all + [h];
      FilterLast(old(all), h, Delegated);
      FilterLast(old(all), h, Undelegated);
      assert items == if selector != "" then d + [h] + p else d + p + [h];
    }

    // event.remove
    method Remove(c: Criteria)
      requires Valid()
      modifies this
      ensures Valid() && all == Filter(old(all), Spared(c))
    {
      hide Filter;
      DelegatesOfParts(all);
      RemoveLoop(c);
      all := Filter(all, Spared(c));
      FilterSplit(Filter(old(all), Delegated), Filter(old(all), Undelegated), Spared(c));
      FilterSwap(old(all), Delegated, Spared(c));
      FilterSwap(old(all), Undelegated, Spared(c));
      DelegatesOfParts(all);
    }

    method RemoveLoop(c: Criteria)
      requires delegateCount == |Filter(items, Delegated)|
      modifies `items, `delegateCount
      ensures items == Filter(old(items), Spared(c)) && delegateCount == |Filter(items, Delegated)|
    {
      hide Filter;
      ghost var was, k, spared := items, 0, [];
      FilterNothing(Spared(c));
      assert was[..0] == [];
      var i := 0;
      while i < |items|
        invariant 0 <= k <= |was| && spared == Filter(was[..k], Spared(c)) && i == |spared|
        invariant items == spared + was[k..]
        invariant delegateCount == |Filter(items, Delegated)|
        decreases |was| - k
      {
        RemoveRound(was, k, spared, items, c);
        var h := items[i];
        if Meets(h, c) {
          items := items[..i] + items[i + 1..];
          if h.selector != "" {
            delegateCount := delegateCount - 1;
          }
        } else {
          i := i + 1;
        }
        k := k + 1;
        spared := Filter(was[..k], Spared(c));
      }
      assert was[..k] == was;
    }

    // The part of dispatch that lines up the handlers: the first delegateCount for
    // each node on the way up, then the rest for the element itself.
    method LineUp(matches: (nat, string) -> bool, depth: nat, e: Target) returns (queue: seq<Round>)
      requires Valid()
      ensures queue == Plan(all, matches, depth, e)
    {
      queue := [];
      if delegateCount > 0 && !e.disabled && !(e.button != 0 && e.isClick) {
        for cur := 0 to depth
          invariant queue == Rounds(all, matches, cur)
        {
          var found, _ := PickHandlers(matches, cur);
          if |found| > 0 {
            queue := queue + [Round(Some(cur), found)];
          }
        }
      } else if Delegates(e) {
        NoRounds(all, matches, depth);
      }
      assert items[delegateCount..] == Filter(all, Undelegated);
      if |items| > delegateCount {
        queue := queue + [Round(None, items[delegateCount..])];
      }
    }

    // The inner loop; `asked` are the selectors it tests the node for, in order:
    // those of delegated handlers, each once.
    method PickHandlers(matches: (nat, string) -> bool, cur: nat) returns (found: seq<Handler>, asked: seq<string>)
      requires Valid()
      ensures found == Filter(all, Picked(matches, cur))
      ensures forall sel :: sel in asked <==> sel in Selectors(Filter(all, Delegated))
      ensures forall i, j :: 0 <= i < j < |asked| ==> asked[i] != asked[j]
    {
      var known: map<string, bool> := map[];
      found, asked := [], [];
      FilterMembers(all, Delegated);
      FilterNothing(Picked(matches, cur));
      hide Filter;
      for j := 0 to delegateCount
        invariant forall sel :: sel in known ==> known[sel] == matches(cur, sel)
        invariant forall sel :: sel in asked <==> sel in known
        invariant forall i, k :: 0 <= i < k < |asked| ==> asked[i] != asked[k]
        invariant known.Keys == Selectors(items[..j])
        invariant found == Filter(items[..j], Picked(matches, cur))
      {
        var h := items[j];
        assert h == Filter(all, Delegated)[j];
        assert items[..j + 1] == items[..j] + [h];
        FilterLast(items[..j], h, Picked(matches, cur));
        SelectorsGrow(items[..j], h);
        if h.selector !in known {
          known := known[h.selector := matches(cur, h.selector)];
          asked := asked + [h.selector];
        }
        if known[h.selector] {
          found := found + [h];
        }
      }
      assert items[..delegateCount] == Filter(all, Delegated);
      FilterNarrower(all, Delegated, Picked(matches, cur));
    }
  }

  // ---- filtering

  lemma FilterNothing(p: Handler -> bool)
    ensures Filter([], p) == []
  {
  }

  lemma FilterLast(hs: seq<Handler>, h: Handler, p: Handler -> bool)
    ensures Filter(hs + [h], p) == Filter(hs, p) + if p(h) then [h] else []
  {
    assert (hs + [h])[..|hs|] == hs;
  }

  lemma {:induction false} FilterSplit(a: seq<Handler>, b: seq<Handler>, p: Handler -> bool)
    ensures Filter(a + b, p) == Filter(a, p) + Filter(b, p)
    decreases |b|
  {
    if b == [] {
      assert a + b == a;
    } else {
      var most, h := b[..|b| - 1], b[|b| - 1];
      FilterSplit(a, most, p);
      FilterLast(a + most, h, p);
      assert a + b == a + most + [h];
    }
  }

  lemma {:induction false} FilterMembers(hs: seq<Handler>, p: Handler -> bool)
    ensures forall h :: h in Filter(hs, p) ==> h in hs && p(h)
  {
    if hs != [] {
      FilterMembers(hs[..|hs| - 1], p);
    }
  }

  lemma SelectorsGrow(hs: seq<Handler>, h: Handler)
    ensures Selectors(hs + [h]) == Selectors(hs) + {h.selector}
  {
    assert forall g :: g in hs + [h] <==> g in hs || g == h;
    assert h in hs + [h];
  }

  lemma {:induction false} FilterAll(hs: seq<Handler>, p: Handler -> bool)
    ensures (forall h :: h in hs ==> p(h)) ==> Filter(hs, p) == hs
    ensures (forall h :: h in hs ==> !p(h)) ==> Filter(hs, p) == []
  {
    if hs != [] {
      FilterAll(hs[..|hs| - 1], p);
      assert hs[|hs| - 1] in hs;
    }
  }

  lemma {:induction false} FilterSwap(hs: seq<Handler>, p: Handler -> bool, q: Handler -> bool)
    ensures Filter(Filter(hs, p), q) == Filter(Filter(hs, q), p)
  {
    if hs != [] {
      var most, h := hs[..|hs| - 1], hs[|hs| - 1];
      FilterSwap(most, p, q);
      assert Filter(most, p) + [] == Filter(most, p) && Filter(most, q) + [] == Filter(most, q);
      FilterLast(Filter(most, p), h, q);
      FilterLast(Filter(most, q), h, p);
    }
  }

  lemma {:induction false} FilterNarrower(hs: seq<Handler>, p: Handler -> bool, q: Handler -> bool)
    requires forall h :: q(h) ==> p(h)
    ensures Filter(Filter(hs, p), q) == Filter(hs, q)
  {
    if hs != [] {
      var most, h := hs[..|hs| - 1], hs[|hs| - 1];
      FilterNarrower(most, p, q);
      assert Filter(most, p) + [] == Filter(most, p);
      FilterLast(Filter(most, p), h, q);
    }
  }

  // The delegated ones of the two parts are the first part.
  lemma DelegatesOfParts(hs: seq<Handler>)
    ensures Filter(Filter(hs, Delegated) + Filter(hs, Undelegated), Delegated) == Filter(hs, Delegated)
  {
    var d, p := Filter(hs, Delegated), Filter(hs, Undelegated);
    FilterSplit(d, p, Delegated);
    FilterMembers(hs, Delegated);
    FilterMembers(hs, Undelegated);
    FilterAll(d, Delegated);
    FilterAll(p, Delegated);
  }

  lemma SplicedOut(hs: seq<Handler>, i: nat)
    requires i < |hs|
    ensures |Filter(hs, Delegated)|
         == |Filter(hs[..i] + hs[i + 1..], Delegated)| + if Delegated(hs[i]) then 1 else 0
  {
    var a, b := hs[..i], hs[i + 1..];
    FilterLast(a, hs[i], Delegated);
    FilterSplit(a + [hs[i]], b, Delegated);
    FilterSplit(a, b, Delegated);
    assert hs == a + [hs[i]] + b;
  }

  // One round of the removing loop, whose list is what was spared so far and the
  // rest of the old list.
  lemma RemoveRound(was: seq<Handler>, k: nat, spared: seq<Handler>, items: seq<Handler>, c: Criteria)
    requires k < |was| && items == spared + was[k..] && spared == Filter(was[..k], Spared(c))
    ensures var i, h := |spared|, was[k];
            && items[i] == h
            && items[..i] + items[i + 1..] == spared + was[k + 1..]
            && Filter(was[..k + 1], Spared(c)) == (if Meets(h, c) then spared else spared + [h])
            && items == spared + [h] + was[k + 1..]
            && |Filter(items, Delegated)|
               == |Filter(items[..i] + items[i + 1..], Delegated)| + if Delegated(h) then 1 else 0
  {
    hide Filter;
    assert was[..k + 1] == was[..k] + [was[k]] && was[k..] == [was[k]] + was[k + 1..];
    FilterLast(was[..k], was[k], Spared(c));
    SplicedOut(items, |spared|);
    assert items[..|spared|] == spared && items[|spared| + 1..] == was[k + 1..];
  }

  lemma {:induction false} NoRounds(hs: seq<Handler>, matches: (nat, string) -> bool, depth: nat)
    requires Filter(hs, Delegated) == []
    ensures Rounds(hs, matches, depth) == []
    decreases depth
  {
    if depth > 0 {
      NoRounds(hs, matches, depth - 1);
      FilterNarrower(hs, Delegated, Picked(matches, depth - 1));
    }
  }
}
