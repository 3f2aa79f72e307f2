/** What removing handlers spares and what an event runs, handler by handler. */
module EventMeaning {
  import opened Basics
  import opened EventTable

  // r are the handlers of hs at the positions ix, in order.
  ghost predicate Picks(hs: seq<Handler>, ix: seq<nat>, r: seq<Handler>) {
    && |r| == |ix|
    && (forall k :: 0 <= k < |ix| ==> ix[k] < |hs| && r[k] == hs[ix[k]])
    && (forall k, m :: 0 <= k < m < |ix| ==> ix[k] < ix[m])
  }

  lemma PickMore(hs: seq<Handler>, ix: seq<nat>, r: seq<Handler>)
    requires hs != [] && Picks(hs[..|hs| - 1], ix, r)
    ensures Picks(hs, ix, r + []) && Picks(hs, ix + [|hs| - 1], r + [hs[|hs| - 1]]) && |hs| - 1 !in ix
  {
  }

  lemma {:induction false} FilterPicks(hs: seq<Handler>, p: Handler -> bool) returns (ix: seq<nat>)
    ensures Picks(hs, ix, Filter(hs, p))
    ensures forall i :: 0 <= i < |hs| ==> (i in ix <==> p(hs[i]))
  {
    ix := [];
    if hs != [] {
      var n := |hs| - 1;
      ix := FilterPicks(hs[..n], p);
      PickMore(hs, ix, Filter(hs[..n], p));
      hide Picks;
      if p(hs[n]) {
        ix := ix + [n];
      }
    }
  }

  // ---- removing

  // The call names another type (unless it is for all), another function, another
  // namespace, or another selector: "" is for any, and "**" for any that is one.
  predicate Escapes(h: Handler, c: Criteria) {
    || (!c.mapped && h.origType != c.origType)
    || (c.guid.Some? && h.guid != c.guid.value)
    || !c.inNamespace(h.namespace)
    || (c.selector != "" && c.selector != "**" && h.selector != c.selector)
    || (c.selector == "**" && h.selector == "")
  }

  // What is left after a removal are exactly the handlers that escape it, in order.
  lemma RemovalSpares(hs: seq<Handler>, c: Criteria) returns (ix: seq<nat>)
    ensures Picks(hs, ix, Filter(hs, Spared(c)))
    ensures forall i :: 0 <= i < |hs| ==> (i in ix <==> Escapes(hs[i], c))
  {
    hide Picks;
    ix := FilterPicks(hs, Spared(c));
    forall i | 0 <= i < |hs| ensures i in ix <==> Escapes(hs[i], c) {
      assert Spared(c)(hs[i]) <==> Escapes(hs[i], c);
    }
  }

  // The table keeps the handlers with a selector first, each kind in order.
  lemma KindsApart(hs: seq<Handler>) returns (withSelector: seq<nat>, without: seq<nat>)
    ensures Picks(hs, withSelector, Filter(hs, Delegated)) && Picks(hs, without, Filter(hs, Undelegated))
    ensures forall i :: 0 <= i < |hs| ==> (i in withSelector <==> hs[i].selector != "") && (i in without <==> hs[i].selector == "")
  {
    hide Picks;
    withSelector := FilterPicks(hs, Delegated);
    without := FilterPicks(hs, Undelegated);
  }

  // ---- dispatching

  // A round at node n runs, in order, the handlers with a selector that n matches.
  ghost predicate RoundAt(hs: seq<Handler>, matches: (nat, string) -> bool, n: nat, ix: seq<nat>, r: seq<Handler>) {
    && Picks(hs, ix, r)
    && forall i :: 0 <= i < |hs| ==> (i in ix <==> hs[i].selector != "" && matches(n, hs[i].selector))
  }

  lemma RoundPicks(hs: seq<Handler>, matches: (nat, string) -> bool, n: nat) returns (ix: seq<nat>)
    ensures RoundAt(hs, matches, n, ix, Filter(hs, Picked(matches, n)))
  {
    hide Picks;
    ix := FilterPicks(hs, Picked(matches, n));
    forall i | 0 <= i < |hs| ensures i in ix <==> hs[i].selector != "" && matches(n, hs[i].selector) {
      var h := hs[i];
      assert Picked(matches, n)(h) == (Delegated(h) && matches(n, h.selector));
    }
  }

  ghost predicate IsRound(hs: seq<Handler>, matches: (nat, string) -> bool, depth: nat, r: Round) {
    && r.node.Some? && r.node.value < depth && r.matches != []
    && r.matches == Filter(hs, Picked(matches, r.node.value))
  }

  // The rounds go up from the target, one for each node that has something to run.
  ghost predicate GoUp(hs: seq<Handler>, matches: (nat, string) -> bool, depth: nat, rs: seq<Round>) {
    && (forall k :: 0 <= k < |rs| ==> IsRound(hs, matches, depth, rs[k]))
    && (forall k, m :: 0 <= k < m < |rs| ==> rs[k].node.value < rs[m].node.value)
  }

  lemma {:induction false} RoundsGoUp(hs: seq<Handler>, matches: (nat, string) -> bool, depth: nat)
    ensures GoUp(hs, matches, depth, Rounds(hs, matches, depth))
    decreases depth
  {
    if depth > 0 {
      RoundsGoUp(hs, matches, depth - 1);
      var rs, most := Rounds(hs, matches, depth), Rounds(hs, matches, depth - 1);
      var m := Filter(hs, Picked(matches, depth - 1));
      hide Filter;
      assert rs == most || (m != [] && rs == most + [Round(Some(depth - 1), m)]);
      forall k | 0 <= k < |rs| ensures IsRound(hs, matches, depth, rs[k]) {
        if k < |most| {
          assert IsRound(hs, matches, depth - 1, most[k]);
        }
      }
    }
  }

  // What the nodes up to depth - 1 give is the beginning of what those up to depth
  // give; the last one adds its round if it has anything to run.
  lemma RoundsGrow(hs: seq<Handler>, matches: (nat, string) -> bool, depth: nat)
    requires depth > 0
    ensures var all, most, m := Rounds(hs, matches, depth), Rounds(hs, matches, depth - 1), Filter(hs, Picked(matches, depth - 1));
            && |most| <= |all| && (forall k :: 0 <= k < |most| ==> all[k] == most[k])
            && (m != [] ==> |all| == |most| + 1 && all[|most|] == Round(Some(depth - 1), m))
  {
    hide Filter;
  }

  // A round stays where it is, however many nodes there are above its own.
  lemma {:induction false} RoundStays(hs: seq<Handler>, matches: (nat, string) -> bool, from: nat, depth: nat, k: nat, r: Round)
    requires from <= depth && k < |Rounds(hs, matches, from)| && Rounds(hs, matches, from)[k] == r
    ensures k < |Rounds(hs, matches, depth)| && Rounds(hs, matches, depth)[k] == r
    decreases depth
  {
    hide Rounds;
    if from < depth {
      RoundStays(hs, matches, from, depth - 1, k, r);
      RoundsGrow(hs, matches, depth);
    }
  }

  lemma RoundsMissNone(hs: seq<Handler>, matches: (nat, string) -> bool, depth: nat, n: nat) returns (k: nat)
    requires n < depth && Filter(hs, Picked(matches, n)) != []
    ensures k < |Rounds(hs, matches, depth)|
    ensures Rounds(hs, matches, depth)[k] == Round(Some(n), Filter(hs, Picked(matches, n)))
  {
    hide Rounds, Filter;
    RoundsGrow(hs, matches, n + 1);
    k := |Rounds(hs, matches, n)|;
    RoundStays(hs, matches, n + 1, depth, k, Round(Some(n), Filter(hs, Picked(matches, n))));
  }

  // Some round at node n runs h.
  predicate RunsAt(rounds: seq<Round>, n: nat, h: Handler) {
    exists k :: 0 <= k < |rounds| && rounds[k].node == Some(n) && h in rounds[k].matches
  }

  // What an event runs: first the rounds of the nodes, unless the target is disabled
  // or it is a click with another button than the left one (0); then, in one round
  // for the element itself, the handlers without a selector, in order.
  lemma PlanMeans(hs: seq<Handler>, matches: (nat, string) -> bool, depth: nat, e: Target) returns (rounds: seq<Round>, plain: seq<Handler>, ix: seq<nat>)
    ensures Plan(hs, matches, depth, e) == rounds + if plain == [] then [] else [Round(None, plain)]
    ensures Picks(hs, ix, plain) && forall i :: 0 <= i < |hs| ==> (i in ix <==> hs[i].selector == "")
    ensures e.disabled || (e.isClick && e.button != 0) ==> rounds == []
    ensures forall k, m :: 0 <= k < m < |rounds| ==>
              rounds[k].node.Some? && rounds[m].node.Some? && rounds[k].node.value < rounds[m].node.value
    ensures forall k :: 0 <= k < |rounds| ==>
              && rounds[k].node.Some? && rounds[k].node.value < depth && rounds[k].matches != []
              && exists ix :: RoundAt(hs, matches, rounds[k].node.value, ix, rounds[k].matches)
    ensures !e.disabled && !(e.isClick && e.button != 0) ==>
              forall n, i :: 0 <= n < depth && 0 <= i < |hs| && hs[i].selector != "" && matches(n, hs[i].selector) ==>
                RunsAt(rounds, n, hs[i])
  {
    rounds := if Delegates(e) then Rounds(hs, matches, depth) else [];
    plain := Filter(hs, Undelegated);
    hide Picks;
    ix := FilterPicks(hs, Undelegated);
    RoundsGoUp(hs, matches, depth);
    hide Rounds, Filter;
    forall k | 0 <= k < |rounds|
      ensures IsRound(hs, matches, depth, rounds[k])
      ensures exists ix :: RoundAt(hs, matches, rounds[k].node.value, ix, rounds[k].matches)
    {
      var at := RoundPicks(hs, matches, rounds[k].node.value);
    }
    if Delegates(e) {
      forall n, i | 0 <= n < depth && 0 <= i < |hs| && hs[i].selector != "" && matches(n, hs[i].selector)
        ensures RunsAt(rounds, n, hs[i])
      {
        var found := Filter(hs, Picked(matches, n));
        Runs(hs, matches, n, i);
        var k := RoundsMissNone(hs, matches, depth, n);
        assert rounds[k].matches == found;
      }
    }
  }

  lemma Runs(hs: seq<Handler>, matches: (nat, string) -> bool, n: nat, i: nat)
    requires i < |hs| && hs[i].selector != "" && matches(n, hs[i].selector)
    ensures hs[i] in Filter(hs, Picked(matches, n))
  {
    var at := RoundPicks(hs, matches, n);
    var k :| 0 <= k < |at| && at[k] == i;
  }
}
