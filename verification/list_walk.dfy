/** The deletion-safe traversal of a linked list. */
module ListWalk {

  class Item {
    var p_next: Item?
  }

  class Queue {
    var p_first: Item?
  }

  function ItemAt(items: seq<Item>, i: nat): Item? {
    if i < |items| then items[i] else null
  }

  lemma ItemIsAt(items: seq<Item>, i: nat)
    ensures ItemAt(items, i) == null <==> i >= |items|
    ensures i < |items| ==> ItemAt(items, i) == items[i]
  {
  }

  // The list runs through `items` and ends.
  ghost predicate Runs(list: Queue, items: seq<Item>)
    reads list, items
  {
    && list.p_first == ItemAt(items, 0)
    && (forall i :: 0 <= i < |items| ==> items[i].p_next == ItemAt(items, i + 1))
    && (forall i, j :: 0 <= i < j < |items| ==> items[i] != items[j])
  }

  // The items from n on are linked as they were.
  ghost predicate RunsOn(items: seq<Item>, n: nat)
    reads items
  {
    forall i :: n <= i < |items| ==> items[i].p_next == ItemAt(items, i + 1)
  }

  // The traversal with any body that, in round k, changes the head of the list and
  // the links of the items in `reach(k)` as it likes, as long as those are none of
  // the items still to come: unlinking the current item, moving it to another list
  // or freeing it are such bodies.  Every item is visited once, in order.
  method ForEach(list: Queue, reach: nat -> set<Item>, relink: (nat, Item) -> Item?, head: nat -> Item?,
                 ghost items: seq<Item>) returns (visited: seq<Item>)
    requires Runs(list, items)
    requires forall k, j :: 0 <= k < j < |items| ==> items[j] !in reach(k)
    modifies list, items, set k: nat, x | k < |items| && x in reach(k) :: x
    ensures visited == items
  {
    hide ItemAt;
    visited := [];
    ItemIsAt(items, 0);
    ItemIsAt(items, 1);
    var item := list.p_first;
    var itemNext := if item != null then item.p_next else null;
    while item != null
      invariant |visited| <= |items| && visited == items[..|visited|]
      invariant item == ItemAt(items, |visited|) && itemNext == ItemAt(items, |visited| + 1)
      invariant RunsOn(items, |visited| + 1)
      decreases |items| - |visited|
    {
      var k := |visited|;
      ItemIsAt(items, k);
      ItemIsAt(items, k + 1);
      assert forall j :: k < j < |items| ==> items[j] !in reach(k);
      visited := visited + [item];
      list.p_first := head(k);
      forall x | x in reach(k) {
        x.p_next := relink(k, x);
      }
      item := itemNext;
      itemNext := if itemNext != null then itemNext.p_next else null;
      ItemIsAt(items, k + 2);
    }
    ItemIsAt(items, |visited|);
  }
}
