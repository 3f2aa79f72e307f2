/**
  The "fx" queue of one element.  The sentinel at its head stands for the step in
  progress; a step says that it is over by calling `next`.
*/
module FxQueue {
  import opened Basics

  datatype Item = InProgress | Step(id: nat)

  function Steps(items: seq<Item>): seq<nat> {
    if items == [] then []
    else Steps(items[..|items| - 1]) + match items[|items| - 1] case InProgress => [] case Step(id) => [id]
  }

  // Without the sentinel at its head, if it is there.
  function Behind(items: seq<Item>): seq<Item> {
    if items != [] && items[0] == InProgress then items[1..] else items
  }

  predicate NoSentinel(items: seq<Item>) {
    forall i :: 0 <= i < |items| ==> items[i].Step?
  }

  function Queued(ids: seq<nat>): (items: seq<Item>)
    ensures |items| == |ids| && NoSentinel(items)
  {
    seq(|ids|, i requires 0 <= i < |ids| => Step(ids[i]))
  }

  class Queue {
    var data: Option<seq<Item>>     // None once removed from the element
    ghost var added: seq<nat>       // steps queued so far
    ghost var started: seq<nat>     // steps started so far
    ghost var inProgress: nat       // of these, those that have not called next

    ghost function Pending(): seq<Item>
      reads this
    {
      if data.None? then [] else Behind(data.value)
    }

    // The sentinel is nowhere but at the head.
    ghost predicate HeadOnly()
      reads this
    {
      data.Some? ==> NoSentinel(Behind(data.value))
    }

    // And an empty queue is removed.
    ghost predicate Shape()
      reads this
    {
      HeadOnly() && (data.Some? ==> data.value != [])
    }

    // At most one step is in progress, and exactly then the sentinel is there;
    // nothing waits for nobody; steps start in the order queued, none left out.
    ghost predicate Valid()
      reads this
    {
      && Shape() && inProgress <= 1
      && (inProgress == 1 <==> data.Some?)
      && (data.Some? ==> data.value[0] == InProgress)
      && added == started + Steps(Pending())
    }

    // Steps start in the order queued; when none is in progress all have started.
    lemma StartsInOrder()
      requires Valid()
      ensures started <= added && (inProgress == 0 ==> started == added)
    {
    }

    constructor ()
      ensures Valid() && added == []
    {
      data, added, started, inProgress := None, [], [], 0;
    }

    // jQuery.dequeue
    method Dequeue()
      requires HeadOnly()
      modifies this
      ensures Shape() && added == old(added)
      ensures old(Pending()) == [] ==> data == None && started == old(started) && inProgress == old(inProgress)
      ensures old(Pending()) != [] ==>
                && data.Some? && data.value[0] == InProgress && Pending() == old(Pending())[1..]
                && started == old(started) + [old(Pending())[0].id] && inProgress == old(inProgress) + 1
    {
      var queue := if data.Some? then data.value else [];
      var next: Option<Item> := None;
      if |queue| > 0 {
        next, queue := Some(queue[0]), queue[1..];
      }
      if next == Some(InProgress) {
        next := None;
        if |queue| > 0 {
          next, queue := Some(queue[0]), queue[1..];
        }
      }
      if next.Some? {
        queue := [InProgress] + queue;
        started, inProgress := started + [next.value.id], inProgress + 1;    // the step is called
      }
      data := if |queue| > 0 then Some(queue) else None;
    }

    // $(element).queue(step)
    method Enqueue(id: nat)
      requires Valid()
      modifies this
      ensures Valid() && added == old(added) + [id]
      ensures started == if old(inProgress) == 0 then old(started) + [id] else old(started)
    {
      ghost var waiting := Pending();
      data := Some((if data.Some? then data.value else []) + [Step(id)]);
      added := added + [id];
      assert Pending() == waiting + [Step(id)];
      assert (waiting + [Step(id)])[..|waiting|] == waiting;
      if data.value[0] != InProgress {
        Dequeue();
      }
    }

    // The step in progress calls its next.
    method Next()
      requires Valid() && inProgress == 1
      modifies this
      ensures Valid() && added == old(added)
      ensures if old(Pending()) == [] then inProgress == 0 && started == old(started)
              else inProgress == 1 && started == old(started) + [old(Pending())[0].id]
    {
      StepsFirst(Pending());
      inProgress := 0;
      Dequeue();
    }

    // Dequeuing out of turn, say by calling next twice: all is still well exactly
    // if no step was in progress.
    method DequeueOutOfTurn()
      requires Valid()
      modifies this
      ensures Valid() <==> old(inProgress) == 0
    {
      Dequeue();
    }

    // $(element).queue(steps) or clearQueue(): an array replaces whatever waits, and
    // with it the sentinel of a step in progress.  So the first new step starts at
    // once in any case, and all is well exactly if no step was in progress.
    method Replace(ids: seq<nat>)
      requires Valid()
      modifies this
      ensures added == old(started) + ids
      ensures if ids == [] then data == None && started == old(started) && inProgress == old(inProgress)
              else Pending() == Queued(ids)[1..] && started == old(started) + ids[..1] && inProgress == old(inProgress) + 1
      ensures Valid() <==> old(inProgress) == 0
    {
      data, added := Some(Queued(ids)), started + ids;
      StepsQueued(ids);
      StepsFirst(Queued(ids));
      if |data.value| == 0 || data.value[0] != InProgress {
        Dequeue();
      }
    }
  }

  lemma {:induction false} StepsQueued(ids: seq<nat>)
    ensures Steps(Queued(ids)) == ids
  {
    if ids != [] {
      StepsQueued(ids[..|ids| - 1]);
      assert Queued(ids)[..|ids| - 1] == Queued(ids[..|ids| - 1]);
    }
  }

  lemma {:induction false} StepsFirst(items: seq<Item>)
    requires NoSentinel(items)
    ensures items != [] ==> Steps(items) == [items[0].id] + Steps(items[1..])
  {
    if |items| > 1 {
      StepsFirst(items[..|items| - 1]);
      assert items[..|items| - 1][1..] == items[1..][..|items| - 2];
    }
  }
}
