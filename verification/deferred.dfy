/** jQuery.Deferred: three callback lists that settle one another. */
module DeferredObject {
  import opened Basics
  import opened CallbackSpec
  import opened CallbackRuns
  import opened CallbackList
  import opened DeferredSpec

  // A "once memory" list that begins with the closures for one outcome.
  method NewSettlingList(o: Outcome) returns (list: Callbacks)
    ensures fresh(list) && list.Valid()
    ensures list.view == Add(New(ONCE_MEMORY), InternalArgs(o))
  {
    list := new Callbacks(ONCE_MEMORY);
    list.Add(InternalArgs(o));
  }

  class Deferred {
    const doneList: Callbacks
    const failList: Callbacks
    const progressList: Callbacks
    var state: Outcome

    ghost predicate Valid()
      reads this, doneList, failList, progressList
    {
      && doneList != failList && doneList != progressList && failList != progressList
      && doneList.Valid() && failList.Valid() && progressList.Valid()
    }

    ghost function View(): Promise
      reads this, doneList, failList, progressList
    {
      Promise(doneList.view, failList.view, progressList.view, state)
    }

    constructor ()
      ensures Valid() && View() == Fresh()
      ensures fresh(doneList) && fresh(failList) && fresh(progressList)
    {
      hide Inv, Add, InternalArgs;
      var done := NewSettlingList(Resolved);
      var fail := NewSettlingList(Rejected);
      doneList, failList := done, fail;
      progressList := new Callbacks(MEMORY);
      state := Pending;
    }

    function ListOf(side: Side): Callbacks {
      match side case Done => doneList case Fail => failList case Progress => progressList
    }

    // One of the Deferred's own closures runs and returns to the list calling it.
    method RunClosure(side: Side)
      requires Valid() && AtClosure(Get(View(), side))
      modifies this, doneList, failList, progressList
      ensures Valid() && View() == DeferredSpec.RunClosure(old(View()), side)
    {
      hide Inv, Advance, EndPass;
      match ListOf(side).frame.f
      case Settle(outcome) => state := outcome; ListOf(side).Resume(false);
      case DisableRival =>
        if side == Done { failList.Disable(); } else { doneList.Disable(); }
        ListOf(side).Resume(false);
      case LockProgress => progressList.Lock(); ListOf(side).Resume(false);
      case User(_) =>
    }

    // The firing loop of `side` goes on through those closures, until it calls a
    // function of the user's or stops.
    method RunClosures(side: Side)
      requires Valid()
      modifies this, doneList, failList, progressList
      ensures Valid() && View() == RunInternals(old(View()), side)
    {
      while ListOf(side).frame.Calling? && !ListOf(side).frame.f.User?
        invariant Valid() && RunInternals(View(), side) == RunInternals(old(View()), side)
        decreases |Get(View(), side).queue|, Ahead(Get(View(), side))
      {
        hide Inv, DeferredSpec.RunClosure;
        RunClosure(side);
      }
    }

    // done, fail or progress
    method Register(side: Side, args: seq<Arg>)
      requires Valid()
      modifies this, doneList, failList, progressList
      ensures Valid() && View() == DeferredSpec.Register(old(View()), side, args)
    {
      hide Inv, RunInternals, Add;
      ListOf(side).Add(args);
      RunClosures(side);
    }

    // resolveWith, rejectWith or notifyWith
    method FireWith(side: Side, p: Payload)
      requires Valid()
      modifies this, doneList, failList, progressList
      ensures Valid() && View() == DeferredSpec.Fire(old(View()), side, p)
    {
      hide Inv, RunInternals, CallbackSpec.FireWith;
      ListOf(side).FireWith(p);
      RunClosures(side);
    }

    // A user callback that `side` is calling returns.
    method Resume(side: Side, stop: bool)
      requires Valid() && ListOf(side).frame.Calling?
      modifies this, doneList, failList, progressList
      ensures Valid() && View() == DeferredSpec.Resume(old(View()), side, stop)
    {
      hide Inv, RunInternals, Return;
      ListOf(side).Resume(stop);
      RunClosures(side);
    }
  }
}
