/** The join object behind jQuery.when: its loop, counter and callbacks. */
module WhenJoin {
  import opened Basics
  import opened CallbackSpec
  import opened CallbackRuns
  import opened DeferredSpec
  import opened DeferredRuns
  import opened DeferredObject
  import opened WhenSpec

  class When {
    const args: seq<WhenSpec.Arg>
    const values: array<Value>
    const notes: array<Value>
    const master: Deferred
    var visited: nat
    var remaining: int
    ghost var view: Join

    ghost predicate Valid()
      reads this, values, notes, master, master.doneList, master.failList, master.progressList
    {
      && values != notes
      && Proper(view) && view.args == args && view.values == values[..] && view.notes == notes[..]
      && view.visited == visited && view.remaining == remaining
      && master.Valid() && master.View() == After(view.uses)
    }

    constructor (args: seq<WhenSpec.Arg>)
      ensures Valid() && view == Start(args) && this.args == args
      ensures fresh(values) && fresh(notes) && fresh(master)
      ensures fresh(master.doneList) && fresh(master.failList) && fresh(master.progressList)
    {
      hide Inv, Fresh, Act, Deferred.Valid;
      this.args := args;
      values := new Value[|args|](i requires 0 <= i < |args| => Given(args[i]));
      notes := new Value[|args|](_ => Undefined);
      master := new Deferred();
      visited, remaining := 0, |args|;
      view := Start(args);
      new;
      assert values[..] == view.values && notes[..] == view.notes;
    }

    // One round of the setup loop: a plain argument needs no waiting for.
    method VisitNext()
      requires Valid() && visited < |args|
      modifies this
      ensures Valid() && view == Next(old(view), Visit)
    {
      if args[visited].Plain? {
        remaining := remaining - 1;
      }
      visited := visited + 1;
      view := Next(view, Visit);
    }

    // The callback registered on argument i for resolution.
    method OnResolve(i: nat, p: Payload)
      requires Valid() && i < visited && args[i].Promised? && view.settled[i] == Waiting
      modifies this, values, master, master.doneList, master.failList, master.progressList
      ensures Valid() && view == Next(old(view), Solve(i, p))
    {
      hide Inv, After, Possible, Fire;
      values[i] := Packed(p.args);
      remaining := remaining - 1;
      if remaining == 0 {
        master.FireWith(Done, Payload(MASTER, values[..]));
      }
      view := Next(view, Solve(i, p));
    }

    // The master's reject, registered on argument i for rejection.
    method OnReject(i: nat, p: Payload)
      requires Valid() && i < visited && args[i].Promised? && view.settled[i] == Waiting
      modifies this, master, master.doneList, master.failList, master.progressList
      ensures Valid() && view == Next(old(view), Break(i, p))
    {
      hide Inv, After, Possible, Fire;
      master.FireWith(Fail, p);
      view := Next(view, Break(i, p));
    }

    // The callback registered on argument i for progress.
    method OnNotify(i: nat, p: Payload)
      requires Valid() && i < visited && args[i].Promised?
      modifies this, notes, master, master.doneList, master.failList, master.progressList
      ensures Valid() && view == Next(old(view), Note(i, p))
    {
      hide Inv, After, Possible, Fire;
      notes[i] := Packed(p.args);
      master.FireWith(DeferredSpec.Progress, Payload(MASTER_PROMISE, notes[..]));
      view := Next(view, Note(i, p));
    }

    // The test after the setup loop.
    method FinishSetup()
      requires Valid() && visited == |args| && !view.finished
      modifies this, master, master.doneList, master.failList, master.progressList
      ensures Valid() && view == Next(old(view), Conclude)
    {
      hide Inv, After, Possible, Fire;
      if remaining == 0 {
        master.FireWith(Done, Payload(MASTER, values[..]));
      }
      view := Next(view, Conclude);
    }

    // The user of the result registers callbacks on it.
    method Register(side: Side, fns: seq<CallbackSpec.Arg>)
      requires Valid() && Happens(view, UseMaster(Reg(side, fns)))
      modifies this, master, master.doneList, master.failList, master.progressList
      ensures Valid() && view == Next(old(view), UseMaster(Reg(side, fns)))
    {
      hide Inv, After, Possible, DeferredSpec.Register;
      master.Register(side, fns);
      view := Next(view, UseMaster(Reg(side, fns)));
    }

    // A callback of the result's user returns.
    method Resume(side: Side, stop: bool)
      requires Valid() && Happens(view, UseMaster(Returns(side, stop)))
      modifies this, master, master.doneList, master.failList, master.progressList
      ensures Valid() && view == Next(old(view), UseMaster(Returns(side, stop)))
    {
      hide Inv, After, Possible, DeferredSpec.Resume;
      master.Resume(side, stop);
      view := Next(view, UseMaster(Returns(side, stop)));
    }
  }
}
