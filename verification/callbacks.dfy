/**
  The callback list of jQuery.Callbacks, with the indices the source keeps.
  Whenever the firing loop calls a callback the list is suspended (`frame`): user
  code may then use any method, and `Resume` says that the callback returned.
  `view` is the index-free meaning of the fields, and every method changes it by
  the operation of CallbackSpec of the same name.
*/
module CallbackList {
  import opened Basics
  import opened CallbackSpec
  import opened CallbackRuns

  class Callbacks {
    const flags: Flags
    var list: Option<seq<Fn>>          // None once disabled
    var stack: Option<seq<Payload>>    // firings waiting; None once locked
    var memory: Memory
    var firing: bool
    var firingStart: nat
    var firingLength: int
    var firingIndex: int
    var frame: Phase                   // the callback being called, with the loop's locals
    ghost var view: State

    ghost predicate Holds(v: State)
      reads this
    {
      && flags == v.flags
      && list == (if v.live then Some(Fns(v.done + v.todo)) else None)
      && stack == (if v.open then Some(v.queue) else None)
    }

    ghost predicate Tied(v: State)
      reads this
    {
      Holds(v) && memory == v.memory
    }

    // The loop's place is behind the entries passed, and its bound is that of the
    // list; in a list emptied meanwhile they are where they were.
    ghost predicate Placed(v: State, next: int)
      reads this
    {
      && next == |v.done| + v.lag
      && |v.todo| + v.phantom == (if firingLength > next then firingLength - next else 0)
      && (v.done + v.todo != [] ==> firingLength == |v.done| + |v.todo|)
    }

    ghost predicate Valid()
      reads this
    {
      && Tied(view) && Inv(view)
      && frame == view.phase && firing == !frame.Idle? && firingStart == 0
      && (firing ==> Placed(view, firingIndex + 1))
    }

    constructor (flags: Flags)
      ensures Valid() && view == New(flags) && this.flags == flags
    {
      hide Inv;
      NewKeeps(flags);
      this.flags := flags;
      list, stack, memory := Some([]), Some([]), Unset;
      firing, firingStart, firingLength, firingIndex := false, 0, 0, 0;
      frame := Idle;
      view := New(flags);
    }

    method Has(f: Fn) returns (found: bool)
      ensures found <==> list.Some? && f in list.value
    {
      if list.Some? {
        var i := 0;
        while i < |list.value|
          invariant 0 <= i <= |list.value| && f !in list.value[..i]
        {
          if f == list.value[i] { return true; }
          i := i + 1;
        }
      }
      return false;
    }

    // Appends the functions among `args`, arrays flattened.
    method Push(args: seq<Arg>)
      requires list.Some?
      modifies `list
      ensures list == Some(old(list.value) + Collect(flags.unique, old(list.value), Flatten(args)))
      decreases args
    {
      ghost var start := list.value;
      var i := 0;
      assert args[..0] == [] && start + [] == start;
      while i < |args|
        invariant 0 <= i <= |args|
        invariant list == Some(start + Collect(flags.unique, start, Flatten(args[..i])))
      {
        PushArg(args[i]);
        PushStep(flags.unique, start, args, i);
        i := i + 1;
      }
      assert args[..i] == args;
    }

    method PushArg(arg: Arg)
      requires list.Some?
      modifies `list
      ensures list == Some(old(list.value) + Collect(flags.unique, old(list.value), FlattenOne(arg)))
      decreases arg
    {
      match arg
      case FnArg(f) =>
        CollectOne(flags.unique, list.value, f);
        assert list.value + [] == list.value;
        var present := Has(f);
        if !flags.unique || !present {
          list := Some(list.value + [f]);
        }
      case ListArg(items) => Push(items);
      case OtherArg => assert list.value + [] == list.value;
    }

    method Add(args: seq<Arg>)
      requires Valid()
      modifies this
      ensures Valid() && view == CallbackSpec.Add(old(view), args)
    {
      hide Inv, AtLoop, Advance, Collect, Flatten, Stamped, Join;
      InvShape(view);
      AddKeeps(view, args);
      if list.Some? {
        var start := |list.value|;
        ghost var (v, es) := Accept(view, Flatten(args));
        AcceptedFns(view, Flatten(args));
        Push(args);
        if firing {
          firingLength := |list.value|;
          view := Join(v, es);
          JoinShares(old(view), v, es);
        } else if memory.Kept? {
          ReplayReady(view, args);
          firingStart := start;
          Fire(memory.p, v.(todo := es), |view.regs|);
        } else {
          view := v.(done := view.done + es);
        }
      }
    }

    method Remove(args: seq<Arg>)
      requires Valid()
      modifies this
      ensures Valid() && view == CallbackSpec.Remove(old(view), args)
    {
      hide Ordered, NoRepeat, History, PassExact, Running, InTurn, AllEnded;
      RemoveKeeps(view, args);
      if list.Some? {
        StrikeAll(args, view.done, view.todo, view.lag);
      }
      view := CallbackSpec.Remove(view, args);
    }

    method StrikeAll(args: seq<Arg>, ghost d0: seq<Entry>, ghost t0: seq<Entry>, ghost lag: nat)
      requires list == Some(Fns(d0 + t0)) && (flags.unique ==> NoRepeat(d0 + t0))
      requires firing && d0 + t0 != [] ==> firingLength == |d0| + |t0|
      requires firing ==> firingIndex == |d0| + lag - 1 && (lag > 0 ==> t0 == [])
      modifies `list, `firingLength, `firingIndex
      ensures list == Some(Fns(Without(d0, Named(args)) + Without(t0, Named(args))))
      ensures firing ==> firingIndex == |Without(d0, Named(args))| + lag - 1
      ensures firing ==>
                firingLength - |Without(d0, Named(args))| - |Without(t0, Named(args))|
                == old(firingLength) - |d0| - |t0|
    {
      ghost var d, t, gone := d0, t0, Named(args);
      var h := 0;
      while h < |args|
        invariant 0 <= h <= |args|
        invariant Without(d, gone) == Without(d0, gone) && Without(t, gone) == Without(t0, gone)
        invariant list == Some(Fns(d + t)) && (flags.unique ==> NoRepeat(d + t))
        invariant firing ==> firingLength - |d| - |t| == old(firingLength) - |d0| - |t0|
        invariant d + t != [] ==> d0 + t0 != []
        invariant firing ==> firingIndex == |d| + lag - 1 && (lag > 0 ==> t == [])
        invariant forall k :: 0 <= k < h && args[k].FnArg? ==> args[k].f !in list.value
      {
        if args[h].FnArg? {
          d, t := Strike(args[h].f, d, t, lag, gone);
        }
        h := h + 1;
      }
      NoneNamed(d, t, args);
      WithoutNone(d, gone);
      WithoutNone(t, gone);
    }

    // Removes every occurrence of one function, keeping the loop's place.
    method Strike(f: Fn, ghost d0: seq<Entry>, ghost t0: seq<Entry>, ghost lag: nat, ghost gone: set<Fn>)
      returns (ghost d: seq<Entry>, ghost t: seq<Entry>)
      requires f in gone && list == Some(Fns(d0 + t0)) && (flags.unique ==> NoRepeat(d0 + t0))
      requires firing && d0 + t0 != [] ==> firingLength == |d0| + |t0|
      requires firing ==> firingIndex == |d0| + lag - 1 && (lag > 0 ==> t0 == [])
      modifies `list, `firingLength, `firingIndex
      ensures Without(d, gone) == Without(d0, gone) && Without(t, gone) == Without(t0, gone)
      ensures list == Some(Fns(d + t)) && (flags.unique ==> NoRepeat(d + t))
      ensures d + t != [] ==> d0 + t0 != []
      ensures firing ==> firingLength - |d| - |t| == old(firingLength) - |d0| - |t0|
      ensures firing ==> firingIndex == |d| + lag - 1 && (lag > 0 ==> t == [])
      ensures f !in list.value
      ensures forall g :: g in list.value ==> g in old(list.value)
    {
      d, t := d0, t0;
      var i := 0;
      while i < |list.value|
        invariant 0 <= i
        invariant list == Some(Fns(d + t)) && i <= |list.value| && f !in list.value[..i]
        invariant Without(d, gone) == Without(d0, gone) && Without(t, gone) == Without(t0, gone)
        invariant flags.unique ==> NoRepeat(d + t)
        invariant d + t != [] ==> d0 + t0 != []
        invariant firing ==> firingLength - |d| - |t| == old(firingLength) - |d0| - |t0|
        invariant firing ==> firingIndex == |d| + lag - 1 && (lag > 0 ==> t == [])
        invariant forall g :: g in list.value ==> g in old(list.value)
        decreases |list.value| - i
      {
        if f == list.value[i] {
          if firing {
            if i <= firingLength {
              firingLength := firingLength - 1;
              if i <= firingIndex {
                firingIndex := firingIndex - 1;
              }
            }
          }
          list := Some(list.value[..i] + list.value[i + 1..]);
          d, t := StrikeEntry(d, t, i, gone);
          if flags.unique {
            return;
          }
        } else {
          i := i + 1;
        }
      }
    }

    method FireWith(p: Payload)
      requires Valid()
      modifies this
      ensures Valid() && view == CallbackSpec.FireWith(old(view), p)
    {
      hide Inv, AtLoop, Advance;
      InvShape(view);
      FireKeeps(view, p);
      if stack.Some? {
        if firing {
          if !flags.once {
            stack := Some(stack.value + [p]);
            view := CallbackSpec.FireWith(view, p);
          }
        } else if !(flags.once && memory != Unset) {
          FireReady(view, p);
          Fire(p, TakeFiring(view, p), 0);
        }
      }
    }

    // Starts the firing loop; `v` is the list as the loop will see it.
    method Fire(p: Payload, ghost v: State, ghost from: nat)
      requires v.live && !firing && firingStart == |v.done| && v.lag == 0 && v.phantom == 0
      requires Holds(v)
      requires AtLoop(StartPass(v, p, from), p)
      modifies this
      ensures Valid() && view == Advance(StartPass(v, p, from), p)
      decreases |v.queue|, 3
    {
      memory := if flags.memory then Kept(p) else Flag;
      firing := true;
      firingIndex := firingStart;
      firingStart := 0;
      firingLength := |list.value|;
      Loop(p, StartPass(v, p, from));
    }

    // The test of the firing loop.
    method Loop(p: Payload, ghost v: State)
      requires Tied(v) && AtLoop(v, p) && firing && firingStart == 0
      requires Placed(v, firingIndex)
      modifies this
      ensures Valid() && view == Advance(v, p)
      decreases |v.queue|, 2
    {
      hide Inv, AtLoop, EndPass;
      LoopShape(v, p);
      AdvanceKeeps(v, p);
      if list.Some? && firingIndex < firingLength {
        if firingIndex < |list.value| {
          frame := Calling(list.value[firingIndex], p);
        } else {
          frame := Crashed;    // reads an element that is not there
        }
        view := Advance(v, p);
        assert v.todo != [] ==> view.done + view.todo == v.done + v.todo;
      } else {
        Finish(p, v, false);
      }
    }

    // What follows the firing loop.
    method Finish(ghost p: Payload, ghost v: State, ghost stopped: bool)
      requires Tied(v) && AtLoop(v, p) && firingStart == 0
      requires !stopped ==> v.todo == [] && !(v.live && v.phantom > 0)
      modifies this
      ensures Valid() && view == EndPass(v, stopped)
      decreases |v.queue|, 1
    {
      hide Inv, AtLoop, EndPass, Advance;
      LoopShape(v, p);
      firing := false;
      frame := Idle;
      if list.Some? {
        if !flags.once {
          if stack.Some? && |stack.value| > 0 {
            TakeNext(p, v, stopped);
            return;
          }
        } else if memory.Flag? {
          list, stack, memory := None, None, Unset;
        } else {
          list := Some([]);
        }
      }
      NothingNext(v, stopped);
      EndPassKeeps(v, p, stopped);
      view := EndPass(v, stopped);
    }

    // Fires what has waited longest; all of fireWith's tests pass here.
    method TakeNext(ghost p: Payload, ghost v: State, ghost stopped: bool)
      requires Tied(v) && AtLoop(v, p) && !firing && firingStart == 0
      requires (!stopped ==> v.todo == []) && v.live && !v.flags.once && v.queue != [] && v.open
      modifies this
      ensures Valid() && view == EndPass(v, stopped)
      decreases |v.queue|, 0
    {
      hide Inv, AtLoop, EndPass, Advance, Shape;
      var next := stack.value[0];
      ghost var n := QueuedNext(v, p, stopped);
      memory := Kept(next);
      stack := Some(stack.value[1..]);
      Fire(next, n, 0);
    }

    // The callback being called returns.
    method Resume(stop: bool)
      requires Valid() && frame.Calling?
      modifies this
      ensures Valid() && view == Return(old(view), stop)
    {
      hide Entries, History, PassExact, Running, InTurn, AllEnded;
      ReturnReady(view);
      if stop && flags.stopOnFalse {
        memory := Flag;
        Finish(frame.p, view.(memory := Flag), true);
      } else {
        firingIndex := firingIndex + 1;
        Loop(frame.p, view);
      }
    }

    method Disable()
      requires Valid()
      modifies this
      ensures Valid() && view == CallbackSpec.Disable(old(view))
    {
      hide Inv;
      InvShape(view);
      DisableKeeps(view);
      list, stack, memory := None, None, Unset;
      view := CallbackSpec.Disable(view);
    }

    method Lock()
      requires Valid()
      modifies this
      ensures Valid() && view == CallbackSpec.Lock(old(view))
    {
      hide Inv;
      InvShape(view);
      LockKeeps(view);
      stack := None;
      if memory == Unset || memory == Flag {
        list, memory := None, Unset;
      }
      view := CallbackSpec.Lock(view);
    }

    // Also revives a disabled list; a firing loop keeps its place and its bound.
    method Empty()
      requires Valid()
      modifies this
      ensures Valid() && view == CallbackSpec.Empty(old(view))
    {
      hide Inv;
      InvShape(view);
      EmptyKeeps(view);
      list := Some([]);
      view := CallbackSpec.Empty(view);
    }

    method Fired() returns (r: bool)
      requires Valid()
      ensures r <==> view.memory != Unset
    {
      r := memory != Unset;
    }
  }

  lemma {:induction false} WithoutNone(es: seq<Entry>, gone: set<Fn>)
    requires forall e :: e in es ==> e.f !in gone
    ensures Without(es, gone) == es
  {
    if es != [] {
      WithoutNone(es[1..], gone);
    }
  }

  lemma NoneNamed(d: seq<Entry>, t: seq<Entry>, args: seq<Arg>)
    requires forall k :: 0 <= k < |args| && args[k].FnArg? ==> args[k].f !in Fns(d + t)
    ensures forall e :: e in d || e in t ==> e.f !in Named(args)
  {
    forall e | e in d + t ensures e.f !in Named(args) {
      var i :| 0 <= i < |d + t| && (d + t)[i] == e;
      assert Fns(d + t)[i] == e.f;
    }
    assert forall e :: e in d || e in t ==> e in d + t;
  }

  lemma StrikeOne(es: seq<Entry>, i: nat, gone: set<Fn>)
    requires i < |es| && es[i].f in gone
    ensures Without(es[..i] + es[i + 1..], gone) == Without(es, gone)
  {
    WithoutSplits(es[..i], es[i..], gone);
    WithoutSplits(es[..i], es[i + 1..], gone);
    assert es == es[..i] + es[i..];
  }

  // Entry `i` of the list goes, from whichever part it is in.
  lemma StrikeEntry(d0: seq<Entry>, t0: seq<Entry>, i: nat, gone: set<Fn>) returns (d: seq<Entry>, t: seq<Entry>)
    requires i < |d0| + |t0| && (d0 + t0)[i].f in gone
    ensures Without(d, gone) == Without(d0, gone) && Without(t, gone) == Without(t0, gone)
    ensures |d| == (if i < |d0| then |d0| - 1 else |d0|) && |d| + |t| == |d0| + |t0| - 1
    ensures Fns(d + t) == Fns(d0 + t0)[..i] + Fns(d0 + t0)[i + 1..]
    ensures NoRepeat(d0 + t0) ==> NoRepeat(d + t) && (d0 + t0)[i].f !in Fns(d + t)
    ensures t0 == [] ==> t == []
  {
    d, t := d0, t0;
    if i < |d0| {
      StrikeOne(d0, i, gone);
      d := d0[..i] + d0[i + 1..];
    } else {
      StrikeOne(t0, i - |d0|, gone);
      t := t0[..i - |d0|] + t0[i - |d0| + 1..];
    }
    var es := d0 + t0;
    assert d + t == es[..i] + es[i + 1..];
    StrikeFns(es, d + t, i);
  }

  lemma StrikeFns(es: seq<Entry>, r: seq<Entry>, i: nat)
    requires i < |es| && r == es[..i] + es[i + 1..]
    ensures Fns(r) == Fns(es)[..i] + Fns(es)[i + 1..]
    ensures NoRepeat(es) ==> NoRepeat(r) && es[i].f !in Fns(r)
  {
    assert forall k :: 0 <= k < |r| ==> r[k] == es[if k < i then k else k + 1];
  }

  lemma AcceptedFns(s: State, fs: seq<Fn>)
    ensures var es := Accept(s, fs).1;
            var fns := Fns(s.done + s.todo) + Collect(s.flags.unique, Fns(s.done + s.todo), fs);
            && Fns(s.done + (s.todo + es)) == fns
            && (s.todo == [] ==> Fns(s.done + es) == fns == Fns(s.done + es + []))
  {
    var es := Accept(s, fs).1;
    assert s.done + (s.todo + es) == s.done + s.todo + es;
    if s.todo == [] {
      assert s.done + es == s.done + s.todo + es == s.done + es + [];
    }
  }

  // What a queued firing starts from when the pass before it is over.
  lemma QueuedNext(s: State, p: Payload, stopped: bool) returns (n: State)
    requires AtLoop(s, p) && (!stopped ==> s.todo == []) && s.live && !s.flags.once && s.queue != []
    ensures EndPass(s, stopped) == Advance(StartPass(n, s.queue[0], 0), s.queue[0])
    ensures AtLoop(StartPass(n, s.queue[0], 0), s.queue[0])
    ensures n.flags == s.flags && n.live && n.open == s.open && n.lag == 0 && n.phantom == 0
    ensures n.queue == s.queue[1..] && n.done == [] && n.done + n.todo == s.done + s.todo
  {
    n := NextFiring(Ended(s, stopped));
    NextReady(s, p, stopped);
    assert [] + (s.done + s.todo) == s.done + s.todo;
  }

  // What is left when no firing follows.
  lemma NothingNext(s: State, stopped: bool)
    requires Shape(s) && !(s.live && !s.flags.once && s.queue != [])
    ensures var r := EndPass(s, stopped);
            var ends := s.live && s.flags.once && s.memory.Flag?;
            && r.flags == s.flags && r.phase.Idle? && r.queue == s.queue
            && r.memory == (if ends then Unset else s.memory)
            && r.live == (s.live && !ends) && r.open == (s.open && !ends)
            && r.done + r.todo == if s.live && s.flags.once then [] else s.done + s.todo
  {
    assert s.done + s.todo + [] == s.done + s.todo;
  }

  lemma LoopShape(s: State, p: Payload)
    requires AtLoop(s, p)
    ensures Shape(s)
  {
  }

  lemma InvShape(s: State)
    requires Inv(s)
    ensures Shape(s) && (s.phase.Idle? ==> s.todo == [] && s.queue == [] && s.lag == 0 && s.phantom == 0)
  {
  }

  lemma CollectOne(unique: bool, present: seq<Fn>, f: Fn)
    ensures Collect(unique, present, [f]) == if unique && f in present then [] else [f]
  {
    assert [f][1..] == [];
  }

  lemma PushStep(unique: bool, start: seq<Fn>, args: seq<Arg>, i: nat)
    requires i < |args|
    ensures var before := start + Collect(unique, start, Flatten(args[..i]));
            before + Collect(unique, before, FlattenOne(args[i]))
            == start + Collect(unique, start, Flatten(args[..i + 1]))
  {
    assert args[..i + 1][..i] == args[..i];
    CollectSplits(unique, start, Flatten(args[..i]), FlattenOne(args[i]));
  }

  lemma {:induction false} CollectSplits(unique: bool, present: seq<Fn>, a: seq<Fn>, b: seq<Fn>)
    ensures Collect(unique, present, a + b)
         == Collect(unique, present, a) + Collect(unique, present + Collect(unique, present, a), b)
    decreases a
  {
    if a == [] {
      assert a + b == b && present + [] == present;
    } else {
      assert (a + b)[1..] == a[1..] + b;
      if unique && a[0] in present {
        CollectSplits(unique, present, a[1..], b);
      } else {
        CollectSplits(unique, present + [a[0]], a[1..], b);
        assert present + [a[0]] + Collect(unique, present + [a[0]], a[1..])
            == present + Collect(unique, present, a);
      }
    }
  }
}
