/**
  What the vocabulary of callback lists comes to, said without it: which functions an
  `add` registers, what `remove` takes out, which firings are let in, what is
  remembered, and what disabling, locking and emptying leave possible.
*/
module CallbackMeaning {
  import opened Basics
  import opened CallbackSpec
  import opened CallbackRuns
  import opened CallbackLaws
  import opened CallbackOnce

  // ---- the functions among the arguments

  // A function is among the arguments itself, or in an array among them, at any depth.
  predicate Occurs(f: Fn, args: seq<Arg>)
    decreases args
  {
    exists i :: 0 <= i < |args| && OccursIn(f, args[i])
  }

  predicate OccursIn(f: Fn, arg: Arg)
    decreases arg
  {
    match arg
    case FnArg(g) => f == g
    case ListArg(items) => Occurs(f, items)
    case OtherArg => false
  }

  lemma OccursLast(f: Fn, args: seq<Arg>)
    requires args != []
    ensures Occurs(f, args) <==> Occurs(f, args[..|args| - 1]) || OccursIn(f, args[|args| - 1])
  {
    hide OccursIn;
    var most := args[..|args| - 1];
    if Occurs(f, most) {
      var i :| 0 <= i < |most| && OccursIn(f, most[i]);
      assert OccursIn(f, args[i]);
    }
    if Occurs(f, args) {
      var i :| 0 <= i < |args| && OccursIn(f, args[i]);
      assert i < |most| ==> OccursIn(f, most[i]);
    }
  }

  // Those are offered to the list, and no others.
  lemma {:induction false} FlattenOccurs(f: Fn, args: seq<Arg>)
    ensures f in Flatten(args) <==> Occurs(f, args)
    decreases args
  {
    if args != [] {
      var most, last := args[..|args| - 1], args[|args| - 1];
      OccursLast(f, args);
      FlattenOccurs(f, most);
      if last.ListArg? {
        FlattenOccurs(f, last.items);
      }
      hide Occurs;
      assert Flatten(args) == Flatten(most) + FlattenOne(last);
    }
  }

  lemma {:induction false} FlattenSplits(a: seq<Arg>, b: seq<Arg>)
    ensures Flatten(a + b) == Flatten(a) + Flatten(b)
    decreases |b|
  {
    if b == [] {
      assert a + b == a;
    } else {
      var most, last := b[..|b| - 1], b[|b| - 1];
      FlattenSplits(a, most);
      assert (a + b)[..|a + b| - 1] == a + most;
    }
  }

  // An array stands for its items in its place, a function for itself, and anything
  // else for nothing.
  lemma FlattenInPlace(a: seq<Arg>, b: seq<Arg>, c: seq<Arg>, f: Fn)
    ensures Flatten(a + [ListArg(b)] + c) == Flatten(a + b + c)
    ensures Flatten(a + [OtherArg] + c) == Flatten(a + c)
    ensures Flatten(a + [FnArg(f)] + c) == Flatten(a) + [f] + Flatten(c)
    ensures Flatten([]) == []
  {
    FlattenSplits(a, b);
    FlattenSplits(a + b, c);
    FlattenSplits(a, c);
    forall x ensures Flatten(a + [x] + c) == Flatten(a) + FlattenOne(x) + Flatten(c) {
      FlattenSplits(a, [x]);
      FlattenSplits(a + [x], c);
      assert [x][..0] == [];
      assert Flatten([x]) == [] + FlattenOne(x) == FlattenOne(x);
    }
    assert Flatten(a) + [] == Flatten(a);
  }

  // So nesting makes no difference to a list.
  lemma AddInPlace(s: State, a: seq<Arg>, b: seq<Arg>, c: seq<Arg>)
    ensures Add(s, a + [ListArg(b)] + c) == Add(s, a + b + c)
    ensures Add(s, a + [OtherArg] + c) == Add(s, a + c)
  {
    hide Flatten, Accept, Join, Advance;
    FlattenInPlace(a, b, c, User(0));
  }

  // ---- the functions that are really added

  // A unique list takes of what it is offered the first of each that it lacks.
  predicate IsNew(present: seq<Fn>, fs: seq<Fn>, i: nat)
    requires i < |fs|
  {
    fs[i] !in present && fs[i] !in fs[..i]
  }

  ghost predicate Picks(fs: seq<Fn>, ix: seq<nat>, r: seq<Fn>) {
    && |r| == |ix|
    && (forall k :: 0 <= k < |ix| ==> ix[k] < |fs| && r[k] == fs[ix[k]])
    && (forall k, m :: 0 <= k < m < |ix| ==> ix[k] < ix[m])
  }

  lemma NewLater(present: seq<Fn>, fs: seq<Fn>, i: nat)
    requires 0 < i < |fs|
    ensures var p1 := if fs[0] in present then present else present + [fs[0]];
            IsNew(present, fs, i) <==> IsNew(p1, fs[1..], i - 1)
  {
    assert fs[..i] == [fs[0]] + fs[1..][..i - 1];
  }

  function Up(ix: seq<nat>): (r: seq<nat>)
    ensures |r| == |ix| && forall k :: 0 <= k < |ix| ==> r[k] == ix[k] + 1
  {
    seq(|ix|, k requires 0 <= k < |ix| => ix[k] + 1)
  }

  lemma UpMembers(ix: seq<nat>, i: nat)
    ensures i in Up(ix) <==> i > 0 && i - 1 in ix
  {
    if i > 0 && i - 1 in ix {
      var k :| 0 <= k < |ix| && ix[k] == i - 1;
      assert Up(ix)[k] == i;
    }
  }

  lemma PicksUp(fs: seq<Fn>, ix: seq<nat>, r: seq<Fn>)
    requires fs != [] && Picks(fs[1..], ix, r)
    ensures Picks(fs, [] + Up(ix), [] + r) && Picks(fs, [0] + Up(ix), [fs[0]] + r)
  {
  }

  lemma {:induction false} CollectFirsts(present: seq<Fn>, fs: seq<Fn>) returns (ix: seq<nat>)
    ensures Picks(fs, ix, Collect(true, present, fs))
    ensures forall i :: 0 <= i < |fs| ==> (i in ix <==> IsNew(present, fs, i))
    decreases fs
  {
    if fs == [] {
      ix := [];
    } else {
      var skip := fs[0] in present;
      var p1 := if skip then present else present + [fs[0]];
      var rest := CollectFirsts(p1, fs[1..]);
      ix := (if skip then [] else [0]) + Up(rest);
      assert Collect(true, present, fs) == (if skip then [] else [fs[0]]) + Collect(true, p1, fs[1..]);
      hide Collect, IsNew;
      PicksUp(fs, rest, Collect(true, p1, fs[1..]));
      hide Picks;
      forall i | 0 <= i < |fs| ensures i in ix <==> IsNew(present, fs, i) {
        UpMembers(rest, i);
        if i > 0 {
          NewLater(present, fs, i);
        } else {
          NewFirst(present, fs);
        }
      }
    }
  }

  lemma NewFirst(present: seq<Fn>, fs: seq<Fn>)
    requires fs != []
    ensures IsNew(present, fs, 0) <==> fs[0] !in present
  {
  }

  // What `add` registers with a live list: all it is offered, or, if the list is
  // unique, the first of each function that it lacks; in order, behind what it has.
  lemma AddRegisters(s: State, args: seq<Arg>) returns (ix: seq<nat>)
    requires s.live
    ensures var r := Add(s, args);
            && s.regs <= r.regs
            && (!s.flags.unique ==> r.regs == s.regs + Flatten(args))
            && (s.flags.unique ==>
                  && Picks(Flatten(args), ix, r.regs[|s.regs|..])
                  && forall i :: 0 <= i < |Flatten(args)| ==> (i in ix <==> IsNew(Fns(s.done + s.todo), Flatten(args), i)))
  {
    hide Flatten, Advance;
    var fs := Flatten(args);
    ix := CollectFirsts(Fns(s.done + s.todo), fs);
    CollectAll(Fns(s.done + s.todo), fs);
    var es := Accept(s, fs).1;
    assert Fns(es) == Collect(s.flags.unique, Fns(s.done + s.todo), fs);
    assert Add(s, args).regs == s.regs + Fns(es);
  }

  // And a list that may fire again then holds what it held, and these behind it,
  // whether or not it is firing or has to call them at once.
  lemma AddContents(s: State, args: seq<Arg>)
    requires Inv(s) && s.live && !s.flags.once
    ensures var r := Add(s, args);
            Fns(r.done + r.todo) == Fns(s.done + s.todo) + r.regs[|s.regs|..]
  {
    var es := Accept(s, Flatten(args)).1;
    AddEntries(s, args);
    assert Add(s, args).regs == s.regs + Fns(es) by {
      hide Flatten, Collect, Advance;
    }
    hide Add, Accept;
    var all := s.done + s.todo;
    assert Fns(all + es) == Fns(all) + Fns(es);
  }

  lemma AddEntries(s: State, args: seq<Arg>)
    requires Inv(s) && s.live && !s.flags.once
    ensures var r := Add(s, args);
            r.done + r.todo == s.done + s.todo + Accept(s, Flatten(args)).1
  {
    hide Entries, History, PassExact, Running, AllEnded, InTurn, Flatten, Collect, Stamped, Advance;
    var (s1, es) := Accept(s, Flatten(args));
    assert s.done + s.todo + es == s.done + (s.todo + es);
    if !s.phase.Idle? {
      JoinShares(s, s1, es);
    } else {
      assert s.todo == [] && s.todo + es == es;
      if s.memory.Kept? {
        AdvanceContents(StartPass(s1.(todo := es), s.memory.p, |s.regs|), s.memory.p);
      } else {
        assert Add(s, args).done + [] == s.done + es;
      }
    }
  }

  // ---- removing

  // `remove` takes out exactly the functions that stand among its arguments
  // themselves, arrays being none, and leaves the others in order.
  lemma RemoveExactly(s: State, args: seq<Arg>)
    requires Inv(s)
    ensures var r := Remove(s, args);
            && (forall e :: e in r.done <==> e in s.done && FnArg(e.f) !in args)
            && (forall e :: e in r.todo <==> e in s.todo && FnArg(e.f) !in args)
            && Ordered(r.done + r.todo, s.regs)
  {
    RemoveKeeps(s, args);
    WithoutSelects(s.done, Named(args));
    WithoutSelects(s.todo, Named(args));
    hide Ordered, NoRepeat, LogOk, Complete, Turns, Running, PassExact;
    forall f ensures f in Named(args) <==> FnArg(f) in args {
      assert FnArg(f) in args ==> FnArg(f).FnArg? && FnArg(f).f == f;
    }
  }

  // ---- returning

  lemma {:induction false} AdvanceLog(s: State, p: Payload)
    requires s.passes != []
    ensures var r := Advance(s, p);
            s.log <= r.log && forall i :: |s.log| <= i < |r.log| ==> r.log[i].pass >= |s.passes|
    decreases |s.queue|, 1
  {
    if s.todo == [] && !(s.live && s.phantom > 0) {
      EndPassLog(s, false);
    }
  }

  lemma {:induction false} EndPassLog(s: State, stopped: bool)
    requires s.passes != []
    ensures var r := EndPass(s, stopped);
            s.log <= r.log && forall i :: |s.log| <= i < |r.log| ==> r.log[i].pass > |s.passes|
    ensures EndPass(s, stopped).passes != [] && |EndPass(s, stopped).passes| >= |s.passes|
    ensures EndPass(s, stopped).passes[|s.passes| - 1].ended
    decreases |s.queue|, 0
  {
    if s.live && !s.flags.once && s.queue != [] {
      var s2 := StartPass(NextFiring(Ended(s, stopped)), s.queue[0], 0);
      AdvanceLog(s2, s.queue[0]);
      AdvanceContinues(s2, s.queue[0]);
      var r := EndPass(s, stopped);
      assert r.passes[..|s.passes|][|s.passes| - 1] == s2.passes[..|s.passes|][|s.passes| - 1];
    }
  }

  // A callback that returns false to a list made for that ends its pass, which calls
  // nobody any more; otherwise the next in the list is called with the same payload,
  // or if there is none the pass ends.
  lemma ReturnMeans(s: State, stop: bool)
    requires Inv(s) && s.phase.Calling?
    ensures var n, r := |s.passes|, Return(s, stop);
            && n > 0 && n <= |r.passes| && s.log <= r.log
            && (stop && s.flags.stopOnFalse ==>
                  r.passes[n - 1].ended && forall i :: |s.log| <= i < |r.log| ==> r.log[i].pass > n)
            && (!(stop && s.flags.stopOnFalse) && s.todo != [] ==>
                  r.log == s.log + [Call(n, s.todo[0], s.phase.p)] && r.phase == Calling(s.todo[0].f, s.phase.p))
            && (!(stop && s.flags.stopOnFalse) && s.todo == [] && s.phantom == 0 ==> r.passes[n - 1].ended)
  {
    hide Entries, History, PassExact, InTurn, AllEnded;
    if stop && s.flags.stopOnFalse {
      EndPassLog(s.(memory := Flag), true);
    } else {
      AdvanceLog(s, s.phase.p);
      EndPassLog(s, false);
    }
  }

  // ---- disabling, locking, emptying

  lemma ShutAdvance(s: State, p: Payload)
    requires !s.open && s.queue == []
    ensures var r := Advance(s, p); !r.open && r.queue == [] && r.accepted == s.accepted && r.begun == s.begun
    ensures forall stopped :: var r := EndPass(s, stopped);
              !r.open && r.queue == [] && r.accepted == s.accepted && r.begun == s.begun
  {
  }

  lemma ShutStep(s: State, op: Op)
    requires !s.open && s.queue == [] && Enabled(s, op)
    ensures var r := Step(s, op); !r.open && r.queue == [] && r.accepted == s.accepted && r.begun == s.begun
  {
    hide Advance, EndPass, Flatten, Collect, Stamped;
    match op
    case OpAdd(args) =>
      var (s1, es) := Accept(s, Flatten(args));
      if s.memory.Kept? {
        ShutAdvance(StartPass(s1.(todo := es), s.memory.p, |s.regs|), s.memory.p);
      }
    case OpReturn(stop) =>
      ShutAdvance(s, s.phase.p);
      ShutAdvance(s.(memory := Flag), s.phase.p);
    case _ =>
  }

  // A list that is shut lets no firing in ever again.
  lemma {:induction false} ShutForGood(s: State, ops: seq<Op>)
    requires !s.open && s.queue == [] && Legal(s, ops)
    ensures var r := Run(s, ops); !r.open && r.queue == [] && r.accepted == s.accepted && r.begun == s.begun
    decreases |ops|
  {
    hide Step;
    if ops != [] {
      var most := ops[..|ops| - 1];
      ShutForGood(s, most);
      ShutStep(Run(s, most), ops[|ops| - 1]);
    }
  }

  // Nothing is left in a list, and nothing comes in.
  predicate Dead(s: State) {
    && !s.live && !s.open && s.queue == [] && s.done == [] && s.todo == []
    && !s.memory.Kept? && (!s.flags.stopOnFalse ==> s.memory == Unset)
  }

  lemma DeadStep(s: State, op: Op)
    requires Dead(s) && Enabled(s, op) && !op.OpEmpty?
    ensures var r := Step(s, op);
            Dead(r) && r.regs == s.regs && r.log == s.log && r.accepted == s.accepted && r.begun == s.begun
  {
    assert s.done + s.todo == [];
    match op
    case OpReturn(stop) =>
      assert Advance(s, s.phase.p) == EndPass(s, false) == Ended(s, false);
      assert EndPass(s.(memory := Flag), true) == Ended(s.(memory := Flag), true);
    case _ =>
  }

  // A disabled list that is not emptied registers nobody, calls nobody, lets nothing
  // in, and forgets that it has fired.
  lemma {:induction false} DisabledForGood(s: State, ops: seq<Op>)
    requires Legal(Disable(s), ops) && forall op :: op in ops ==> !op.OpEmpty?
    ensures var r := Run(Disable(s), ops);
            && Dead(r) && r.regs == s.regs && r.log == s.log && r.accepted == s.accepted && r.begun == s.begun
    ensures Run(Disable(s), ops).flags == s.flags
    decreases |ops|
  {
    hide Step;
    if ops != [] {
      var most, last := ops[..|ops| - 1], ops[|ops| - 1];
      assert last in ops;
      DisabledForGood(s, most);
      DeadStep(Run(Disable(s), most), last);
    }
  }

  // A lock leaves a remembered firing and all entries in place; without one it
  // disables the list.  Either way the list is shut.
  lemma LockMeans(s: State)
    ensures !Lock(s).open && Lock(s).queue == []
    ensures s.memory.Kept? ==> Lock(s) == s.(open := false, queue := [])
    ensures !s.memory.Kept? ==> Lock(s) == Disable(s)
  {
  }

  // Emptying leaves a live list without entries, and nothing else is changed by it
  // between firings.
  lemma EmptyMeans(s: State)
    ensures Empty(s).live && Empty(s).done == [] && Empty(s).todo == []
    ensures Empty(s).memory == s.memory && Empty(s).open == s.open && Empty(s).queue == s.queue
    ensures s.phase.Idle? ==> Empty(s) == s.(live := true, done := [], todo := [])
  {
  }

  // ---- firings let in

  predicate NeverShut(ops: seq<Op>) {
    forall op :: op in ops ==> !op.OpDisable? && !op.OpLock?
  }

  // The firing loop shuts a list only if it may fire but once.
  lemma {:induction false} AdvanceOpen(s: State, p: Payload)
    requires !s.flags.once
    ensures Advance(s, p).open == s.open
    decreases |s.queue|, 1
  {
    if s.todo == [] && !(s.live && s.phantom > 0) {
      EndPassOpen(s, false);
    }
  }

  lemma {:induction false} EndPassOpen(s: State, stopped: bool)
    requires !s.flags.once
    ensures EndPass(s, stopped).open == s.open
    decreases |s.queue|, 0
  {
    if s.live && s.queue != [] {
      AdvanceOpen(StartPass(NextFiring(Ended(s, stopped)), s.queue[0], 0), s.queue[0]);
    }
  }

  lemma FiringStep(s: State, op: Op)
    requires Enabled(s, op) && !op.OpDisable? && !op.OpLock? && !s.flags.once && s.open
    ensures Step(s, op).open && Step(s, op).accepted == s.accepted + if op.OpFire? then [op.p] else []
  {
    hide Advance, EndPass, Flatten, Collect, Stamped;
    match op
    case OpAdd(args) =>
      var (s1, es) := Accept(s, Flatten(args));
      if s.memory.Kept? {
        AdvanceOpen(StartPass(s1.(todo := es), s.memory.p, |s.regs|), s.memory.p);
      }
    case OpFire(p) => AdvanceOpen(StartPass(TakeFiring(s, p), p, 0), p);
    case OpReturn(stop) =>
      AdvanceOpen(s, s.phase.p);
      EndPassOpen(s.(memory := Flag), true);
    case _ =>
  }

  // A list that is neither locked nor disabled lets every firing in, and has begun
  // them all whenever it is idle.
  lemma {:induction false} EveryFiringRuns(flags: Flags, ops: seq<Op>)
    requires !flags.once && NeverShut(ops) && Legal(New(flags), ops)
    ensures var s := Run(New(flags), ops);
            s.open && s.accepted == Fired(ops) && (s.phase.Idle? ==> s.begun == Fired(ops))
    decreases |ops|
  {
    RunKeeps(flags, ops);
    hide Step, Entries, History, PassExact, Running, AllEnded;
    if ops != [] {
      var most, last := ops[..|ops| - 1], ops[|ops| - 1];
      assert last in ops;
      EveryFiringRuns(flags, most);
      RunKeeps(flags, most);
      FiringStep(Run(New(flags), most), last);
    }
  }

  // A list that may fire but once lets the first firing in and no other.
  ghost predicate FiredOnce(s: State, first: seq<Payload>) {
    && s.flags.once && s.accepted == first
    && (first == [] ==> s.open && s.phase.Idle? && s.memory == Unset)
    && (first != [] && s.open ==> s.memory != Unset)
  }

  lemma OnceAdvance(s: State, p: Payload)
    requires s.flags.once && (s.open ==> s.memory != Unset)
    ensures var r := Advance(s, p); r.accepted == s.accepted && (r.open ==> r.memory != Unset)
    ensures forall stopped :: var r := EndPass(s, stopped); r.accepted == s.accepted && (r.open ==> r.memory != Unset)
  {
  }

  lemma FiredOnceStep(s: State, op: Op, first: seq<Payload>)
    requires Enabled(s, op) && !op.OpDisable? && !op.OpLock? && FiredOnce(s, first)
    ensures FiredOnce(Step(s, op), if op.OpFire? && first == [] then [op.p] else first)
  {
    hide Advance, EndPass, Flatten, Collect, Stamped;
    match op
    case OpAdd(args) =>
      var (s1, es) := Accept(s, Flatten(args));
      if s.memory.Kept? {
        OnceAdvance(StartPass(s1.(todo := es), s.memory.p, |s.regs|), s.memory.p);
      }
    case OpFire(p) => OnceAdvance(StartPass(TakeFiring(s, p), p, 0), p);
    case OpReturn(stop) =>
      OnceAdvance(s, s.phase.p);
      OnceAdvance(s.(memory := Flag), s.phase.p);
    case _ =>
  }

  lemma {:induction false} FirstFiringOnly(flags: Flags, ops: seq<Op>)
    requires flags.once && NeverShut(ops) && Legal(New(flags), ops)
    ensures Run(New(flags), ops).accepted == Fired(ops)[..if Fired(ops) == [] then 0 else 1]
    ensures FiredOnce(Run(New(flags), ops), Run(New(flags), ops).accepted)
    decreases |ops|
  {
    hide Step;
    if ops != [] {
      var most, last := ops[..|ops| - 1], ops[|ops| - 1];
      assert last in ops;
      FirstFiringOnly(flags, most);
      var s := Run(New(flags), most);
      FiredOnceStep(s, last, s.accepted);
    }
  }

  // A list that may fire but once, and has, is empty between firings: it goes on
  // only to call newcomers with what it remembers, and is disabled if that is nothing.
  predicate Over(s: State) {
    && (!s.live ==> s.done == [] && s.todo == [])
    && (s.live ==> s.memory != Unset)
    && (s.phase.Idle? ==> s.done == [] && s.todo == [] && (s.live ==> s.memory.Kept?))
  }

  lemma OverAdvance(s: State, p: Payload)
    requires s.flags.once && (!s.live ==> s.done == [] && s.todo == []) && (s.live ==> s.memory != Unset)
    ensures Over(Advance(s, p))
    ensures forall stopped :: Over(EndPass(s, stopped))
  {
  }

  lemma OverStep(s: State, op: Op)
    requires s.flags.once && Enabled(s, op) && !op.OpEmpty? && (s.begun != [] ==> Over(s))
    requires (s.phase.Idle? || s.begun != []) && (s.open ==> s.live) && (!s.live ==> s.done == [] && s.todo == []) && (s.memory.Kept? ==> s.begun != [])
    ensures Step(s, op).begun != [] ==> Over(Step(s, op))
  {
    hide Advance, EndPass, Flatten, Collect, Stamped;
    match op
    case OpAdd(args) =>
      var (s1, es) := Accept(s, Flatten(args));
      if s.live && s.memory.Kept? {
        OverAdvance(StartPass(s1.(todo := es), s.memory.p, |s.regs|), s.memory.p);
      } else if s.live && s.phase.Idle? {
        assert s.begun == [] && Step(s, op).begun == [];
      }
    case OpFire(p) =>
      if s.live {
        OverAdvance(StartPass(TakeFiring(s, p), p, 0), p);
      }
    case OpReturn(stop) =>
      OverAdvance(s, s.phase.p);
      OverAdvance(s.(memory := Flag), s.phase.p);
    case _ =>
  }

  lemma {:induction false} OnceIsOver(flags: Flags, ops: seq<Op>)
    requires flags.once && Legal(New(flags), ops) && forall op :: op in ops ==> !op.OpEmpty?
    ensures var s := Run(New(flags), ops); s.begun != [] ==> Over(s)
    decreases |ops|
  {
    hide Step;
    if ops != [] {
      var most, last := ops[..|ops| - 1], ops[|ops| - 1];
      assert last in ops;
      OnceIsOver(flags, most);
      RunKeeps(flags, most);
      LastTurn(Run(New(flags), most));
      OverStep(Run(New(flags), most), last);
    }
  }

  // ---- what is remembered

  // After a pass: nothing but that there was a firing, if a callback returned false
  // or the list has no memory; else the firing itself.
  function MemoryOf(flags: Flags, on: Pass): Memory {
    if on.stopped || !flags.memory then Flag else Kept(on.p)
  }

  predicate Remembers(s: State) {
    if s.passes == [] then s.memory == Unset
    else
      var on := s.passes[|s.passes| - 1];
      s.memory == MemoryOf(s.flags, on) && (!s.phase.Idle? ==> !on.stopped)
  }

  lemma {:induction false} AdvanceRemembers(s: State, p: Payload)
    requires s.passes != [] && !s.passes[|s.passes| - 1].stopped
    requires s.live ==> s.memory == MemoryOf(s.flags, s.passes[|s.passes| - 1])
    ensures Advance(s, p).live ==> Remembers(Advance(s, p))
    decreases |s.queue|, 1
  {
    if s.todo == [] && !(s.live && s.phantom > 0) {
      EndPassRemembers(s, false);
    }
  }

  lemma {:induction false} EndPassRemembers(s: State, stopped: bool)
    requires s.passes != [] && !s.passes[|s.passes| - 1].stopped
    requires s.live ==> s.memory == if stopped then Flag else MemoryOf(s.flags, s.passes[|s.passes| - 1])
    ensures EndPass(s, stopped).live ==> Remembers(EndPass(s, stopped))
    decreases |s.queue|, 0
  {
    if s.live && !s.flags.once && s.queue != [] {
      AdvanceRemembers(StartPass(NextFiring(Ended(s, stopped)), s.queue[0], 0), s.queue[0]);
    }
  }

  lemma StepRemembers(s: State, op: Op)
    requires Enabled(s, op) && Remembers(s) && (s.phase.Idle? || s.passes != [])
    ensures Step(s, op).live && (op.OpEmpty? ==> s.live) ==> s.live && Remembers(Step(s, op))
  {
    hide Advance, EndPass, Flatten, Collect, Stamped;
    match op
    case OpAdd(args) =>
      var (s1, es) := Accept(s, Flatten(args));
      if s.memory.Kept? {
        AdvanceRemembers(StartPass(s1.(todo := es), s.memory.p, |s.regs|), s.memory.p);
      }
    case OpFire(p) => AdvanceRemembers(StartPass(TakeFiring(s, p), p, 0), p);
    case OpReturn(stop) =>
      if stop && s.flags.stopOnFalse {
        EndPassRemembers(s.(memory := Flag), true);
      } else {
        AdvanceRemembers(s, s.phase.p);
      }
    case _ =>
  }

  // In every run, of a list that is not shut, or at least neither disabled nor
  // emptied: it has fired exactly if something is remembered; a list with memory
  // remembers the firing begun last, unless a callback has stopped it.
  lemma {:induction false} MemoryIsLastFiring(flags: Flags, ops: seq<Op>)
    requires Legal(New(flags), ops)
    requires var s := Run(New(flags), ops); s.open || (s.live && forall op :: op in ops ==> !op.OpEmpty?)
    ensures var s := Run(New(flags), ops);
            && Remembers(s)
            && (s.memory == Unset <==> s.begun == [])
            && (s.begun != [] && !flags.memory ==> s.memory == Flag)
            && (s.begun != [] && flags.memory && !s.passes[|s.passes| - 1].stopped ==> s.memory == Kept(s.begun[|s.begun| - 1]))
    decreases |ops|
  {
    RunKeeps(flags, ops);
    var s := Run(New(flags), ops);
    if ops != [] {
      var most, last := ops[..|ops| - 1], ops[|ops| - 1];
      var s0 := Run(New(flags), most);
      assert last in ops;
      RunKeeps(flags, most);
      OpenBefore(s0, last);
      if s.open {
        assert s0.open && s0.live;
      } else {
        LiveBefore(s0, last);
      }
      MemoryIsLastFiring(flags, most);
      StepRemembers(s0, last);
    }
    LastTurn(s);
  }

  lemma OpenBefore(s: State, op: Op)
    requires Inv(s) && Enabled(s, op)
    ensures Step(s, op).open ==> s.open && s.live && Step(s, op).live
  {
    StepKeeps(s, op);
    hide Step, Entries, History, PassExact, Running, AllEnded, InTurn;
    if !s.open {
      ShutStep(s, op);
    }
  }

  lemma LiveBefore(s: State, op: Op)
    requires Enabled(s, op) && !op.OpEmpty?
    ensures Step(s, op).live ==> s.live
  {
    hide Flatten, Collect, Stamped;
  }

  lemma LastTurn(s: State)
    requires Inv(s)
    ensures s.passes == [] <==> s.begun == []
    ensures s.passes != [] ==> s.passes[|s.passes| - 1].p == s.begun[|s.begun| - 1]
  {
    hide Entries, LogOk, Complete, PassExact;
    if s.passes != [] {
      assert TurnOk(s.passes, |s.passes| - 1, s.begun, s.flags.memory);
    }
  }

  // What a list remembers, it replays: newcomers of an idle list are called at once
  // with the firing begun last, the first of them first.
  lemma AddCallsNow(s: State, args: seq<Arg>)
    requires Inv(s) && s.live && s.phase.Idle? && s.memory.Kept? && |Add(s, args).regs| > |s.regs|
    ensures var r := Add(s, args);
            var f, p := r.regs[|s.regs|], s.begun[|s.begun| - 1];
            && r.phase == Calling(f, p)
            && r.log == s.log + [Call(|s.passes| + 1, Entry(f, |s.regs|), p)]
            && |r.passes| == |s.passes| + 1
  {
    hide Entries, History, PassExact, Running, AllEnded, Flatten, Collect;
    var (s1, es) := Accept(s, Flatten(args));
    var s2 := StartPass(s1.(todo := es), s.memory.p, |s.regs|);
    assert Add(s, args) == Advance(s2, s.memory.p);
    assert Advance(s2, s.memory.p).regs == s2.regs == s.regs + Fns(es);
    assert es != [] && es[0] == Entry(es[0].f, |s.regs|) && s2.regs[|s.regs|] == es[0].f;
  }
}
