/**
  Lists with memory that fire again and again and are only added to, fired and
  locked: whoever is registered when a firing is let in is called with it, and whoever
  comes later is called with the last one.  The `progress` list of a Deferred is one.
*/
module CallbackReach {
  import opened Basics
  import opened CallbackSpec
  import opened CallbackRuns
  import opened CallbackLaws
  import opened CallbackMeaning

  predicate Steady(flags: Flags) {
    flags.memory && !flags.once && !flags.stopOnFalse
  }

  predicate OnlyGrows(ops: seq<Op>) {
    forall op :: op in ops ==> !op.OpRemove? && !op.OpEmpty? && !op.OpDisable?
  }

  // How many had registered when firing number t was let in.
  ghost function RegsBefore(flags: Flags, ops: seq<Op>, t: nat): (n: nat)
    requires Legal(New(flags), ops)
    ensures n <= |Run(New(flags), ops).regs|
    decreases |ops|
  {
    if ops == [] then 0
    else
      var most := ops[..|ops| - 1];
      var s := Run(New(flags), most);
      RegsGrow(s, ops[|ops| - 1]);
      if |s.accepted| >= t then RegsBefore(flags, most, t) else |s.regs|
  }

  lemma RegsGrow(s: State, op: Op)
    requires Enabled(s, op)
    ensures s.regs <= Step(s, op).regs
  {
    hide Flatten, Collect, Stamped, Advance, EndPass;
  }

  // The list holds all its registrations; every pass that has ended was left alone,
  // and if it was for everybody it found all who had come before its firing.
  ghost predicate Reaching(s: State) {
    && (s.live ==> s.done + s.todo == Stamped(s.regs, 0))
    && (!s.live ==> s.passes == [])
    && (s.live ==> Remembers(s))
    && (forall k :: 0 <= k < |s.passes| ==> LeftAlone(s, s.passes[k]))
  }

  predicate LeftAlone(s: State, pass: Pass) {
    && !pass.cleared && (pass.ended ==> !pass.stopped)
    && (pass.ended && pass.from == 0 ==> |pass.left| <= |s.regs| && pass.left == Stamped(s.regs[..|pass.left|], 0))
  }

  ghost predicate FoundThem(flags: Flags, ops: seq<Op>, pass: Pass)
    requires Legal(New(flags), ops)
  {
    pass.ended && pass.from == 0 ==> RegsBefore(flags, ops, pass.turn) <= |pass.left|
  }

  lemma StampedSplits(a: seq<Fn>, b: seq<Fn>)
    ensures Stamped(a + b, 0) == Stamped(a, 0) + Stamped(b, |a|)
    ensures Stamped((a + b)[..|a|], 0) == Stamped(a, 0)
  {
    assert (a + b)[..|a|] == a;
  }

  // The contents after one operation.
  lemma ContentsStep(s: State, op: Op)
    requires Inv(s) && Enabled(s, op) && Steady(s.flags) && Reaching(s)
    requires !op.OpRemove? && !op.OpEmpty? && !op.OpDisable?
    ensures var r := Step(s, op); r.live ==> s.live && r.done + r.todo == Stamped(r.regs, 0)
  {
    LiveBefore(s, op);
    hide Inv, LeftAlone, Remembers, Stamped, Collect, Flatten, Advance, EndPass;
    match op
    case OpAdd(args) =>
      if s.live {
        AddEntries(s, args);
        AddedStamps(s, args);
      }
    case OpFire(p) => FireContents(s, p);
    case OpReturn(stop) => AdvanceContents(s, s.phase.p);
    case OpLock =>
  }

  lemma AddedStamps(s: State, args: seq<Arg>)
    requires s.live
    ensures Stamped(Add(s, args).regs, 0) == Stamped(s.regs, 0) + Accept(s, Flatten(args)).1
  {
    hide Collect, Flatten, Advance;
    var es := Accept(s, Flatten(args)).1;
    StampedSplits(s.regs, Fns(es));
    assert Stamped(Fns(es), |s.regs|) == es;
    assert Add(s, args).regs == s.regs + Fns(es);
  }

  lemma FireContents(s: State, p: Payload)
    requires !s.flags.once && (s.phase.Idle? ==> s.todo == []) && Inv(s)
    ensures FireWith(s, p).done + FireWith(s, p).todo == s.done + s.todo && FireWith(s, p).regs == s.regs
  {
    hide Entries, History, PassExact, Running, AllEnded, InTurn, Advance;
    if s.open && s.phase.Idle? {
      var s2 := StartPass(TakeFiring(s, p), p, 0);
      AdvanceContents(s2, p);
      assert [] + (s.done + s.todo) == s.done + s.todo;
    }
  }

  lemma MemoryHeld(s: State)
    requires Inv(s) && Steady(s.flags) && Reaching(s) && s.passes != []
    ensures s.live && s.memory.Kept?
  {
    hide Entries, History, PassExact, InTurn;
    assert LeftAlone(s, s.passes[|s.passes| - 1]);
  }

  lemma {:induction false} AdvanceLive(s: State, p: Payload)
    requires !s.flags.once
    ensures Advance(s, p).live == s.live
    decreases |s.queue|, 1
  {
    if s.todo == [] && !(s.live && s.phantom > 0) && s.live && s.queue != [] {
      AdvanceLive(StartPass(NextFiring(Ended(s, false)), s.queue[0], 0), s.queue[0]);
    }
  }

  // Only disabling, or locking without a remembered firing, ends such a list.
  lemma StaysLive(s: State, op: Op)
    requires Enabled(s, op) && Steady(s.flags) && !op.OpEmpty? && !op.OpDisable? && (op.OpLock? ==> s.memory.Kept?)
    ensures Step(s, op).live == s.live
  {
    hide Flatten, Collect, Stamped, Advance, EndPass;
    match op
    case OpAdd(args) =>
      var (s1, es) := Accept(s, Flatten(args));
      if s.memory.Kept? {
        AdvanceLive(StartPass(s1.(todo := es), s.memory.p, |s.regs|), s.memory.p);
      }
    case OpFire(p) => AdvanceLive(StartPass(TakeFiring(s, p), p, 0), p);
    case OpReturn(stop) => AdvanceLive(s, s.phase.p);
    case _ =>
  }

  lemma DeadStays(s: State, op: Op)
    requires Inv(s) && Enabled(s, op) && Steady(s.flags) && Reaching(s)
    requires !op.OpRemove? && !op.OpEmpty? && !op.OpDisable?
    ensures !Step(s, op).live ==> Step(s, op).passes == []
  {
    InvRunning(s);
    if s.passes != [] {
      MemoryHeld(s);
    }
    if op.OpLock? {
      hide Inv, Reaching, Stamped;
    } else {
      StaysLive(s, op);
      hide Inv, Stamped, LeftAlone, Remembers, Advance;
    }
  }

  lemma InvRunning(s: State)
    requires Inv(s)
    ensures s.phase.Idle? || s.passes != []
    ensures s.open ==> s.live
  {
  }

  // A pass across one operation, given what is known of the list before and after.
  lemma PassStays(s: State, op: Op, r: State, k: nat)
    requires |s.passes| <= |r.passes| && k < |r.passes| && PassKept(s, op, r, k)
    requires k < |s.passes| ==> LeftAlone(s, s.passes[k])
    requires s.regs <= r.regs && s.done + s.todo == Stamped(s.regs, 0)
    requires !s.flags.stopOnFalse && !Clears(s, op)
    ensures LeftAlone(r, r.passes[k])
    ensures r.passes[k].ended && (k < |s.passes| ==> !s.passes[k].ended) ==> |r.passes[k].left| == |s.regs|
  {
    assert r.regs[..|s.regs|] == s.regs;
    var now := r.passes[k];
    if now.ended && (k < |s.passes| ==> !s.passes[k].ended) {
      assert now.left == Stamped(s.regs, 0);
    } else if now.ended && now.from == 0 {
      assert r.regs[..|now.left|] == s.regs[..|now.left|];
    }
  }

  lemma ReachingStep(s: State, op: Op)
    requires Inv(s) && Enabled(s, op) && Steady(s.flags) && Reaching(s)
    requires !op.OpRemove? && !op.OpEmpty? && !op.OpDisable?
    ensures Reaching(Step(s, op))
    ensures var r := Step(s, op);
            forall k :: 0 <= k < |r.passes| && r.passes[k].ended && (k < |s.passes| ==> !s.passes[k].ended) ==>
              |r.passes[k].left| == |s.regs|
  {
    var r := Step(s, op);
    ContentsStep(s, op);
    RegsGrow(s, op);
    PassesStep(s, op);
    InvRunning(s);
    if s.passes != [] {
      MemoryHeld(s);
    }
    if s.live {
      StepRemembers(s, op);
    }
    DeadStays(s, op);
    hide Step, Inv, Remembers, Stamped, LeftAlone, PassKept;
    forall k | 0 <= k < |r.passes|
      ensures LeftAlone(r, r.passes[k])
      ensures r.passes[k].ended && (k < |s.passes| ==> !s.passes[k].ended) ==> |r.passes[k].left| == |s.regs|
    {
      PassStays(s, op, r, k);
    }
  }

  lemma {:induction false} ReachingRun(flags: Flags, ops: seq<Op>)
    requires Steady(flags) && OnlyGrows(ops) && Legal(New(flags), ops)
    ensures Reaching(Run(New(flags), ops))
    ensures forall k :: 0 <= k < |Run(New(flags), ops).passes| ==> FoundThem(flags, ops, Run(New(flags), ops).passes[k])
    decreases |ops|
  {
    RunKeeps(flags, ops);
    if ops == [] {
      assert New(flags).done + New(flags).todo == [];
    } else {
      hide Inv, Reaching;
      var most, last := ops[..|ops| - 1], ops[|ops| - 1];
      var s, r := Run(New(flags), most), Run(New(flags), ops);
      assert last in ops && r == Step(s, last);
      RunKeeps(flags, most);
      ReachingRun(flags, most);
      ReachingStep(s, last);
      PassesStep(s, last);
      hide Step;
      forall k | 0 <= k < |r.passes| ensures FoundThem(flags, ops, r.passes[k]) {
        assert PassKept(s, last, r, k);
        TurnKnown(r, k);
        if k < |s.passes| && s.passes[k].ended {
          assert FoundThem(flags, most, s.passes[k]);
          TurnKnown(s, k);
        }
      }
    }
  }

  lemma TurnKnown(s: State, k: nat)
    requires Inv(s) && k < |s.passes|
    ensures 1 <= s.passes[k].turn <= |s.begun| <= |s.accepted|
  {
    hide Entries, LogOk, Complete, PassExact, Running, AllEnded;
    assert TurnOk(s.passes, k, s.begun, s.flags.memory);
  }

  // Pass k calls the registration numbered `stamp`, with p.
  ghost predicate Hears(s: State, k: nat, stamp: nat, p: Payload) {
    stamp < |s.regs| && exists i :: 0 <= i < |s.log| && s.log[i] == Call(k + 1, Entry(s.regs[stamp], stamp), p)
  }

  // In every run of such a list: once a firing's own pass is over, everybody who had
  // registered when it was let in has been called in it, with its payload; all such
  // passes of firings begun are over whenever the list is idle.
  lemma EveryoneHears(flags: Flags, ops: seq<Op>, k: nat, t: nat, stamp: nat)
    requires Steady(flags) && OnlyGrows(ops) && Legal(New(flags), ops)
    requires Begins(Run(New(flags), ops).passes, k, t) && Run(New(flags), ops).passes[k].ended
    requires stamp < RegsBefore(flags, ops, t)
    ensures var s := Run(New(flags), ops);
            1 <= t <= |s.begun| && Hears(s, k, stamp, s.begun[t - 1])
  {
    hide Inv, LeftAlone, Stamped, Hears;
    var s := Run(New(flags), ops);
    RunKeeps(flags, ops);
    ReachingRun(flags, ops);
    OwnPass(s, k);
    assert FoundThem(flags, ops, s.passes[k]);
    PassHears(s, k, stamp);
  }

  lemma PassHears(s: State, k: nat, stamp: nat)
    requires Inv(s) && k < |s.passes| && LeftAlone(s, s.passes[k])
    requires s.passes[k].ended && s.passes[k].from == 0 && stamp < |s.passes[k].left|
    ensures Hears(s, k, stamp, s.passes[k].p)
  {
    hide Shape, Entries, Turns, InTurn, PassExact, Running, AllEnded;
    var pass := s.passes[k];
    var e := Entry(s.regs[stamp], stamp);
    assert pass.left[stamp] == e && Owes(pass, e);
    assert CalledIn(s.log, k + 1, e);
    var i :| 0 <= i < |s.log| && s.log[i].pass == k + 1 && s.log[i].entry == e;
    assert s.log[i] == Call(k + 1, e, pass.p);
  }

  lemma OwnPass(s: State, k: nat)
    requires Inv(s) && k < |s.passes| && s.passes[k].turn == TurnBefore(s.passes, k) + 1
    ensures s.passes[k].from == 0 && 1 <= s.passes[k].turn <= |s.begun| && s.passes[k].p == s.begun[s.passes[k].turn - 1]
  {
    hide Entries, LogOk, Complete, PassExact, Running, AllEnded;
    assert TurnOk(s.passes, k, s.begun, s.flags.memory);
  }

  // Who registers while nothing is being called, after any firing was let in, is
  // called at once with the firing begun last, also if the list has been locked since.
  lemma NewcomerHears(flags: Flags, ops: seq<Op>, args: seq<Arg>)
    requires Steady(flags) && OnlyGrows(ops) && Legal(New(flags), ops)
    requires var s := Run(New(flags), ops);
             s.phase.Idle? && s.accepted != [] && |Add(s, args).regs| > |s.regs|
    ensures var s := Run(New(flags), ops);
            var r := Add(s, args);
            && s.begun != [] && s.live
            && r.phase == Calling(r.regs[|s.regs|], s.begun[|s.begun| - 1])
            && r.log == s.log + [Call(|s.passes| + 1, Entry(r.regs[|s.regs|], |s.regs|), s.begun[|s.begun| - 1])]
  {
    var s := Run(New(flags), ops);
    RunKeeps(flags, ops);
    ReachingRun(flags, ops);
    BegunIfAccepted(flags, ops);
    LastTurn(s);
    MemoryHeld(s);
    AddCallsNow(s, args);
  }

  lemma {:induction false} BegunIfAccepted(flags: Flags, ops: seq<Op>)
    requires Legal(New(flags), ops)
    ensures var s := Run(New(flags), ops); s.accepted != [] ==> s.begun != []
    decreases |ops|
  {
    if ops != [] {
      var most := ops[..|ops| - 1];
      BegunIfAccepted(flags, most);
      RunKeeps(flags, most);
      RunKeeps(flags, ops);
      BegunStep(Run(New(flags), most), ops[|ops| - 1]);
    }
  }

  // A firing that finds the list idle begins; else one has begun already.
  lemma BegunStep(s: State, op: Op)
    requires Inv(s) && Enabled(s, op) && (s.accepted != [] ==> s.begun != [])
    ensures Step(s, op).accepted != [] ==> Step(s, op).begun != []
  {
    LastTurn(s);
    InvRunning(s);
    BegunGrows(s, op);
    AcceptedStep(s, op);
    if op.OpFire? && LetIn(s) && s.phase.Idle? {
      var s2 := StartPass(TakeFiring(s, op.p), op.p, 0);
      BegunAdvance(s2, op.p);
      assert Step(s, op) == Advance(s2, op.p);
    }
  }

  lemma {:induction false} BegunAdvance(s: State, p: Payload)
    ensures s.begun <= Advance(s, p).begun
    decreases |s.queue|, 1
  {
    if s.todo == [] && !(s.live && s.phantom > 0) {
      BegunEndPass(s, false);
    }
  }

  lemma {:induction false} BegunEndPass(s: State, stopped: bool)
    ensures s.begun <= EndPass(s, stopped).begun
    decreases |s.queue|, 0
  {
    if s.live && !s.flags.once && s.queue != [] {
      BegunAdvance(StartPass(NextFiring(Ended(s, stopped)), s.queue[0], 0), s.queue[0]);
    }
  }

  lemma BegunGrows(s: State, op: Op)
    requires Enabled(s, op)
    ensures s.begun <= Step(s, op).begun
  {
    hide Flatten, Collect, Stamped, Advance, EndPass;
    match op
    case OpAdd(args) =>
      var (s1, es) := Accept(s, Flatten(args));
      if s.memory.Kept? {
        BegunAdvance(StartPass(s1.(todo := es), s.memory.p, |s.regs|), s.memory.p);
      }
    case OpFire(p) => BegunAdvance(StartPass(TakeFiring(s, p), p, 0), p);
    case OpReturn(stop) =>
      BegunAdvance(s, s.phase.p);
      BegunEndPass(s.(memory := Flag), true);
    case _ =>
  }
}
