/** A Deferred settles once, over every run of the code that uses it. */
module DeferredRuns {
  import opened Basics
  import opened CallbackSpec
  import opened CallbackRuns
  import opened CallbackOnce
  import opened DeferredSpec

  // What user code can do: register functions of its own, fire, and return from
  // a callback.  The internal closures are not in its hands.
  datatype Use = Reg(side: Side, args: seq<Arg>) | Fires(side: Side, p: Payload) | Returns(side: Side, stop: bool)

  predicate Allowed(d: Promise, u: Use) {
    && (u.Reg? ==> forall f :: f in Flatten(u.args) ==> f.User?)
    && (u.Returns? ==> Get(d, u.side).phase.Calling?)
  }

  function Act(d: Promise, u: Use): Promise
    requires Allowed(d, u)
  {
    match u
    case Reg(side, args) => Register(d, side, args)
    case Fires(side, p) => Fire(d, side, p)
    case Returns(side, stop) => Resume(d, side, stop)
  }

  predicate Possible(us: seq<Use>)
    decreases |us|, 0
  {
    us == [] || (Possible(us[..|us| - 1]) && Allowed(After(us[..|us| - 1]), us[|us| - 1]))
  }

  // The Deferred after the uses `us`, in order.
  function After(us: seq<Use>): Promise
    requires Possible(us)
    decreases |us|, 1
  {
    if us == [] then Fresh() else Act(After(us[..|us| - 1]), us[|us| - 1])
  }

  // ---- what the uses ask for

  function Verdict(side: Side): Outcome {
    match side case Done => Resolved case Fail => Rejected case Progress => Pending
  }

  // The first resolve or reject.
  function FirstSettling(us: seq<Use>): (r: Option<Use>)
    ensures r.Some? ==> r.value.Fires? && r.value.side != Progress
    decreases |us|
  {
    if us == [] then None
    else
      var last := us[|us| - 1];
      match FirstSettling(us[..|us| - 1])
      case Some(u) => Some(u)
      case None => if last.Fires? && last.side != Progress then Some(last) else None
  }

  // Everything notified before that.
  function Notified(us: seq<Use>): seq<Payload>
    decreases |us|
  {
    if us == [] then []
    else
      var last := us[|us| - 1];
      Notified(us[..|us| - 1]) +
      (if last.Fires? && last.side == Progress && FirstSettling(us).None? then [last.p] else [])
  }

  function Registered(us: seq<Use>, side: Side): seq<Fn>
    decreases |us|
  {
    if us == [] then []
    else
      var last := us[|us| - 1];
      Registered(us[..|us| - 1], side) + (if last.Reg? && last.side == side then Flatten(last.args) else [])
  }

  // ---- the two settling lists

  ghost predicate SettlingList(s: State, o: Outcome) {
    && OnceMemoryInv(s) && s.flags == ONCE_MEMORY && s.live
    && |s.regs| >= 3 && s.regs[..3] == Internals(o)
    && (forall i :: 3 <= i < |s.regs| ==> s.regs[i].User?)
  }

  ghost predicate Unsettled(s: State, o: Outcome) {
    SettlingList(s, o) && s.accepted == []
  }

  ghost predicate Winner(s: State, o: Outcome) {
    SettlingList(s, o) && s.accepted != [] && |s.log| >= 3 && (s.phase.Calling? ==> |s.log| >= 4)
  }

  ghost predicate Loser(s: State) {
    !s.live && !s.open && s.phase.Idle? && s.log == [] && s.memory == Unset
  }

  // A callback being called is the registration called last.
  lemma CallingFn(s: State)
    requires OnceMemoryInv(s) && s.phase.Calling?
    ensures |s.log| <= |s.regs| && s.log != [] && s.phase.f == s.regs[|s.log| - 1]
  {
    assert CalledFns(s.log)[|s.log| - 1] == s.phase.f;
  }

  lemma NextCall(s: State, o: Outcome, stop: bool)
    requires SettlingList(s, o) && s.phase.Calling?
    ensures var r := Return(s, stop);
            && SettlingList(r, o) && r.regs == s.regs && r.accepted == s.accepted
            && (if |s.log| < |s.regs| then r.phase.Calling? && |r.log| == |s.log| + 1 && r.phase.f == s.regs[|s.log|]
                else r.phase.Idle? && r.log == s.log)
  {
    OnceMemoryStep(s, OpReturn(stop));
    var r := Return(s, stop);
    assert |CalledFns(s.log) + Fns(s.todo)| == |s.log| + |s.todo|;
    assert r == Advance(s, s.phase.p);
    if s.todo == [] {
      assert r == EndPass(s, false);
    }
    if r.phase.Calling? {
      CallingFn(r);
    }
  }

  lemma FirstCall(s: State, o: Outcome, p: Payload)
    requires Unsettled(s, o)
    ensures var r := FireWith(s, p);
            && SettlingList(r, o) && r.accepted == [p]
            && r.phase == Calling(Settle(o), p) && |r.log| == 1
  {
    OnceMemoryStep(s, OpFire(p));
    assert |Fns(s.done)| == |s.done|;
    CallingFn(FireWith(s, p));
  }

  function Rival(side: Side): Side
    requires side != Progress
  {
    if side == Done then Fail else Done
  }

  // Settling runs the three closures before any user callback.
  lemma FireSettles(d: Promise, side: Side, p: Payload)
    requires side != Progress && Unsettled(Get(d, side), Verdict(side))
    ensures var r := Fire(d, side, p);
            && Winner(Get(r, side), Verdict(side)) && Get(r, side).accepted == [p]
            && Get(r, Rival(side)) == Disable(Get(d, Rival(side)))
            && r.progress == Lock(d.progress) && r.outcome == Verdict(side)
            && Get(r, side).regs == Get(d, side).regs
  {
    hide OnceMemoryInv;
    var o := Verdict(side);
    var s1 := FireWith(Get(d, side), p);
    FirstCall(Get(d, side), o, p);
    NextCall(s1, o, false);
    var s2 := Return(s1, false);
    assert s2.phase.f == s2.regs[..3][1] == DisableRival;
    NextCall(s2, o, false);
    var s3 := Return(s2, false);
    assert s3.phase.f == s3.regs[..3][2] == LockProgress;
    NextCall(s3, o, false);
    ThreeClosures(Put(d, side, s1), side, s1, s2, s3, Return(s3, false));
  }

  lemma ThreeClosures(d: Promise, side: Side, s1: State, s2: State, s3: State, s4: State)
    requires side != Progress && Get(d, side) == s1
    requires s1.phase.Calling? && s2.phase.Calling? && s3.phase.Calling?
    requires s1.phase.f == Settle(Verdict(side)) && s2.phase.f == DisableRival && s3.phase.f == LockProgress
    requires s2 == Return(s1, false) && s3 == Return(s2, false) && s4 == Return(s3, false)
    requires s4.phase.Calling? ==> s4.phase.f.User?
    ensures var r := RunInternals(d, side);
            && Get(r, side) == s4 && Get(r, Rival(side)) == Disable(Get(d, Rival(side)))
            && r.progress == Lock(d.progress) && r.outcome == Verdict(side)
  {
    hide Return, Disable, Lock;
    var d2 := Put(Effect(d, side, s1.phase.f), side, s2);
    var d3 := Put(Effect(d2, side, s2.phase.f), side, s3);
    var d4 := Put(Effect(d3, side, s3.phase.f), side, s4);
    assert RunInternals(d4, side) == d4;
    assert RunInternals(d3, side) == d4;
    assert RunInternals(d2, side) == d4;
  }

  lemma WinnerAdds(s: State, o: Outcome, args: seq<Arg>)
    requires Winner(s, o) && forall f :: f in Flatten(args) ==> f.User?
    ensures var r := Add(s, args);
            && Winner(r, o) && r.accepted == s.accepted && (r.phase.Calling? ==> r.phase.f.User?)
            && r.regs == s.regs + Flatten(args)
  {
    OnceMemoryStep(s, OpAdd(args));
    var r := Add(s, args);
    assert s.phase.Calling? ==> r.log == s.log && r.phase == s.phase;
    hide Add, OnceMemoryInv, Flatten;
    if s.phase.Idle? {
      ReplayCalls(s, args);
    }
    assert r.regs[..3] == s.regs[..3];
    if r.phase.Calling? {
      CallingFn(r);
    }
  }

  // A settled list only ever calls user functions from now on.
  lemma WinnerKeeps(s: State, o: Outcome, u: Use)
    requires Winner(s, o)
    requires u.Reg? ==> forall f :: f in Flatten(u.args) ==> f.User?
    requires u.Returns? ==> s.phase.Calling?
    ensures var r := match u case Reg(_, args) => Add(s, args) case Fires(_, p) => FireWith(s, p)
                             case Returns(_, stop) => Return(s, stop);
            && Winner(r, o) && r.accepted == s.accepted && (r.phase.Calling? ==> r.phase.f.User?)
            && r.regs == s.regs + (if u.Reg? then Flatten(u.args) else [])
  {
    match u
    case Reg(_, args) => WinnerAdds(s, o, args);
    case Fires(_, p) =>
      if s.phase.Calling? { CallingFn(s); }
    case Returns(_, stop) =>
      NextCall(s, o, stop);
  }

  lemma ReplayCalls(s: State, args: seq<Arg>)
    requires OnceMemoryInv(s) && s.live && s.accepted != [] && s.phase.Idle?
    ensures var r := Add(s, args);
            r.live && |r.log| >= |s.log| && (r.phase.Calling? ==> |r.log| == |s.log| + 1)
  {
    var (s1, es) := Accept(s, Flatten(args));
    var s2 := StartPass(s1.(todo := es), s.memory.p, |s.regs|);
    assert Add(s, args) == Advance(s2, s.memory.p);
    if es == [] {
      assert Advance(s2, s.memory.p) == EndPass(s2, false);
    }
  }

  lemma UnsettledKeeps(s: State, o: Outcome, args: seq<Arg>)
    requires Unsettled(s, o) && forall f :: f in Flatten(args) ==> f.User?
    ensures var r := Add(s, args); Unsettled(r, o) && r.phase.Idle? && r.regs == s.regs + Flatten(args)
  {
    OnceMemoryStep(s, OpAdd(args));
    assert Add(s, args).regs[..3] == s.regs[..3];
  }

  // ---- the progress list

  ghost predicate UsersOnly(s: State) {
    && (forall e :: e in s.done || e in s.todo ==> e.f.User?)
    && (s.phase.Calling? ==> s.phase.f.User?)
  }

  ghost predicate ProgressList(s: State) {
    Inv(s) && s.flags == MEMORY && UsersOnly(s)
  }

  lemma {:induction false} UsersAdvance(s: State, p: Payload)
    requires forall e :: e in s.done || e in s.todo ==> e.f.User?
    requires !s.flags.once
    ensures UsersOnly(Advance(s, p)) && (Advance(s, p).open <==> s.open) && (s.live <==> Advance(s, p).live)
    decreases |s.queue|
  {
    if s.todo == [] && s.live && s.phantom == 0 && s.queue != [] {
      UsersAdvance(StartPass(NextFiring(Ended(s, false)), s.queue[0], 0), s.queue[0]);
    }
  }

  lemma ProgressAdd(s: State, args: seq<Arg>)
    requires ProgressList(s) && forall f :: f in Flatten(args) ==> f.User?
    ensures var r := Add(s, args);
            ProgressList(r) && (r.open <==> s.open) && r.accepted == s.accepted
  {
    hide Inv, Advance, EndPass;
    StepKeeps(s, OpAdd(args));
    var (s1, es) := Accept(s, Flatten(args));
    CollectAll(Fns(s.done + s.todo), Flatten(args));
    assert forall e :: e in es ==> e.f in Flatten(args);
    if s.live && s.phase.Idle? && s.memory.Kept? {
      UsersAdvance(StartPass(s1.(todo := es), s.memory.p, |s.regs|), s.memory.p);
    }
  }

  lemma ProgressFire(s: State, p: Payload)
    requires ProgressList(s)
    ensures var r := FireWith(s, p);
            && ProgressList(r) && (r.open <==> s.open)
            && r.accepted == s.accepted + (if s.open then [p] else [])
  {
    hide Inv, Advance, EndPass;
    StepKeeps(s, OpFire(p));
    UsersAdvance(StartPass(TakeFiring(s, p), p, 0), p);
  }

  lemma ProgressReturn(s: State, stop: bool)
    requires ProgressList(s) && s.phase.Calling?
    ensures var r := Return(s, stop);
            ProgressList(r) && (r.open <==> s.open) && r.accepted == s.accepted
  {
    assert Return(s, stop) == Advance(s, s.phase.p);
    hide Inv, Advance, EndPass;
    StepKeeps(s, OpReturn(stop));
    UsersAdvance(s, s.phase.p);
  }

  lemma LockKeepsProgress(s: State)
    requires ProgressList(s)
    ensures ProgressList(Lock(s)) && !Lock(s).open && Lock(s).accepted == s.accepted
  {
    StepKeeps(s, OpLock);
  }

  // ---- the Deferred as a whole

  ghost predicate PromiseInv(d: Promise) {
    && ProgressList(d.progress)
    && match d.outcome
       case Pending => Unsettled(d.done, Resolved) && Unsettled(d.fail, Rejected) && d.progress.open
       case Resolved => Winner(d.done, Resolved) && Loser(d.fail) && !d.progress.open
       case Rejected => Winner(d.fail, Rejected) && Loser(d.done) && !d.progress.open
  }

  // One use of a Deferred: a settled one keeps its outcome and payload, a pending
  // one is settled by the first resolve or reject and by nothing else.
  ghost predicate OneUse(d: Promise, u: Use, r: Promise) {
    && PromiseInv(r)
    && (d.outcome == Pending ==>
          r.outcome == (if u.Fires? then Verdict(u.side) else Pending))
    && (d.outcome != Pending ==> r.outcome == d.outcome)
    && SideKept(d, u, r, Done) && SideKept(d, u, r, Fail)
    && r.progress.accepted
       == d.progress.accepted + (if u.Fires? && u.side == Progress && d.outcome == Pending then [u.p] else [])
  }

  // The same seen from the `done` or the `fail` list, until the other one wins.
  ghost predicate SideKept(d: Promise, u: Use, r: Promise, side: Side)
    requires side != Progress
  {
    var open := d.outcome == Pending || d.outcome == Verdict(side);
    open && (r.outcome == Pending || r.outcome == Verdict(side)) ==>
      && Get(r, side).regs == Get(d, side).regs + (if u.Reg? && u.side == side then Flatten(u.args) else [])
      && Get(r, side).accepted
         == Get(d, side).accepted + (if u.Fires? && u.side == side && d.outcome == Pending then [u.p] else [])
  }

  lemma UseProgress(d: Promise, u: Use)
    requires PromiseInv(d) && Allowed(d, u) && u.side == Progress
    ensures OneUse(d, u, Act(d, u))
  {
    hide Inv, OnceMemoryInv, Unsettled, Winner, Add, FireWith, Return;
    match u
    case Reg(_, args) => ProgressAdd(d.progress, args);
    case Fires(_, p) => ProgressFire(d.progress, p);
    case Returns(_, stop) => ProgressReturn(d.progress, stop);
  }

  lemma LoserKeeps(s: State, args: seq<Arg>, p: Payload)
    requires Loser(s)
    ensures Add(s, args) == s && FireWith(s, p) == s
  {
  }

  lemma UseSettled(d: Promise, u: Use)
    requires PromiseInv(d) && Allowed(d, u) && u.side != Progress && d.outcome != Pending
    ensures OneUse(d, u, Act(d, u))
  {
    hide Inv, OnceMemoryInv, SettlingList, Add, FireWith, Return;
    if Verdict(u.side) == d.outcome {
      WinnerKeeps(Get(d, u.side), d.outcome, u);
    } else if u.Reg? {
      LoserKeeps(Get(d, u.side), u.args, Payload(Undefined, []));
    } else if u.Fires? {
      LoserKeeps(Get(d, u.side), [], u.p);
    }
  }

  lemma UsePendingFire(d: Promise, side: Side, p: Payload)
    requires PromiseInv(d) && side != Progress && d.outcome == Pending
    ensures OneUse(d, Fires(side, p), Act(d, Fires(side, p)))
  {
    hide Inv, OnceMemoryInv;
    UnsettledIdle(d.done, Resolved);
    UnsettledIdle(d.fail, Rejected);
    FireSettles(d, side, p);
    LockKeepsProgress(d.progress);
  }

  lemma UnsettledIdle(s: State, o: Outcome)
    requires Unsettled(s, o)
    ensures s.phase.Idle? && s.log == []
  {
  }

  lemma UsePending(d: Promise, u: Use)
    requires PromiseInv(d) && Allowed(d, u) && u.side != Progress && d.outcome == Pending
    ensures OneUse(d, u, Act(d, u))
  {
    hide Inv, OnceMemoryInv;
    UnsettledIdle(d.done, Resolved);
    UnsettledIdle(d.fail, Rejected);
    if u.Reg? {
      UnsettledKeeps(Get(d, u.side), Verdict(u.side), u.args);
    } else if u.Fires? {
      UsePendingFire(d, u.side, u.p);
    }
  }

  lemma UseKeeps(d: Promise, u: Use)
    requires PromiseInv(d) && Allowed(d, u)
    ensures OneUse(d, u, Act(d, u))
  {
    hide PromiseInv, OneUse;
    if u.side == Progress {
      UseProgress(d, u);
    } else if d.outcome == Pending {
      UsePending(d, u);
    } else {
      UseSettled(d, u);
    }
  }

  lemma FreshList(o: Outcome)
    requires o != Pending
    ensures var s := Add(New(ONCE_MEMORY), InternalArgs(o));
            Unsettled(s, o) && s.regs == Internals(o) + [] && s.accepted == []
  {
    hide OnceMemoryInv, Flatten;
    FlattenInternals(o);
    OnceMemoryNew(ONCE_MEMORY);
    OnceMemoryStep(New(ONCE_MEMORY), OpAdd(InternalArgs(o)));
    assert [] + Internals(o) == Internals(o) == Internals(o) + [];
  }

  lemma FlattenInternals(o: Outcome)
    ensures Flatten(InternalArgs(o)) == Internals(o)
  {
    var args := InternalArgs(o);
    assert args[..2] == [FnArg(Settle(o)), FnArg(DisableRival)] && args[..2][..1] == [FnArg(Settle(o))];
    assert Flatten(args[..2][..1]) == [Settle(o)];
    assert Flatten(args[..2]) == [Settle(o), DisableRival];
  }

  ghost predicate Tally(us: seq<Use>, d: Promise, side: Side)
    requires side != Progress
  {
    var first := FirstSettling(us);
    first.None? || first.value.side == side ==>
      && Get(d, side).regs == Internals(Verdict(side)) + Registered(us, side)
      && Get(d, side).accepted == (if first.None? then [] else [first.value.p])
  }

  lemma TallyStep(us: seq<Use>, d: Promise, r: Promise, side: Side)
    requires us != [] && side != Progress
    requires var most := us[..|us| - 1];
             Tally(most, d, side) && SideKept(d, us[|us| - 1], r, side)
             && d.outcome == Decided(most) && r.outcome == Decided(us)
    ensures Tally(us, r, side)
  {
  }

  function Decided(us: seq<Use>): Outcome {
    match FirstSettling(us) case None => Pending case Some(u) => Verdict(u.side)
  }

  lemma FreshKeeps()
    ensures PromiseInv(Fresh()) && Fresh().outcome == Pending && Fresh().progress.accepted == []
    ensures Tally([], Fresh(), Done) && Tally([], Fresh(), Fail)
  {
    hide Unsettled, Inv, Add, Internals;
    FreshList(Resolved);
    FreshList(Rejected);
    FreshProgress();
  }

  lemma FreshProgress()
    ensures ProgressList(New(MEMORY))
  {
    assert New(MEMORY).done + New(MEMORY).todo == [];
  }

  lemma {:induction false} AfterKeeps(us: seq<Use>)
    requires Possible(us)
    ensures PromiseInv(After(us)) && After(us).outcome == Decided(us)
    ensures After(us).progress.accepted == Notified(us)
    ensures Tally(us, After(us), Done) && Tally(us, After(us), Fail)
    decreases |us|
  {
    hide PromiseInv, Tally, SideKept, Act, Fresh;
    if us == [] {
      FreshKeeps();
    } else {
      var most, last := us[..|us| - 1], us[|us| - 1];
      AfterKeeps(most);
      UseKeeps(After(most), last);
      TallyStep(us, After(most), After(us), Done);
      TallyStep(us, After(most), After(us), Fail);
    }
  }

  // Callbacks are passed nothing but the payloads of firings let in.
  lemma LogPayloads(s: State)
    requires Inv(s)
    ensures forall c :: c in s.log ==> c.p in s.accepted
  {
    hide Shape, Entries, PassExact, Complete;
    forall i | 0 <= i < |s.log| ensures s.log[i].p in s.accepted {
      var k := s.log[i].pass - 1;
      assert TurnOk(s.passes, k, s.begun, s.flags.memory);
      assert s.log[i].p == s.begun[s.passes[k].turn - 1] == s.accepted[s.passes[k].turn - 1];
    }
  }

  // Whatever order resolve, reject and notify come in, from inside callbacks or
  // not: the first resolve or reject decides the outcome and the payload; no
  // callback of the losing list ever runs; the winning callbacks run in order of
  // registration, all of them by the time the list is idle; and callbacks of
  // `progress` see only what was notified before the decision.
  lemma SettlesOnce(us: seq<Use>)
    requires Possible(us)
    ensures var d := After(us);
            match FirstSettling(us)
            case None => d.outcome == Pending && d.done.log == [] && d.fail.log == []
            case Some(u) =>
              var won, lost := Get(d, u.side), Get(d, Rival(u.side));
              var fns := Internals(Verdict(u.side)) + Registered(us, u.side);
              && d.outcome == (if u.side == Done then Resolved else Rejected) && lost.log == []
              && CalledFns(won.log) <= fns && (won.phase.Idle? ==> CalledFns(won.log) == fns)
              && (forall c :: c in won.log ==> c.p == u.p)
    ensures forall c :: c in After(us).progress.log ==> c.p in Notified(us)
    // what isResolved and isRejected tell
    ensures After(us).done.memory != Unset <==> After(us).outcome == Resolved
    ensures After(us).fail.memory != Unset <==> After(us).outcome == Rejected
  {
    AfterKeeps(us);
    var d := After(us);
    LogPayloads(d.progress);
    hide Inv;
    if FirstSettling(us).None? {
      UnsettledIdle(d.done, Resolved);
      UnsettledIdle(d.fail, Rejected);
    } else {
      var won := Get(d, FirstSettling(us).value.side);
      assert won.phase.Idle? ==> Fns(won.todo) == [];
    }
  }
}
