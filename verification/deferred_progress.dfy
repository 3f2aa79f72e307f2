/** What callbacks of a Deferred's `progress` get to hear. */
module DeferredProgress {
  import opened Basics
  import opened CallbackSpec
  import opened CallbackRuns
  import opened CallbackLaws
  import opened CallbackMeaning
  import opened CallbackOnce
  import opened CallbackReach
  import opened DeferredSpec
  import opened DeferredRuns

  // What the uses of a Deferred come to for its progress list: it is used directly,
  // and locked by the first resolve or reject.
  function ProgressOp(us: seq<Use>, u: Use): seq<Op> {
    if u.side == Progress then
      [match u case Reg(_, args) => OpAdd(args) case Fires(_, p) => OpFire(p) case Returns(_, stop) => OpReturn(stop)]
    else if u.Fires? && FirstSettling(us).None? then [OpLock] else []
  }

  function ProgressOps(us: seq<Use>): seq<Op>
    decreases |us|
  {
    if us == [] then [] else ProgressOps(us[..|us| - 1]) + ProgressOp(us[..|us| - 1], us[|us| - 1])
  }

  function ByOp(s: State, ops: seq<Op>): State
    requires |ops| <= 1 && (ops != [] ==> Enabled(s, ops[0]))
  {
    if ops == [] then s else Step(s, ops[0])
  }

  lemma ProgressUsed(d: Promise, u: Use)
    requires PromiseInv(d) && Allowed(d, u) && u.side == Progress
    ensures var ops := ProgressOp([], u);
            Enabled(d.progress, ops[0]) && Act(d, u).progress == Step(d.progress, ops[0])
  {
    hide Inv, OnceMemoryInv, Unsettled, Winner, Add, FireWith, Return;
    match u
    case Reg(_, args) => ProgressAdd(d.progress, args);
    case Fires(_, p) => ProgressFire(d.progress, p);
    case Returns(_, stop) => ProgressReturn(d.progress, stop);
  }

  lemma OtherUsed(d: Promise, u: Use)
    requires PromiseInv(d) && Allowed(d, u) && u.side != Progress
    ensures Act(d, u).progress == if u.Fires? && d.outcome == Pending then Lock(d.progress) else d.progress
  {
    hide Inv, OnceMemoryInv, SettlingList, Advance, EndPass;
    if d.outcome != Pending {
      if Verdict(u.side) == d.outcome {
        WinnerKeeps(Get(d, u.side), d.outcome, u);
      }
    } else {
      PendingUsed(d, u);
    }
  }

  lemma PendingUsed(d: Promise, u: Use)
    requires PromiseInv(d) && Allowed(d, u) && u.side != Progress && d.outcome == Pending
    ensures Act(d, u).progress == if u.Fires? then Lock(d.progress) else d.progress
  {
    hide Inv, OnceMemoryInv;
    UnsettledIdle(d.done, Resolved);
    UnsettledIdle(d.fail, Rejected);
    if u.Reg? {
      UnsettledKeeps(Get(d, u.side), Verdict(u.side), u.args);
    } else if u.Fires? {
      FireSettles(d, u.side, u.p);
    }
  }

  lemma RunMore(s: State, ops: seq<Op>, more: seq<Op>)
    requires Legal(s, ops) && |more| <= 1 && (more != [] ==> Enabled(Run(s, ops), more[0]))
    ensures Legal(s, ops + more) && Run(s, ops + more) == ByOp(Run(s, ops), more)
  {
    if more == [] {
      assert ops + more == ops;
    } else {
      assert (ops + more)[..|ops + more| - 1] == ops;
    }
  }

  lemma {:induction false} ProgressIsRun(us: seq<Use>)
    requires Possible(us)
    ensures Legal(New(MEMORY), ProgressOps(us)) && OnlyGrows(ProgressOps(us))
    ensures After(us).progress == Run(New(MEMORY), ProgressOps(us))
    decreases |us|
  {
    hide PromiseInv, Act, Step, ProgressOp, ByOp, OnlyGrows, Fresh;
    if us == [] {
      FreshRun();
    } else {
      var most, u := us[..|us| - 1], us[|us| - 1];
      ProgressIsRun(most);
      AfterKeeps(most);
      ProgressOpMoves(After(most), most, u);
      RunMore(New(MEMORY), ProgressOps(most), ProgressOp(most, u));
      GrowsMore(ProgressOps(most), ProgressOp(most, u));
    }
  }

  lemma FreshRun()
    ensures Fresh().progress == New(MEMORY) == Run(New(MEMORY), []) && OnlyGrows([])
  {
  }

  lemma GrowsMore(a: seq<Op>, b: seq<Op>)
    requires OnlyGrows(a) && OnlyGrows(b)
    ensures OnlyGrows(a + b)
  {
  }

  lemma ProgressOpMoves(d: Promise, us: seq<Use>, u: Use)
    requires PromiseInv(d) && Allowed(d, u) && d.outcome == Decided(us)
    ensures var ops := ProgressOp(us, u);
            && |ops| <= 1 && OnlyGrows(ops) && (ops != [] ==> Enabled(d.progress, ops[0]))
            && Act(d, u).progress == ByOp(d.progress, ops)
  {
    hide PromiseInv, Act, Add, FireWith, Return, Lock;
    if u.side == Progress {
      ProgressUsed(d, u);
    } else {
      OtherUsed(d, u);
    }
  }

  // ---- who has registered

  lemma ProgressRegs(s: State, u: Use, r: State)
    requires s.flags == MEMORY && u.side == Progress
    requires var op := ProgressOp([], u)[0]; Enabled(s, op) && r == Step(s, op)
    ensures r.live ==> s.live && r.regs == s.regs + if u.Reg? then Flatten(u.args) else []
  {
    LiveBefore(s, ProgressOp([], u)[0]);
    if u.Reg? && s.live {
      var ix := AddRegisters(s, u.args);
    } else {
      hide Flatten, Collect, Stamped;
    }
  }

  // A live progress list has registered everyone.
  lemma {:induction false} RegisteredAll(us: seq<Use>)
    requires Possible(us)
    ensures After(us).progress.live ==> After(us).progress.regs == Registered(us, Progress)
    ensures After(us).progress.flags == MEMORY
    decreases |us|
  {
    hide PromiseInv, Act, Step, Fresh;
    if us == [] {
      FreshRun();
    } else {
      var most, u := us[..|us| - 1], us[|us| - 1];
      RegisteredAll(most);
      AfterKeeps(most);
      ProgressOpMoves(After(most), most, u);
      if u.side == Progress {
        ProgressRegs(After(most).progress, u, After(us).progress);
      } else if ProgressOp(most, u) == [OpLock] {
        LockMeans(After(most).progress);
        assert Step(After(most).progress, OpLock) == Lock(After(most).progress) by { StepIsLock(After(most).progress); }
      }
    }
  }

  lemma StepIsLock(s: State)
    ensures Lock(s).begun == s.begun && Step(s, OpLock) == Lock(s) && Lock(s).regs == s.regs && (Lock(s).live ==> s.live) && Lock(s).flags == s.flags
  {
  }

  // How many had registered on `progress` before notification number t.
  function RegisteredBefore(us: seq<Use>, t: nat): nat
    decreases |us|
  {
    if us == [] then 0
    else
      var most := us[..|us| - 1];
      if |Notified(most)| >= t then RegisteredBefore(most, t) else |Registered(most, Progress)|
  }

  lemma {:induction false} BeforeAsRun(us: seq<Use>, t: nat)
    requires Possible(us) && 1 <= t <= |Notified(us)|
    ensures Legal(New(MEMORY), ProgressOps(us))
    ensures RegsBefore(MEMORY, ProgressOps(us), t) == RegisteredBefore(us, t)
    decreases |us|
  {
    hide PromiseInv, Act, Step;
    ProgressIsRun(us);
    var most, u := us[..|us| - 1], us[|us| - 1];
    ProgressIsRun(most);
    AfterKeeps(most);
    var a, b := ProgressOps(most), ProgressOp(most, u);
    if b == [] {
      assert a + b == a;
      BeforeAsRun(most, t);
    } else {
      assert (a + b)[..|a + b| - 1] == a;
      if |Notified(most)| >= t {
        BeforeAsRun(most, t);
      } else {
        OpenIsLive(After(most));
        RegisteredAll(most);
      }
    }
  }

  lemma OpenIsLive(d: Promise)
    requires PromiseInv(d)
    ensures d.outcome == Pending ==> d.progress.open && d.progress.live
    ensures Inv(d.progress)
  {
    hide Unsettled, Winner, Entries, History, PassExact, Running, AllEnded;
  }

  // ---- the laws

  // The uses ahead of the first resolve or reject.
  function Undecided(us: seq<Use>): seq<Use>
    decreases |us|
  {
    if us == [] then us
    else
      var most := us[..|us| - 1];
      if FirstSettling(most).Some? then Undecided(most)
      else if FirstSettling(us).Some? then most else us
  }

  // What callbacks get to hear are the notifications made before the decision, in
  // order, up to those that were still waiting for earlier ones when it fell.
  lemma {:induction false} HeardUntilDecision(us: seq<Use>)
    requires Possible(us)
    ensures Possible(Undecided(us))
    ensures var s, b := After(us).progress, After(Undecided(us)).progress;
            && s.begun == b.begun && Notified(us) == b.begun + b.queue
            && (b.phase.Idle? ==> b.queue == [])
    decreases |us|
  {
    hide PromiseInv, Act, Step, Inv, ByOp, ProgressOp;
    AfterKeeps(us);
    PromiseState(After(us));
    if us != [] && FirstSettling(us).Some? {
      var most, u := us[..|us| - 1], us[|us| - 1];
      HeardUntilDecision(most);
      AfterKeeps(most);
      PromiseState(After(most));
      hide AtClosure, Notified;
      ProgressOpMoves(After(most), most, u);
      ShutKeeps(After(most), most, u);
    }
  }

  // The decision, and whatever comes after it, leaves what has been heard.
  lemma ShutKeeps(d: Promise, us: seq<Use>, u: Use)
    requires FirstSettling(us + [u]).Some?
    requires FirstSettling(us).Some? ==> !d.progress.open && d.progress.queue == []
    requires var ops := ProgressOp(us, u); |ops| <= 1 && (ops != [] ==> Enabled(d.progress, ops[0]))
    ensures ByOp(d.progress, ProgressOp(us, u)).begun == d.progress.begun
  {
    assert (us + [u])[..|us|] == us;
    var ops := ProgressOp(us, u);
    if ops == [OpLock] {
      StepIsLock(d.progress);
    } else if ops != [] {
      ShutStep(d.progress, ops[0]);
    }
    hide Step;
  }

  lemma PromiseState(d: Promise)
    requires PromiseInv(d)
    ensures Inv(d.progress) && (d.outcome == Pending <==> d.progress.open)
    ensures d.progress.open ==> d.progress.accepted == d.progress.begun + d.progress.queue
    ensures d.progress.open || d.progress.queue == []
    ensures d.progress.phase.Idle? ==> d.progress.queue == []
  {
    hide Unsettled, Winner, Entries, History, PassExact, Running, AllEnded;
  }

  // Over every run: each notification that callbacks get to hear has one pass of its
  // own, over by the time the list is idle, in which everyone who had registered on
  // `progress` before it was made is called with it.
  lemma ProgressHears(us: seq<Use>, t: nat)
    requires Possible(us) && 1 <= t <= |After(us).progress.begun|
    ensures t <= |Notified(us)|
    ensures var s := After(us).progress;
            exists k :: 0 <= k < |s.passes| && Begins(s.passes, k, t) && HeardBy(us, k, t)
  {
    HeardUntilDecision(us);
    ProgressIsRun(us);
    RegisteredAll(us);
    hide PromiseInv, Act, Step, Inv;
    var ops, s := ProgressOps(us), After(us).progress;
    RunKeeps(MEMORY, ops);
    FiringsTakeTurns(MEMORY, ops);
    assert HasBegun(s.passes, t);
    var k :| 0 <= k < |s.passes| && Begins(s.passes, k, t);
    NothingSkipped(MEMORY, ops);
    ReachingRun(MEMORY, ops);
    BeforeAsRun(us, t);
    if s.passes[k].ended {
      var p := Notified(us)[t - 1];
      forall i: nat {:trigger Hears(s, k, i, p)} | i < RegisteredBefore(us, t) ensures Hears(s, k, i, p) {
        EveryoneHears(MEMORY, ops, k, t, i);
      }
    }
    assert HeardBy(us, k, t);
  }

  ghost predicate HeardBy(us: seq<Use>, k: nat, t: nat)
    requires Possible(us) && k < |After(us).progress.passes| && 1 <= t <= |Notified(us)|
  {
    var s, p := After(us).progress, Notified(us)[t - 1];
    && s.live && s.regs == Registered(us, Progress)
    && (s.phase.Idle? ==> s.passes[k].ended)
    && (s.passes[k].ended ==>
          forall i: nat {:trigger Hears(s, k, i, p)} :: i < RegisteredBefore(us, t) ==> Hears(s, k, i, p))
  }

  // Who registers on `progress` while none of its callbacks runs, after anything was
  // notified, is called at once with the last notification that was heard, before
  // the decision or after it.  That is the last one made, unless some were still
  // waiting when the decision fell.
  lemma LatecomerHears(us: seq<Use>, args: seq<CallbackSpec.Arg>)
    requires Possible(us) && Allowed(After(us), Reg(Progress, args)) && Flatten(args) != []
    requires Notified(us) != [] && After(us).progress.phase.Idle?
    ensures var s, r := After(us).progress, Act(After(us), Reg(Progress, args)).progress;
            && s.begun != []
            && var f, p := Flatten(args)[0], s.begun[|s.begun| - 1];
               r.phase == Calling(f, p) && r.log == s.log + [Call(|s.passes| + 1, Entry(f, |s.regs|), p)]
    ensures Possible(Undecided(us))
    ensures After(Undecided(us)).progress.queue == [] ==>
              After(us).progress.begun[|After(us).progress.begun| - 1] == Notified(us)[|Notified(us)| - 1]
  {
    HeardUntilDecision(us);
    ProgressIsRun(us);
    RegisteredAll(us);
    AfterKeeps(us);
    var ops, s, u := ProgressOps(us), After(us).progress, Reg(Progress, args);
    ReachingRun(MEMORY, ops);
    BegunIfAccepted(MEMORY, ops);
    RunKeeps(MEMORY, ops);
    LastTurn(s);
    hide PromiseInv, Act, Inv, Flatten, Collect, Stamped, Advance;
    ProgressUsed(After(us), u);
    var ix := AddRegisters(s, args);
    NewcomerHears(MEMORY, ops, args);
  }

  // Notified while a callback of `progress` runs: it has to wait.
  lemma NotedWaits(us: seq<Use>, q: Payload)
    requires Possible(us) && FirstSettling(us).None? && After(us).progress.phase.Calling?
    ensures var noted := us + [Fires(Progress, q)];
            && Possible(noted) && FirstSettling(noted).None? && Notified(noted) == Notified(us) + [q]
            && After(noted).progress.queue == After(us).progress.queue + [q]
            && After(noted).progress.begun == After(us).progress.begun
  {
    hide PromiseInv, Act, Inv, Advance;
    var noted := us + [Fires(Progress, q)];
    assert noted[..|us|] == us;
    AfterKeeps(us);
    PromiseState(After(us));
    ProgressUsed(After(us), Fires(Progress, q));
    assert Step(After(us).progress, OpFire(q)) == FireWith(After(us).progress, q);
    RegisteredAll(us);
  }

  // Such a notification is lost for good if the decision falls before the callback
  // returns.
  lemma WaitingIsLost(us: seq<Use>, q: Payload, decision: Use)
    requires Possible(us) && FirstSettling(us).None? && After(us).progress.phase.Calling?
    requires decision.Fires? && decision.side != Progress
    ensures var noted := us + [Fires(Progress, q)];
            && Possible(noted + [decision])
            && Undecided(noted + [decision]) == noted && Notified(noted + [decision]) == Notified(us) + [q]
            && After(noted + [decision]).progress.begun == After(us).progress.begun
            && After(noted).progress.queue == After(us).progress.queue + [q]
  {
    NotedWaits(us, q);
    hide PromiseInv, Act;
    var noted := us + [Fires(Progress, q)];
    var all := noted + [decision];
    assert all[..|noted|] == noted;
    HeardUntilDecision(all);
  }
}
