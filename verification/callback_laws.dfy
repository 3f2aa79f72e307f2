/** What a callback list promises, over every run of the code that uses it. */
module CallbackLaws {
  import opened Basics
  import opened CallbackSpec
  import opened CallbackRuns

  // ---- what one operation does to the passes

  // The list empties itself during a pass.
  predicate Clears(s: State, op: Op) {
    !s.phase.Idle? && (op.OpEmpty? || op.OpDisable? || (op.OpLock? && !s.memory.Kept?))
  }

  // The passes from `was` to `now` while the list holds `all`: the last one may
  // end, as `stopped` says, and those begun since then run over the whole list.
  ghost predicate Continues(was: seq<Pass>, now: seq<Pass>, all: seq<Entry>, stopped: bool)
    requires was != []
  {
    var n := |was|;
    && n <= |now| && now[..n - 1] == was[..n - 1]
    && (now[n - 1] == was[n - 1] || now[n - 1] == was[n - 1].(ended := true, stopped := stopped, left := all))
    && (forall k :: n <= k < |now| ==> FullPass(now[k], all))
  }

  predicate FullPass(pass: Pass, all: seq<Entry>) {
    pass.from == 0 && !pass.cleared && !pass.stopped && (pass.ended ==> pass.left == all)
  }

  lemma {:induction false} AdvanceContinues(s: State, p: Payload)
    requires s.passes != []
    ensures Continues(s.passes, Advance(s, p).passes, s.done + s.todo, false)
    decreases |s.queue|, 1
  {
    if s.todo == [] && !(s.live && s.phantom > 0) {
      EndPassContinues(s, false);
    }
  }

  lemma {:induction false} EndPassContinues(s: State, stopped: bool)
    requires s.passes != []
    ensures Continues(s.passes, EndPass(s, stopped).passes, s.done + s.todo, stopped)
    decreases |s.queue|, 0
  {
    if s.live && !s.flags.once && s.queue != [] {
      var s2 := StartPass(NextFiring(Ended(s, stopped)), s.queue[0], 0);
      assert s2.done + s2.todo == s.done + s.todo;
      AdvanceContinues(s2, s.queue[0]);
      ContinuesOn(s.passes, s2.passes, EndPass(s, stopped).passes, s.done + s.todo, stopped);
    }
  }

  lemma ContinuesOn(was: seq<Pass>, mid: seq<Pass>, now: seq<Pass>, all: seq<Entry>, stopped: bool)
    requires was != [] && |mid| == |was| + 1 && mid[..|was|] == MarkEnded(was, stopped, all)
    requires FullPass(mid[|was|], all) && !mid[|was|].ended && Continues(mid, now, all, false)
    ensures Continues(was, now, all, stopped)
  {
    var n := |was|;
    assert now[..n] == mid[..n];
    assert now[..n - 1] == now[..n][..n - 1] == mid[..n][..n - 1] == was[..n - 1];
    assert now[n - 1] == now[..n][n - 1] == mid[..n][n - 1];
  }

  // One pass across one operation.  A pass ends when a callback returns, with all
  // that is then in the list as `left`; it is stopped exactly if the callback
  // returns false to a list made for that, and cleared exactly if the list empties
  // itself meanwhile.  A new pass ends with the operation only if it has nobody to
  // call.  Ended passes stay as they are.
  predicate PassKept(s: State, op: Op, r: State, k: nat)
    requires |s.passes| <= |r.passes| && k < |r.passes|
  {
    var now, n := r.passes[k], |s.passes|;
    if k < n then
      var was := s.passes[k];
      && (was.ended ==> now == was)
      && now.p == was.p && now.from == was.from && now.turn == was.turn
      && (now.ended && !was.ended ==> op.OpReturn? && now.left == s.done + s.todo)
      && (now.ended && !was.ended ==> (now.stopped <==> op.stop && s.flags.stopOnFalse))
      && (now.cleared <==> was.cleared || (k == n - 1 && Clears(s, op)))
    else
      && now.from == (if op.OpAdd? then |s.regs| else 0)
      && !now.cleared && !now.stopped && (now.ended ==> now.left == s.done + s.todo)
  }

  ghost predicate PassesKept(s: State, op: Op, r: State) {
    |s.passes| <= |r.passes| && forall k :: 0 <= k < |r.passes| ==> PassKept(s, op, r, k)
  }

  lemma ReturnPasses(s: State, stop: bool)
    requires Inv(s) && s.phase.Calling?
    ensures PassesKept(s, OpReturn(stop), Return(s, stop))
  {
    hide Advance, EndPass, Ordered, NoRepeat, LogOk, Complete, Turns, Shape, InTurn, Entries, PassExact;
    var n := |s.passes|;
    if stop && s.flags.stopOnFalse {
      EndPassContinues(s.(memory := Flag), true);
    } else {
      AdvanceContinues(s, s.phase.p);
    }
    var r := Return(s, stop);
    forall k | 0 <= k < |r.passes| ensures PassKept(s, OpReturn(stop), r, k) {
      if k < n - 1 {
        assert r.passes[k] == r.passes[..n - 1][k];
        assert s.passes[k] == s.passes[..n - 1][k];
      }
    }
  }

  // A pass that begins on an idle list calls at once or ends at once.
  lemma StartPasses(s: State, op: Op, s1: State, p: Payload, from: nat)
    requires Inv(s) && s.phase.Idle? && s1.queue == [] && s1.passes == s.passes && s1.flags == s.flags
    requires op.OpAdd? || op.OpFire?
    requires from == if op.OpAdd? then |s.regs| else 0
    requires s1.todo == [] ==> s1.done == s.done + s.todo
    ensures PassesKept(s, op, Advance(StartPass(s1, p, from), p))
  {
    hide Ordered, NoRepeat, LogOk, Complete, Turns, Shape, InTurn, Entries, PassExact;
    var s2 := StartPass(s1, p, from);
    StartedPasses(s2, p);
    var r := Advance(s2, p);
    assert s2.done + [] == s2.done;
    forall k | 0 <= k < |r.passes| ensures PassKept(s, op, r, k) {
      if k < |s.passes| {
        assert r.passes[k] == s2.passes[..|s.passes|][k] == s.passes[k];
      }
    }
  }

  lemma StartedPasses(s: State, p: Payload)
    requires s.queue == []
    ensures Advance(s, p).passes == s.passes
         || (s.todo == [] && Advance(s, p).passes == MarkEnded(s.passes, false, s.done + s.todo))
  {
  }

  lemma AddPasses(s: State, args: seq<Arg>)
    requires Inv(s)
    ensures PassesKept(s, OpAdd(args), Add(s, args))
  {
    hide Ordered, NoRepeat, LogOk, Complete, Turns, Advance, Collect, Flatten, Stamped;
    if s.live && s.phase.Idle? && s.memory.Kept? {
      var (s1, es) := Accept(s, Flatten(args));
      StartPasses(s, OpAdd(args), s1.(todo := es), s.memory.p, |s.regs|);
    }
  }

  lemma FirePasses(s: State, p: Payload)
    requires Inv(s)
    ensures PassesKept(s, OpFire(p), FireWith(s, p))
  {
    hide Ordered, NoRepeat, LogOk, Complete, Turns, Advance;
    if s.open && s.phase.Idle? && !(s.flags.once && s.memory != Unset) {
      StartPasses(s, OpFire(p), TakeFiring(s, p), p, 0);
    }
  }

  lemma ClearPasses(s: State, op: Op)
    requires Inv(s) && (op.OpEmpty? || op.OpDisable? || op.OpLock?)
    ensures PassesKept(s, op, Step(s, op))
  {
    hide Ordered, NoRepeat, LogOk, Complete, Turns, Shape, InTurn, Entries, PassExact;
    var n, r := |s.passes|, Step(s, op);
    assert r.passes == if Clears(s, op) then MarkCleared(s.passes) else s.passes;
    forall k | 0 <= k < n ensures PassKept(s, op, r, k) {
      if k == n - 1 && Clears(s, op) {
        assert !s.passes[k].ended;
      }
    }
  }

  lemma RemovePasses(s: State, args: seq<Arg>)
    requires Inv(s)
    ensures PassesKept(s, OpRemove(args), Remove(s, args))
  {
  }

  lemma PassesStep(s: State, op: Op)
    requires Inv(s) && Enabled(s, op)
    ensures PassesKept(s, op, Step(s, op))
  {
    hide Inv, PassesKept, Add, FireWith, Return, Disable, Lock, Empty;
    match op
    case OpReturn(stop) => ReturnPasses(s, stop);
    case OpAdd(args) => AddPasses(s, args);
    case OpFire(p) => FirePasses(s, p);
    case OpRemove(args) => RemovePasses(s, args);
    case _ => ClearPasses(s, op);
  }

  // ---- nobody is skipped, nobody is called twice

  // Over every run: each call is of a registration the pass is for, with the pass's
  // payload; no pass calls anything twice, and all call in order of registration;
  // and a pass that has ended, was not stopped by a callback returning false, and
  // whose list was not emptied or disabled meanwhile, has called everything it is
  // for that was in the list when it ended.  While a pass is on, it has called what
  // it has passed, and nothing of what is to do.
  lemma NothingSkipped(flags: Flags, ops: seq<Op>)
    requires Legal(New(flags), ops)
    ensures var s := Run(New(flags), ops);
            && (forall k, e :: 0 <= k < |s.passes| && e in s.passes[k].left && Owes(s.passes[k], e) ==>
                  CalledIn(s.log, k + 1, e))
            && (forall k :: 0 <= k < |s.passes| ==> (s.passes[k].ended <==> k < |s.passes| - 1 || s.phase.Idle?))
    ensures var s := Run(New(flags), ops);
            && (forall i :: 0 <= i < |s.log| ==> CallOk(s, s.log[i]))
            && (forall i, j :: 0 <= i < j < |s.log| && s.log[i].pass == s.log[j].pass ==>
                  s.log[i].entry.stamp < s.log[j].entry.stamp)
    ensures var s := Run(New(flags), ops);
            !s.phase.Idle? ==> OnTheWay(s)
  {
    hide Turns, Shape, InTurn, Entries;
    RunKeeps(flags, ops);
    PassMeaning(Run(New(flags), ops));
    hide Inv;
  }

  lemma PassMeaning(s: State)
    requires Inv(s)
    ensures forall k :: 0 <= k < |s.passes| ==> (s.passes[k].ended <==> k < |s.passes| - 1 || s.phase.Idle?)
    ensures forall i :: 0 <= i < |s.log| ==> CallOk(s, s.log[i])
    ensures !s.phase.Idle? ==> OnTheWay(s)
  {
    hide Complete, Turns, Shape, InTurn, Entries;
    var n := |s.passes|;
    forall k | 0 <= k < n - 1 ensures s.passes[k].ended {
      assert !s.phase.Idle? ==> s.passes[k] == s.passes[..n - 1][k];
    }
    if !s.phase.Idle? {
      forall e | e in s.todo ensures e.stamp >= s.passes[n - 1].from && !CalledIn(s.log, n, e) {
        assert NotReached(s.log, n, e);
      }
    }
  }

  predicate CallOk(s: State, c: Call) {
    && 1 <= c.pass <= |s.passes| && c.p == s.passes[c.pass - 1].p
    && s.passes[c.pass - 1].from <= c.entry.stamp < |s.regs| && s.regs[c.entry.stamp] == c.entry.f
  }

  ghost predicate OnTheWay(s: State) {
    var n := |s.passes|;
    && n > 0
    && (!s.passes[n - 1].cleared ==> forall e :: e in s.done && e.stamp >= s.passes[n - 1].from ==> CalledIn(s.log, n, e))
    && (forall e :: e in s.todo ==> e.stamp >= s.passes[n - 1].from && !CalledIn(s.log, n, e))
  }

  // ---- firings take turns

  // fireWith lets a firing in.
  predicate LetIn(s: State) {
    s.open && !(s.flags.once && (!s.phase.Idle? || s.memory != Unset))
  }

  // The firings let in, in order.
  function Accepted(flags: Flags, ops: seq<Op>): seq<Payload>
    requires Legal(New(flags), ops)
    decreases |ops|
  {
    if ops == [] then []
    else
      var most, last := ops[..|ops| - 1], ops[|ops| - 1];
      Accepted(flags, most) + if last.OpFire? && LetIn(Run(New(flags), most)) then [last.p] else []
  }

  lemma {:induction false} AcceptedRun(flags: Flags, ops: seq<Op>)
    requires Legal(New(flags), ops)
    ensures Run(New(flags), ops).accepted == Accepted(flags, ops)
    decreases |ops|
  {
    hide Step, LetIn;
    if ops != [] {
      var most, last := ops[..|ops| - 1], ops[|ops| - 1];
      AcceptedRun(flags, most);
      AcceptedStep(Run(New(flags), most), last);
    }
  }

  lemma AcceptedStep(s: State, op: Op)
    requires Enabled(s, op)
    ensures Step(s, op).accepted == s.accepted + if op.OpFire? && LetIn(s) then [op.p] else []
  {
  }

  // Pass k is the one that firing number t begins with.
  predicate Begins(passes: seq<Pass>, k: nat, t: nat) {
    k < |passes| && passes[k].turn == t && TurnBefore(passes, k) == t - 1
  }

  lemma {:induction false} TurnsGrow(passes: seq<Pass>, begun: seq<Payload>, memory: bool, i: nat, j: nat)
    requires Turns(passes, begun, memory) && i <= j < |passes|
    ensures passes[i].turn <= passes[j].turn
    decreases j
  {
    if i < j {
      TurnsGrow(passes, begun, memory, i, j - 1);
      assert TurnOk(passes, j, begun, memory);
    }
  }

  lemma BeginsOnce(passes: seq<Pass>, begun: seq<Payload>, memory: bool, i: nat, j: nat, t: nat)
    requires Turns(passes, begun, memory) && Begins(passes, i, t) && Begins(passes, j, t)
    ensures i == j
  {
    if i < j {
      TurnsGrow(passes, begun, memory, i, j - 1);
    } else if j < i {
      TurnsGrow(passes, begun, memory, j, i - 1);
    }
  }

  // Looking back from pass n, every firing up to its own has begun with a pass.
  lemma {:induction false} BeginsSomewhere(passes: seq<Pass>, begun: seq<Payload>, memory: bool, n: nat, t: nat)
    requires Turns(passes, begun, memory) && n < |passes| && 1 <= t <= passes[n].turn
    ensures exists k :: Begins(passes, k, t)
    decreases n
  {
    assert TurnOk(passes, n, begun, memory);
    if t == passes[n].turn && TurnBefore(passes, n) == t - 1 {
      assert Begins(passes, n, t);
    } else {
      BeginsSomewhere(passes, begun, memory, n - 1, t);
    }
  }

  lemma {:induction false} TurnsCount(passes: seq<Pass>, begun: seq<Payload>, k: nat)
    requires Turns(passes, begun, false) && k < |passes|
    ensures passes[k].turn == k + 1
  {
    assert TurnOk(passes, k, begun, false);
    if k > 0 {
      TurnsCount(passes, begun, k - 1);
    }
  }

  predicate HasBegun(passes: seq<Pass>, t: nat) {
    exists k :: 0 <= k < |passes| && Begins(passes, k, t)
  }

  lemma TurnsMeaning(passes: seq<Pass>, begun: seq<Payload>, memory: bool)
    requires Turns(passes, begun, memory)
    ensures forall t: nat {:trigger HasBegun(passes, t)} :: 1 <= t <= |begun| ==> HasBegun(passes, t)
    ensures forall i, j, t :: Begins(passes, i, t) && Begins(passes, j, t) ==> i == j
    ensures !memory ==> |passes| == |begun| && forall k :: 0 <= k < |passes| ==> passes[k].turn == k + 1
  {
    forall t: nat {:trigger HasBegun(passes, t)} | 1 <= t <= |begun| ensures HasBegun(passes, t) {
      BeginsSomewhere(passes, begun, memory, |passes| - 1, t);
    }
    forall i, j, t | Begins(passes, i, t) && Begins(passes, j, t) ensures i == j {
      BeginsOnce(passes, begun, memory, i, j, t);
    }
    if !memory {
      forall k | 0 <= k < |passes| ensures passes[k].turn == k + 1 {
        TurnsCount(passes, begun, k);
      }
    }
  }

  lemma CallsTurn(s: State, i: nat)
    requires History(s) && i < |s.log|
    ensures CallTurn(s, s.log[i])
    ensures forall j :: i < j < |s.log| ==> s.log[i].pass <= s.log[j].pass
  {
    hide Complete;
    assert TurnOk(s.passes, s.log[i].pass - 1, s.begun, s.flags.memory);
  }

  // The call is made by a pass of a firing that had begun, with its payload.
  predicate CallTurn(s: State, c: Call) {
    && 1 <= c.pass <= |s.passes|
    && 1 <= s.passes[c.pass - 1].turn <= |s.begun| && c.p == s.begun[s.passes[c.pass - 1].turn - 1]
  }

  // Over every run: passes do not interleave, and each call gets the payload of its
  // pass's firing.  Firings begin in the order fireWith let them in, all of them by
  // the time an unlocked list is idle.  Each begins with one pass, which is for
  // every registration; passes and firings go up together, and a pass that begins no
  // firing replays the last one, which only a list with memory does.
  lemma FiringsTakeTurns(flags: Flags, ops: seq<Op>)
    requires Legal(New(flags), ops)
    ensures var s := Run(New(flags), ops);
            && s.begun <= Accepted(flags, ops)
            && (s.open ==> s.begun + s.queue == Accepted(flags, ops))
            && (s.open && s.phase.Idle? ==> s.begun == Accepted(flags, ops))
    ensures var s := Run(New(flags), ops);
            && (forall t: nat {:trigger HasBegun(s.passes, t)} :: 1 <= t <= |s.begun| ==> HasBegun(s.passes, t))
            && (forall i, j, t :: Begins(s.passes, i, t) && Begins(s.passes, j, t) ==> i == j)
            && (forall k :: 0 <= k < |s.passes| ==> TurnOk(s.passes, k, s.begun, flags.memory))
            && (!flags.memory ==> |s.passes| == |s.begun| && forall k :: 0 <= k < |s.passes| ==> s.passes[k].turn == k + 1)
    ensures var s := Run(New(flags), ops);
            && (forall i :: 0 <= i < |s.log| ==> CallTurn(s, s.log[i]))
            && (forall i, j :: 0 <= i < j < |s.log| ==> s.log[i].pass <= s.log[j].pass)
  {
    hide Ordered, NoRepeat, LogOk, Complete, TurnOk, Shape, Entries, PassExact, Begins, HasBegun, CallTurn;
    RunKeeps(flags, ops);
    AcceptedRun(flags, ops);
    var s := Run(New(flags), ops);
    TurnsMeaning(s.passes, s.begun, flags.memory);
    forall i | 0 <= i < |s.log|
      ensures CallTurn(s, s.log[i]) && forall j :: i < j < |s.log| ==> s.log[i].pass <= s.log[j].pass
    {
      CallsTurn(s, i);
    }
  }

  lemma UniqueStaysUnique(flags: Flags, ops: seq<Op>)
    requires flags.unique && Legal(New(flags), ops)
    ensures var s := Run(New(flags), ops); NoRepeat(s.done + s.todo)
  {
    RunKeeps(flags, ops);
  }

  // Calling back, however many queued firings follow, takes nothing out of a list
  // that may fire again.
  lemma {:induction false} AdvanceContents(s: State, p: Payload)
    requires !s.flags.once
    ensures Advance(s, p).done + Advance(s, p).todo == s.done + s.todo
    decreases |s.queue|, 1
  {
    if s.todo != [] {
      assert s.done + s.todo == s.done + [s.todo[0]] + s.todo[1..];
    } else if !(s.live && s.phantom > 0) {
      EndPassContents(s, false);
    }
  }

  lemma {:induction false} EndPassContents(s: State, stopped: bool)
    requires !s.flags.once
    ensures EndPass(s, stopped).done + EndPass(s, stopped).todo == s.done + s.todo
    decreases |s.queue|, 0
  {
    if s.live && s.queue != [] {
      AdvanceContents(StartPass(NextFiring(Ended(s, stopped)), s.queue[0], 0), s.queue[0]);
      assert [] + (s.done + s.todo + []) == s.done + s.todo;
    }
  }

  // ---- emptying a list while it fires

  predicate Quiet(ops: seq<Op>) {
    forall op :: op in ops ==> !op.OpAdd? && !op.OpReturn?
  }

  // Without entries and without a bound to reach, the loop never reads past the end.
  lemma {:induction false} NoCrash(s: State, p: Payload)
    requires s.phantom == 0
    ensures !Advance(s, p).phase.Crashed?
    decreases |s.queue|, 1
  {
    if s.todo == [] {
      EndsWell(s, false);
    }
  }

  lemma {:induction false} EndsWell(s: State, stopped: bool)
    ensures !EndPass(s, stopped).phase.Crashed?
    decreases |s.queue|, 0
  {
    if s.live && !s.flags.once && s.queue != [] {
      NoCrash(StartPass(NextFiring(Ended(s, stopped)), s.queue[0], 0), s.queue[0]);
    }
  }

  // A pass reads past the end of the list exactly if its callback returns into a
  // live list with nothing to do whose bound is still ahead.
  lemma CrashesWhen(s: State, stop: bool)
    requires s.phase.Calling?
    ensures Return(s, stop).phase.Crashed? <==>
              !(stop && s.flags.stopOnFalse) && s.live && s.todo == [] && s.phantom > 0
  {
    if stop && s.flags.stopOnFalse {
      EndsWell(s.(memory := Flag), true);
    } else if s.todo == [] && !(s.live && s.phantom > 0) {
      EndsWell(s, false);
    }
  }

  // Up to the next add, an emptied list keeps the pass's place and bound.
  lemma {:induction false} StaysEmptied(s: State, ops: seq<Op>)
    requires !s.phase.Idle? && s.done == [] && s.todo == [] && Quiet(ops) && Legal(s, ops)
    ensures var r := Run(s, ops);
            && r.done == [] && r.todo == [] && r.lag == s.lag && r.phantom == s.phantom
            && r.phase == s.phase && r.flags == s.flags
            && |r.passes| == |s.passes| && r.regs == s.regs && r.log == s.log
    decreases |ops|
  {
    if ops != [] {
      var most, last := ops[..|ops| - 1], ops[|ops| - 1];
      assert last in ops;
      StaysEmptied(s, most);
    }
  }

  // In pass n the registration `stamp` is behind: not called, and not to be called.
  ghost predicate PassedOver(s: State, n: nat, stamp: nat) {
    && n <= |s.passes| && stamp < |s.regs|
    && (forall i :: 0 <= i < |s.log| && s.log[i].pass == n ==> s.log[i].entry.stamp != stamp)
    && (n == |s.passes| && !s.phase.Idle? ==> forall e :: e in s.todo ==> e.stamp > stamp)
  }

  lemma {:induction false} AdvancePassesOver(s: State, p: Payload, n: nat, stamp: nat)
    requires PassedOver(s, n, stamp)
    requires n == |s.passes| ==> forall e :: e in s.todo ==> e.stamp > stamp
    ensures PassedOver(Advance(s, p), n, stamp)
    decreases |s.queue|, 1
  {
    if s.todo != [] {
      assert s.todo[0] in s.todo;
    } else if !(s.live && s.phantom > 0) {
      EndPassesOver(s, false, n, stamp);
    }
  }

  lemma {:induction false} EndPassesOver(s: State, stopped: bool, n: nat, stamp: nat)
    requires PassedOver(s, n, stamp)
    ensures PassedOver(EndPass(s, stopped), n, stamp)
    decreases |s.queue|, 0
  {
    if s.live && !s.flags.once && s.queue != [] {
      AdvancePassesOver(StartPass(NextFiring(Ended(s, stopped)), s.queue[0], 0), s.queue[0], n, stamp);
    }
  }

  lemma AddPassesOver(s: State, args: seq<Arg>, n: nat, stamp: nat)
    requires PassedOver(s, n, stamp)
    ensures PassedOver(Add(s, args), n, stamp)
  {
    hide Advance, Collect, Flatten;
    if s.live {
      var (s1, es) := Accept(s, Flatten(args));
      if s.phase.Idle? && s.memory.Kept? {
        AdvancePassesOver(StartPass(s1.(todo := es), s.memory.p, |s.regs|), s.memory.p, n, stamp);
      }
    }
  }

  lemma PassesOverStep(s: State, op: Op, n: nat, stamp: nat)
    requires PassedOver(s, n, stamp) && Enabled(s, op)
    ensures PassedOver(Step(s, op), n, stamp)
  {
    hide Advance, EndPass;
    match op
    case OpAdd(args) => AddPassesOver(s, args, n, stamp);
    case OpFire(p) => AdvancePassesOver(StartPass(TakeFiring(s, p), p, 0), p, n, stamp);
    case OpRemove(args) => WithoutSelects(s.todo, Named(args));
    case OpReturn(stop) =>
      AdvancePassesOver(s, s.phase.p, n, stamp);
      EndPassesOver(s.(memory := Flag), true, n, stamp);
    case _ =>
  }

  lemma {:induction false} PassesOverRun(s: State, ops: seq<Op>, n: nat, stamp: nat)
    requires PassedOver(s, n, stamp) && Legal(s, ops)
    ensures PassedOver(Run(s, ops), n, stamp)
    decreases |ops|
  {
    hide PassedOver;
    if ops != [] {
      var most := ops[..|ops| - 1];
      PassesOverRun(s, most, n, stamp);
      PassesOverStep(Run(s, most), ops[|ops| - 1], n, stamp);
    }
  }

  // The loop's place and bound, as far as the list does not show them, are those of
  // a list emptied or disabled earlier in the pass.
  lemma PlaceIsKnown(flags: Flags, ops: seq<Op>)
    requires Legal(New(flags), ops)
    ensures var s := Run(New(flags), ops);
            && (s.phase.Idle? ==> s.lag == 0 && s.phantom == 0)
            && (!s.phase.Idle? ==> s.passes != [])
            && (!s.phase.Idle? && !s.passes[|s.passes| - 1].cleared ==> s.lag == 0 && s.phantom == 0)
  {
    RunKeeps(flags, ops);
  }

  // A list is emptied inside a callback, and nothing is added before that callback
  // returns: the loop then reads past the end exactly if callbacks were still to be
  // called, the list is not disabled, and the return value does not stop it.
  lemma EmptiedThenReturns(flags: Flags, before: seq<Op>, quiet: seq<Op>, stop: bool)
    requires Legal(New(flags), before) && Run(New(flags), before).phase.Calling?
    requires Quiet(quiet) && Legal(Empty(Run(New(flags), before)), quiet)
    ensures var s := Run(New(flags), before);
            var r := Run(Empty(s), quiet);
            r.phase == s.phase &&
            (Return(r, stop).phase.Crashed? <==>
               (s.todo != [] || s.phantom > 0) && r.live && !(stop && flags.stopOnFalse))
  {
    hide Return, Empty, Quiet, Legal;
    var s := Run(New(flags), before);
    RunKeeps(flags, before);
    EmptiedState(s, quiet);
    CrashesWhen(Run(Empty(s), quiet), stop);
  }

  lemma EmptiedState(s: State, quiet: seq<Op>)
    requires s.phase.Calling? && Quiet(quiet) && Legal(Empty(s), quiet)
    ensures var r := Run(Empty(s), quiet);
            && r.done == [] && r.todo == [] && r.lag == |s.done| + s.lag && r.phantom == |s.todo| + s.phantom
            && r.phase == s.phase && r.flags == s.flags && |r.passes| == |s.passes|
            && r.regs == s.regs && r.log == s.log
  {
    hide Run, Legal;
    StaysEmptied(Empty(s), quiet);
  }

  // The newcomers that the pass takes for called already.
  function Skipped(s: State, es: seq<Entry>): seq<Entry> {
    es[..if |s.done| + s.lag < |es| then |s.done| + s.lag else |es|]
  }

  // If something is added first, the loop stays within the list; but as many
  // newcomers as the pass had entries behind it are never called in that pass,
  // whatever happens next, and the others are next to be called.
  lemma EmptiedThenAdds(flags: Flags, before: seq<Op>, quiet: seq<Op>, args: seq<CallbackSpec.Arg>, after: seq<Op>)
    requires Legal(New(flags), before) && Run(New(flags), before).phase.Calling?
    requires Quiet(quiet) && Legal(Empty(Run(New(flags), before)), quiet)
    requires Run(Empty(Run(New(flags), before)), quiet).live
    requires Legal(Add(Run(Empty(Run(New(flags), before)), quiet), args), after)
    ensures var s := Run(New(flags), before);
            var r := Run(Empty(s), quiet);
            var es := Accept(r, Flatten(args)).1;
            var lost := Skipped(s, es);
            && Add(r, args).phase == s.phase
            && Add(r, args).done == lost && Add(r, args).todo == es[|lost|..]
            && (forall stop :: !Return(Add(r, args), stop).phase.Crashed?)
            && (forall e :: e in lost ==> !CalledIn(Run(Add(r, args), after).log, |s.passes|, e))
  {
    var s := Run(New(flags), before);
    RunKeeps(flags, before);
    EmptiedState(s, quiet);
    AddsToEmptied(s, Run(Empty(s), quiet), args, after);
  }

  lemma AddsToEmptied(s: State, r: State, args: seq<CallbackSpec.Arg>, after: seq<Op>)
    requires Inv(s) && s.phase.Calling? && r.phase == s.phase && r.live
    requires r.done == [] && r.todo == [] && r.lag == |s.done| + s.lag
    requires |r.passes| == |s.passes| && r.regs == s.regs && r.log == s.log
    requires Legal(Add(r, args), after)
    ensures var es := Accept(r, Flatten(args)).1;
            var lost := Skipped(s, es);
            && Add(r, args).phase == s.phase
            && Add(r, args).done == lost && Add(r, args).todo == es[|lost|..]
            && (forall stop :: !Return(Add(r, args), stop).phase.Crashed?)
            && (forall e :: e in lost ==> !CalledIn(Run(Add(r, args), after).log, |s.passes|, e))
  {
    hide Complete, Turns, Run, Legal, Flatten, Collect;
    var (r1, es) := Accept(r, Flatten(args));
    var r2 := Add(r, args);
    var lost := Skipped(s, es);
    assert r2 == Join(r1, es) && [] + es[..|lost|] == lost && [] + es[|lost|..] == es[|lost|..];
    forall stop ensures !Return(r2, stop).phase.Crashed? {
      CrashesWhen(r2, stop);
    }
    forall e | e in lost ensures !CalledIn(Run(r2, after).log, |s.passes|, e) {
      assert PassedOver(r2, |s.passes|, e.stamp);
      PassesOverRun(r2, after, |s.passes|, e.stamp);
    }
  }

  lemma OneAdded(f: Fn)
    ensures Flatten([FnArg(f)]) == [f]
    ensures forall unique :: Collect(unique, [], [f]) == [f]
  {
    assert [FnArg(f)][..0] == [] && [f][1..] == [];
  }

  lemma LastReturns(s: State, stop: bool)
    requires s.phase.Calling? && s.todo == [] && s.queue == [] && s.phantom == 0
    ensures Return(s, stop).phase.Idle? && Return(s, stop).log == s.log
  {
    assert Return(s, stop) == EndPass(if stop && s.flags.stopOnFalse then s.(memory := Flag) else s, stop && s.flags.stopOnFalse);
  }

  // The shortest case: a lone callback empties its list.  That does no harm by
  // itself, but what it adds then is not called in this firing.
  lemma LoneCallbackLosesNext(flags: Flags, f: Fn, g: Fn, p: Payload, stop: bool)
    ensures var s := FireWith(Add(New(flags), [FnArg(f)]), p);
            var r := Add(Empty(s), [FnArg(g)]);
            && s.phase == Calling(f, p) && s.log == [Call(1, Entry(f, 0), p)]
            && r.phase == s.phase && Fns(r.done) == [g] && r.todo == []
            && Return(r, stop).phase.Idle? && Return(r, stop).log == s.log
            && Return(Empty(s), stop).phase.Idle? && Return(Empty(s), stop).log == s.log
  {
    hide Collect, Flatten, Return;
    OneAdded(f);
    OneAdded(g);
    var s0 := Add(New(flags), [FnArg(f)]);
    assert s0.done == [Entry(f, 0)] && s0.todo == [] && s0.queue == [] && s0.live && s0.memory.Unset?;
    var s := FireWith(s0, p);
    assert TakeFiring(s0, p).todo == [Entry(f, 0)];
    assert s == Advance(StartPass(TakeFiring(s0, p), p, 0), p);
    assert s.done == [Entry(f, 0)] && s.todo == [] && s.queue == [];
    assert Empty(s).done == [] && Empty(s).todo == [] && Empty(s).lag == 1 && Empty(s).phantom == 0;
    var r := Add(Empty(s), [FnArg(g)]);
    assert r.done == [Entry(g, 1)] && r.todo == [] && r.queue == [];
    LastReturns(r, stop);
    LastReturns(Empty(s), stop);
  }
}
