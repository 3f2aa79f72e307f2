/** Properties of whole runs of a callback list. */
module CallbackRuns {
  import opened Basics
  import opened CallbackSpec

  datatype Op = OpAdd(args: seq<Arg>) | OpRemove(args: seq<Arg>) | OpEmpty | OpDisable | OpLock
              | OpFire(p: Payload) | OpReturn(stop: bool)

  // Anything can be done at any time, but only a callback being called returns.
  predicate Enabled(s: State, op: Op) {
    op.OpReturn? ==> s.phase.Calling?
  }

  function Step(s: State, op: Op): (r: State)
    requires Enabled(s, op)
    ensures r.flags == s.flags
  {
    match op
    case OpAdd(args) => Add(s, args)
    case OpRemove(args) => Remove(s, args)
    case OpEmpty => Empty(s)
    case OpDisable => Disable(s)
    case OpLock => Lock(s)
    case OpFire(p) => FireWith(s, p)
    case OpReturn(stop) => Return(s, stop)
  }

  predicate Legal(s: State, ops: seq<Op>)
    decreases |ops|, 0
  {
    ops == [] ||
    var most, last := ops[..|ops| - 1], ops[|ops| - 1];
    Legal(s, most) && Enabled(Run(s, most), last)
  }

  // The state after the operations of `ops`, in order.
  function Run(s: State, ops: seq<Op>): State
    requires Legal(s, ops)
    decreases |ops|, 1
  {
    if ops == [] then s else Step(Run(s, ops[..|ops| - 1]), ops[|ops| - 1])
  }

  // ---- entries in order, each registration once

  ghost predicate Ordered(es: seq<Entry>, regs: seq<Fn>) {
    && (forall i :: 0 <= i < |es| ==> es[i].stamp < |regs| && regs[es[i].stamp] == es[i].f)
    && (forall i, j {:trigger Earlier(es, i, j)} :: 0 <= i < j < |es| ==> Earlier(es, i, j))
  }

  predicate Earlier(es: seq<Entry>, i: nat, j: nat)
    requires i < |es| && j < |es|
  {
    es[i].stamp < es[j].stamp
  }

  ghost predicate NoRepeat(es: seq<Entry>) {
    forall i, j :: 0 <= i < j < |es| ==> es[i].f != es[j].f
  }

  ghost predicate Entries(s: State) {
    && Ordered(s.done + s.todo, s.regs)
    && (s.flags.unique ==> NoRepeat(s.done + s.todo))
  }

  // ---- passes

  predicate CalledIn(log: seq<Call>, k: nat, e: Entry) {
    exists i :: 0 <= i < |log| && log[i].pass == k && log[i].entry == e
  }

  // Calls are of registrations, in passes that do not interleave; a pass has one
  // payload and calls what it is for, each once and in order.
  ghost predicate LogOk(log: seq<Call>, passes: seq<Pass>, regs: seq<Fn>) {
    && (forall i :: 0 <= i < |log| ==>
          1 <= log[i].pass <= |passes| && log[i].p == passes[log[i].pass - 1].p
          && passes[log[i].pass - 1].from <= log[i].entry.stamp < |regs|
          && regs[log[i].entry.stamp] == log[i].entry.f)
    && (forall i, j :: 0 <= i < j < |log| ==> log[i].pass <= log[j].pass)
    && (forall i, j :: 0 <= i < j < |log| && log[i].pass == log[j].pass ==>
          log[i].entry.stamp < log[j].entry.stamp)
  }

  // A pass that has run to its end undisturbed has called all that was left.
  ghost predicate Complete(log: seq<Call>, passes: seq<Pass>) {
    forall k, e {:trigger Owes(passes[k], e)} ::
      0 <= k < |passes| && e in passes[k].left && Owes(passes[k], e) ==> CalledIn(log, k + 1, e)
  }

  // A pass that ended undisturbed owes a call to what it is for.
  predicate Owes(pass: Pass, e: Entry) {
    pass.ended && !pass.stopped && !pass.cleared && e.stamp >= pass.from
  }

  // Every firing begun has a pass over all entries, in order; any other pass
  // replays the last firing begun, for newcomers of a list with memory.
  ghost predicate Turns(passes: seq<Pass>, begun: seq<Payload>, memory: bool) {
    && (if passes == [] then begun == [] else passes[|passes| - 1].turn == |begun|)
    && (forall k :: 0 <= k < |passes| ==> TurnOk(passes, k, begun, memory))
  }

  predicate TurnOk(passes: seq<Pass>, k: nat, begun: seq<Payload>, memory: bool)
    requires k < |passes|
  {
    && 1 <= passes[k].turn <= |begun| && passes[k].p == begun[passes[k].turn - 1]
    && if passes[k].turn == TurnBefore(passes, k) + 1 then passes[k].from == 0
       else passes[k].turn == TurnBefore(passes, k) && memory
  }

  function TurnBefore(passes: seq<Pass>, k: nat): nat
    requires k < |passes|
  {
    if k == 0 then 0 else passes[k - 1].turn
  }

  predicate AllEnded(passes: seq<Pass>) {
    forall k :: 0 <= k < |passes| ==> passes[k].ended
  }

  predicate Running(passes: seq<Pass>) {
    passes != [] && AllEnded(passes[..|passes| - 1]) && !passes[|passes| - 1].ended
  }

  // The pass that is on: unless the list has been cleared meanwhile, its place is
  // right and what it has passed it has called; what is to do comes after that.
  ghost predicate PassExact(s: State)
    requires s.passes != []
  {
    var n := |s.passes|;
    var on := s.passes[n - 1];
    && on.from <= |s.regs|
    && (!on.cleared ==> s.lag == 0 && s.phantom == 0)
    && (!on.cleared ==> forall e {:trigger CalledIn(s.log, n, e)} ::
          e in s.done && e.stamp >= on.from ==> CalledIn(s.log, n, e))
    && (forall e {:trigger NotReached(s.log, n, e)} :: e in s.todo ==> on.from <= e.stamp && NotReached(s.log, n, e))
  }

  // Pass n has not come to e yet.
  ghost predicate NotReached(log: seq<Call>, n: nat, e: Entry) {
    forall i :: 0 <= i < |log| && log[i].pass == n ==> log[i].entry.stamp < e.stamp
  }

  // Firings begin in the order fireWith let them in; what is remembered for
  // replay is the firing begun last.
  ghost predicate InTurn(s: State) {
    && s.begun <= s.accepted
    && (s.open ==> s.accepted == s.begun + s.queue)
    && (s.memory.Kept? ==> s.begun != [] && s.memory.p == s.begun[|s.begun| - 1])
  }

  ghost predicate Shape(s: State) {
    && (!s.live ==> s.done == [] && s.todo == [])
    && (!s.open ==> s.queue == [])
    && (s.open ==> s.live)
    && (s.flags.once ==> s.queue == [])
    && (s.memory.Kept? ==> s.flags.memory)
    && (s.lag > 0 ==> s.todo == [])
    && (s.phantom > 0 ==> s.done == [] && s.todo == [])
  }

  ghost predicate History(s: State) {
    LogOk(s.log, s.passes, s.regs) && Complete(s.log, s.passes) && Turns(s.passes, s.begun, s.flags.memory)
  }

  ghost predicate Inv(s: State) {
    && Shape(s) && Entries(s) && History(s) && InTurn(s)
    && (s.phase.Idle? ==> s.todo == [] && s.queue == [] && s.lag == 0 && s.phantom == 0 && AllEnded(s.passes))
    && (!s.phase.Idle? ==> Running(s.passes) && PassExact(s))
    && (s.phase.Calling? ==> s.passes[|s.passes| - 1].p == s.phase.p)
  }

  // The same at the firing loop's test, with `p` being fired.
  ghost predicate AtLoop(s: State, p: Payload) {
    && Shape(s) && Entries(s) && History(s) && InTurn(s)
    && Running(s.passes) && s.passes[|s.passes| - 1].p == p && PassExact(s)
  }

  lemma CallKeepsPass(s: State, p: Payload)
    requires AtLoop(s, p) && s.todo != []
    ensures PassExact(Advance(s, p)) && Entries(Advance(s, p))
  {
    hide Complete, Turns;
    var r := Advance(s, p);
    var e := s.todo[0];
    var es := s.done + s.todo;
    var n := |s.passes|;
    assert r.done + r.todo == es;
    assert es[|s.done|] == e && e in s.todo && NotReached(s.log, n, e);
    forall i | 0 <= i < |r.todo| ensures r.todo[i] in s.todo && e.stamp < r.todo[i].stamp {
      assert r.todo[i] == s.todo[i + 1] == es[|s.done| + 1 + i];
      assert Earlier(es, |s.done|, |s.done| + 1 + i);
    }
    assert r.log[|s.log|].entry == e;
    forall x | x in r.todo ensures x in s.todo && NotReached(r.log, n, x) {
      assert NotReached(s.log, n, x);
    }
    forall x | x in r.done && x.stamp >= s.passes[n - 1].from && !s.passes[n - 1].cleared
      ensures CalledIn(r.log, n, x)
    {
      if x in s.done {
        CalledGrows(s.log, r.log[|s.log|], n, x);
      }
    }
  }

  lemma CalledGrows(log: seq<Call>, c: Call, k: nat, e: Entry)
    requires CalledIn(log, k, e)
    ensures CalledIn(log + [c], k, e)
  {
    var i :| 0 <= i < |log| && log[i].pass == k && log[i].entry == e;
    assert (log + [c])[i] == log[i];
  }

  lemma CompleteGrows(log: seq<Call>, c: Call, passes: seq<Pass>)
    requires Complete(log, passes)
    ensures Complete(log + [c], passes)
  {
    forall k, e | 0 <= k < |passes| && e in passes[k].left && Owes(passes[k], e)
      ensures CalledIn(log + [c], k + 1, e)
    {
      CalledGrows(log, c, k + 1, e);
    }
  }

  lemma LogGrows(log: seq<Call>, passes: seq<Pass>, regs: seq<Fn>, e: Entry)
    requires LogOk(log, passes, regs) && passes != []
    requires passes[|passes| - 1].from <= e.stamp < |regs| && regs[e.stamp] == e.f
    requires forall i :: 0 <= i < |log| && log[i].pass == |passes| ==> log[i].entry.stamp < e.stamp
    ensures LogOk(log + [Call(|passes|, e, passes[|passes| - 1].p)], passes, regs)
  {
  }

  lemma CallKeepsLog(s: State, p: Payload)
    requires AtLoop(s, p) && s.todo != []
    ensures LogOk(Advance(s, p).log, s.passes, s.regs)
  {
    hide Complete, Turns, LogOk;
    var e := s.todo[0];
    assert (s.done + s.todo)[|s.done|] == e && e in s.todo;
    assert NotReached(s.log, |s.passes|, e);
    LogGrows(s.log, s.passes, s.regs, e);
  }

  lemma CallKeeps(s: State, p: Payload)
    requires AtLoop(s, p) && s.todo != []
    ensures Inv(Advance(s, p))
  {
    CallKeepsPass(s, p);
    CallKeepsLog(s, p);
    CompleteGrows(s.log, Call(|s.passes|, s.todo[0], p), s.passes);
    hide Ordered, NoRepeat, LogOk, Complete, Turns, PassExact, Running;
  }

  // The pass that is on does not depend on the queue or the memory.
  lemma SamePass(s: State, r: State)
    requires s.passes != [] && PassExact(s)
    requires r == s.(open := r.open, queue := r.queue, memory := r.memory, accepted := r.accepted)
    ensures PassExact(r)
  {
    hide CalledIn, NotReached;
    var n := |s.passes|;
    forall e | e in s.todo ensures NotReached(r.log, n, e) && r.passes[n - 1].from <= e.stamp {
      assert NotReached(s.log, n, e);
    }
  }

  // ---- passes begin

  lemma TurnsWithFiring(passes: seq<Pass>, begun: seq<Payload>, memory: bool, p: Payload)
    requires Turns(passes, begun, memory)
    ensures Turns(passes + [Pass(p, 0, |begun| + 1, false, false, false, [])], begun + [p], memory)
  {
    var r := passes + [Pass(p, 0, |begun| + 1, false, false, false, [])];
    forall k | 0 <= k < |r| ensures TurnOk(r, k, begun + [p], memory) {
      assert k < |passes| ==> TurnOk(passes, k, begun, memory);
    }
  }

  lemma TurnsWithReplay(passes: seq<Pass>, begun: seq<Payload>, p: Payload, from: nat)
    requires Turns(passes, begun, true) && begun != [] && p == begun[|begun| - 1]
    ensures Turns(passes + [Pass(p, from, |begun|, false, false, false, [])], begun, true)
  {
    var r := passes + [Pass(p, from, |begun|, false, false, false, [])];
    forall k | 0 <= k < |r| ensures TurnOk(r, k, begun, true) {
      assert k < |passes| ==> TurnOk(passes, k, begun, true);
    }
  }

  lemma StartKeeps(s: State, p: Payload, from: nat)
    requires Shape(s) && Entries(s) && LogOk(s.log, s.passes, s.regs) && Complete(s.log, s.passes)
    requires s.lag == 0 && s.phantom == 0 && AllEnded(s.passes)
    requires Turns(StartPass(s, p, from).passes, s.begun, s.flags.memory)
    requires s.begun != [] && s.begun[|s.begun| - 1] == p && s.begun <= s.accepted
    requires s.open ==> s.accepted == s.begun + s.queue
    requires from <= |s.regs|
    requires forall e :: e in s.todo ==> from <= e.stamp
    requires forall e :: e in s.done ==> e.stamp < from
    ensures AtLoop(StartPass(s, p, from), p)
  {
    hide Ordered, NoRepeat, Turns;
    var r := StartPass(s, p, from);
    assert r.passes[..|s.passes|] == s.passes;
  }

  // ---- passes end

  lemma EndedKeeps(s: State, p: Payload, stopped: bool)
    requires AtLoop(s, p) && (!stopped ==> s.todo == [])
    ensures var r := Ended(s, stopped);
            && Entries(r) && History(r) && AllEnded(r.passes)
            && r.done + r.todo == r.done == s.done + s.todo
  {
    var r := Ended(s, stopped);
    EndedTurns(s.passes, s.begun, s.flags.memory, stopped, s.done + s.todo);
    EndedComplete(s, p, stopped);
    EndedLog(s.log, s.passes, s.regs, stopped, s.done + s.todo);
    hide Ordered, NoRepeat, Complete, Turns, PassExact, LogOk;
    assert r.done + r.todo == s.done + s.todo;
    forall k | 0 <= k < |r.passes| ensures r.passes[k].ended {
      assert k < |s.passes| - 1 ==> s.passes[..|s.passes| - 1][k].ended;
    }
  }

  lemma EndedLog(log: seq<Call>, passes: seq<Pass>, regs: seq<Fn>, stopped: bool, left: seq<Entry>)
    requires LogOk(log, passes, regs)
    ensures LogOk(log, MarkEnded(passes, stopped, left), regs)
  {
    var r := MarkEnded(passes, stopped, left);
    assert |r| == |passes| && forall k :: 0 <= k < |passes| ==> r[k].from == passes[k].from && r[k].p == passes[k].p;
  }

  lemma EndedTurns(passes: seq<Pass>, begun: seq<Payload>, memory: bool, stopped: bool, left: seq<Entry>)
    requires Turns(passes, begun, memory)
    ensures Turns(MarkEnded(passes, stopped, left), begun, memory)
  {
    var r := MarkEnded(passes, stopped, left);
    forall k | 0 <= k < |r| ensures TurnOk(r, k, begun, memory) {
      assert TurnOk(passes, k, begun, memory);
    }
  }

  lemma EndedComplete(s: State, p: Payload, stopped: bool)
    requires AtLoop(s, p) && (!stopped ==> s.todo == [])
    ensures Complete(s.log, MarkEnded(s.passes, stopped, s.done + s.todo))
  {
    hide Ordered, NoRepeat, Turns, LogOk;
    assert s.todo == [] ==> s.done + s.todo == s.done;
  }

  lemma {:induction false} AdvanceKeeps(s: State, p: Payload)
    requires AtLoop(s, p)
    ensures Inv(Advance(s, p))
    decreases |s.queue|, 1
  {
    hide Ordered, NoRepeat, LogOk, Complete, Turns;
    if s.todo != [] {
      CallKeeps(s, p);
    } else if s.live && s.phantom > 0 {
      assert Advance(s, p) == s.(phase := Crashed, lag := s.lag + 1, phantom := s.phantom - 1);
    } else {
      EndPassKeeps(s, p, false);
    }
  }

  lemma NextReady(s: State, p: Payload, stopped: bool)
    requires AtLoop(s, p) && (!stopped ==> s.todo == []) && s.live && s.queue != []
    ensures AtLoop(StartPass(NextFiring(Ended(s, stopped)), s.queue[0], 0), s.queue[0])
    ensures NextFiring(Ended(s, stopped)).done == [] && NextFiring(Ended(s, stopped)).todo == s.done + s.todo
  {
    hide Ordered, NoRepeat, LogOk, Complete, Turns, PassExact;
    EndedKeeps(s, p, stopped);
    var s1 := Ended(s, stopped);
    var s2 := NextFiring(s1);
    TurnsWithFiring(s1.passes, s1.begun, s.flags.memory, s.queue[0]);
    assert s1.done + s1.todo == s1.done;
    assert s2.done + s2.todo == s1.done;
    assert s2.begun + s2.queue == s.begun + s.queue;
    StartKeeps(s2, s.queue[0], 0);
  }

  lemma EndedIdle(s: State, p: Payload, stopped: bool)
    requires AtLoop(s, p) && (!stopped ==> s.todo == []) && s.queue == []
    ensures Inv(Ended(s, stopped))
  {
    EndedKeeps(s, p, stopped);
    hide Entries, History, PassExact, Running, AllEnded, MarkEnded;
  }

  lemma PassEnds(s: State, p: Payload, stopped: bool)
    requires AtLoop(s, p) && (!stopped ==> s.todo == [])
    requires !(s.live && !s.flags.once && s.queue != [])
    ensures Inv(EndPass(s, stopped))
  {
    hide Inv, Entries, History, PassExact, Running, InTurn;
    EndedIdle(s, p, stopped);
    var e := Ended(s, stopped);
    ClearKeeps(e);
    DisableKeeps(e);
    hide AtLoop;
    assert Clear(e) == e.(done := []);
  }

  lemma NoEntries(s: State)
    requires s.done == [] && s.todo == []
    ensures Entries(s)
  {
    assert s.done + s.todo == [];
  }

  lemma {:induction false} EndPassKeeps(s: State, p: Payload, stopped: bool)
    requires AtLoop(s, p) && (!stopped ==> s.todo == [])
    ensures Inv(EndPass(s, stopped))
    decreases |s.queue|, 0
  {
    hide Inv, AtLoop;
    if s.live && !s.flags.once && s.queue != [] {
      NextReady(s, p, stopped);
      AdvanceKeeps(StartPass(NextFiring(Ended(s, stopped)), s.queue[0], 0), s.queue[0]);
    } else {
      PassEnds(s, p, stopped);
    }
  }

  // ---- each operation keeps the invariant

  lemma {:induction false} CollectDistinct(present: seq<Fn>, fs: seq<Fn>)
    requires forall i, j :: 0 <= i < j < |present| ==> present[i] != present[j]
    ensures var all := present + Collect(true, present, fs);
            forall i, j :: 0 <= i < j < |all| ==> all[i] != all[j]
    decreases fs
  {
    if fs == [] {
      assert present + Collect(true, present, fs) == present;
    } else if fs[0] in present {
      CollectDistinct(present, fs[1..]);
      assert Collect(true, present, fs) == Collect(true, present, fs[1..]);
    } else {
      CollectDistinct(present + [fs[0]], fs[1..]);
      assert present + Collect(true, present, fs)
          == present + [fs[0]] + Collect(true, present + [fs[0]], fs[1..]);
    }
  }

  lemma AcceptKeeps(s: State, fs: seq<Fn>)
    requires Entries(s)
    ensures var (s1, es) := Accept(s, fs);
            && Ordered(s.done + s.todo + es, s1.regs)
            && (s.flags.unique ==> NoRepeat(s.done + s.todo + es))
            && (forall e :: e in es ==> |s.regs| <= e.stamp)
  {
    var (s1, es) := Accept(s, fs);
    var was := s.done + s.todo;
    forall i, j | 0 <= i < j < |was + es| ensures Earlier(was + es, i, j) {
      assert j < |was| ==> Earlier(was, i, j);
    }
    if s.flags.unique {
      CollectDistinct(Fns(was), fs);
      assert Fns(was + es) == Fns(was) + Collect(true, Fns(was), fs);
      assert forall i :: 0 <= i < |was + es| ==> Fns(was + es)[i] == (was + es)[i].f;
    }
  }

  lemma LogOkGrows(log: seq<Call>, passes: seq<Pass>, regs: seq<Fn>, more: seq<Fn>)
    requires LogOk(log, passes, regs)
    ensures LogOk(log, passes, regs + more)
  {
  }

  // How the newcomers are shared out.
  lemma JoinShares(s: State, s1: State, es: seq<Entry>)
    requires s.lag > 0 ==> s.todo == []
    requires s1 == s.(regs := s1.regs)
    ensures var r := Join(s1, es);
            && r == s1.(done := r.done, todo := r.todo, lag := r.lag, phantom := 0)
            && r.done + r.todo == s.done + (s.todo + es)
            && |r.done| + r.lag == |s.done| + s.lag && (r.lag > 0 ==> r.todo == [])
            && (s.lag == 0 ==> r.done == s.done)
            && forall e :: e in r.todo ==> e in s.todo || e in es
  {
    if s.lag == 0 || es == [] {
      assert es[..0] == [] && es[0..] == es && s.done + [] == s.done;
    } else {
      var k := if s.lag < |es| then s.lag else |es|;
      Regroup(s.done, es, k);
      assert s.todo == [] && s.todo + es == es;
      assert s.todo + es[k..] == es[k..];
    }
  }

  lemma Regroup(a: seq<Entry>, b: seq<Entry>, k: nat)
    requires k <= |b|
    ensures (a + b[..k]) + b[k..] == a + b
    ensures forall e :: e in b[k..] ==> e in b
  {
  }

  lemma JoinKeepsPass(s: State, s1: State, es: seq<Entry>)
    requires !s.phase.Idle? && s.passes != [] && PassExact(s) && LogOk(s.log, s.passes, s.regs)
    requires s.lag > 0 ==> s.todo == []
    requires s1 == s.(regs := s1.regs) && |s1.regs| >= |s.regs|
    requires forall e :: e in es ==> |s.regs| <= e.stamp
    ensures PassExact(Join(s1, es))
  {
    JoinShares(s, s1, es);
    var r, n := Join(s1, es), |s.passes|;
    hide Join, CalledIn;
    forall e | e in r.todo ensures s.passes[n - 1].from <= e.stamp && NotReached(r.log, n, e) {
      assert e in s.todo ==> NotReached(s.log, n, e);
    }
  }

  lemma JoinKeepsEntries(s: State, s1: State, es: seq<Entry>)
    requires s.lag > 0 ==> s.todo == []
    requires s1 == s.(regs := s1.regs)
    requires Ordered(s.done + s.todo + es, s1.regs) && (s.flags.unique ==> NoRepeat(s.done + s.todo + es))
    ensures Entries(Join(s1, es))
  {
    JoinShares(s, s1, es);
    hide Ordered, NoRepeat, Join;
    assert s.done + (s.todo + es) == s.done + s.todo + es;
  }

  lemma AddDuringPass(s: State, args: seq<Arg>)
    requires Inv(s) && s.live && !s.phase.Idle?
    ensures Inv(Add(s, args))
  {
    AcceptKeeps(s, Flatten(args));
    var (s1, es) := Accept(s, Flatten(args));
    LogOkGrows(s.log, s.passes, s.regs, Fns(es));
    JoinShares(s, s1, es);
    JoinKeepsPass(s, s1, es);
    JoinKeepsEntries(s, s1, es);
    hide Entries, LogOk, Complete, Turns, AllEnded, PassExact, Collect, Flatten, Stamped, Ordered, NoRepeat;
  }

  lemma ReplayReady(s: State, args: seq<Arg>)
    requires Inv(s) && s.live && s.phase.Idle? && s.memory.Kept?
    ensures var (s1, es) := Accept(s, Flatten(args));
            AtLoop(StartPass(s1.(todo := es), s.memory.p, |s.regs|), s.memory.p)
  {
    AcceptKeeps(s, Flatten(args));
    var (s1, es) := Accept(s, Flatten(args));
    LogOkGrows(s.log, s.passes, s.regs, Fns(es));
    TurnsWithReplay(s.passes, s.begun, s.memory.p, |s.regs|);
    assert s.done + s.todo + es == s.done + es;
    forall e | e in s.done ensures e.stamp < |s.regs| {
      var i :| 0 <= i < |s.done| && s.done[i] == e;
      assert (s.done + s.todo)[i] == e;
    }
    hide Ordered, NoRepeat, LogOk, Complete, Turns, Running, PassExact, Collect, Flatten, Stamped;
    StartKeeps(s1.(todo := es), s.memory.p, |s.regs|);
  }

  lemma AddReplays(s: State, args: seq<Arg>)
    requires Inv(s) && s.live && s.phase.Idle? && s.memory.Kept?
    ensures Inv(Add(s, args))
  {
    hide Inv, AtLoop, Advance;
    ReplayReady(s, args);
    var (s1, es) := Accept(s, Flatten(args));
    AdvanceKeeps(StartPass(s1.(todo := es), s.memory.p, |s.regs|), s.memory.p);
  }

  lemma AddWaits(s: State, args: seq<Arg>)
    requires Inv(s) && s.live && s.phase.Idle? && !s.memory.Kept?
    ensures Inv(Add(s, args))
  {
    AcceptKeeps(s, Flatten(args));
    var (s1, es) := Accept(s, Flatten(args));
    LogOkGrows(s.log, s.passes, s.regs, Fns(es));
    assert s.done + s.todo + es == s.done + es == s.done + es + s.todo;
    hide Ordered, NoRepeat, LogOk, Complete, Turns, Running, PassExact, Collect, Flatten, Stamped;
  }

  lemma AddKeeps(s: State, args: seq<Arg>)
    requires Inv(s)
    ensures Inv(Add(s, args))
  {
    hide Inv;
    if s.live && !s.phase.Idle? {
      AddDuringPass(s, args);
    } else if s.live && s.memory.Kept? {
      AddReplays(s, args);
    } else if s.live {
      AddWaits(s, args);
    }
  }

  lemma FireReady(s: State, p: Payload)
    requires Inv(s) && s.open && s.phase.Idle?
    ensures AtLoop(StartPass(TakeFiring(s, p), p, 0), p)
    ensures var s1 := TakeFiring(s, p); s1.todo == s.done && s1.done + s1.todo == s.done + s.todo
  {
    hide Ordered, NoRepeat, LogOk, Complete, Turns, Running, PassExact;
    var s1 := TakeFiring(s, p);
    assert s1.done + s1.todo == s.done + s.todo;
    TurnsWithFiring(s.passes, s.begun, s.flags.memory, p);
    StartKeeps(s1, p, 0);
  }

  lemma FireKeeps(s: State, p: Payload)
    requires Inv(s)
    ensures Inv(FireWith(s, p))
  {
    hide Ordered, NoRepeat, LogOk, Complete, Turns, AllEnded, PassExact, Advance;
    if s.open && s.phase.Idle? && !(s.flags.once && s.memory != Unset) {
      FireReady(s, p);
      AdvanceKeeps(StartPass(TakeFiring(s, p), p, 0), p);
    } else if s.open && !s.phase.Idle? && !s.flags.once {
      assert s.begun + (s.queue + [p]) == s.accepted + [p];
      SamePass(s, FireWith(s, p));
    }
  }

  lemma {:induction false} WithoutSelects(es: seq<Entry>, gone: set<Fn>)
    ensures forall e :: e in Without(es, gone) <==> e in es && e.f !in gone
  {
    if es != [] {
      WithoutSelects(es[1..], gone);
      assert forall e :: e in es <==> e == es[0] || e in es[1..];
    }
  }

  lemma {:induction false} WithoutSplits(a: seq<Entry>, b: seq<Entry>, gone: set<Fn>)
    ensures Without(a + b, gone) == Without(a, gone) + Without(b, gone)
  {
    if a == [] {
      assert a + b == b;
    } else {
      WithoutSplits(a[1..], b, gone);
      assert (a + b)[1..] == a[1..] + b;
    }
  }

  lemma {:induction false} WithoutOrdered(es: seq<Entry>, gone: set<Fn>, regs: seq<Fn>)
    requires Ordered(es, regs)
    ensures Ordered(Without(es, gone), regs)
  {
    if es != [] {
      forall i, j | 0 <= i < j < |es[1..]| ensures Earlier(es[1..], i, j) {
        assert Earlier(es, i + 1, j + 1);
      }
      WithoutOrdered(es[1..], gone, regs);
      var r := Without(es[1..], gone);
      forall i | 0 <= i < |r| ensures es[0].stamp < r[i].stamp {
        WithoutSelects(es[1..], gone);
        var k :| 0 <= k < |es[1..]| && es[1..][k] == r[i];
        assert Earlier(es, 0, k + 1);
      }
      OrderedCons(es[0], r, regs);
    }
  }

  lemma OrderedCons(e: Entry, es: seq<Entry>, regs: seq<Fn>)
    requires Ordered(es, regs) && e.stamp < |regs| && regs[e.stamp] == e.f
    requires forall i :: 0 <= i < |es| ==> e.stamp < es[i].stamp
    ensures Ordered([e] + es, regs)
  {
    forall i, j | 0 <= i < j < |[e] + es| ensures Earlier([e] + es, i, j) {
      assert i > 0 ==> Earlier(es, i - 1, j - 1);
    }
  }

  lemma {:induction false} WithoutNoRepeat(es: seq<Entry>, gone: set<Fn>)
    requires NoRepeat(es)
    ensures NoRepeat(Without(es, gone))
  {
    if es != [] {
      WithoutNoRepeat(es[1..], gone);
      var r := Without(es[1..], gone);
      WithoutSelects(es[1..], gone);
      forall i | 0 <= i < |r| ensures es[0].f != r[i].f {
        assert r[i] in es[1..];
        var k :| 0 <= k < |es[1..]| && es[1..][k] == r[i];
        assert es[k + 1] == r[i];
      }
    }
  }

  lemma RemoveKeepsEntries(s: State, gone: set<Fn>)
    requires Entries(s)
    ensures Entries(s.(done := Without(s.done, gone), todo := Without(s.todo, gone)))
  {
    WithoutSplits(s.done, s.todo, gone);
    WithoutOrdered(s.done + s.todo, gone, s.regs);
    if s.flags.unique {
      WithoutNoRepeat(s.done + s.todo, gone);
    }
  }

  lemma RemoveKeepsPass(s: State, gone: set<Fn>)
    requires s.passes != [] && PassExact(s)
    ensures PassExact(s.(done := Without(s.done, gone), todo := Without(s.todo, gone)))
  {
    hide CalledIn, NotReached;
    WithoutSelects(s.done, gone);
    WithoutSelects(s.todo, gone);
    var n := |s.passes|;
    forall e | e in Without(s.todo, gone) ensures NotReached(s.log, n, e) && s.passes[n - 1].from <= e.stamp {
    }
  }

  lemma RemoveKeeps(s: State, args: seq<Arg>)
    requires Inv(s)
    ensures Inv(Remove(s, args))
  {
    RemoveKeepsEntries(s, Named(args));
    if !s.phase.Idle? {
      RemoveKeepsPass(s, Named(args));
    }
    hide Ordered, NoRepeat, LogOk, Complete, Turns, Running, PassExact;
  }

  lemma ReturnReady(s: State)
    requires Inv(s) && s.phase.Calling?
    ensures AtLoop(s, s.phase.p) && AtLoop(s.(memory := Flag), s.phase.p)
  {
    hide Ordered, NoRepeat, LogOk, Complete, Turns, AllEnded, PassExact;
    SamePass(s, s.(memory := Flag));
  }

  lemma ReturnKeeps(s: State, stop: bool)
    requires Inv(s) && s.phase.Calling?
    ensures Inv(Return(s, stop))
  {
    hide Inv, AtLoop;
    ReturnReady(s);
    if stop && s.flags.stopOnFalse {
      EndPassKeeps(s.(memory := Flag), s.phase.p, true);
    } else {
      AdvanceKeeps(s, s.phase.p);
    }
  }

  lemma ClearedHistory(s: State)
    requires s.passes != [] && History(s)
    ensures History(s.(passes := MarkCleared(s.passes)))
  {
    var r := MarkCleared(s.passes);
    forall k | 0 <= k < |r| ensures TurnOk(r, k, s.begun, s.flags.memory) {
      assert TurnOk(s.passes, k, s.begun, s.flags.memory);
    }
  }

  lemma ClearKeeps(s: State)
    requires Inv(s)
    ensures Inv(Clear(s))
  {
    hide Ordered, NoRepeat, LogOk, Complete, Turns;
    NoEntries(Clear(s));
    if !s.phase.Idle? {
      ClearedHistory(s);
    }
  }

  lemma DisableKeeps(s: State)
    requires Inv(s)
    ensures Inv(Disable(s))
  {
    hide Ordered, NoRepeat, LogOk, Complete, Turns, Running, MarkCleared;
    ClearKeeps(s);
  }

  lemma LockKeeps(s: State)
    requires Inv(s)
    ensures Inv(Lock(s))
  {
    hide Ordered, NoRepeat, LogOk, Complete, Turns, AllEnded, PassExact;
    if s.memory.Kept? {
      if !s.phase.Idle? {
        SamePass(s, Lock(s));
      }
    } else {
      DisableKeeps(s);
    }
  }

  lemma EmptyKeeps(s: State)
    requires Inv(s)
    ensures Inv(Empty(s))
  {
    ClearKeeps(s);
  }

  lemma StepKeeps(s: State, op: Op)
    requires Inv(s) && Enabled(s, op)
    ensures Inv(Step(s, op))
  {
    hide Inv;
    match op
    case OpAdd(args) => AddKeeps(s, args);
    case OpRemove(args) => RemoveKeeps(s, args);
    case OpEmpty => EmptyKeeps(s);
    case OpDisable => DisableKeeps(s);
    case OpLock => LockKeeps(s);
    case OpFire(p) => FireKeeps(s, p);
    case OpReturn(stop) => ReturnKeeps(s, stop);
  }

  // ---- whole runs

  lemma NewKeeps(flags: Flags)
    ensures Inv(New(flags))
  {
    NoEntries(New(flags));
    hide Entries, PassExact, Running;
  }

  // Every state any user code can bring a list into.
  lemma {:induction false} RunKeeps(flags: Flags, ops: seq<Op>)
    requires Legal(New(flags), ops)
    ensures Inv(Run(New(flags), ops)) && Run(New(flags), ops).flags == flags
    decreases |ops|
  {
    hide Inv, Step;
    if ops == [] {
      NewKeeps(flags);
    } else {
      var most := ops[..|ops| - 1];
      RunKeeps(flags, most);
      StepKeeps(Run(New(flags), most), ops[|ops| - 1]);
    }
  }
}
