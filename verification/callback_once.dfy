/** Callback lists made with "once memory", which every Deferred rests on. */
module CallbackOnce {
  import opened Basics
  import opened CallbackSpec
  import opened CallbackRuns

  predicate OnceMemory(flags: Flags) {
    flags.once && flags.memory && !flags.unique && !flags.stopOnFalse
  }

  predicate Gentle(ops: seq<Op>) {
    forall op :: op in ops ==> !op.OpRemove? && !op.OpEmpty?
  }

  // All the functions offered, in order.
  function Added(ops: seq<Op>): seq<Fn>
    decreases |ops|
  {
    if ops == [] then []
    else Added(ops[..|ops| - 1]) + (match ops[|ops| - 1] case OpAdd(args) => Flatten(args) case _ => [])
  }

  function Fired(ops: seq<Op>): seq<Payload>
    decreases |ops|
  {
    if ops == [] then []
    else Fired(ops[..|ops| - 1]) + (match ops[|ops| - 1] case OpFire(p) => [p] case _ => [])
  }

  function CalledFns(log: seq<Call>): (fs: seq<Fn>) {
    seq(|log|, i requires 0 <= i < |log| => log[i].entry.f)
  }

  ghost predicate OnceMemoryInv(s: State) {
    && Shape(s) && OnceMemory(s.flags)
    && |s.accepted| <= 1
    && (s.accepted == [] ==> s.log == [])
    && (forall i :: 0 <= i < |s.log| ==> s.accepted != [] && s.log[i].p == s.accepted[0])
    && CalledFns(s.log) <= s.regs
    && (s.phase.Calling? ==> s.accepted == [s.phase.p] && s.log != [] && s.log[|s.log| - 1].entry.f == s.phase.f)
    && (s.phase.Idle? ==> s.todo == [])
    && !s.phase.Crashed? && (s.live ==> s.lag == 0 && s.phantom == 0)
    && (s.live && s.accepted == [] ==> s.memory.Unset? && s.open && s.phase.Idle? && Fns(s.done) == s.regs)
    && (s.live && s.accepted != [] ==>
          && s.memory == Kept(s.accepted[0]) && CalledFns(s.log) + Fns(s.todo) == s.regs
          && (s.phase.Idle? ==> s.done == []))
  }

  lemma {:induction false} CollectAll(present: seq<Fn>, fs: seq<Fn>)
    ensures Collect(false, present, fs) == fs
    decreases fs
  {
    if fs != [] {
      CollectAll(present + [fs[0]], fs[1..]);
    }
  }

  lemma OnceMemoryAdvance(s: State, p: Payload)
    requires Shape(s) && OnceMemory(s.flags) && s.accepted == [p]
    requires forall i :: 0 <= i < |s.log| ==> s.log[i].p == p
    requires CalledFns(s.log) <= s.regs
    requires s.live ==> s.memory == Kept(p) && CalledFns(s.log) + Fns(s.todo) == s.regs
    requires s.live ==> s.lag == 0 && s.phantom == 0
    ensures OnceMemoryInv(Advance(s, p))
  {
    var r := Advance(s, p);
    if s.todo != [] {
      assert CalledFns(r.log) == CalledFns(s.log) + [s.todo[0].f];
      assert Fns(s.todo) == [s.todo[0].f] + Fns(r.todo);
    }
  }

  lemma AcceptAll(s: State, fs: seq<Fn>)
    requires !s.flags.unique
    ensures Accept(s, fs) == (s.(regs := s.regs + fs), Stamped(fs, |s.regs|))
    ensures Fns(Stamped(fs, |s.regs|)) == fs
  {
    CollectAll(Fns(s.done + s.todo), fs);
    assert s.flags.unique == false;
    assert Fns(Stamped(fs, |s.regs|)) == fs;
  }

  lemma OnceMemoryReplay(s: State, fs: seq<Fn>)
    requires OnceMemoryInv(s) && s.live && s.phase.Idle? && s.accepted != []
    ensures var s1 := s.(regs := s.regs + fs, todo := Stamped(fs, |s.regs|));
            OnceMemoryInv(Advance(StartPass(s1, s.memory.p, |s.regs|), s.memory.p))
  {
    AcceptAll(s, fs);
    var s1 := s.(regs := s.regs + fs, todo := Stamped(fs, |s.regs|));
    assert Fns(s.todo) == [];
    OnceMemoryAdvance(StartPass(s1, s.memory.p, |s.regs|), s.memory.p);
  }

  lemma OnceMemoryAdd(s: State, args: seq<Arg>)
    requires OnceMemoryInv(s) && s.live
    ensures OnceMemoryInv(Add(s, args)) && Add(s, args).regs == s.regs + Flatten(args)
  {
    var fs := Flatten(args);
    AcceptAll(s, fs);
    if s.phase.Idle? && s.memory.Kept? {
      OnceMemoryReplay(s, fs);
    } else {
      OnceMemoryKeep(s, fs);
    }
  }

  lemma OnceMemoryKeep(s: State, fs: seq<Fn>)
    requires OnceMemoryInv(s) && s.live && (s.phase.Calling? || s.memory.Unset?)
    ensures var (s1, es) := (s.(regs := s.regs + fs), Stamped(fs, |s.regs|));
            OnceMemoryInv(if s.phase.Calling? then Join(s1, es) else s1.(done := s.done + es))
  {
    var es := Stamped(fs, |s.regs|);
    assert Fns(es) == fs;
    assert Fns(s.todo + es) == Fns(s.todo) + fs;
    assert Fns(s.done + es) == Fns(s.done) + fs;
  }

  lemma OnceMemoryFire(s: State, p: Payload)
    requires OnceMemoryInv(s)
    ensures OnceMemoryInv(FireWith(s, p)) && FireWith(s, p).regs == s.regs
  {
    if s.open && s.phase.Idle? && s.memory == Unset {
      assert TakeFiring(s, p).todo == s.done && CalledFns(s.log) == [];
      OnceMemoryAdvance(StartPass(TakeFiring(s, p), p, 0), p);
    }
  }

  lemma OnceMemoryStep(s: State, op: Op)
    requires OnceMemoryInv(s) && Enabled(s, op) && !op.OpRemove? && !op.OpEmpty?
    ensures OnceMemoryInv(Step(s, op))
    ensures Step(s, op).regs == s.regs + (if op.OpAdd? && s.live then Flatten(op.args) else [])
    ensures (Step(s, op).live ==> s.live) && (s.open ==> s.live)
    ensures Step(s, op).accepted == s.accepted + (if op.OpFire? && s.open && s.accepted == [] then [op.p] else [])
  {
    match op
    case OpAdd(args) => if s.live { OnceMemoryAdd(s, args); }
    case OpDisable =>
    case OpLock =>
    case OpFire(p) => OnceMemoryFire(s, p);
    case OpReturn(stop) => OnceMemoryAdvance(s, s.phase.p);
  }

  lemma OnceMemoryNew(flags: Flags)
    requires OnceMemory(flags)
    ensures OnceMemoryInv(New(flags))
  {
    assert CalledFns([]) == Fns([]) == [];
  }

  lemma {:induction false} OnceMemoryRun(flags: Flags, ops: seq<Op>)
    requires OnceMemory(flags) && Legal(New(flags), ops) && Gentle(ops)
    ensures var s := Run(New(flags), ops);
            && OnceMemoryInv(s)
            && s.regs <= Added(ops) && s.accepted <= Fired(ops)
            && (s.live ==> s.regs == Added(ops) && (s.accepted == [] ==> Fired(ops) == []))
    decreases |ops|
  {
    hide OnceMemoryInv;
    if ops == [] {
      OnceMemoryNew(flags);
    } else {
      var most, last := ops[..|ops| - 1], ops[|ops| - 1];
      assert last in ops;
      OnceMemoryRun(flags, most);
      OnceMemoryStep(Run(New(flags), most), last);
    }
  }

  // In a "once memory" list nothing is called before the first firing; the calls
  // are always a prefix of the registrations, all of them whenever the list has
  // fired and is idle; and every call gets the first firing's payload.
  lemma OnceMemoryLaw(flags: Flags, ops: seq<Op>)
    requires OnceMemory(flags) && Legal(New(flags), ops) && Gentle(ops)
    ensures var s := Run(New(flags), ops);
            && CalledFns(s.log) <= Added(ops)
            && (forall i :: 0 <= i < |s.log| ==> Fired(ops) != [] && s.log[i].p == Fired(ops)[0])
            && (s.live && s.phase.Idle? && Fired(ops) != [] ==> CalledFns(s.log) == Added(ops))
  {
    OnceMemoryRun(flags, ops);
    var s := Run(New(flags), ops);
    assert Fns([]) == [];
  }
}
