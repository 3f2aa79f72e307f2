/**
  What a callback list is meant to do, without indices: a list is the entries
  already passed by the current firing (`done`) followed by those still to be
  called (`todo`).  Every step of a list, and of the user code it calls, is one
  operation; user code running inside a callback is any sequence of operations
  between the call and its `Return`.
*/
module CallbackSpec {
  import opened Basics

  datatype Flags = Flags(once: bool, memory: bool, unique: bool, stopOnFalse: bool)

  // An argument of `add`: a function, an array of arguments, or anything else.
  datatype Arg = FnArg(f: Fn) | ListArg(items: seq<Arg>) | OtherArg

  // One registration; stamps number the registrations of a list.
  datatype Entry = Entry(f: Fn, stamp: nat)

  // One call: in which pass, counted from 1, of which registration, with what.
  datatype Call = Call(pass: nat, entry: Entry, p: Payload)

  datatype Memory = Unset | Flag | Kept(p: Payload)

  // Calling: the firing loop is suspended inside the callback `f`.  Crashed: it has
  // read past the end of the list, and the list takes itself to be firing for good.
  datatype Phase = Idle | Calling(f: Fn, p: Payload) | Crashed

  // One pass of the firing loop, as history.
  datatype Pass = Pass(
    p: Payload,
    from: nat,          // it is for the registrations stamped so or later
    turn: nat,          // how many firings had begun, its own included
    ended: bool,
    stopped: bool,      // it ended because a callback returned false
    cleared: bool,      // the list was emptied or disabled while it was on
    left: seq<Entry>)   // the registrations in the list when it ended

  datatype State = State(
    flags: Flags,
    live: bool, done: seq<Entry>, todo: seq<Entry>,
    lag: nat,                 // how far the loop's place is ahead of the list
    phantom: nat,             // entries the loop still means to call that are gone
    open: bool, queue: seq<Payload>,
    memory: Memory,
    phase: Phase,
    // history
    regs: seq<Fn>,            // every function ever accepted, by stamp
    log: seq<Call>,           // every call ever made
    passes: seq<Pass>,        // every pass ever begun
    accepted: seq<Payload>,   // firings let in by fireWith
    begun: seq<Payload>)      // accepted firings taken up

  function New(flags: Flags): State {
    State(flags, true, [], [], 0, 0, true, [], Unset, Idle, [], [], [], [], [])
  }

  // ---- arguments and entries

  function Flatten(args: seq<Arg>): seq<Fn> {
    if args == [] then [] else Flatten(args[..|args| - 1]) + FlattenOne(args[|args| - 1])
  }

  function FlattenOne(arg: Arg): seq<Fn> {
    match arg
    case FnArg(f) => [f]
    case ListArg(items) => Flatten(items)
    case OtherArg => []
  }

  // The functions that are really added when `fs` are offered in turn.
  function Collect(unique: bool, present: seq<Fn>, fs: seq<Fn>): seq<Fn>
    decreases fs
  {
    if fs == [] then []
    else if unique && fs[0] in present then Collect(unique, present, fs[1..])
    else [fs[0]] + Collect(unique, present + [fs[0]], fs[1..])
  }

  function Stamped(fs: seq<Fn>, from: nat): (es: seq<Entry>) {
    seq(|fs|, i requires 0 <= i < |fs| => Entry(fs[i], from + i))
  }

  function Fns(es: seq<Entry>): (fs: seq<Fn>)
    ensures |fs| == |es| && forall i :: 0 <= i < |fs| ==> fs[i] == es[i].f
  {
    seq(|es|, i requires 0 <= i < |es| => es[i].f)
  }

  function Without(es: seq<Entry>, gone: set<Fn>): (r: seq<Entry>) {
    if es == [] then []
    else if es[0].f in gone then Without(es[1..], gone)
    else [es[0]] + Without(es[1..], gone)
  }

  function Named(args: seq<Arg>): set<Fn> {
    set a | a in args && a.FnArg? :: a.f
  }

  // ---- the operations

  // The list's entries go.  A pass that is on keeps its place, which is then ahead
  // of the list, and its bound.
  function Clear(s: State): State {
    if s.phase.Idle? then s.(done := [], todo := [])
    else
      s.(done := [], todo := [], lag := |s.done| + s.lag, phantom := |s.todo| + s.phantom,
         passes := MarkCleared(s.passes))
  }

  function MarkCleared(passes: seq<Pass>): seq<Pass> {
    if passes == [] then [] else passes[..|passes| - 1] + [passes[|passes| - 1].(cleared := true)]
  }

  function MarkEnded(passes: seq<Pass>, stopped: bool, left: seq<Entry>): seq<Pass> {
    if passes == [] then []
    else passes[..|passes| - 1] + [passes[|passes| - 1].(ended := true, stopped := stopped, left := left)]
  }

  function Disable(s: State): State {
    Clear(s).(live := false, open := false, queue := [], memory := Unset)
  }

  function Lock(s: State): State {
    var s1 := s.(open := false, queue := []);
    if s.memory.Kept? then s1 else Disable(s1)
  }

  function Empty(s: State): State {
    Clear(s).(live := true)
  }

  // The calls a pass has still to make or to return from.
  function Ahead(s: State): nat {
    |s.todo| + if s.phase.Calling? then 1 else 0
  }

  // The firing loop at its test: call the next entry or end the pass.
  function Advance(s: State, p: Payload): (r: State)
    ensures r.flags == s.flags && r.regs == s.regs && r.accepted == s.accepted && (r.live ==> s.live)
    ensures |r.queue| < |s.queue| || (|r.queue| == |s.queue| && Ahead(r) <= |s.todo|)
    decreases |s.queue|, 1
  {
    if s.todo != [] then
      var e := s.todo[0];
      s.(phase := Calling(e.f, p), done := s.done + [e], todo := s.todo[1..],
         log := s.log + [Call(|s.passes|, e, p)])
    else if s.live && s.phantom > 0 then
      s.(phase := Crashed, lag := s.lag + 1, phantom := s.phantom - 1)
    else EndPass(s, false)
  }

  // After the loop, whether it ran out of entries or was stopped.
  function EndPass(s: State, stopped: bool): (r: State)
    ensures r.flags == s.flags && r.regs == s.regs && r.accepted == s.accepted && (r.live ==> s.live)
    ensures |r.queue| < |s.queue| || (|r.queue| == |s.queue| && Ahead(r) == 0)
    decreases |s.queue|, 0
  {
    var s1 := Ended(s, stopped);
    if !s.live then s1
    else if s.flags.once then
      if s.memory == Flag then Disable(s1) else s1.(done := [])
    else if s.queue != [] then
      Advance(StartPass(NextFiring(s1), s.queue[0], 0), s.queue[0])
    else s1
  }

  function Ended(s: State, stopped: bool): State {
    s.(phase := Idle, done := s.done + s.todo, todo := [], lag := 0, phantom := 0,
       passes := MarkEnded(s.passes, stopped, s.done + s.todo))
  }

  // Every entry is to be called again.
  function Rewind(s: State): State {
    s.(done := [], todo := s.done + s.todo)
  }

  // The first waiting firing is taken up.
  function NextFiring(s: State): State
    requires s.queue != []
  {
    Rewind(s.(queue := s.queue[1..], begun := s.begun + [s.queue[0]]))
  }

  // A new firing is let in and taken up.
  function TakeFiring(s: State, p: Payload): State {
    Rewind(s.(accepted := s.accepted + [p], begun := s.begun + [p]))
  }

  // A new pass over the entries to do, which are stamped `from` or later.
  function StartPass(s: State, p: Payload, from: nat): State {
    s.(memory := if s.flags.memory then Kept(p) else Flag,
       passes := s.passes + [Pass(p, from, |s.begun|, false, false, false, [])])
  }

  function FireWith(s: State, p: Payload): State {
    if !s.open then s
    else if !s.phase.Idle? then
      if s.flags.once then s
      else s.(queue := s.queue + [p], accepted := s.accepted + [p])
    else if s.flags.once && s.memory != Unset then s
    else Advance(StartPass(TakeFiring(s, p), p, 0), p)
  }

  function Accept(s: State, fs: seq<Fn>): (State, seq<Entry>) {
    var es := Stamped(Collect(s.flags.unique, Fns(s.done + s.todo), fs), |s.regs|);
    (s.(regs := s.regs + Fns(es)), es)
  }

  // Newcomers during a pass: as many as its place is ahead count as passed.
  function Join(s: State, es: seq<Entry>): State {
    var k := if s.lag < |es| then s.lag else |es|;
    s.(done := s.done + es[..k], todo := s.todo + es[k..], lag := s.lag - k, phantom := 0)
  }

  function Add(s: State, args: seq<Arg>): State {
    if !s.live then s
    else
      var (s1, es) := Accept(s, Flatten(args));
      if !s.phase.Idle? then Join(s1, es)
      else if s.memory.Kept? then
        // a remembered firing is replayed for the newcomers alone
        Advance(StartPass(s1.(todo := es), s.memory.p, |s.regs|), s.memory.p)
      else s1.(done := s.done + es)
  }

  function Remove(s: State, args: seq<Arg>): State {
    s.(done := Without(s.done, Named(args)), todo := Without(s.todo, Named(args)))
  }

  // The callback being called returns; `stop` when it returned false.
  function Return(s: State, stop: bool): State
    requires s.phase.Calling?
  {
    if stop && s.flags.stopOnFalse then EndPass(s.(memory := Flag), true) else Advance(s, s.phase.p)
  }
}
