/**
  A Deferred is three callback lists.  `done` and `fail` are "once memory" lists,
  `progress` a "memory" list; the first entries of `done` and of `fail` are the
  closures that record the outcome, disable the rival list and lock `progress`.
*/
module DeferredSpec {
  import opened Basics
  import opened CallbackSpec
  import opened CallbackRuns

  datatype Side = Done | Fail | Progress

  datatype Promise = Promise(done: State, fail: State, progress: State, outcome: Outcome)

  const ONCE_MEMORY := Flags(true, true, false, false)
  const MEMORY := Flags(false, true, false, false)

  function Internals(o: Outcome): seq<Fn> {
    [Settle(o), DisableRival, LockProgress]
  }

  function InternalArgs(o: Outcome): seq<Arg> {
    [FnArg(Settle(o)), FnArg(DisableRival), FnArg(LockProgress)]
  }

  function Fresh(): Promise {
    Promise(Add(New(ONCE_MEMORY), InternalArgs(Resolved)), Add(New(ONCE_MEMORY), InternalArgs(Rejected)),
            New(MEMORY), Pending)
  }

  function Get(d: Promise, side: Side): State {
    match side case Done => d.done case Fail => d.fail case Progress => d.progress
  }

  function Put(d: Promise, side: Side, s: State): Promise {
    match side
    case Done => d.(done := s)
    case Fail => d.(fail := s)
    case Progress => d.(progress := s)
  }

  // What an internal closure does when the list `side` calls it.
  function Effect(d: Promise, side: Side, f: Fn): Promise {
    match f
    case User(_) => d
    case Settle(o) => d.(outcome := o)
    case DisableRival => if side == Done then d.(fail := Disable(d.fail)) else d.(done := Disable(d.done))
    case LockProgress => d.(progress := Lock(d.progress))
  }

  // The list `side` calls its current closure and gets it back.
  function RunClosure(d: Promise, side: Side): (r: Promise)
    requires Get(d, side).phase.Calling?
    ensures var (s, t) := (Get(d, side), Get(r, side));
            |t.queue| < |s.queue| || (|t.queue| == |s.queue| && Ahead(t) < Ahead(s))
  {
    var d1 := Effect(d, side, Get(d, side).phase.f);
    Put(d1, side, Return(Get(d1, side), false))
  }

  predicate AtClosure(s: State) {
    s.phase.Calling? && !s.phase.f.User?
  }

  // Runs internal closures until a user callback is being called or none is.
  function RunInternals(d: Promise, side: Side): Promise
    decreases |Get(d, side).queue|, Ahead(Get(d, side))
  {
    if AtClosure(Get(d, side)) then RunInternals(RunClosure(d, side), side) else d
  }

  function Register(d: Promise, side: Side, args: seq<Arg>): Promise {
    RunInternals(Put(d, side, Add(Get(d, side), args)), side)
  }

  // resolveWith, rejectWith or notifyWith
  function Fire(d: Promise, side: Side, p: Payload): Promise {
    RunInternals(Put(d, side, FireWith(Get(d, side), p)), side)
  }

  function Resume(d: Promise, side: Side, stop: bool): Promise
    requires Get(d, side).phase.Calling?
  {
    RunInternals(Put(d, side, Return(Get(d, side), stop)), side)
  }
}
