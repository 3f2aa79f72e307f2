/**
  jQuery.when over two or more arguments: a counting join.  Its setup loop visits
  the arguments one by one; a promise may settle at any later moment, also while
  the loop is still running.
*/
module WhenSpec {
  import opened Basics
  import opened CallbackSpec
  import opened CallbackRuns
  import opened DeferredSpec
  import opened DeferredRuns

  // An argument: a plain value, or a promise object.
  datatype Arg = Plain(v: Value) | Promised(promise: Value)

  datatype Progress = Waiting | Solved(p: Payload) | Broken(p: Payload)

  datatype Join = Join(
    args: seq<Arg>,
    values: seq<Value>,     // what resolve will be given
    notes: seq<Value>,      // what notify will be given
    visited: nat,
    remaining: int,
    finished: bool,         // the test after the loop is done
    uses: seq<Use>,         // what was done to the master Deferred
    // history
    settled: seq<Progress>) // by argument

  // Who the master's callbacks are called on.
  const MASTER := Ref(0)
  const MASTER_PROMISE := Ref(1)

  function Start(args: seq<Arg>): Join {
    Join(args, seq(|args|, i requires 0 <= i < |args| => Given(args[i])), seq(|args|, _ => Undefined),
         0, |args|, false, [], seq(|args|, _ => Waiting))
  }

  function Given(a: Arg): Value {
    match a case Plain(v) => v case Promised(o) => o
  }

  // The arguments of a callback as one value.
  function Packed(args: seq<Value>): Value {
    if |args| > 1 then Items(args) else if |args| == 1 then args[0] else Undefined
  }

  datatype Event = Visit | Solve(i: nat, p: Payload) | Break(i: nat, p: Payload) | Note(i: nat, p: Payload)
                 | Conclude | UseMaster(u: Use)

  predicate Sized(j: Join) {
    |j.values| == |j.notes| == |j.args| == |j.settled| && j.visited <= |j.args|
  }

  predicate Proper(j: Join) {
    Sized(j) && Possible(j.uses)
  }

  predicate Watched(j: Join, i: nat)
    requires Sized(j)
  {
    i < j.visited && j.args[i].Promised?
  }

  // A promise settles once; the user of the result can register on it and return
  // from its callbacks, but not fire it.
  predicate Happens(j: Join, e: Event)
    requires Proper(j)
  {
    match e
    case Visit => j.visited < |j.args|
    case Solve(i, _) => Watched(j, i) && j.settled[i] == Waiting
    case Break(i, _) => Watched(j, i) && j.settled[i] == Waiting
    case Note(i, _) => Watched(j, i)
    case Conclude => j.visited == |j.args| && !j.finished
    case UseMaster(u) => !u.Fires? && Allowed(After(j.uses), u)
  }

  function Master(j: Join, u: Use): (r: Join)
    requires Proper(j) && Allowed(After(j.uses), u)
    ensures Proper(r) && After(r.uses) == Act(After(j.uses), u)
  {
    assert (j.uses + [u])[..|j.uses|] == j.uses;
    j.(uses := j.uses + [u])
  }

  function ResolveMaster(j: Join): (r: Join)
    requires Proper(j)
    ensures Proper(r)
  {
    Master(j, Fires(Done, Payload(MASTER, j.values)))
  }

  function Next(j: Join, e: Event): (r: Join)
    requires Proper(j) && Happens(j, e)
    ensures Proper(r) && r.args == j.args
  {
    match e
    case Visit =>
      j.(visited := j.visited + 1,
         remaining := if j.args[j.visited].Plain? then j.remaining - 1 else j.remaining)
    case Solve(i, p) =>
      var j1 := j.(values := j.values[i := Packed(p.args)], remaining := j.remaining - 1,
                   settled := j.settled[i := Solved(p)]);
      if j1.remaining == 0 then ResolveMaster(j1) else j1
    case Break(i, p) =>
      Master(j.(settled := j.settled[i := Broken(p)]), Fires(Fail, p))
    case Note(i, p) =>
      var notes := j.notes[i := Packed(p.args)];
      Master(j.(notes := notes), Fires(DeferredSpec.Progress, Payload(MASTER_PROMISE, notes)))
    case Conclude =>
      var j1 := j.(finished := true);
      if j.remaining == 0 then ResolveMaster(j1) else j1
    case UseMaster(u) =>
      Master(j, u)
  }

  predicate Unfolds(args: seq<Arg>, es: seq<Event>)
    decreases |es|, 0
  {
    es == [] ||
    (Unfolds(args, es[..|es| - 1]) && Happens(Joined(args, es[..|es| - 1]), es[|es| - 1]))
  }

  // The join after the events `es`, in order.
  function Joined(args: seq<Arg>, es: seq<Event>): (j: Join)
    requires Unfolds(args, es)
    ensures Proper(j) && j.args == args
    decreases |es|, 1
  {
    if es == [] then Start(args) else Next(Joined(args, es[..|es| - 1]), es[|es| - 1])
  }

  // ---- the count

  predicate IsOpen(j: Join, i: nat)
    requires Sized(j) && i < |j.args|
  {
    i >= j.visited || (j.args[i].Promised? && !j.settled[i].Solved?)
  }

  // Arguments not yet visited, and visited promises not resolved.
  function Open(j: Join, n: nat): nat
    requires Sized(j) && n <= |j.args|
  {
    if n == 0 then 0 else Open(j, n - 1) + if IsOpen(j, n - 1) then 1 else 0
  }

  lemma {:induction false} OpenZero(j: Join, n: nat)
    requires Sized(j) && n <= |j.args|
    ensures Open(j, n) == 0 <==> forall i :: 0 <= i < n ==> !IsOpen(j, i)
  {
    if n > 0 {
      OpenZero(j, n - 1);
    }
  }

  // Two joins that differ in being open at one argument at most.
  lemma {:induction false} OpenChanges(j: Join, r: Join, i: nat, n: nat)
    requires Sized(j) && Sized(r) && j.args == r.args && n <= |j.args| && i < |j.args|
    requires forall k :: 0 <= k < |j.args| && k != i ==> (IsOpen(j, k) <==> IsOpen(r, k))
    ensures Open(r, n) == Open(j, n)
            + if i < n && IsOpen(r, i) && !IsOpen(j, i) then 1
              else if i < n && !IsOpen(r, i) && IsOpen(j, i) then -1 else 0
  {
    if n > 0 {
      OpenChanges(j, r, i, n - 1);
    }
  }

  // ---- what happened

  function FirstBreak(es: seq<Event>): Option<Payload>
    decreases |es|
  {
    if es == [] then None
    else match FirstBreak(es[..|es| - 1])
      case Some(p) => Some(p)
      case None => if es[|es| - 1].Break? then Some(es[|es| - 1].p) else None
  }

  predicate AllSolved(j: Join)
    requires Sized(j)
  {
    forall i :: 0 <= i < |j.args| && j.args[i].Promised? ==> j.settled[i].Solved?
  }

  // Each value in its place: the plain argument, or what its promise resolved to.
  predicate InPlace(j: Join, values: seq<Value>)
    requires Sized(j)
  {
    && |values| == |j.args|
    && forall i :: 0 <= i < |values| ==>
         (j.args[i].Plain? ==> values[i] == j.args[i].v) &&
         (j.args[i].Promised? && !j.settled[i].Solved? ==> values[i] == j.args[i].promise) &&
         (j.settled[i].Solved? ==> Stands(values[i], j.settled[i].p.args))
  }

  // One value stands for the arguments that a promise resolved or notified with: the
  // array of them all if there are several, the argument itself if there is one.
  predicate Stands(value: Value, args: seq<Value>) {
    && (|args| > 1 ==> value == Items(args))
    && (|args| == 1 ==> value == args[0])
    && (|args| == 0 ==> value == Undefined)
  }

  ghost predicate Counted(j: Join)
    requires Sized(j)
  {
    && j.remaining == Open(j, |j.args|)
    && (forall i :: 0 <= i < |j.args| && j.settled[i] != Waiting ==> Watched(j, i))
    && (j.finished ==> j.visited == |j.args|)
  }

  predicate Unbroken(j: Join)
    requires Sized(j)
  {
    forall i :: 0 <= i < |j.args| ==> !j.settled[i].Broken?
  }

  // How the master has been settled so far.
  ghost predicate MasterKnows(j: Join, first: Option<Use>, broken: Option<Payload>)
    requires Sized(j)
  {
    match first
    case None => broken.None? && (j.remaining == 0 ==> !j.finished)
    case Some(u) =>
      if u == Fires(Done, Payload(MASTER, j.values)) then broken.None? && j.remaining == 0
      else broken.Some? && u == Fires(Fail, broken.value)
  }

  ghost predicate JoinInv(j: Join, es: seq<Event>)
    requires Sized(j)
  {
    && Counted(j) && InPlace(j, j.values)
    && (FirstBreak(es).None? <==> Unbroken(j))
    && MasterKnows(j, FirstSettling(j.uses), FirstBreak(es))
  }

  lemma FirstSettlingGrows(us: seq<Use>, u: Use)
    ensures FirstSettling(us + [u]) ==
            if FirstSettling(us).Some? then FirstSettling(us)
            else if u.Fires? && u.side != DeferredSpec.Progress then Some(u) else None
  {
    assert (us + [u])[..|us|] == us;
  }

  // The count after one event.
  lemma CountStep(j: Join, e: Event)
    requires Proper(j) && Happens(j, e) && Counted(j)
    ensures Counted(Next(j, e))
  {
    hide After, Possible;
    var r := Next(j, e);
    var n := |j.args|;
    match e
    case Visit => OpenChanges(j, r, j.visited, n);
    case Solve(i, _) => OpenChanges(j, r, i, n);
    case Break(i, _) => OpenChanges(j, r, i, n);
    case Note(i, _) => OpenChanges(j, r, i, n);
    case Conclude => if n > 0 { OpenChanges(j, r, 0, n); }
    case UseMaster(_) => if n > 0 { OpenChanges(j, r, 0, n); }
  }

  lemma PlaceStep(j: Join, e: Event)
    requires Proper(j) && Happens(j, e) && Counted(j) && InPlace(j, j.values)
    ensures InPlace(Next(j, e), Next(j, e).values)
    ensures Unbroken(Next(j, e)) <==> Unbroken(j) && !e.Break?
  {
    hide After, Possible;
    var r := Next(j, e);
    if e.Break? {
      assert r.settled[e.i].Broken?;
    } else {
      forall i | 0 <= i < |j.args| ensures r.settled[i].Broken? <==> j.settled[i].Broken? {
      }
    }
  }

  lemma MasterStep(j: Join, e: Event, broken: Option<Payload>)
    requires Proper(j) && Happens(j, e) && Counted(j) && (broken.None? <==> Unbroken(j))
    requires MasterKnows(j, FirstSettling(j.uses), broken)
    ensures MasterKnows(Next(j, e), FirstSettling(Next(j, e).uses),
                        if broken.None? && e.Break? then Some(e.p) else broken)
  {
    hide After, Possible, Open, FirstSettling;
    var r := Next(j, e);
    var n := |j.args|;
    CountStep(j, e);
    OpenZero(j, n);
    OpenZero(r, n);
    assert e.Visit? ==> IsOpen(j, j.visited);
    assert e.Solve? || e.Break? ==> IsOpen(j, e.i);
    if r.uses != j.uses {
      FirstSettlingGrows(j.uses, r.uses[|j.uses|]);
    }
  }

  lemma JoinStep(j: Join, e: Event, es: seq<Event>)
    requires es != [] && es[|es| - 1] == e && Proper(j) && Happens(j, e)
    requires JoinInv(j, es[..|es| - 1])
    ensures JoinInv(Next(j, e), es)
  {
    hide Next, Counted, InPlace, MasterKnows, FirstSettling, Possible, After;
    CountStep(j, e);
    PlaceStep(j, e);
    MasterStep(j, e, FirstBreak(es[..|es| - 1]));
  }

  lemma {:induction false} JoinedKeeps(args: seq<Arg>, es: seq<Event>)
    requires Unfolds(args, es) && args != []
    ensures JoinInv(Joined(args, es), es)
    decreases |es|
  {
    var j := Joined(args, es);
    if es == [] {
      OpenAll(j, |args|);
    } else {
      hide Next;
      var most := es[..|es| - 1];
      JoinedKeeps(args, most);
      JoinStep(Joined(args, most), es[|es| - 1], es);
    }
  }

  lemma {:induction false} OpenAll(j: Join, n: nat)
    requires Sized(j) && j.visited == 0 && n <= |j.args|
    ensures Open(j, n) == n
  {
    if n > 0 {
      OpenAll(j, n - 1);
    }
  }

  // In every order of settling, during the setup loop or after it: the count is
  // that of the open arguments; the master is rejected exactly if some promise is,
  // with the first rejection; and it is resolved only when every promise is, being
  // given each value in its place, and always by the time setup is done.
  lemma JoinDecides(args: seq<Arg>, es: seq<Event>)
    requires Unfolds(args, es) && args != []
    ensures var j := Joined(args, es);
            var first := FirstSettling(j.uses);
            && j.remaining == Open(j, |args|)
            && (first.Some? && first.value.side == Fail <==> FirstBreak(es).Some?)
            && (first.Some? && first.value.side == Fail ==> first.value.p == FirstBreak(es).value)
            && (first.Some? && first.value.side == Done ==> AllSolved(j) && InPlace(j, first.value.p.args))
            && (first.Some? && first.value.side == Done ==> first.value.p.context == MASTER)
            && (j.finished && AllSolved(j) ==> first.Some? && first.value.side == Done)
  {
    hide Open, After, Next, FirstSettling, Joined, Possible;
    JoinedKeeps(args, es);
    var j := Joined(args, es);
    OpenZero(j, |args|);
    if j.remaining == 0 {
      forall i | 0 <= i < |args| ensures j.args[i].Promised? ==> j.settled[i].Solved? {
        assert !IsOpen(j, i);
      }
    } else {
      var i :| 0 <= i < |args| && IsOpen(j, i);
    }
  }

  // The same, seen on the master.
  lemma JoinLaw(args: seq<Arg>, es: seq<Event>)
    requires Unfolds(args, es) && args != []
    ensures var j := Joined(args, es);
            var d := After(j.uses);
            && (d.outcome == Rejected <==> FirstBreak(es).Some?)
            && (d.outcome == Rejected ==> d.fail.accepted == [FirstBreak(es).value])
            && (d.outcome == Resolved ==> AllSolved(j) && |d.done.accepted| == 1 && InPlace(j, d.done.accepted[0].args))
            && (d.outcome == Resolved ==> d.done.accepted[0].context == MASTER != Undefined)
            && (j.finished && AllSolved(j) ==> d.outcome == Resolved)
  {
    hide After, PromiseInv, Next, FirstSettling, Joined, Possible;
    JoinDecides(args, es);
    AfterKeeps(Joined(args, es).uses);
  }

  // ---- what can happen, told by what has happened

  function Visits(es: seq<Event>): nat
    decreases |es|
  {
    if es == [] then 0 else Visits(es[..|es| - 1]) + if es[|es| - 1].Visit? then 1 else 0
  }

  // What the join knows of its arguments are the events themselves.
  lemma {:induction false} EventsTold(args: seq<Arg>, es: seq<Event>, i: nat, p: Payload)
    requires Unfolds(args, es)
    ensures var j := Joined(args, es);
            && j.visited == Visits(es) && (j.finished <==> Conclude in es)
            && (i < |args| ==>
                  && (j.settled[i] == Solved(p) <==> Solve(i, p) in es)
                  && (j.settled[i] == Broken(p) <==> Break(i, p) in es))
    decreases |es|
  {
    hide Possible, After;
    if es != [] {
      var most, e := es[..|es| - 1], es[|es| - 1];
      EventsTold(args, most, i, p);
      assert forall x :: x in es <==> x in most || x == e;
    }
  }

  // A promise visited by the loop that has neither resolved nor been rejected.
  predicate StillPending(args: seq<Arg>, es: seq<Event>, i: nat) {
    && i < Visits(es) && i < |args| && args[i].Promised?
    && forall e :: e in es ==> !(e.Solve? && e.i == i) && !(e.Break? && e.i == i)
  }

  predicate CanFollow(args: seq<Arg>, es: seq<Event>, e: Event)
    requires Unfolds(args, es)
  {
    match e
    case Visit => Visits(es) < |args|
    case Solve(i, _) => StillPending(args, es, i)
    case Break(i, _) => StillPending(args, es, i)
    case Note(i, _) => i < Visits(es) && i < |args| && args[i].Promised?
    case Conclude => Visits(es) == |args| && Conclude !in es
    case UseMaster(u) => !u.Fires? && Allowed(After(Joined(args, es).uses), u)
  }

  // A promise that the loop has visited can notify at any time and settle once; the
  // test comes once, after the loop; and the user of the result can do what users can.
  lemma MayHappen(args: seq<Arg>, es: seq<Event>, e: Event)
    requires Unfolds(args, es)
    ensures Unfolds(args, es + [e]) <==> CanFollow(args, es, e)
  {
    assert (es + [e])[..|es|] == es;
    hide Joined, Visits, Possible, After;
    var j := Joined(args, es);
    EventsTold(args, es, 0, Payload(Undefined, []));
    if (e.Solve? || e.Break?) && e.i < |args| {
      if j.settled[e.i] == Waiting {
        forall x | x in es ensures !(x.Solve? && x.i == e.i) && !(x.Break? && x.i == e.i) {
          if x.Solve? || x.Break? {
            EventsTold(args, es, e.i, x.p);
          }
        }
      } else {
        EventsTold(args, es, e.i, j.settled[e.i].p);
      }
    }
  }

  // ---- notifications

  // What argument i notified with last.
  function LastNote(es: seq<Event>, i: nat): Option<Payload>
    decreases |es|
  {
    if es == [] then None
    else
      var e := es[|es| - 1];
      if e.Note? && e.i == i then Some(e.p) else LastNote(es[..|es| - 1], i)
  }

  // For every argument what it notified with last, undefined before it has.
  predicate Noted(es: seq<Event>, n: nat, values: seq<Value>) {
    && |values| == n
    && forall i :: 0 <= i < n ==>
         match LastNote(es, i) case None => values[i] == Undefined case Some(p) => Stands(values[i], p.args)
  }

  lemma {:induction false} NotesInPlace(args: seq<Arg>, es: seq<Event>)
    requires Unfolds(args, es)
    ensures Noted(es, |args|, Joined(args, es).notes)
    decreases |es|
  {
    hide Possible, After;
    if es != [] {
      NotesInPlace(args, es[..|es| - 1]);
    }
  }

  // Each argument that notifies before the master is settled makes the master notify
  // with what all arguments have notified last, each in its place; nothing else does.
  lemma NoteLaw(args: seq<Arg>, es: seq<Event>, e: Event)
    requires Unfolds(args, es) && Happens(Joined(args, es), e)
    ensures Unfolds(args, es + [e])
    ensures var d, r := After(Joined(args, es).uses), After(Joined(args, es + [e]).uses);
            if e.Note? && d.outcome == Pending then
              |r.progress.accepted| == |d.progress.accepted| + 1 && r.progress.accepted[..|d.progress.accepted|] == d.progress.accepted
              && r.progress.accepted[|d.progress.accepted|].context == MASTER_PROMISE != MASTER
              && Noted(es + [e], |args|, r.progress.accepted[|d.progress.accepted|].args)
            else r.progress.accepted == d.progress.accepted
  {
    hide Noted, Joined, Unfolds, Next, Happens, Possible, After, PromiseInv;
    JoinedMore(args, es, e);
    var j, r := Joined(args, es), Joined(args, es + [e]);
    NotesInPlace(args, es + [e]);
    MasterUsed(j, e);
    AfterKeeps(j.uses);
    AfterKeeps(r.uses);
    if r.uses != j.uses {
      NotifiedMore(j.uses, r.uses[|j.uses|]);
    }
  }

  // One event uses the master at most once, and notifies it only for a notification.
  lemma MasterUsed(j: Join, e: Event)
    requires Proper(j) && Happens(j, e)
    ensures var r := Next(j, e);
            && (e.Note? ==> r.uses == j.uses + [Fires(DeferredSpec.Progress, Payload(MASTER_PROMISE, r.notes))])
            && (!e.Note? && r.uses != j.uses ==> OneMore(j.uses, r.uses))
  {
    hide Possible, After;
  }

  lemma JoinedMore(args: seq<Arg>, es: seq<Event>, e: Event)
    requires Unfolds(args, es) && Happens(Joined(args, es), e)
    ensures Unfolds(args, es + [e]) && Joined(args, es + [e]) == Next(Joined(args, es), e)
  {
    assert (es + [e])[..|es|] == es;
  }

  lemma NotifiedMore(us: seq<Use>, u: Use)
    ensures Notified(us + [u]) == Notified(us)
            + if u.Fires? && u.side == DeferredSpec.Progress && Decided(us) == Pending then [u.p] else []
  {
    assert (us + [u])[..|us|] == us;
    FirstSettlingGrows(us, u);
  }

  predicate OneMore(us: seq<Use>, more: seq<Use>) {
    && |more| == |us| + 1 && more == us + [more[|us|]]
    && !(more[|us|].Fires? && more[|us|].side == DeferredSpec.Progress)
  }
}
