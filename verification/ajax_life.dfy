/**
  What becomes of one jQuery.ajax request, told by the events of the run alone: what
  finishes it, what counts it, and which requests are ever sent.
*/
module AjaxLife {
  import opened Basics
  import opened AjaxSpec

  // ---- one step

  // An event of the call itself, or of its finisher.
  predicate Concerns(e: Event, id: nat) {
    !e.Open? && e.id == id
  }

  // A request not yet finished is finished exactly by a finisher, by a refusal of its
  // beforeSend, for want of a transport, or by a sending that throws or has lost it.
  lemma FinishesExactly(s: State, e: Event, id: nat)
    requires Enabled(s, e) && id < |s.requests| && s.requests[id].state != 2
    ensures var r := s.requests[id];
            Next(s, e).requests[id].state == 2 <==>
              Concerns(e, id) &&
              (e.Finish? || (e.BeforeSent? && r.hasBefore && e.refused) || (e.Transported? && !e.found)
               || (e.Sent? && (e.throws || !r.transport)))
  {
  }

  // Nothing but its own sending takes a finished request back.
  lemma StaysFinished(s: State, e: Event, id: nat)
    requires Enabled(s, e) && id < |s.requests| && s.requests[id].state == 2
    ensures !(Concerns(e, id) && e.Sent?) ==> Next(s, e).requests[id].state == 2
    ensures Concerns(e, id) && e.Sent? ==>
              (Next(s, e).requests[id].state == 2 <==> e.throws || !s.requests[id].transport)
    ensures Concerns(e, id) && e.Finish? ==> Next(s, e) == s
  {
    assert s.requests[id := s.requests[id]] == s.requests;
  }

  // It is counted in when its prefilters are passed, if it is global and not aborted
  // by then, and counted out whenever its finisher ends; nothing else counts.
  lemma CountsExactly(s: State, e: Event)
    requires Enabled(s, e)
    ensures Next(s, e).active == s.active
              + (if e.Prefiltered? && s.requests[e.id].global && s.requests[e.id].state != 2 then 1 else 0)
              - (if e.FinishEnds? && s.requests[e.id].counted then 1 else 0)
    ensures forall id :: 0 <= id < |s.requests| ==>
              (Next(s, e).requests[id].counted <==>
                 if Concerns(e, id) && e.Prefiltered? && s.requests[id].state != 2 then s.requests[id].global
                 else s.requests[id].counted)
  {
  }

  // A request is alone with its events, and keeps what it was made with.
  lemma OthersStay(s: State, e: Event, id: nat)
    requires Enabled(s, e) && id < |s.requests|
    ensures var r, t := s.requests[id], Next(s, e).requests[id];
            t.global == r.global && t.hasBefore == r.hasBefore && (!Concerns(e, id) ==> t == r)
  {
  }

  // ---- which requests are sent

  // Events of the call itself.
  predicate OfCall(e: Event, id: nat) {
    (e.Prefiltered? || e.BeforeSent? || e.Transported? || e.Sent?) && e.id == id
  }

  function LastCall(es: seq<Event>, id: nat): Option<Event>
    decreases |es|
  {
    if es == [] then None
    else if OfCall(es[|es| - 1], id) then Some(es[|es| - 1]) else LastCall(es[..|es| - 1], id)
  }

  // Prefilters, beforeSend, transports, sending, in this order.
  predicate ComesAfter(e: Event, last: Option<Event>) {
    match e
    case Prefiltered(_) => last.None?
    case BeforeSent(_, _) => last.Some? && last.value.Prefiltered?
    case Transported(_, _) => last.Some? && last.value.BeforeSent?
    case Sent(_, _) => last.Some? && last.value.Transported?
    case _ => false
  }

  predicate Told(r: Request, last: Option<Event>) {
    r.stage == match last
      case None => Prefilters
      case Some(e) =>
        if r.stage == Over then Over else if e.Prefiltered? then Started else if e.BeforeSent? then Ready else Sending
  }

  lemma {:induction false} StageTold(es: seq<Event>, id: nat)
    requires Legal(es)
    ensures if id < |Run(es).requests| then Told(Run(es).requests[id], LastCall(es, id)) else LastCall(es, id).None?
    decreases |es|
  {
    if es != [] {
      StageTold(es[..|es| - 1], id);
    }
  }

  // A request can be opened, and one finished, at any time; a finisher can end that is
  // under way; and a call that is not over goes on to its next stretch.
  lemma MayHappen(es: seq<Event>, e: Event)
    requires Legal(es)
    ensures Legal(es + [e]) <==>
              e.Open? ||
              (e.id < |Run(es).requests| &&
               var r := Run(es).requests[e.id];
               e.Finish? || (e.FinishEnds? && r.finishing > 0) || (r.stage != Over && ComesAfter(e, LastCall(es, e.id))))
  {
    assert (es + [e])[..|es|] == es;
    hide Run, LastCall;
    if !e.Open? {
      StageTold(es, e.id);
    }
  }

  // The call ends with this event: the request is found finished after the prefilters,
  // refused or found finished by the beforeSend check, which there is only with a
  // beforeSend, or has no transport.
  predicate Stops(r: Request, e: Event) {
    || (e.Prefiltered? && r.state == 2)
    || (e.BeforeSent? && r.hasBefore && (e.refused || r.state == 2))
    || (e.Transported? && !e.found)
  }

  lemma StopsStep(s: State, e: Event)
    requires Enabled(s, e) && !e.Open? && OfCall(e, e.id)
    ensures var r, t := s.requests[e.id], Next(s, e).requests[e.id];
            && (Stops(r, e) ==> t.state == 2 && t.stage == Over)
            && (e.Sent? ==> t.stage == Over)
            && (!Stops(r, e) && !e.Sent? ==> t.stage != Over && t.stage != r.stage)
  {
  }

  lemma RunMore(es: seq<Event>, more: seq<Event>, e: Event)
    requires Legal(es + (more + [e]))
    ensures Legal(es + more) && Enabled(Run(es + more), e) && Run(es + (more + [e])) == Next(Run(es + more), e)
  {
    var all := es + (more + [e]);
    assert all[..|all| - 1] == es + more && all[|all| - 1] == e;
  }

  // Once its call is over, no event of it ever happens again.
  lemma {:induction false} OverForGood(es: seq<Event>, more: seq<Event>, id: nat)
    requires Legal(es) && Legal(es + more) && id < |Run(es).requests| && Run(es).requests[id].stage == Over
    ensures id < |Run(es + more).requests| && Run(es + more).requests[id].stage == Over
    ensures forall e :: e in more ==> !OfCall(e, id)
    decreases |more|
  {
    if more == [] {
      assert es + more == es;
    } else {
      var most, e := more[..|more| - 1], more[|more| - 1];
      assert more == most + [e];
      RunMore(es, most, e);
      OverForGood(es, most, id);
    }
  }

  // A request that is stopped is finished then, and never sent.
  lemma StoppedIsNeverSent(es: seq<Event>, e: Event, more: seq<Event>)
    requires Legal(es) && !e.Open? && Enabled(Run(es), e) && OfCall(e, e.id) && Stops(Run(es).requests[e.id], e)
    requires Legal(es + [e] + more)
    ensures Legal(es + [e]) && Run(es + [e]).requests[e.id].state == 2
    ensures forall m :: m in more ==> !OfCall(m, e.id)
  {
    hide Stops, OfCall, Legal, Run;
    RunStep(es, e);
    StopsStep(Run(es), e);
    OverForGood(es + [e], more, e.id);
  }

  // A call not yet over that is finished ahead of a check: it will be stopped there.
  predicate Doomed(r: Request) {
    r.state == 2 && (r.stage == Prefilters || (r.stage == Started && r.hasBefore))
  }

  // A request about to be sent has its transport, unless it has been finished since.
  lemma {:induction false} Carried(es: seq<Event>)
    requires Legal(es)
    ensures forall id :: 0 <= id < |Run(es).requests| ==> HasTransport(Run(es).requests[id])
    decreases |es|
  {
    if es != [] {
      Carried(es[..|es| - 1]);
    }
  }

  predicate HasTransport(r: Request) {
    r.stage == Sending && r.state != 2 ==> r.transport
  }

  // Whichever request is neither over nor doomed can still be sent, and is at work
  // then unless it was finished just before.
  lemma CanBeSent(es: seq<Event>, id: nat) returns (more: seq<Event>)
    requires Legal(es) && id < |Run(es).requests|
    requires Run(es).requests[id].stage != Over && !Doomed(Run(es).requests[id])
    ensures Legal(es + more) && more != [] && more[|more| - 1] == Sent(id, false)
    ensures id < |Run(es + more).requests|
    ensures forall m :: m in more ==> OfCall(m, id)
    ensures var r := Run(es).requests[id];
            r.state != 2 || r.stage != Sending || r.transport ==> Run(es + more).requests[id].state == 1
    decreases StagesLeft(Run(es).requests[id].stage)
  {
    hide Run, Legal;
    Carried(es);
    var r := Run(es).requests[id];
    assert HasTransport(r);
    var e := match r.stage case Prefilters => Prefiltered(id) case Started => BeforeSent(id, false)
                           case Ready => Transported(id, true) case _ => Sent(id, false);
    RunStep(es, e);
    if e.Sent? {
      more := [e];
    } else {
      var t := Run(es + [e]).requests[id];
      assert t.stage == Sending ==> t.transport;
      var rest := CanBeSent(es + [e], id);
      assert es + [e] + rest == es + ([e] + rest);
      more := [e] + rest;
    }
  }

  function StagesLeft(stage: Stage): nat {
    match stage case Prefilters => 3 case Started => 2 case Ready => 1 case Sending => 0 case Over => 0
  }

  // And a doomed one never is.
  lemma {:induction false} DoomedIsNeverSent(es: seq<Event>, more: seq<Event>, id: nat)
    requires Legal(es) && Legal(es + more) && id < |Run(es).requests| && Doomed(Run(es).requests[id])
    ensures id < |Run(es + more).requests|
    ensures var r := Run(es + more).requests[id]; Doomed(r) || r.stage == Over
    ensures forall m :: m in more ==> !(m.Sent? && m.id == id) && !(m.Transported? && m.id == id)
    decreases |more|
  {
    if more == [] {
      assert es + more == es;
    } else {
      var most, e := more[..|more| - 1], more[|more| - 1];
      assert more == most + [e];
      RunMore(es, most, e);
      DoomedIsNeverSent(es, most, id);
    }
  }
}
