/**
  The life of jQuery.ajax requests.  A call runs through its stages with user code
  in between (prefilters, ajaxStart handlers, beforeSend, transports, ajaxSend
  handlers); in any of these gaps, and at any later time, a request may be
  finished, by abort, by its transport or by a timeout.  Finishing calls user code
  too, so it begins and ends as two events.
*/
module AjaxSpec {

  // Where the call stands: the gap it is in.
  datatype Stage = Prefilters | Started | Ready | Sending | Over

  datatype Request = Request(
    global: bool,        // settings.global
    hasBefore: bool,     // settings.beforeSend is given
    stage: Stage,
    state: nat,          // 0 before sending, 1 sent, 2 finished
    counted: bool,       // the call has counted it in `active`
    transport: bool,     // there is a transport to send with
    finishing: nat,      // finishers begun and not ended
    finishes: nat,       // times the finisher took effect
    ended: nat)          // times it was counted out of `active`

  datatype Signal = AjaxStart | AjaxStop

  datatype State = State(active: int, requests: seq<Request>, signals: seq<Signal>)

  datatype Event =
    | Open(global: bool, hasBefore: bool)
    | Prefiltered(id: nat)
    | BeforeSent(id: nat, refused: bool)
    | Transported(id: nat, found: bool)
    | Sent(id: nat, throws: bool)
    | Finish(id: nat)
    | FinishEnds(id: nat)

  predicate Enabled(s: State, e: Event) {
    match e
    case Open(_, _) => true
    case Prefiltered(id) => id < |s.requests| && s.requests[id].stage == Prefilters
    case BeforeSent(id, _) => id < |s.requests| && s.requests[id].stage == Started
    case Transported(id, _) => id < |s.requests| && s.requests[id].stage == Ready
    case Sent(id, _) => id < |s.requests| && s.requests[id].stage == Sending
    case Finish(id) => id < |s.requests|
    case FinishEnds(id) => id < |s.requests| && s.requests[id].finishing > 0
  }

  // The finisher up to the point where it has called everyone.
  function Finished(r: Request): Request {
    if r.state == 2 then r
    else r.(state := 2, transport := false, finishing := r.finishing + 1, finishes := r.finishes + 1)
  }

  // What an event does to its request.
  function Moved(r: Request, e: Event): Request
    requires e.FinishEnds? ==> r.finishing > 0
  {
    match e
    case Open(_, _) => r
    case Prefiltered(_) =>
      if r.state == 2 then r.(stage := Over) else r.(stage := Started, counted := r.global)
    case BeforeSent(_, refused) =>
      if r.hasBefore && (refused || r.state == 2) then Finished(r).(stage := Over) else r.(stage := Ready)
    case Transported(_, found) =>
      if found then r.(stage := Sending, transport := true) else Finished(r).(stage := Over)
    case Sent(_, throws) =>
      var r1 := r.(stage := Over, state := 1);
      if throws || !r.transport then Finished(r1) else r1
    case Finish(_) => Finished(r)
    case FinishEnds(_) =>
      r.(finishing := r.finishing - 1, ended := if r.counted then r.ended + 1 else r.ended)
  }

  function Next(s: State, e: Event): (t: State)
    requires Enabled(s, e)
    ensures |s.requests| <= |t.requests|
  {
    if e.Open? then
      s.(requests := s.requests + [Request(e.global, e.hasBefore, Prefilters, 0, false, false, 0, 0, 0)])
    else
      var r := s.requests[e.id];
      var s1 := s.(requests := s.requests[e.id := Moved(r, e)]);
      if e.Prefiltered? && r.state != 2 && r.global then
        s1.(active := s.active + 1, signals := s.signals + if s.active == 0 then [AjaxStart] else [])
      else if e.FinishEnds? && r.counted then
        s1.(active := s.active - 1, signals := s.signals + if s.active == 1 then [AjaxStop] else [])
      else s1
  }

  const NONE := State(0, [], [])

  predicate Legal(es: seq<Event>)
    decreases |es|, 0
  {
    es == [] || (Legal(es[..|es| - 1]) && Enabled(Run(es[..|es| - 1]), es[|es| - 1]))
  }

  function Run(es: seq<Event>): State
    requires Legal(es)
    decreases |es|, 1
  {
    if es == [] then NONE else Next(Run(es[..|es| - 1]), es[|es| - 1])
  }

  // ---- the ledger

  function Share(r: Request): int {
    if r.counted then 1 - r.ended else 0
  }

  function Balance(rs: seq<Request>): int {
    if rs == [] then 0 else Balance(rs[..|rs| - 1]) + Share(rs[|rs| - 1])
  }

  // Counted in and never counted out.
  function Outstanding(rs: seq<Request>): nat {
    if rs == [] then 0
    else Outstanding(rs[..|rs| - 1]) + if rs[|rs| - 1].counted && rs[|rs| - 1].ended == 0 then 1 else 0
  }

  lemma {:induction false} BalanceUpdate(rs: seq<Request>, i: nat, r: Request)
    requires i < |rs|
    ensures Balance(rs[i := r]) == Balance(rs) - Share(rs[i]) + Share(r)
  {
    var n := |rs| - 1;
    if i == n {
      assert rs[i := r][..n] == rs[..n];
    } else {
      BalanceUpdate(rs[..n], i, r);
      assert rs[i := r][..n] == rs[..n][i := r];
    }
  }

  // The books of one request: a counted one has counted out every finisher that
  // has ended; a finisher that took effect before sending leaves it finished.
  predicate Entry(r: Request) {
    && r.state <= 2 && r.finishing <= r.finishes
    && (if r.counted then r.finishing + r.ended == r.finishes else r.ended == 0)
    && (r.stage == Prefilters ==> !r.counted)
    && (r.stage != Over ==> r.state != 1 && (r.state == 2 <==> r.finishes > 0))
  }

  ghost predicate Ledger(s: State) {
    && s.active == Balance(s.requests)
    && forall i :: 0 <= i < |s.requests| ==> Entry(s.requests[i])
  }

  lemma EntryStep(s: State, e: Event)
    requires !e.Open? && Enabled(s, e) && Entry(s.requests[e.id])
    ensures var r := s.requests[e.id];
            && Entry(Moved(r, e))
            && Share(Moved(r, e)) - Share(r)
               == if e.Prefiltered? && r.state != 2 && r.global then 1 else if e.FinishEnds? && r.counted then -1 else 0
  {
  }

  lemma LedgerStep(s: State, e: Event)
    requires Ledger(s) && Enabled(s, e)
    ensures Ledger(Next(s, e))
  {
    if e.Open? {
      var rs := Next(s, e).requests;
      assert rs[..|rs| - 1] == s.requests;
    } else {
      hide Entry, Moved, Share, Balance;
      EntryStep(s, e);
      BalanceUpdate(s.requests, e.id, Moved(s.requests[e.id], e));
    }
  }

  // In every run the counter is the number counted in less the number counted out.
  lemma {:induction false} LedgerRun(es: seq<Event>)
    requires Legal(es)
    ensures Ledger(Run(es))
    decreases |es|
  {
    if es != [] {
      LedgerRun(es[..|es| - 1]);
      LedgerStep(Run(es[..|es| - 1]), es[|es| - 1]);
    }
  }

  // Balance is the number outstanding exactly when nothing is counted out twice.
  lemma {:induction false} BalanceIsOutstanding(rs: seq<Request>)
    requires forall i :: 0 <= i < |rs| ==> Entry(rs[i])
    ensures Balance(rs) <= Outstanding(rs)
    ensures Balance(rs) == Outstanding(rs) <==> forall i :: 0 <= i < |rs| && rs[i].counted ==> rs[i].ended <= 1
  {
    if rs != [] {
      BalanceIsOutstanding(rs[..|rs| - 1]);
    }
  }

  // The counter is right exactly when no counted request has been counted out twice.
  lemma CounterIsRight(es: seq<Event>)
    requires Legal(es)
    ensures var s := Run(es);
            s.active == Outstanding(s.requests)
            <==> forall i :: 0 <= i < |s.requests| && s.requests[i].counted ==> s.requests[i].ended <= 1
    ensures Run(es).active <= Outstanding(Run(es).requests)
  {
    LedgerRun(es);
    BalanceIsOutstanding(Run(es).requests);
  }

  // With no finisher under way, that is when no counted request's finisher has
  // taken effect twice.
  lemma CounterAtRest(es: seq<Event>)
    requires Legal(es) && forall i :: 0 <= i < |Run(es).requests| ==> Run(es).requests[i].finishing == 0
    ensures var s := Run(es);
            s.active == Outstanding(s.requests)
            <==> forall i :: 0 <= i < |s.requests| && s.requests[i].counted ==> s.requests[i].finishes <= 1
  {
    LedgerRun(es);
    CounterIsRight(es);
  }

  // ---- the signals

  // ajaxStart and ajaxStop in turn, beginning with ajaxStart.
  predicate Alternate(signals: seq<Signal>) {
    forall i :: 0 <= i < |signals| ==> signals[i] == if i % 2 == 0 then AjaxStart else AjaxStop
  }

  // Signals are given where the counter leaves 0 upwards and where it comes back,
  // whatever it stands for: in every run they alternate, and the last one is
  // ajaxStart exactly while the counter is positive, also in runs that take the
  // counter below 0.
  lemma {:induction false} SignalsAlternate(es: seq<Event>)
    requires Legal(es)
    ensures Alternate(Run(es).signals)
    ensures |Run(es).signals| % 2 == 1 <==> Run(es).active > 0
    decreases |es|
  {
    if es != [] {
      SignalsAlternate(es[..|es| - 1]);
    }
  }

  // ---- the one way it goes wrong

  // The call marks a request as sent that has been finished in the meantime.
  predicate Reopens(s: State, e: Event) {
    Enabled(s, e) && e.Sent? && s.requests[e.id].state == 2
  }

  // From one state to the next a request only moves on, and a finished one is not
  // finished again.
  predicate MovesOn(r: Request, t: Request) {
    r.state <= t.state && (r.state == 2 ==> t.finishes == r.finishes)
  }

  // That is so at every step but that one.
  lemma OnlyReopeningGoesBack(s: State, e: Event)
    requires Ledger(s) && Enabled(s, e)
    ensures (forall i :: 0 <= i < |s.requests| ==> MovesOn(s.requests[i], Next(s, e).requests[i]))
       <==> !Reopens(s, e)
  {
    if !e.Open? {
      var r := s.requests[e.id];
      assert Entry(r);
      assert Next(s, e).requests[e.id] == Moved(r, e);
      assert MovesOn(r, Moved(r, e)) <==> !Reopens(s, e);
    }
  }

  predicate Clean(es: seq<Event>)
    requires Legal(es)
    decreases |es|
  {
    es == [] || (Clean(es[..|es| - 1]) && !Reopens(Run(es[..|es| - 1]), es[|es| - 1]))
  }

  predicate FinishedOnce(r: Request) {
    r.finishes <= 1 && (r.state == 2 <==> r.finishes == 1)
  }

  ghost predicate AllFinishedOnce(s: State) {
    forall i :: 0 <= i < |s.requests| ==> FinishedOnce(s.requests[i])
  }

  lemma FinishedOnceStep(s: State, e: Event)
    requires Ledger(s) && AllFinishedOnce(s) && Enabled(s, e) && !Reopens(s, e)
    ensures AllFinishedOnce(Next(s, e))
  {
    if !e.Open? {
      var r := s.requests[e.id];
      assert Entry(r) && FinishedOnce(r) && FinishedOnce(Moved(r, e));
    }
  }

  // In a run where no request is finished between its last check and its sending,
  // every finisher takes effect at most once, and the counter is the number of
  // global requests started and not counted out.
  lemma {:induction false} CleanRuns(es: seq<Event>)
    requires Legal(es) && Clean(es)
    ensures AllFinishedOnce(Run(es))
    ensures Run(es).active == Outstanding(Run(es).requests)
    decreases |es|
  {
    if es != [] {
      var most := es[..|es| - 1];
      CleanRuns(most);
      LedgerRun(most);
      FinishedOnceStep(Run(most), es[|es| - 1]);
    }
    LedgerRun(es);
    CounterIsRight(es);
  }

  // Aborting from an ajaxSend handler: the call goes on to send, finds no
  // transport and finishes the request a second time.
  function AbortInAjaxSend(id: nat): seq<Event> {
    [Finish(id), FinishEnds(id), Sent(id, false), FinishEnds(id)]
  }

  // From every point of every run where a counted request is about to be sent,
  // that counts it out twice.
  lemma CountedOutTwice(es: seq<Event>, id: nat)
    requires Legal(es) && id < |Run(es).requests|
    requires var r := Run(es).requests[id]; r.stage == Sending && r.state != 2 && r.counted
    ensures Legal(es + AbortInAjaxSend(id)) && Run(es + AbortInAjaxSend(id)).active == Run(es).active - 2
  {
    hide Run, Legal;
    LedgerRun(es);
    var r := Run(es).requests[id];
    assert Entry(r);
    var more := AbortInAjaxSend(id);
    RunStep(es, more[0]);
    var e1 := es + [more[0]];
    assert Run(e1).requests[id].finishing == 1 && Run(e1).requests[id].state == 2;
    RunStep(e1, more[1]);
    var e2 := e1 + [more[1]];
    assert Run(e2).requests[id].state == 2 && !Run(e2).requests[id].transport;
    RunStep(e2, more[2]);
    var e3 := e2 + [more[2]];
    assert Run(e3).requests[id].finishing == 1;
    RunStep(e3, more[3]);
    assert e3 + [more[3]] == es + more;
  }

  lemma RunStep(es: seq<Event>, e: Event)
    requires Legal(es) && Enabled(Run(es), e)
    ensures Legal(es + [e]) && Run(es + [e]) == Next(Run(es), e)
  {
    assert (es + [e])[..|es|] == es;
  }

  // Such a point is reached by a single request, which leaves the counter at -1.
  lemma BelowZero()
    ensures var es := [Open(true, false), Prefiltered(0), BeforeSent(0, false), Transported(0, true)] + AbortInAjaxSend(0);
            Legal(es) && Run(es).active == -1
  {
    hide Run, Legal;
    RunNothing();
    var es := [];
    RunStep(es, Open(true, false));
    es := es + [Open(true, false)];
    RunStep(es, Prefiltered(0));
    es := es + [Prefiltered(0)];
    RunStep(es, BeforeSent(0, false));
    es := es + [BeforeSent(0, false)];
    RunStep(es, Transported(0, true));
    es := es + [Transported(0, true)];
    assert es == [Open(true, false), Prefiltered(0), BeforeSent(0, false), Transported(0, true)];
    CountedOutTwice(es, 0);
  }

  lemma RunNothing()
    ensures Legal([]) && Run([]) == NONE
  {
  }
}
