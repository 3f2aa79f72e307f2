/** jQuery.ajax: what each stretch of a call does between two gaps. */
module Ajax {
  import opened AjaxSpec

  // A request object: the variables one call of jQuery.ajax closes over.
  class JqXhr {
    const global: bool
    const hasBefore: bool
    var state: nat
    var counted: bool        // the call got as far as counting itself in
    var transport: bool
    // what happened to it
    ghost var stage: Stage
    ghost var finishing: nat
    ghost var finishes: nat
    ghost var ended: nat

    constructor (global: bool, hasBefore: bool)
      ensures View() == Request(global, hasBefore, Prefilters, 0, false, false, 0, 0, 0)
    {
      this.global, this.hasBefore := global, hasBefore;
      state, counted, transport := 0, false, false;
      stage, finishing, finishes, ended := Prefilters, 0, 0, 0;
    }

    ghost function View(): Request
      reads this
    {
      Request(global, hasBefore, stage, state, counted, transport, finishing, finishes, ended)
    }

    // The finisher until it has called everyone.
    method BeginFinish()
      modifies this
      ensures View() == Finished(old(View()))
    {
      if state == 2 {
        return;
      }
      state, transport := 2, false;
      finishing, finishes := finishing + 1, finishes + 1;
    }

    // The sending itself; without a transport, or when it throws, the call is
    // finished on the spot.
    method Send(throws: bool)
      requires stage == Sending
      modifies this
      ensures View() == Moved(old(View()), Sent(0, throws))
    {
      var sends := transport;
      state, stage := 1, Over;
      if throws || !sends {
        BeginFinish();
      }
    }
  }

  ghost function Views(calls: seq<JqXhr>): (rs: seq<Request>)
    reads calls
    ensures |rs| == |calls| && forall i :: 0 <= i < |rs| ==> rs[i] == calls[i].View()
  {
    seq(|calls|, i requires 0 <= i < |calls| reads calls => calls[i].View())
  }

  class Requests {
    var active: int
    var calls: seq<JqXhr>
    var signals: seq<Signal>

    ghost function View(): State
      reads this, calls
    {
      State(active, Views(calls), signals)
    }

    ghost predicate Valid()
      reads this
    {
      forall i, j :: 0 <= i < j < |calls| ==> calls[i] != calls[j]
    }

    constructor ()
      ensures Valid() && View() == NONE
    {
      active, calls, signals := 0, [], [];
    }

    // A call up to its prefilters.
    method OpenRequest(global: bool, hasBefore: bool) returns (call: JqXhr)
      requires Valid()
      modifies this
      ensures Valid() && fresh(call) && calls == old(calls) + [call]
      ensures View() == Next(old(View()), Open(global, hasBefore))
    {
      call := new JqXhr(global, hasBefore);
      calls := calls + [call];
      assert Views(calls) == Views(old(calls)) + [call.View()];
    }

    // From the prefilters to the ajaxStart handlers.
    method AfterPrefilters(id: nat)
      requires Valid() && id < |calls| && calls[id].stage == Prefilters
      modifies this, calls
      ensures Valid() && calls == old(calls) && View() == Next(old(View()), Prefiltered(id))
    {
      var call := calls[id];
      if call.state == 2 {
        call.stage := Over;
      } else {
        call.stage, call.counted := Started, call.global;
        if call.global {
          if active == 0 {
            signals := signals + [AjaxStart];
          }
          active := active + 1;
        }
      }
      assert Views(calls) == old(Views(calls))[id := call.View()];
    }

    method FinishRequest(id: nat)
      requires Valid() && id < |calls|
      modifies this, calls
      ensures Valid() && calls == old(calls) && View() == Next(old(View()), Finish(id))
    {
      calls[id].BeginFinish();
      assert Views(calls) == old(Views(calls))[id := calls[id].View()];
    }

    // The end of the finisher.
    method EndFinish(id: nat)
      requires Valid() && id < |calls| && calls[id].finishing > 0
      modifies this, calls
      ensures Valid() && calls == old(calls) && View() == Next(old(View()), FinishEnds(id))
    {
      var call := calls[id];
      call.finishing := call.finishing - 1;
      if call.counted {
        call.ended := call.ended + 1;
        active := active - 1;
        if active == 0 {
          signals := signals + [AjaxStop];
        }
      }
      assert Views(calls) == old(Views(calls))[id := call.View()];
    }

    // From beforeSend to the transports.
    method AfterBeforeSend(id: nat, refused: bool)
      requires Valid() && id < |calls| && calls[id].stage == Started
      modifies this, calls
      ensures Valid() && calls == old(calls) && View() == Next(old(View()), BeforeSent(id, refused))
    {
      var call := calls[id];
      if call.hasBefore && (refused || call.state == 2) {
        call.BeginFinish();
        call.stage := Over;
      } else {
        call.stage := Ready;
      }
      assert Views(calls) == old(Views(calls))[id := call.View()];
    }

    // From the transports to the ajaxSend handlers.
    method AfterTransports(id: nat, found: bool)
      requires Valid() && id < |calls| && calls[id].stage == Ready
      modifies this, calls
      ensures Valid() && calls == old(calls) && View() == Next(old(View()), Transported(id, found))
    {
      var call := calls[id];
      if found {
        call.stage, call.transport := Sending, true;
      } else {
        call.BeginFinish();
        call.stage := Over;
      }
      assert Views(calls) == old(Views(calls))[id := call.View()];
    }

    // From the ajaxSend handlers to the end of the call.
    method Send(id: nat, throws: bool)
      requires Valid() && id < |calls| && calls[id].stage == Sending
      modifies this, calls
      ensures Valid() && calls == old(calls) && View() == Next(old(View()), Sent(id, throws))
    {
      calls[id].Send(throws);
      assert Views(calls) == old(Views(calls))[id := calls[id].View()];
    }
  }
}
