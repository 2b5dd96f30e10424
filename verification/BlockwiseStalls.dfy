/** Transfers that nothing will carry on: what strands a transfer, and what that costs. */
module BlockwiseStalls {
  import opened Wrappers
  import opened CBytes
  import opened BlockwiseCore
  import opened BlockwiseRuns
  import opened BlockwiseTheorems

  // A transfer with no continuation left.

  /** A live transfer that nothing will carry on: nothing queued, handed out or in flight. */
  ghost predicate Stalled(p: Parser, w: World, x: nat) {
    && Inv(p, w)
    && x < |w.xfers| && w.xfers[x].phase.Live?
    && Continuations(w, w.xfers[x].idx, x) == 0
  }

  /** An answer stalls its transfer exactly when it neither ends it nor calls for a next
      block: a timeout, an error without Block2, a response that is not blockwise. */
  lemma AnswerStallsExactly(p: Parser, w: World, resp: Response, hdr: seq<byte>)
    requires Inv(p, w) && Allowed(p, w, Respond(resp, hdr))
    ensures StepRespond(w, resp, hdr).Ok?
    ensures var h := w.held[w.inflight.value];
            Stalled(p, StepRespond(w, resp, hdr).value, h.xfer)
            <==> !Ends(resp) && NextOf(CString(w.xfers[h.xfer].uri), resp).None?
  {
    hide SlotOk, XferOk, DueOk, SlotsInv, XfersInv, HeldInv, BusyCount, HeldUnique, BufferAfter, MemoOf, CString, Update;
    var h := w.held[w.inflight.value];
    RespondKeeps(p, w, resp, hdr);
    HeldFacts(p, w, w.inflight.value);
    XferFacts(p, w, h.xfer);
    AnswerFindsRoom(p, w);
    NoneUnpolled(p, w);
    assert Unpolled(StepRespond(w, resp, hdr).value, h.xfer) == {};
  }

  lemma NoneUnpolled(p: Parser, w: World)
    requires Inv(p, w) && w.inflight.Some?
    ensures Unpolled(w, w.held[w.inflight.value].xfer) == {}
  {
    hide LogOk, CString, NextOf, SlotsInv, XfersInv, HeldInv, BusyCount, HeldUnique;
    var x := w.held[w.inflight.value].xfer;
    XferFacts(p, w, x);
    if Unpolled(w, x) != {} {
      var r :| r in Unpolled(w, x);
      HeldFacts(p, w, r);
    }
  }

  /** A poll whose datagram is not delivered stalls its transfer. */
  lemma UndeliveredStalls(p: Parser, w: World, rid: nat, first: seq<byte>)
    requires Inv(p, w) && Allowed(p, w, PollReq(rid, first, false))
    requires w.held[rid].fstat.New? && w.xfers[w.held[rid].xfer].phase.Live?
    ensures StepPollReq(w, rid, first, false).Ok?
    ensures Stalled(p, StepPollReq(w, rid, first, false).value, w.held[rid].xfer)
  {
    hide SlotsInv, XfersInv, HeldInv, FlightInv, BusyCount, XferOk, DueOk, CString, WireBytes, Padded;
    var x := w.held[rid].xfer;
    PollReqKeeps(p, w, rid, first, false);
    HeldFacts(p, w, rid);
    LiveIsBusy(p, w, x);
    var w' := StepPollReq(w, rid, first, false).value;
    LiveIsBusy(p, w', x);
    assert Unpolled(w', x) == {};
  }

  /** A step that leaves the slot and the record of a transfer alone, and hands out, sends and
      answers no request of it. */
  predicate Unaffected(w: World, w': World, x: nat)
    requires WellShaped(w) && WellShaped(w') && x < |w.xfers|
  {
    && x < |w'.xfers| && w'.xfers[x] == w.xfers[x]
    && w'.core.slots[w.xfers[x].idx] == w.core.slots[w.xfers[x].idx]
    && (forall r :: r in w'.held && w'.held[r].xfer == x && w'.held[r].fstat.New? ==> r in w.held && w.held[r] == w'.held[r])
    && (forall r :: r in w.held && w.held[r].xfer == x && w.held[r].fstat.New? ==> r in w'.held && w.held[r] == w'.held[r])
    && InFlightOf(w, x) == InFlightOf(w', x)
  }

  lemma SameStall(p: Parser, w: World, w': World, x: nat)
    requires Inv(p, w) && Inv(p, w') && x < |w.xfers| && Unaffected(w, w', x)
    ensures Stalled(p, w', x) <==> Stalled(p, w, x)
  {
    hide SlotsInv, XfersInv, HeldInv, FlightInv, BusyCount, HeldUnique;
    assert Unpolled(w', x) == Unpolled(w, x);
  }

  /** Does the event act on transfer x itself? */
  predicate Touches(w: World, e: Event, x: nat)
    requires WellShaped(w)
  {
    match e
    case NewTransfer(_, _) => x == |w.xfers|
    case PollStream(y) => y == x
    case PollReq(r, _, _) => r in w.held && w.held[r].xfer == x && w.held[r].fstat.New?
    case Respond(_, _) => InFlightOf(w, x)
    case PlainResponse(_, _) => false
    case Close(y) => y == x
  }

  lemma PollReqElsewhere(p: Parser, w: World, rid: nat, first: seq<byte>, delivered: bool, x: nat)
    requires Inv(p, w) && Allowed(p, w, PollReq(rid, first, delivered))
    requires x < |w.xfers| && w.xfers[x].phase.Live? && !Touches(w, PollReq(rid, first, delivered), x)
    ensures StepPollReq(w, rid, first, delivered).Ok?
    ensures Unaffected(w, StepPollReq(w, rid, first, delivered).value, x)
  {
    hide Inv, RowsShaped, CString, Update, WireBytes;
    InvShaped(p, w);
    PollReqKeeps(p, w, rid, first, delivered);
    LiveIsBusy(p, w, x);
  }

  lemma OutUnaffected(w: World, x: nat, o: Output)
    requires WellShaped(w) && x < |w.xfers|
    ensures Unaffected(w, w.(out := o), x)
  {
  }

  lemma NewElsewhere(p: Parser, w: World, addr: seq<byte>, uri: seq<byte>, x: nat)
    requires Inv(p, w) && Allowed(p, w, NewTransfer(addr, uri)) && x < |w.xfers| && w.xfers[x].phase.Live?
    ensures StepNew(w, addr, uri).Ok? && Unaffected(w, StepNew(w, addr, uri).value, x)
  {
    hide Inv, RowsShaped, Opened;
    InvShaped(p, w);
    NewKeeps(p, w, addr, uri);
    LiveIsBusy(p, w, x);
  }

  lemma PollStreamElsewhere(p: Parser, w: World, y: nat, x: nat)
    requires Inv(p, w) && Allowed(p, w, PollStream(y)) && x < |w.xfers| && w.xfers[x].phase.Live? && y != x
    ensures StepPollStream(w, y).Ok? && Unaffected(w, StepPollStream(w, y).value, x)
  {
    hide Inv, RowsShaped;
    InvShaped(p, w);
    PollStreamKeeps(p, w, y);
    LiveIsBusy(p, w, x);
  }

  lemma RespondElsewhere(p: Parser, w: World, resp: Response, hdr: seq<byte>, x: nat)
    requires Inv(p, w) && Allowed(p, w, Respond(resp, hdr))
    requires x < |w.xfers| && w.xfers[x].phase.Live? && !InFlightOf(w, x)
    ensures StepRespond(w, resp, hdr).Ok? && Unaffected(w, StepRespond(w, resp, hdr).value, x)
  {
    hide Inv, RowsShaped, OnResponse, Fitting, Rebuilt, CString;
    InvShaped(p, w);
    ResponseStaysHome(p, w, resp, hdr);
    LiveIsBusy(p, w, x);
  }

  lemma CloseElsewhere(p: Parser, w: World, y: nat, x: nat)
    requires Inv(p, w) && Allowed(p, w, Close(y)) && x < |w.xfers| && w.xfers[x].phase.Live? && y != x
    ensures StepClose(w, y).Ok? && Unaffected(w, StepClose(w, y).value, x)
  {
    hide Inv, RowsShaped, Closed;
    InvShaped(p, w);
    CloseKeeps(p, w, y);
    LiveIsBusy(p, w, x);
    LiveIsBusy(p, w, y);
  }

  /** Events leave every live transfer alone that they do not act on. */
  lemma StepElsewhere(p: Parser, w: World, e: Event, x: nat)
    requires Inv(p, w) && Allowed(p, w, e) && x < |w.xfers| && w.xfers[x].phase.Live? && !Touches(w, e, x)
    ensures Step(w, e).Ok? && Inv(p, Step(w, e).value) && Unaffected(w, Step(w, e).value, x)
  {
    hide Inv, CString, Fitting, Rebuilt, Unaffected;
    hide StepNew, StepPollStream, StepPollReq, StepRespond, StepPlain, StepClose;
    InvShaped(p, w);
    StepKeeps(p, w, e);
    match e {
      case NewTransfer(addr, uri) => NewElsewhere(p, w, addr, uri, x);
      case PollStream(y) => PollStreamElsewhere(p, w, y, x);
      case PollReq(r, first, delivered) => PollReqElsewhere(p, w, r, first, delivered, x);
      case Respond(resp, hdr) => RespondElsewhere(p, w, resp, hdr, x);
      case PlainResponse(resp, hdr) =>
        PlainTouchesNothing(p, w, resp, hdr);
        OutUnaffected(w, x, Nothing);
      case Close(y) => CloseElsewhere(p, w, y, x);
    }
  }

  lemma NoneHeld(p: Parser, w: World, x: nat, r: nat)
    requires Stalled(p, w, x) && r in w.held && w.held[r].fstat.New?
    ensures w.held[r].xfer != x
  {
    hide Inv;
    InvShaped(p, w);
    assert w.held[r].xfer == x ==> r in Unpolled(w, x);
  }

  /** An event on a stalled transfer finds nothing to act on, unless it closes it. */
  lemma StalledUntouched(p: Parser, w: World, e: Event, x: nat)
    requires Stalled(p, w, x) && Touches(w, e, x) && Allowed(p, w, e)
    ensures e == Close(x) || (e == PollStream(x) && w.core.slots[w.xfers[x].idx].queue == [])
  {
    hide Inv, Unpolled;
    InvShaped(p, w);
    LiveIsBusy(p, w, x);
    match e {
      case PollReq(r, _, _) => NoneHeld(p, w, x, r);
      case _ =>
    }
  }

  lemma StepLeavesStalled(p: Parser, w: World, e: Event, x: nat)
    requires Stalled(p, w, x) && Allowed(p, w, e) && e != Close(x)
    ensures Step(w, e).Ok? && Stalled(p, Step(w, e).value, x)
    ensures Step(w, e).value.xfers[x] == w.xfers[x]
  {
    hide Inv, Allowed, Continuations;
    InvShaped(p, w);
    StepKeeps(p, w, e);
    if Touches(w, e, x) {
      StalledUntouched(p, w, e, x);
      StillStalled(p, w, x);
    } else {
      StepElsewhere(p, w, e, x);
      SameStall(p, w, Step(w, e).value, x);
    }
  }

  lemma StillStalled(p: Parser, w: World, x: nat)
    requires Stalled(p, w, x) && w.core.slots[w.xfers[x].idx].queue == []
    ensures StepPollStream(w, x) == Ok(w.(out := Pending)) && Stalled(p, w.(out := Pending), x)
  {
    hide Inv;
    InvShaped(p, w);
    OutOnly(p, w, Pending);
    SameStall(p, w, w.(out := Pending), x);
  }

  lemma PlainTouchesNothing(p: Parser, w: World, resp: Response, hdr: seq<byte>)
    requires Inv(p, w) && Allowed(p, w, PlainResponse(resp, hdr))
    ensures StepPlain(w, resp, hdr) == Ok(w.(out := Nothing))
  {
    hide Inv;
    PlainKeeps(p, w, resp, hdr);
  }

  lemma LiveIsBusy(p: Parser, w: World, x: nat)
    requires Inv(p, w) && x < |w.xfers| && w.xfers[x].phase.Live?
    ensures w.core.slots[w.xfers[x].idx].Busy() && w.gen[w.xfers[x].idx] == Some(x)
    ensures Queued(w.core.slots[w.xfers[x].idx]) == 0 ==> w.core.slots[w.xfers[x].idx].queue == []
  {
    hide DueOk, XferOk, SlotsInv, XfersInv, HeldInv, FlightInv, BusyCount, HeldUnique, CString;
    XferFacts(p, w, x);
    SlotFacts(p, w, w.xfers[x].idx);
  }

  /** Only close ends a stalled transfer: in every run without it the transfer sends nothing,
      its stream never yields again, and its slot stays occupied. */
  lemma {:induction false} StalledUntilClosed(p: Parser, w: World, es: seq<Event>, x: nat)
    requires Stalled(p, w, x) && Disciplined(p, w, es) && Close(x) !in es
    ensures Run(w, es).Ok? && Stalled(p, Run(w, es).value, x)
    ensures var w' := Run(w, es).value;
            && w'.xfers[x] == w.xfers[x]
            && w'.core.slots[w.xfers[x].idx].Busy()
            && StepPollStream(w', x) == Ok(w'.(out := Pending))
    decreases |es|
  {
    hide Inv, Step, Allowed;
    InvShaped(p, w);
    if es == [] {
      LiveIsBusy(p, w, x);
    } else {
      StepLeavesStalled(p, w, es[0], x);
      StalledUntilClosed(p, Step(w, es[0]).value, es[1..], x);
    }
  }

  /** Four stalled transfers shut the client: every NEW is refused. */
  lemma FourStalledRefuseNew(p: Parser, w: World, xs: seq<nat>, addr: seq<byte>, uri: seq<byte>)
    requires Inv(p, w) && |xs| == STATES_MAX
    requires forall j, k :: 0 <= j < k < STATES_MAX ==> xs[j] != xs[k]
    requires forall k :: 0 <= k < STATES_MAX ==> Stalled(p, w, xs[k])
    ensures StepNew(w, addr, uri) == Ok(w.(out := NoSlot))
  {
    hide Inv, Continuations, RowsShaped;
    InvShaped(p, w);
    forall k | 0 <= k < STATES_MAX
      ensures xs[k] < |w.xfers| && w.gen[w.xfers[xs[k]].idx] == Some(xs[k]) && w.core.slots[w.xfers[xs[k]].idx].Busy()
    {
      assert Stalled(p, w, xs[k]);
      LiveIsBusy(p, w, xs[k]);
    }
    var i0, i1, i2, i3 := w.xfers[xs[0]].idx, w.xfers[xs[1]].idx, w.xfers[xs[2]].idx, w.xfers[xs[3]].idx;
    assert {i0, i1, i2, i3} == {0, 1, 2, 3};
    forall i | 0 <= i < STATES_MAX ensures w.core.slots[i].Busy() {
      assert i in {i0, i1, i2, i3};
    }
  }

  // Nothing else strands a transfer.

  /** The two ways to strand transfer x: its request in flight is answered by a response that
      neither ends it nor calls for a next block, or its due request is polled and the datagram
      cannot be delivered. */
  predicate Strands(w: World, e: Event, x: nat)
    requires WellShaped(w)
  {
    match e
    case Respond(resp, _) =>
      InFlightOf(w, x) && x < |w.xfers| && !Ends(resp) && NextOf(CString(w.xfers[x].uri), resp).None?
    case PollReq(r, _, delivered) => !delivered && r in w.held && w.held[r].fstat.New? && w.held[r].xfer == x
    case _ => false
  }

  /** Polling the stream of a transfer that is not stalled does not stall it. */
  lemma PollStreamKeepsGoing(p: Parser, w: World, x: nat)
    requires Inv(p, w) && Allowed(p, w, PollStream(x)) && w.xfers[x].phase.Live? && !Stalled(p, w, x)
    ensures StepPollStream(w, x).Ok? && !Stalled(p, StepPollStream(w, x).value, x)
  {
    hide SlotsInv, XfersInv, HeldInv, FlightInv, BusyCount, HeldUnique, XferOk, DueOk, CString;
    PollStreamKeeps(p, w, x);
    SlotFacts(p, w, w.xfers[x].idx);
    var w' := StepPollStream(w, x).value;
    if w.core.slots[w.xfers[x].idx].queue == [] {
      SameStall(p, w, w', x);
    } else {
      assert w.nextId in Unpolled(w', x);
    }
  }

  /** A delivered poll puts the request in flight. */
  lemma DeliveredKeepsGoing(p: Parser, w: World, rid: nat, first: seq<byte>)
    requires Inv(p, w) && Allowed(p, w, PollReq(rid, first, true))
    requires w.held[rid].fstat.New? && w.xfers[w.held[rid].xfer].phase.Live?
    ensures StepPollReq(w, rid, first, true).Ok?
    ensures InFlightOf(StepPollReq(w, rid, first, true).value, w.held[rid].xfer)
  {
    hide SlotsInv, XfersInv, HeldInv, FlightInv, BusyCount, HeldUnique, XferOk, DueOk, CString, Update, WireBytes;
    PollReqKeeps(p, w, rid, first, true);
    SlotFacts(p, w, w.held[rid].req.idx);
  }

  /** One event on a transfer that is alive before and after it. */
  lemma StepStallsExactly(p: Parser, w: World, e: Event, x: nat)
    requires Inv(p, w) && Allowed(p, w, e) && x < |w.xfers|
    requires Step(w, e).Ok? ==> x < |Step(w, e).value.xfers| && Step(w, e).value.xfers[x].phase.Live?
    ensures Step(w, e).Ok? && Inv(p, Step(w, e).value) && w.xfers[x].phase.Live?
    ensures Stalled(p, Step(w, e).value, x) <==> Stalled(p, w, x) || Strands(w, e, x)
  {
    hide Inv, Allowed, Step, Stalled, NextOf;
    InvShaped(p, w);
    StepKeeps(p, w, e);
    if !w.xfers[x].phase.Live? {
      StepLeavesFinished(p, w, e, x);
      assert false;
    }
    if !Touches(w, e, x) {
      StepElsewhere(p, w, e, x);
      SameStall(p, w, Step(w, e).value, x);
    } else if Stalled(p, w, x) {
      NotClosed(w, e, x);
      StepLeavesStalled(p, w, e, x);
    } else {
      TouchStallsExactly(p, w, e, x);
    }
  }

  lemma NotClosed(w: World, e: Event, x: nat)
    requires WellShaped(w) && x < |w.xfers| && Step(w, e).Ok? && Step(w, e).value.xfers[x].phase.Live?
    ensures e != Close(x)
  {
    hide Closed;
  }

  lemma TouchStallsExactly(p: Parser, w: World, e: Event, x: nat)
    requires Inv(p, w) && Allowed(p, w, e) && x < |w.xfers| && w.xfers[x].phase.Live?
    requires Touches(w, e, x) && !Stalled(p, w, x)
    requires Step(w, e).Ok? && x < |Step(w, e).value.xfers| && Step(w, e).value.xfers[x].phase.Live?
    ensures Stalled(p, Step(w, e).value, x) <==> Strands(w, e, x)
  {
    hide Inv, StepPollStream, StepPollReq, StepRespond, StepPlain, StepNew, NextOf, CString, Fitting, Rebuilt, Unpolled;
    InvShaped(p, w);
    NotClosed(w, e, x);
    match e {
      case PollStream(_) => PollStreamKeepsGoing(p, w, x);
      case PollReq(r, first, delivered) =>
        if delivered {
          DeliveredKeepsGoing(p, w, r, first);
        } else {
          UndeliveredStalls(p, w, r, first);
        }
      case Respond(resp, hdr) => AnswerStallsExactly(p, w, resp, hdr);
      case _ =>
    }
  }

  /** A transfer is not born stalled. */
  lemma NewIsGoing(p: Parser, w: World, e: Event, x: nat)
    requires Inv(p, w) && Allowed(p, w, e) && |w.xfers| <= x
    requires Step(w, e).Ok? ==> x < |Step(w, e).value.xfers|
    ensures Step(w, e).Ok? && !Stalled(p, Step(w, e).value, x) && !Strands(w, e, x)
  {
    hide SlotsInv, XfersInv, HeldInv, FlightInv, BusyCount, HeldUnique, XferOk, DueOk, CString, Update, WireBytes, OnResponse, Fitting, Rebuilt, Closed;
    StepKeeps(p, w, e);
  }

  /** Somewhere in the run, transfer x is stranded. */
  predicate StrandedIn(w: World, es: seq<Event>, x: nat)
    requires WellShaped(w)
    decreases |es|
  {
    && es != []
    && (Strands(w, es[0], x) || (Step(w, es[0]).Ok? && StrandedIn(Step(w, es[0]).value, es[1..], x)))
  }

  lemma NeverForgotten(w: World, e: Event)
    requires WellShaped(w) && Step(w, e).Ok?
    ensures |w.xfers| <= |Step(w, e).value.xfers|
  {
    hide Shaped, RowsShaped, OnResponse, Update, Closed, Opened, WireBytes, CString;
  }

  lemma {:induction false} RunStalls(p: Parser, w: World, es: seq<Event>, x: nat)
    requires Inv(p, w) && Disciplined(p, w, es)
    requires Run(w, es).Ok? ==> x < |Run(w, es).value.xfers| && Run(w, es).value.xfers[x].phase.Live?
    ensures Run(w, es).Ok?
    ensures Stalled(p, Run(w, es).value, x) <==> Stalled(p, w, x) || StrandedIn(w, es, x)
    decreases |es|
  {
    hide Inv, Step, Allowed, Strands, Stalled;
    InvShaped(p, w);
    RunsNeverPanic(p, w, es);
    if es == [] {
    } else {
      StepKeeps(p, w, es[0]);
      var w1 := Step(w, es[0]).value;
      RunStalls(p, w1, es[1..], x);
      LiveSoFar(p, w1, es[1..], x);
      if x < |w.xfers| {
        NeverForgotten(w, es[0]);
        StepStallsExactly(p, w, es[0], x);
      } else {
        UnbornIsNotStalled(p, w, es[0], x);
      }
    }
  }

  /** A transfer that is alive in the end was alive ever since it was opened. */
  lemma LiveSoFar(p: Parser, w: World, es: seq<Event>, x: nat)
    requires Inv(p, w) && Disciplined(p, w, es) && Run(w, es).Ok? && x < |Run(w, es).value.xfers|
    requires Run(w, es).value.xfers[x].phase.Live?
    ensures x < |w.xfers| ==> w.xfers[x].phase.Live?
  {
    hide Inv, Step, Allowed, Run, Disciplined;
    InvShaped(p, w);
    if x < |w.xfers| && !w.xfers[x].phase.Live? {
      FinishedStaysSilent(p, w, es, x);
      assert false;
    }
  }

  lemma UnbornIsNotStalled(p: Parser, w: World, e: Event, x: nat)
    requires Inv(p, w) && Allowed(p, w, e) && |w.xfers| <= x
    ensures Step(w, e).Ok? && !Stalled(p, Step(w, e).value, x) && !Stalled(p, w, x) && !Strands(w, e, x)
  {
    hide Inv, Allowed, Step, Strands, Continuations;
    InvShaped(p, w);
    StepKeeps(p, w, e);
    if x < |Step(w, e).value.xfers| {
      NewIsGoing(p, w, e, x);
    } else {
      UnbornNotStranded(w, e, x);
    }
  }

  lemma UnbornNotStranded(w: World, e: Event, x: nat)
    requires WellShaped(w) && |w.xfers| <= x
    ensures !Strands(w, e, x)
  {
    hide RowsShaped;
  }

  /** Over every run from boot, a live transfer is stalled in the end if and only if somewhere in
      the run it got an answer that neither ended nor continued it, or an undelivered poll. */
  lemma RunsStallExactly(p: Parser, es: seq<Event>, x: nat)
    requires Disciplined(p, START, es)
    requires Run(START, es).Ok? ==> x < |Run(START, es).value.xfers| && Run(START, es).value.xfers[x].phase.Live?
    ensures Run(START, es).Ok?
    ensures Stalled(p, Run(START, es).value, x) <==> StrandedIn(START, es, x)
  {
    hide Inv, Step, Allowed, Run, Disciplined, StrandedIn, Continuations;
    StartOk(p);
    RunStalls(p, START, es, x);
  }
}
