/** What the blockwise client guarantees over every run that follows its discipline. */
module BlockwiseTheorems {
  import opened Wrappers
  import opened CBytes
  import opened BlockwiseCore
  import opened BlockwiseRuns

  // Safety over whole runs.

  function Run(w: World, es: seq<Event>): Outcome<World>
    requires WellShaped(w)
    decreases |es|
  {
    if es == [] then Ok(w) else
    var w1 :- Step(w, es[0]);
    Run(w1, es[1..])
  }

  /** Every event of the run is allowed in the state it meets. */
  ghost predicate Disciplined(p: Parser, w: World, es: seq<Event>)
    requires WellShaped(w)
    decreases |es|
  {
    es != [] ==> Allowed(p, w, es[0]) && (Step(w, es[0]).Ok? ==> Disciplined(p, Step(w, es[0]).value, es[1..]))
  }

  /** No assertion, unwrap or panic is reachable, and the invariant holds, after any run. */
  lemma {:induction false} RunsNeverPanic(p: Parser, w: World, es: seq<Event>)
    requires Inv(p, w) && Disciplined(p, w, es)
    ensures Run(w, es).Ok? && Inv(p, Run(w, es).value)
    decreases |es|
  {
    hide Inv, Step, Allowed;
    if es == [] {
    } else {
      InvShaped(p, w);
      StepKeeps(p, w, es[0]);
      RunsNeverPanic(p, Step(w, es[0]).value, es[1..]);
    }
  }

  lemma InvShaped(p: Parser, w: World)
    requires Inv(p, w)
    ensures WellShaped(w)
  {
    hide SlotsInv, XfersInv, HeldInv, FlightInv, HeldUnique, BusyCount, WellShaped;
  }

  /** From boot: no reachable state is a panic. */
  lemma DisciplinedRunsAreSafe(p: Parser, es: seq<Event>)
    requires Disciplined(p, START, es)
    ensures Run(START, es).Ok? && Inv(p, Run(START, es).value)
  {
    hide Inv, Step, Allowed, Disciplined, Run;
    StartOk(p);
    RunsNeverPanic(p, START, es);
  }

  /** The events es lead from w to w' and follow the discipline. */
  ghost predicate Does(p: Parser, w: World, es: seq<Event>, w': World) {
    WellShaped(w) && Disciplined(p, w, es) && Run(w, es) == Ok(w')
  }

  lemma {:induction false} DoesOneMore(p: Parser, w: World, es: seq<Event>, w1: World, e: Event)
    requires Does(p, w, es, w1) && WellShaped(w1) && Allowed(p, w1, e) && Step(w1, e).Ok?
    ensures Does(p, w, es + [e], Step(w1, e).value)
    decreases |es|
  {
    hide Step, Allowed, WellShaped;
    if es == [] {
      assert (es + [e])[1..] == [];
      var w2 := Step(w1, e).value;
      assert Run(w2, []) == Ok(w2) && Disciplined(p, w2, []);
    } else {
      assert (es + [e])[1..] == es[1..] + [e];
      DoesOneMore(p, Step(w, es[0]).value, es[1..], w1, e);
    }
  }

  // One continuation per transfer.

  function Queued(s: Slot): nat {
    if s.queue != [] && s.queue[0].Some? then 1 else 0
  }

  function Unpolled(w: World, x: nat): set<nat> {
    set r | r in w.held && w.held[r].fstat.New? && w.held[r].xfer == x
  }

  /** Queued requests, requests handed out and not polled, and the request in flight. */
  function Continuations(w: World, i: nat, x: nat): nat
    requires WellShaped(w) && i < STATES_MAX
  {
    Queued(w.core.slots[i]) + |Unpolled(w, x)| + (if InFlightOf(w, x) then 1 else 0)
  }

  lemma UnpolledAtMostOne(w: World, x: nat)
    requires HeldUnique(w.held)
    ensures |Unpolled(w, x)| <= 1
  {
    var u := Unpolled(w, x);
    if u != {} {
      var r :| r in u;
      assert u == {r};
    }
  }

  lemma OneContinuation(p: Parser, w: World, i: nat)
    requires Inv(p, w) && i < STATES_MAX && w.core.slots[i].Busy()
    ensures w.gen[i].Some? && Continuations(w, i, w.gen[i].value) <= 1
  {
    hide LogOk, CString, NextOf, SlotsInv, XfersInv, HeldInv, FlightInv, BusyCount, HeldUnique;
    SlotFacts(p, w, i);
    OwnerLives(p, w, i);
    var x := w.gen[i].value;
    XferFacts(p, w, x);
    UnpolledAtMostOne(w, x);
    if Unpolled(w, x) != {} {
      var r :| r in Unpolled(w, x);
      HeldFacts(p, w, r);
    }
  }

  /** So a response finds its slot's queue empty: neither the empty-queue assertion nor the
      full-queue panic of the stream can fire. */
  lemma AnswerFindsRoom(p: Parser, w: World)
    requires Inv(p, w) && w.inflight.Some?
    ensures w.core.slots[w.held[w.inflight.value].req.idx].queue == []
  {
    hide LogOk, CString, NextOf, SlotsInv, XfersInv, HeldInv, BusyCount, HeldUnique;
    var h := w.held[w.inflight.value];
    HeldFacts(p, w, w.inflight.value);
    SlotFacts(p, w, h.req.idx);
    XferFacts(p, w, h.xfer);
  }

  // Attribution.

  /** The global index names the slot of the request in flight, so its response changes that
      slot and that transfer and no other. */
  lemma ResponseStaysHome(p: Parser, w: World, resp: Response, hdr: seq<byte>)
    requires Inv(p, w) && Allowed(p, w, Respond(resp, hdr))
    ensures StepRespond(w, resp, hdr).Ok?
    ensures var w' := StepRespond(w, resp, hdr).value;
            var h := w.held[w.inflight.value];
            && w.core.last == Some(h.req.idx) && w.gen[h.req.idx] == Some(h.xfer)
            && (forall j :: 0 <= j < STATES_MAX && j != h.req.idx ==> w'.core.slots[j] == w.core.slots[j])
            && (forall y :: 0 <= y < |w.xfers| && y != h.xfer ==> w'.xfers[y] == w.xfers[y])
            && w'.xfers[h.xfer].log.resps == w.xfers[h.xfer].log.resps + [resp]
            && w'.held.Keys == w.held.Keys
            && (forall r :: r in w.held && r != w.inflight.value ==> w'.held[r] == w.held[r])
  {
    hide SlotOk, XferOk, DueOk, SlotsInv, XfersInv, HeldInv, BusyCount, HeldUnique, OnBlock, BufferAfter, MemoOf, CString;
    var h := w.held[w.inflight.value];
    RespondKeeps(p, w, resp, hdr);
    HeldFacts(p, w, w.inflight.value);
    XferFacts(p, w, h.xfer);
  }

  // Slot accounting.

  lemma {:induction false} BusyBounds(slots: seq<Slot>)
    ensures BusyCount(slots) <= |slots|
    ensures BusyCount(slots) == |slots| <==> forall i :: 0 <= i < |slots| ==> slots[i].Busy()
  {
    if slots == [] {
    } else {
      BusyBounds(slots[1..]);
      if BusyCount(slots) == |slots| {
        forall i | 0 <= i < |slots| ensures slots[i].Busy() {
          assert i > 0 ==> slots[1..][i - 1].Busy();
        }
      }
    }
  }

  /** NEW is refused exactly when four more transfers were opened than finished. Otherwise it
      takes the lowest free slot, whose rows are all zero and whose header length is 0. */
  lemma NewTakesLowestFree(p: Parser, w: World, addr: seq<byte>, uri: seq<byte>)
    requires Inv(p, w) && Allowed(p, w, NewTransfer(addr, uri))
    ensures StepNew(w, addr, uri).Ok?
    ensures var w' := StepNew(w, addr, uri).value;
            && (w'.out == NoSlot <==> w.news == w.completes + w.closes + 4)
            && (w'.out == NoSlot ==> w' == w.(out := NoSlot))
            && (w'.out != NoSlot ==>
                  && w'.out == Opening(|w.xfers|)
                  && var i := w'.xfers[|w.xfers|].idx;
                  && !w.core.slots[i].Busy() && (forall j :: 0 <= j < i ==> w.core.slots[j].Busy())
                  && RowsZero(w'.core.slots[i]) && w'.core.slots[i].hdrLen == Some(0)
                  && w'.core.slots[i].queue == [Some(Req(i, addr, uri, None))])
  {
    hide DueOk, XferOk, SlotsInv, XfersInv, HeldInv, FlightInv, BusyCount, HeldUnique, CString;
    BusyBounds(w.core.slots);
    var f := FirstFree(w.core.slots, 0);
    if f.Some? {
      SlotFacts(p, w, f.value);
    }
  }

  // After a transfer is over.

  /** A finished stream that nobody took over yields its end once, then stays pending. */
  lemma EndsExactlyOnce(p: Parser, w: World, x: nat)
    requires Inv(p, w) && Allowed(p, w, PollStream(x)) && !w.xfers[x].phase.Live?
    ensures StepPollStream(w, x).Ok?
    ensures var w' := StepPollStream(w, x).value;
            if w.xfers[x].nones == 0 then w'.out == End && w'.xfers[x].nones == 1
            else w.xfers[x].nones == 1 && w' == w.(out := Pending)
  {
    hide DueOk, XferOk, SlotsInv, XfersInv, HeldInv, FlightInv, BusyCount, HeldUnique, CString;
    SlotFacts(p, w, w.xfers[x].idx);
  }

  /** A request left over from a finished transfer resolves to an error at once, sends nothing
      and touches no slot. */
  lemma LeftoverRequestFails(p: Parser, w: World, rid: nat, first: seq<byte>, delivered: bool)
    requires Inv(p, w) && Allowed(p, w, PollReq(rid, first, delivered))
    requires w.held[rid].fstat.New? && !w.xfers[w.held[rid].xfer].phase.Live?
    ensures StepPollReq(w, rid, first, delivered).Ok?
    ensures var w' := StepPollReq(w, rid, first, delivered).value;
            w'.out == Ready(Err) && w'.core.slots == w.core.slots && w'.xfers == w.xfers && w'.inflight == w.inflight
  {
    hide DueOk, XferOk, SlotsInv, XfersInv, HeldInv, FlightInv, BusyCount, HeldUnique, CString, Update;
    SlotFacts(p, w, w.held[rid].req.idx);
  }

  /** What polling a request tells the program: pending at first, an error if the transfer is over,
      and later the result it was resolved with, once. */
  lemma PollTells(p: Parser, w: World, rid: nat, first: seq<byte>, delivered: bool)
    requires Inv(p, w) && Allowed(p, w, PollReq(rid, first, delivered))
    ensures StepPollReq(w, rid, first, delivered).Ok?
    ensures var w', h := StepPollReq(w, rid, first, delivered).value, w.held[rid];
            if h.fstat.New? && w.xfers[h.xfer].phase.Live? then
              w'.out == Pending && rid in w'.held && (delivered <==> w'.inflight == Some(rid))
            else if h.fstat.New? then w'.out == Ready(Err) && rid !in w'.held
            else h.fstat.Resolved? && h.fstat.value.Some? && w'.out == Ready(h.fstat.value.value) && rid !in w'.held
  {
    hide DueOk, XferOk, SlotsInv, XfersInv, HeldInv, FlightInv, BusyCount, HeldUnique, CString, Update, WireBytes;
    PollReqKeeps(p, w, rid, first, delivered);
    SlotFacts(p, w, w.held[rid].req.idx);
  }

  /** Whatever the program does next, a finished transfer sends nothing and hears nothing. */
  lemma StepLeavesFinished(p: Parser, w: World, e: Event, x: nat)
    requires Inv(p, w) && Allowed(p, w, e) && x < |w.xfers| && !w.xfers[x].phase.Live?
    ensures Step(w, e).Ok? && x < |Step(w, e).value.xfers|
    ensures Step(w, e).value.xfers[x].log == w.xfers[x].log && Step(w, e).value.xfers[x].phase == w.xfers[x].phase
  {
    hide DueOk, XferOk, SlotsInv, XfersInv, HeldInv, BusyCount, HeldUnique, CString, Update, OnResponse, WireBytes, LogOk;
    StepKeeps(p, w, e);
    if e.PollReq? && w.held[e.rid].fstat.New? && w.core.slots[w.held[e.rid].req.idx].Busy() {
      OwnerLives(p, w, w.held[e.rid].req.idx);
    }
  }

  lemma {:induction false} FinishedStaysSilent(p: Parser, w: World, es: seq<Event>, x: nat)
    requires Inv(p, w) && Disciplined(p, w, es) && x < |w.xfers| && !w.xfers[x].phase.Live?
    ensures Run(w, es).Ok? && x < |Run(w, es).value.xfers|
    ensures Run(w, es).value.xfers[x].log == w.xfers[x].log && Run(w, es).value.xfers[x].phase == w.xfers[x].phase
    decreases |es|
  {
    hide Inv, Step, Allowed;
    if es == [] {
    } else {
      InvShaped(p, w);
      StepKeeps(p, w, es[0]);
      StepLeavesFinished(p, w, es[0], x);
      FinishedStaysSilent(p, Step(w, es[0]).value, es[1..], x);
    }
  }

  // The discipline is needed.

  /** close panics on a transfer that is over, and only then. */
  lemma ClosePanicsExactlyWhenOver(p: Parser, w: World, x: nat)
    requires Inv(p, w) && x < |w.xfers| && w.gen[w.xfers[x].idx] == Some(x)
    ensures StepClose(w, x).Panic? <==> !w.xfers[x].phase.Live?
  {
    hide DueOk, XferOk, SlotsInv, XfersInv, HeldInv, FlightInv, BusyCount, HeldUnique, CString;
    SlotFacts(p, w, w.xfers[x].idx);
  }

  /** Closing a transfer under its request in flight makes every Block2 answer panic. */
  lemma CloseInFlightPanicsLater(p: Parser, w: World, resp: Response, hdr: seq<byte>)
    requires Inv(p, w) && w.inflight.Some? && resp.block.Some?
    ensures var x := w.held[w.inflight.value].xfer;
            StepClose(w, x).Ok? && StepRespond(StepClose(w, x).value, resp, hdr).Panic?
  {
    hide DueOk, XferOk, SlotsInv, XfersInv, HeldInv, BusyCount, HeldUnique, CString, BufferAfter, MemoOf;
    var h := w.held[w.inflight.value];
    HeldFacts(p, w, w.inflight.value);
    XferFacts(p, w, h.xfer);
    SlotFacts(p, w, h.req.idx);
  }

  /** Polling a second blockwise request steals the first one's response: whatever arrives,
      the slot that is waiting for it stays as it is, and so its transfer stalls. */
  lemma SecondPollStealsResponse(p: Parser, w: World, rid: nat, first: seq<byte>, resp: Response, hdr: seq<byte>)
    requires Inv(p, w) && w.inflight.Some? && rid in w.held && w.held[rid].fstat.New?
    requires w.held[rid].req.idx != w.held[w.inflight.value].req.idx
    requires StepFirstPoll(w, rid, first, true).Ok?
    ensures var w1 := StepFirstPoll(w, rid, first, true).value;
            var i := w.held[w.inflight.value].req.idx;
            && (OnResponse(w1.core, resp, hdr).Ok? ==> OnResponse(w1.core, resp, hdr).value.0.slots[i] == w.core.slots[i])
            && (!w.core.slots[w.held[rid].req.idx].Busy() && resp.block.Some? ==> OnResponse(w1.core, resp, hdr).Panic?)
  {
    hide DueOk, XferOk, SlotsInv, XfersInv, HeldInv, FlightInv, BusyCount, HeldUnique, CString, BufferAfter, MemoOf, OnBlock, Update;
  }

  /** The off-by-one between the two limits: a string of exactly 64 bytes opens a transfer
      whose first poll panics. Longer strings panic at once, shorter ones never do. */
  lemma SixtyFourByteStrings(p: Parser, w: World, addr: seq<byte>, uri: seq<byte>, first: seq<byte>, delivered: bool)
    requires Inv(p, w) && FirstFree(w.core.slots, 0).Some?
    ensures StepNew(w, addr, uri).Panic? <==> |addr| > 64 || |uri| > 64
    ensures StepNew(w, addr, uri).Ok? && (|addr| == 64 || |uri| == 64) ==>
              var w1 := StepNew(w, addr, uri).value;
              var w2 := StepPollStream(w1, |w.xfers|);
              w2.Ok? && w2.value.out.Item? && StepPollReq(w2.value, w2.value.out.rid, first, delivered).Panic?
  {
    hide DueOk, XferOk, SlotsInv, XfersInv, HeldInv, FlightInv, BusyCount, HeldUnique, CString, SlotOk;
  }

  /** A handle used after its slot has a new owner takes the new owner's request. */
  lemma StaleHandleSteals(p: Parser, w: World, x: nat)
    requires Inv(p, w) && x < |w.xfers| && w.gen[w.xfers[x].idx].Some?
    requires var i := w.xfers[x].idx; w.gen[i].value != x && w.core.slots[i].queue != [] && w.core.slots[i].queue[0].Some?
    ensures StepPollStream(w, x).Ok?
    ensures var w' := StepPollStream(w, x).value;
            var owner := w.xfers[w.gen[w.xfers[x].idx].value];
            && w'.out == Item(w.nextId) && w'.held[w.nextId].xfer == x
            && CString(w'.held[w.nextId].req.uri) == CString(owner.uri)
            && owner.phase.Live? && w'.core.slots[w.xfers[x].idx].queue == []
  {
    hide XferOk, SlotsInv, XfersInv, HeldInv, FlightInv, BusyCount, HeldUnique, CString;
    SlotFacts(p, w, w.xfers[x].idx);
  }
}
