/** Exactly when the blockwise client panics, event by event and over whole runs. */
module BlockwisePanics {
  import opened Wrappers
  import opened CBytes
  import opened BlockwiseCore
  import opened Futures
  import opened BlockwiseRuns
  import opened BlockwiseTheorems

  /** What the handler does with the buffer and the payload fails exactly outside Fitting. */
  lemma BufferPanicsExactly(s: Slot, r: Response, hdr: seq<byte>)
    ensures (&& r.InBounds()
             && BufferAfter(s, r, hdr).Ok?
             && MemoOf(r.memo, r.(buf := BufferAfter(s, r, hdr).value).Payload()).Ok?)
            <==> Fitting(CString(s.uri), r, hdr)
  {
  }

  /** A slot handles a Block2 option unless it was released, its queue is not empty, or the
      follow-up request is longer than a row. */
  lemma BlockPanicsExactly(s: Slot, idx: nat, b: Block, hdr: seq<byte>)
    requires RowsOk(s)
    ensures OnBlock(s, idx, b, hdr).Panic? <==>
              || !s.Busy()
              || (!b.more && s.queue != [])
              || (AsksNext(CString(s.uri), b) && (s.queue != [] || |hdr| > ROW_MAX))
  {
    hide CString;
    assert s.addr[ROW_MAX - 1] in s.addr && s.uri[ROW_MAX - 1] in s.uri;
    CStringShort(s.addr);
    CStringShort(s.uri);
  }

  lemma CStringShort(row: seq<byte>)
    ensures |CString(row)| <= |row|
  {
  }

  /** The answer to the request in flight panics exactly when it does not fit, or its follow-up
      request is longer than a row. */
  lemma RespondPanicsExactly(p: Parser, w: World, resp: Response, hdr: seq<byte>)
    requires Inv(p, w) && w.inflight.Some?
    ensures StepRespond(w, resp, hdr).Panic? <==>
              || !Fitting(UriInFlight(w), resp, hdr)
              || (resp.block.Some? && AsksNext(UriInFlight(w), resp.block.value) && |hdr| > ROW_MAX)
  {
    hide SlotsInv, XfersInv, HeldInv, BusyCount, HeldUnique, XferOk, DueOk, CString, OnBlock, BufferAfter, MemoOf, Fitting;
    var h := w.held[w.inflight.value];
    var s := w.core.slots[h.req.idx];
    HeldFacts(p, w, w.inflight.value);
    SlotFacts(p, w, h.req.idx);
    XferFacts(p, w, h.xfer);
    AnswerFindsRoom(p, w);
    BufferPanicsExactly(s, resp, hdr);
    if resp.block.Some? {
      BlockPanicsExactly(s, h.req.idx, resp.block.value, hdr);
    } else {
      BufferUnchanged(s, resp, hdr);
    }
  }

  lemma BufferUnchanged(s: Slot, r: Response, hdr: seq<byte>)
    requires r.block.None?
    ensures BufferAfter(s, r, hdr) == Ok(r.buf)
    ensures r.(buf := r.buf) == r
  {
  }

  /** The answer to a request that is not blockwise: without Block2 it panics exactly when it
      does not fit; a Block2 option in it is laid at the door of whatever slot the global index
      names, and panics if there is none or that slot is not expecting it. */
  lemma PlainPanicsExactly(p: Parser, w: World, resp: Response, hdr: seq<byte>)
    requires Inv(p, w)
    ensures StepPlain(w, resp, hdr).Panic? <==>
              if resp.block.None? then !Fitting([], resp, hdr)
              else
                || w.core.last.None?
                || var s := w.core.slots[w.core.last.value];
                   var next := AsksNext(CString(s.uri), resp.block.value);
                   || !Fitting(CString(s.uri), resp, hdr)
                   || !s.Busy()
                   || (!resp.block.value.more && s.queue != [])
                   || (next && (s.queue != [] || |hdr| > ROW_MAX))
  {
    hide SlotsInv, XfersInv, HeldInv, FlightInv, BusyCount, HeldUnique, XferOk, DueOk, CString, OnBlock, BufferAfter, MemoOf, Fitting;
    if resp.block.None? {
      assert CString([]) == [] by { CStringUnique([], []); }
      BufferPanicsExactly(FREE_SLOT.(uri := []), resp, hdr);
      BufferUnchanged(FREE_SLOT.(uri := []), resp, hdr);
    } else if w.core.last.Some? {
      var i := w.core.last.value;
      SlotFacts(p, w, i);
      BufferPanicsExactly(w.core.slots[i], resp, hdr);
      BlockPanicsExactly(w.core.slots[i], i, resp.block.value, hdr);
    }
  }

  /** A Block2 option in the answer to a plain request, if it does not panic, is taken for that of
      the slot the global index names: a last block ends that slot's transfer, which got no answer
      and whose record does not say so; a block with more to come queues a request there. */
  lemma PlainBlock2Misdirected(p: Parser, w: World, resp: Response, hdr: seq<byte>)
    requires Inv(p, w) && resp.block.Some? && StepPlain(w, resp, hdr).Ok?
    ensures w.core.last.Some? && w.core.slots[w.core.last.value].Busy()
    ensures var w', i := StepPlain(w, resp, hdr).value, w.core.last.value;
            && w'.xfers == w.xfers && w'.held == w.held && w'.inflight == w.inflight
            && (forall j :: 0 <= j < STATES_MAX && j != i ==> w'.core.slots[j] == w.core.slots[j])
            && (!resp.block.value.more ==> !w'.core.slots[i].Busy() && w'.core.slots[i].queue == [None])
            && (AsksNext(CString(w.core.slots[i].uri), resp.block.value) ==>
                  && w'.core.slots[i].Busy() && |w'.core.slots[i].queue| == 1
                  && w'.core.slots[i].queue[0].Some? && w'.core.slots[i].queue[0].value.hdr == Some(hdr))
  {
    hide SlotsInv, XfersInv, HeldInv, FlightInv, BusyCount, HeldUnique, XferOk, DueOk, CString, BufferAfter, MemoOf, Padded;
    PlainPanicsExactly(p, w, resp, hdr);
  }

  /** Polling a request panics exactly between its first poll and its answer, after its result
      was taken, or when its strings do not fit the rows of an occupied slot. */
  lemma PollPanicsExactly(w: World, rid: nat, first: seq<byte>, delivered: bool)
    requires WellShaped(w) && rid in w.held
    ensures var h := w.held[rid];
            StepPollReq(w, rid, first, delivered).Panic? <==>
              || h.fstat.Registered?
              || h.fstat == Resolved(None)
              || (&& h.fstat.New? && w.core.slots[h.req.idx].Busy()
                  && (|h.req.addr| >= ROW_MAX || |h.req.uri| >= ROW_MAX || (h.req.hdr.Some? && |h.req.hdr.value| >= ROW_MAX)))
  {
    hide CString, WireBytes, RowsShaped;
  }

  /** For a client that keeps the rules of order, the rules of size are exact: an event panics
      if and only if it breaks one. */
  lemma StepPanicsExactly(p: Parser, w: World, e: Event)
    requires Inv(p, w) && Orderly(p, w, e)
    ensures Step(w, e).Panic? <==> !Fits(w, e)
  {
    hide Inv, Fitting, CString, StepNew, StepPollStream, StepPollReq, StepRespond, StepPlain, StepClose;
    InvShaped(p, w);
    if Fits(w, e) {
      StepKeeps(p, w, e);
    } else {
      match e {
        case PollReq(r, first, delivered) => PollPanicsExactly(w, r, first, delivered);
        case Respond(resp, hdr) => RespondPanicsExactly(p, w, resp, hdr);
        case PlainResponse(resp, hdr) => PlainPanicsExactly(p, w, resp, hdr);
      }
    }
  }

  ghost predicate OrderlyRun(p: Parser, w: World, es: seq<Event>)
    requires WellShaped(w)
    decreases |es|
  {
    es != [] ==> Orderly(p, w, es[0]) && (Step(w, es[0]).Ok? ==> OrderlyRun(p, Step(w, es[0]).value, es[1..]))
  }

  /** Every event of the run, up to a panic, keeps the rules of size. */
  predicate FitsRun(w: World, es: seq<Event>)
    requires WellShaped(w)
    decreases |es|
  {
    es != [] ==> Fits(w, es[0]) && (Step(w, es[0]).Ok? ==> FitsRun(Step(w, es[0]).value, es[1..]))
  }

  /** A run in order panics if and only if some response in it does not fit or some request is
      polled out of turn. */
  lemma {:induction false} RunPanicsExactly(p: Parser, w: World, es: seq<Event>)
    requires Inv(p, w) && OrderlyRun(p, w, es)
    ensures Run(w, es).Panic? <==> !FitsRun(w, es)
    decreases |es|
  {
    hide Inv, Step, Orderly, Fits;
    InvShaped(p, w);
    if es == [] {
    } else {
      StepPanicsExactly(p, w, es[0]);
      if Fits(w, es[0]) {
        assert Allowed(p, w, es[0]);
        StepKeeps(p, w, es[0]);
        RunPanicsExactly(p, Step(w, es[0]).value, es[1..]);
      }
    }
  }

  /** The same from boot. */
  lemma OrderlyRunsPanicExactly(p: Parser, es: seq<Event>)
    requires OrderlyRun(p, START, es)
    ensures Run(START, es).Panic? <==> !FitsRun(START, es)
  {
    hide Inv, Step, Orderly, Fits, OrderlyRun, FitsRun, Run;
    StartOk(p);
    RunPanicsExactly(p, START, es);
  }

  /** Every rule of order kept, and yet: an answer with a payload of 129 bytes, to a plain
      request, as the first event after boot. */
  lemma LongAnswerPanics(p: Parser)
    ensures var e := PlainResponse(Response(MEMO_RESP, None, Zeros(129), 0, 129), []);
            OrderlyRun(p, START, [e]) && Run(START, [e]).Panic?
  {
    hide Inv, Fitting, RowsShaped, CString;
    var e := PlainResponse(Response(MEMO_RESP, None, Zeros(129), 0, 129), []);
    StartOk(p);
    PlainPanicsExactly(p, START, e.resp, e.hdr);
    assert !Fitting([], e.resp, e.hdr) by { LongDoesNotFit(e.resp, e.hdr); }
    assert [e][0] == e;
  }

  lemma LongDoesNotFit(r: Response, hdr: seq<byte>)
    requires r.memo == MEMO_RESP && r.len > PAYLOAD_OUT_MAX
    ensures !Fitting([], r, hdr)
  {
  }

  /** Every rule of order kept, and yet: a request whose datagram could not be delivered leaves
      nothing in flight, and to poll it again panics. */
  lemma UndeliveredRepollPanics(p: Parser, w: World, rid: nat, first: seq<byte>)
    requires Inv(p, w) && Allowed(p, w, PollReq(rid, first, false))
    requires w.held[rid].fstat.New? && w.xfers[w.held[rid].xfer].phase.Live?
    ensures StepPollReq(w, rid, first, false).Ok?
    ensures var w' := StepPollReq(w, rid, first, false).value;
            && Inv(p, w') && w'.inflight.None?
            && Orderly(p, w', PollReq(rid, first, false)) && StepPollReq(w', rid, first, false).Panic?
  {
    hide SlotsInv, XfersInv, HeldInv, FlightInv, BusyCount, HeldUnique, XferOk, DueOk, CString, Update, WireBytes;
    PollReqKeeps(p, w, rid, first, false);
    SlotFacts(p, w, w.held[rid].req.idx);
  }
}
