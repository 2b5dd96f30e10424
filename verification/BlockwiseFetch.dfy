/** The program's own loop: take requests from the stream and await each until the stream
    ends. Against a conforming server it stops and yields the body. */
module BlockwiseFetch {
  import opened Wrappers
  import opened CBytes
  import opened BlockwiseCore
  import opened Futures
  import opened BlockwiseRuns
  import opened BlockwiseServer
  import opened BlockwiseTheorems
  import opened BlockwiseStalls

  /** The CoAP library that builds requests, and the server that answers them. */
  datatype Peer = Peer(build: ReqMsg -> seq<byte>, reply: ReqMsg -> Response)

  /** The requests a transfer may need. */
  predicate Wanted(uri: seq<byte>, n: nat, m: ReqMsg) {
    m.uri == uri && m.num <= n && m.szx < SZX_LIMIT
  }

  ghost predicate ServesWell(p: Parser, peer: Peer, m: ReqMsg, body: seq<byte>, sz: nat) {
    && p(peer.build(m)) == m
    && 0 < |peer.build(m)| < ROW_MAX
    && Answers(m, peer.reply(m), body, sz)
    && peer.reply(m).len <= PAYLOAD_OUT_MAX
    && var b := peer.reply(m).block.value;
    (b.more ==> |peer.build(ReqMsg(m.uri, b.num + 1, b.szx))| <= |peer.reply(m).buf|)
  }

  ghost predicate Conforming(p: Parser, peer: Peer, uri: seq<byte>, body: seq<byte>, sz: nat) {
    && 0 < sz <= PAYLOAD_OUT_MAX
    && forall m :: Wanted(uri, NumBlocks(|body|, sz), m) ==> ServesWell(p, peer, m, body, sz)
  }

  /** The program is about to poll the stream of transfer x: the next request, or the end, is
      queued, and nothing is in flight. */
  ghost predicate AtPoll(p: Parser, w: World, x: nat) {
    && Inv(p, w)
    && x < |w.xfers|
    && w.gen[w.xfers[x].idx] == Some(x)
    && w.inflight.None?
    && var q := w.core.slots[w.xfers[x].idx].queue;
    && |q| == 1
    && (q[0].Some? <==> w.xfers[x].phase.Live?)
  }

  /** Everything outside transfer x and its slot. */
  ghost predicate OthersSame(w: World, w': World, i: nat, x: nat) {
    && |w.core.slots| == |w'.core.slots| && |w.xfers| <= |w'.xfers|
    && (forall j :: 0 <= j < |w.core.slots| && j != i ==> w'.core.slots[j] == w.core.slots[j])
    && (forall y :: 0 <= y < |w.xfers| && y != x ==> w'.xfers[y] == w.xfers[y])
  }

  /** The program polled the stream of x and got the request rid. */
  ghost predicate HasItem(p: Parser, w: World, x: nat, rid: nat) {
    && Inv(p, w)
    && x < |w.xfers| && w.xfers[x].phase.Live?
    && w.inflight.None?
    && rid in w.held && w.held[rid].xfer == x && w.held[rid].fstat.New?
  }

  /** Polling the stream yields the due request while the transfer lives, and then its end. */
  lemma PollYields(p: Parser, w: World, x: nat)
    requires AtPoll(p, w, x)
    ensures Allowed(p, w, PollStream(x)) && StepPollStream(w, x).Ok?
    ensures var w' := StepPollStream(w, x).value;
            && Inv(p, w') && w'.inflight.None? && |w'.xfers| == |w.xfers| && w'.gen == w.gen
            && w'.xfers[x].(nones := 0) == w.xfers[x].(nones := 0)
            && OthersSame(w, w', w.xfers[x].idx, x)
            && (w.xfers[x].phase.Live? ==> w'.out.Item? && HasItem(p, w', x, w'.out.rid))
            && (!w.xfers[x].phase.Live? ==> w'.out == End && !w'.core.slots[w.xfers[x].idx].Busy())
  {
    hide SlotsInv, XfersInv, HeldInv, FlightInv, BusyCount, HeldUnique, CString;
    PollStreamKeeps(p, w, x);
    SlotFacts(p, w, w.xfers[x].idx);
  }

  lemma SendItem(p: Parser, w: World, x: nat, rid: nat, first: seq<byte>)
    requires HasItem(p, w, x, rid)
    requires p(first) == ReqMsg(CString(w.held[rid].req.uri), 0, FIRST_SZX)
    ensures Allowed(p, w, PollReq(rid, first, true)) && StepPollReq(w, rid, first, true).Ok?
    ensures var w' := StepPollReq(w, rid, first, true).value;
            && Inv(p, w') && w'.inflight == Some(rid)
            && rid in w'.held && w'.held[rid] == w.held[rid].(fstat := Registered)
            && |w'.xfers| == |w.xfers| && w'.gen == w.gen && w'.nextId == w.nextId
            && w.xfers[x].idx == w.held[rid].req.idx
            && |w.xfers[x].log.sent| == |w.xfers[x].log.resps| && |w'.xfers[x].log.sent| > 0
            && var t, wire := w.xfers[x], w'.xfers[x].log.sent[|w'.xfers[x].log.sent| - 1];
            && w'.xfers[x] == t.(log := t.log.(sent := t.log.sent + [wire]))
            && OthersSame(w, w', w.xfers[x].idx, x)
            && CString(w'.core.slots[w.xfers[x].idx].uri) == CString(w.xfers[x].uri)
  {
    hide SlotsInv, XfersInv, HeldInv, BusyCount, HeldUnique, CString, Update, WireBytes, XferOk;
    HeldFacts(p, w, rid);
    XferFacts(p, w, x);
    SlotFacts(p, w, w.xfers[x].idx);
    PollReqKeeps(p, w, rid, first, true);
  }

  lemma HearAnswer(p: Parser, w: World, x: nat, rid: nat, resp: Response, hdr: seq<byte>)
    requires Inv(p, w) && Allowed(p, w, Respond(resp, hdr))
    requires w.inflight == Some(rid) && w.held[rid].xfer == x && resp.block.Some?
    requires CString(w.core.slots[w.held[rid].req.idx].uri) == CString(w.xfers[x].uri)
    ensures StepRespond(w, resp, hdr).Ok?
    ensures var w' := StepRespond(w, resp, hdr).value;
            && Inv(p, w') && w'.inflight.None? && |w'.xfers| == |w.xfers|
            && (if AsksNext(CString(w.xfers[x].uri), resp.block.value) || Ends(resp) then AtPoll(p, w', x) else Stalled(p, w', x))
            && |w'.xfers[x].log.got| == |w.xfers[x].log.got| + 1
            && w'.xfers[x] == Answered(w.xfers[x], resp, w'.xfers[x].log.got[|w.xfers[x].log.got|], hdr)
            && rid in w'.held
            && w'.held[rid].fstat == Resolved(Some(w'.xfers[x].log.got[|w.xfers[x].log.got|]))
            && w'.nextId == w.nextId
            && OthersSame(w, w', w.xfers[x].idx, x)
  {
    hide SlotsInv, XfersInv, HeldInv, BusyCount, HeldUnique, DueOk, CString, BufferAfter, MemoOf, XferOk, Released, SlotOk, GoodResponse;
    HeldFacts(p, w, rid);
    XferFacts(p, w, x);
    RespondKeeps(p, w, resp, hdr);
    ResponseStaysHome(p, w, resp, hdr);
    AnswerStallsExactly(p, w, resp, hdr);
  }

  /** Collecting a result changes nothing else. */
  lemma Collect(p: Parser, w: World, x: nat, rid: nat)
    requires Inv(p, w) && x < |w.xfers| && rid in w.held && w.held[rid].fstat.Resolved? && w.held[rid].fstat.value.Some?
    ensures Allowed(p, w, PollReq(rid, [], true)) && StepPollReq(w, rid, [], true).Ok?
    ensures var w' := StepPollReq(w, rid, [], true).value;
            && Inv(p, w') && w'.inflight == w.inflight && w'.xfers == w.xfers && w'.core == w.core && w'.gen == w.gen
            && (Stalled(p, w', x) <==> Stalled(p, w, x))
            && w'.out == Ready(w.held[rid].fstat.value.value)
  {
    hide SlotsInv, XfersInv, HeldInv, FlightInv, BusyCount, HeldUnique;
    PollReqKeeps(p, w, rid, [], true);
    SameStall(p, w, StepPollReq(w, rid, [], true).value, x);
  }

  lemma GoesOn(p: Parser, t: Transfer, wire: Wire, resp: Response, memo: Memo, hdr: seq<byte>, body: seq<byte>, sz: nat)
    requires Follows(p, t.log, body, sz) && |t.log.sent| == |t.log.resps|
    requires Answers(p(wire.pdu), resp, body, sz)
    ensures var t1 := t.(log := t.log.(sent := t.log.sent + [wire]));
            Follows(p, Answered(t1, resp, memo, hdr).log, body, sz)
  {
    hide CString, NextOf, Answers;
  }

  lemma GoodReply(p: Parser, peer: Peer, uri: seq<byte>, m: ReqMsg, body: seq<byte>, sz: nat)
    requires Conforming(p, peer, uri, body, sz)
    requires Wanted(uri, NumBlocks(|body|, sz), m) && m.num < NumBlocks(|body|, sz)
    ensures var resp := peer.reply(m);
            && Answers(m, resp, body, sz) && resp.block.Some?
            && ((AsksNext(uri, resp.block.value) || Ends(resp)) <==> !(uri == [] && m.num == 0 && |body| > sz))
            && var hdr := peer.build(ReqMsg(uri, resp.block.value.num + 1, resp.block.value.szx));
            GoodResponse(p, uri, resp, hdr)
  {
    hide BlockOf;
    assert ServesWell(p, peer, m, body, sz);
    var b := peer.reply(m).block.value;
    assert Wanted(uri, NumBlocks(|body|, sz), ReqMsg(uri, b.num + 1, b.szx));
    assert ServesWell(p, peer, ReqMsg(uri, b.num + 1, b.szx), body, sz);
  }

  lemma ItemUri(p: Parser, w: World, x: nat, rid: nat)
    requires HasItem(p, w, x, rid)
    ensures CString(w.held[rid].req.uri) == CString(w.xfers[x].uri)
  {
    hide SlotsInv, XfersInv, HeldInv, FlightInv, BusyCount, HeldUnique, CString;
    HeldFacts(p, w, rid);
  }

  /** What goes on the wire is the block after those already heard. */
  lemma SentIsWanted(p: Parser, w1: World, w2: World, x: nat, rid: nat, wire: Wire, body: seq<byte>, sz: nat)
    requires HasItem(p, w1, x, rid) && Follows(p, w1.xfers[x].log, body, sz) && sz > 0
    requires Inv(p, w2) && x < |w2.xfers| && w2.inflight == Some(rid) && w2.held[rid].xfer == x
    requires var t := w1.xfers[x]; w2.xfers[x] == t.(log := t.log.(sent := t.log.sent + [wire]))
    ensures Wanted(CString(w1.xfers[x].uri), NumBlocks(|body|, sz), p(wire.pdu))
    ensures p(wire.pdu).num == |w1.xfers[x].log.sent| < NumBlocks(|body|, sz)
  {
    hide SlotsInv, XfersInv, HeldInv, FlightInv, BusyCount, HeldUnique, CString, XferOk, Answers;
    BlocksLeft(p, w1, x, rid, body, sz);
    XferFacts(p, w2, x);
    assert Follows(p, w2.xfers[x].log, body, sz);
    BlocksInOrder(p, w2.xfers[x], true, body, sz, |w1.xfers[x].log.sent|);
  }

  /** The one case that cannot be carried on: an empty path, of which block 0 is not all. */
  predicate Hopeless(uri: seq<byte>, length: nat, sz: nat) {
    uri == [] && length > sz
  }

  /** Await one request: send it, hear the answer, collect it. es are the events so far. */
  method Await(p: Parser, peer: Peer, w1: World, x: nat, rid: nat, ghost body: seq<byte>, ghost sz: nat,
               ghost w0: World, ghost es: seq<Event>)
    returns (w: World, memo: Memo, ghost es': seq<Event>)
    requires HasItem(p, w1, x, rid) && Follows(p, w1.xfers[x].log, body, sz) && Does(p, w0, es, w1)
    requires Conforming(p, peer, CString(w1.xfers[x].uri), body, sz)
    ensures Does(p, w0, es', w)
    ensures Inv(p, w) && w.inflight.None? && |w.xfers| == |w1.xfers| && OthersSame(w1, w, w1.xfers[x].idx, x)
    ensures Follows(p, w.xfers[x].log, body, sz) && !w.xfers[x].phase.Shut?
    ensures w.xfers[x].idx == w1.xfers[x].idx && w.xfers[x].uri == w1.xfers[x].uri
    ensures |w.xfers[x].log.sent| == |w1.xfers[x].log.sent| + 1
    ensures w.xfers[x].log.got == w1.xfers[x].log.got + [memo]
    ensures if |w1.xfers[x].log.sent| == 0 && Hopeless(CString(w1.xfers[x].uri), |body|, sz)
            then Stalled(p, w, x) else AtPoll(p, w, x)
  {
    hide Inv, StepPollReq, StepRespond, CString, DueOk, Follows, Answers, Fitting, Rebuilt, BlockOf;
    hide Does, Allowed, Continuations;
    InvShaped(p, w1);
    ItemUri(p, w1, x, rid);
    assert Wanted(CString(w1.xfers[x].uri), NumBlocks(|body|, sz), ReqMsg(CString(w1.xfers[x].uri), 0, FIRST_SZX));
    var first := peer.build(ReqMsg(CString(w1.held[rid].req.uri), 0, FIRST_SZX));
    SendItem(p, w1, x, rid, first);
    var w2 := StepPollReq(w1, rid, first, true).value;
    InvShaped(p, w2);
    DoesOneMore(p, w0, es, w1, PollReq(rid, first, true));
    var wire := w2.xfers[x].log.sent[|w2.xfers[x].log.sent| - 1];
    var m := p(wire.pdu);
    SentIsWanted(p, w1, w2, x, rid, wire, body, sz);
    GoodReply(p, peer, CString(w1.xfers[x].uri), m, body, sz);
    var resp := peer.reply(m);
    var hdr := peer.build(ReqMsg(CString(w1.xfers[x].uri), resp.block.value.num + 1, resp.block.value.szx));
    MayAnswer(p, w2, resp, hdr);
    HearAnswer(p, w2, x, rid, resp, hdr);
    var w3 := StepRespond(w2, resp, hdr).value;
    InvShaped(p, w3);
    DoesOneMore(p, w0, es + [PollReq(rid, first, true)], w2, Respond(resp, hdr));
    memo := w3.held[rid].fstat.value.value;
    GoesOn(p, w1.xfers[x], wire, resp, memo, hdr, body, sz);
    Collect(p, w3, x, rid);
    DoesOneMore(p, w0, es + [PollReq(rid, first, true)] + [Respond(resp, hdr)], w3, PollReq(rid, [], true));
    es' := es + [PollReq(rid, first, true)] + [Respond(resp, hdr)] + [PollReq(rid, [], true)];
    w := StepPollReq(w3, rid, [], true).value;
  }

  lemma MayAnswer(p: Parser, w: World, resp: Response, hdr: seq<byte>)
    requires WellShaped(w) && w.inflight.Some? && GoodResponse(p, UriInFlight(w), resp, hdr)
    ensures Allowed(p, w, Respond(resp, hdr))
  {
    hide Fitting, Rebuilt, CString;
  }

  lemma OpenTransfer(p: Parser, w: World, addr: seq<byte>, uri: seq<byte>, body: seq<byte>, sz: nat)
    requires Inv(p, w) && w.inflight.None? && |addr| < ROW_MAX && |uri| < ROW_MAX
    requires w.news < w.completes + w.closes + STATES_MAX
    ensures Allowed(p, w, NewTransfer(addr, uri)) && StepNew(w, addr, uri).Ok?
    ensures var w' := StepNew(w, addr, uri).value;
            var x := |w.xfers|;
            && AtPoll(p, w', x) && |w'.xfers| == x + 1 && w'.xfers[x].phase.Live?
            && w'.xfers[x].uri == uri && w'.xfers[x].log == Log([], [], [], [])
            && Follows(p, w'.xfers[x].log, body, sz)
            && OthersSame(w, w', w'.xfers[x].idx, x)
  {
    hide SlotsInv, XfersInv, HeldInv, FlightInv, BusyCount, HeldUnique, CString;
    NewTakesLowestFree(p, w, addr, uri);
    NewKeeps(p, w, addr, uri);
  }

  lemma MulCancel(a: nat, b: nat, sz: nat)
    requires a * sz < b * sz
    ensures a < b
  {
  }

  /** A transfer that is still alive has not yet heard of the last block. */
  lemma BlocksLeft(p: Parser, w: World, x: nat, rid: nat, body: seq<byte>, sz: nat)
    requires HasItem(p, w, x, rid) && Follows(p, w.xfers[x].log, body, sz) && sz > 0
    ensures |w.xfers[x].log.sent| < NumBlocks(|body|, sz)
  {
    hide SlotsInv, XfersInv, HeldInv, FlightInv, BusyCount, HeldUnique, CString, SentWell, GotWell, BlockOf;
    var t := w.xfers[x];
    XferFacts(p, w, x);
    var n := |t.log.sent|;
    NumBlocksBounds(|body|, sz);
    if n > 0 {
      BlocksInOrder(p, t, false, body, sz, n - 1);
      assert Answers(p(t.log.sent[n - 1].pdu), t.log.resps[n - 1], body, sz);
      MulCancel(n, NumBlocks(|body|, sz), sz);
    }
  }

  lemma Finished(p: Parser, w: World, x: nat, body: seq<byte>, sz: nat)
    requires Inv(p, w) && x < |w.xfers| && w.inflight.None? && w.xfers[x].phase.Complete?
    requires Follows(p, w.xfers[x].log, body, sz) && sz > 0
    ensures Body(w.xfers[x].log.got) == body <==> Spared(w.xfers[x], |w.xfers[x].log.resps|)
    ensures |w.xfers[x].log.sent| == NumBlocks(|body|, sz)
    ensures forall k :: 0 <= k < |w.xfers[x].log.sent| ==> p(w.xfers[x].log.sent[k].pdu).num == k
  {
    hide SlotsInv, XfersInv, HeldInv, FlightInv, BusyCount, HeldUnique, XferOk, CString, Follows;
    XferFacts(p, w, x);
    CompleteAsksEveryBlock(p, w.xfers[x], false, body, sz);
    WholeBody(p, w.xfers[x], body, sz);
  }

  /** Fetch a resource. The loop ends, whatever the address, the URI, the body and the block
      size. Unless the path is empty and one block is not enough, the requests were blocks 0 to
      n-1 in order, the slot is free again, and the program has the body exactly if no follow-up
      request damaged a payload. Otherwise the transfer is stalled after block 0. Every other slot
      and transfer is as before, and all of it is a run that follows the discipline. */
  method FetchAll(p: Parser, peer: Peer, w0: World, addr: seq<byte>, uri: seq<byte>, ghost body: seq<byte>, ghost sz: nat)
    returns (w: World, x: nat, out: seq<byte>, ghost es: seq<Event>)
    requires Inv(p, w0) && w0.inflight.None? && |addr| < ROW_MAX && |uri| < ROW_MAX
    requires w0.news < w0.completes + w0.closes + STATES_MAX
    requires Conforming(p, peer, CString(uri), body, sz)
    ensures Does(p, w0, es, w)
    ensures Inv(p, w) && x == |w0.xfers| && |w.xfers| == x + 1 && w.inflight.None?
    ensures out == Body(w.xfers[x].log.got)
    ensures w.out == if Hopeless(CString(uri), |body|, sz) then Pending else End
    ensures w.out == End ==>
              && (out == body <==> Spared(w.xfers[x], |w.xfers[x].log.resps|))
              && |w.xfers[x].log.sent| == NumBlocks(|body|, sz)
              && (forall k :: 0 <= k < |w.xfers[x].log.sent| ==> p(w.xfers[x].log.sent[k].pdu).num == k)
              && w.xfers[x].phase.Complete? && !w.core.slots[w.xfers[x].idx].Busy()
    ensures w.out == Pending ==> Stalled(p, w, x) && |w.xfers[x].log.sent| == 1
    ensures OthersSame(w0, w, w.xfers[x].idx, x)
  {
    hide Inv, StepNew, StepPollStream, CString, SentWell, GotWell, Answers, Follows, Spares, NextOf;
    hide Does, Allowed, Continuations;
    x, out, es := |w0.xfers|, [], [];
    InvShaped(p, w0);
    NothingDone(p, w0);
    OpenTransfer(p, w0, addr, uri, body, sz);
    w := StepNew(w0, addr, uri).value;
    InvShaped(p, w);
    DoesOneMore(p, w0, [], w0, NewTransfer(addr, uri));
    es := es + [NewTransfer(addr, uri)];
    ghost var i := w.xfers[x].idx;
    PollYields(p, w, x);
    DoesOneMore(p, w0, es, w, PollStream(x));
    es := es + [PollStream(x)];
    w := StepPollStream(w, x).value;
    while w.out.Item?
      invariant Inv(p, w) && |w.xfers| == x + 1 && w.xfers[x].idx == i && w.xfers[x].uri == uri && w.inflight.None?
      invariant Follows(p, w.xfers[x].log, body, sz) && OthersSame(w0, w, i, x) && Does(p, w0, es, w)
      invariant out == Body(w.xfers[x].log.got)
      invariant w.out.Item? ==> HasItem(p, w, x, w.out.rid)
      invariant !w.out.Item? && !Hopeless(CString(uri), |body|, sz) ==>
                  w.out == End && w.xfers[x].phase.Complete? && i < |w.core.slots| && !w.core.slots[i].Busy()
      invariant Hopeless(CString(uri), |body|, sz) ==>
                  if w.out.Item? then |w.xfers[x].log.sent| == 0
                  else w.out == Pending && Stalled(p, w, x) && |w.xfers[x].log.sent| == 1
      invariant |w.xfers[x].log.sent| <= NumBlocks(|body|, sz)
      decreases NumBlocks(|body|, sz) - |w.xfers[x].log.sent|
    {
      BlocksLeft(p, w, x, w.out.rid, body, sz);
      ghost var got := w.xfers[x].log.got;
      var w1, memo;
      w1, memo, es := Await(p, peer, w, x, w.out.rid, body, sz, w0, es);
      assert w1.xfers[x].log.got[..|got|] == got;
      out := out + PayloadOf(memo);
      InvShaped(p, w1);
      if Hopeless(CString(uri), |body|, sz) {
        StalledPoll(p, w1, x);
      } else {
        PollYields(p, w1, x);
      }
      DoesOneMore(p, w0, es, w1, PollStream(x));
      es := es + [PollStream(x)];
      w := StepPollStream(w1, x).value;
    }
    if w.out == End {
      Finished(p, w, x, body, sz);
    }
  }

  lemma NothingDone(p: Parser, w: World)
    requires WellShaped(w)
    ensures Does(p, w, [], w)
  {
  }

  lemma StalledPoll(p: Parser, w: World, x: nat)
    requires Stalled(p, w, x)
    ensures Allowed(p, w, PollStream(x))
    ensures StepPollStream(w, x) == Ok(w.(out := Pending)) && Stalled(p, w.(out := Pending), x)
  {
    hide Inv;
    InvShaped(p, w);
    LiveIsBusy(p, w, x);
    StillStalled(p, w, x);
  }

  // Transfers in arbitrary runs, interleaved with any others.

  /** In every disciplined run, every transfer keeps the address and the URI it was opened
      with, up to a NUL in them, and what it sends next is byte for byte what the handler
      built. */
  lemma FollowUpsKeepStrings(p: Parser, es: seq<Event>, x: nat, k: nat)
    requires Disciplined(p, START, es)
    requires Run(START, es).Ok? ==> x < |Run(START, es).value.xfers| && k < |Run(START, es).value.xfers[x].log.sent|
    ensures Run(START, es).Ok?
    ensures var t := Run(START, es).value.xfers[x];
            && t.log.sent[k].addr == CString(t.addr)
            && p(t.log.sent[k].pdu).uri == CString(t.uri)
            && (0 !in t.addr <==> t.log.sent[k].addr == t.addr)
            && (0 !in t.uri <==> p(t.log.sent[k].pdu).uri == t.uri)
            && (k > 0 ==> k <= |t.log.hdrs| && t.log.sent[k].pdu == t.log.hdrs[k - 1])
  {
    hide SlotsInv, XfersInv, HeldInv, FlightInv, BusyCount, HeldUnique, Step, Disciplined, Run, Allowed, GotWell;
    DisciplinedRunsAreSafe(p, es);
    var w := Run(START, es).value;
    var t := w.xfers[x];
    XferFacts(p, w, x);
    assert SentWell(p, t.addr, t.uri, t.log, k);
    if 0 !in t.addr { CStringUnique(t.addr, t.addr); }
    if 0 !in t.uri { CStringUnique(t.uri, t.uri); }
  }

  /** In every disciplined run, a transfer whose responses come from a conforming server asks
      for blocks 0, 1, 2, ... and, once complete, has asked for all of them and has the body, exactly if no follow-up
      request damaged a payload. */
  lemma TransfersReassemble(p: Parser, es: seq<Event>, x: nat, body: seq<byte>, sz: nat)
    requires Disciplined(p, START, es) && sz > 0
    requires Run(START, es).Ok? ==>
               x < |Run(START, es).value.xfers| && Follows(p, Run(START, es).value.xfers[x].log, body, sz)
    ensures Run(START, es).Ok?
    ensures var t := Run(START, es).value.xfers[x];
            && (forall k :: 0 <= k < |t.log.sent| ==> p(t.log.sent[k].pdu).num == k)
            && (t.phase.Complete? ==> |t.log.sent| == NumBlocks(|body|, sz))
            && (t.phase.Complete? ==> |Body(t.log.got)| == |body| && (Body(t.log.got) == body <==> Spared(t, |t.log.resps|)))
  {
    hide SlotsInv, XfersInv, HeldInv, BusyCount, HeldUnique, Step, Disciplined, Run, Allowed, XferOk, Follows, CString, FlightInv;
    DisciplinedRunsAreSafe(p, es);
    var w := Run(START, es).value;
    var t := w.xfers[x];
    XferFacts(p, w, x);
    forall k | 0 <= k < |t.log.sent| ensures p(t.log.sent[k].pdu).num == k {
      BlocksInOrder(p, t, InFlightOf(w, x), body, sz, k);
    }
    if t.phase.Complete? {
      NotFlying(w, x);
      CompleteAsksEveryBlock(p, t, false, body, sz);
      WholeBody(p, t, body, sz);
    }
  }

  /** In every disciplined run, the k-th result of every transfer is what its k-th response says, by
      the library's state numbers: a response or a truncated one with the bytes found in the
      receive buffer after the follow-up request was built there, a timeout, or an error. */
  lemma ResultsAreReported(p: Parser, es: seq<Event>, x: nat, k: nat)
    requires Disciplined(p, START, es)
    requires Run(START, es).Ok? ==> x < |Run(START, es).value.xfers| && k < |Run(START, es).value.xfers[x].log.got|
    ensures Run(START, es).Ok?
    ensures var log, uri := Run(START, es).value.xfers[x].log, CString(Run(START, es).value.xfers[x].uri);
            && k < |log.resps| == |log.hdrs|
            && var r, hdr := log.resps[k], log.hdrs[k];
            && r.off + r.len <= |r.buf| && (NextOf(uri, r).Some? ==> |hdr| <= |r.buf|)
            && var buf := if NextOf(uri, r).Some? then hdr + r.buf[|hdr|..] else r.buf;
            Says(log.got[k], r.memo, buf[r.off..r.off + r.len])
  {
    hide SlotsInv, XfersInv, HeldInv, FlightInv, BusyCount, HeldUnique, Step, Disciplined, Run, Allowed, SentWell, CString;
    DisciplinedRunsAreSafe(p, es);
    var w := Run(START, es).value;
    XferFacts(p, w, x);
    assert GotWell(w.xfers[x].uri, w.xfers[x].log, k);
  }
}
