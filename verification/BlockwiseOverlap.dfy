/** A body that does not survive: against a conforming server, a follow-up request that runs into
    the payload before it is copied out. */
module BlockwiseOverlap {
  import opened Wrappers
  import opened CBytes
  import opened BlockwiseCore
  import opened Futures
  import opened BlockwiseRuns
  import opened BlockwiseTheorems
  import opened BlockwiseStalls
  import opened BlockwiseServer
  import opened BlockwiseFetch

  const PATH: seq<byte> := [47]
  const BLOCK: nat := 16
  const BODY: seq<byte> := seq(17, _ => 97)

  /** Block 0 behind four bytes of header, and block 1. */
  const ANSWER0 := Response(MEMO_RESP, Some(Block(0, true, 0)), seq(20, _ => 97), 4, 16)
  const ANSWER1 := Response(MEMO_RESP, Some(Block(1, false, 0)), seq(5, _ => 97), 4, 1)

  /** A follow-up request of six bytes, two more than precede the payload. */
  const FOLLOW_UP: seq<byte> := [64, 1, 0, 1, 177, 47]

  function Meaning(pdu: seq<byte>): ReqMsg {
    ReqMsg(PATH, if pdu == FOLLOW_UP then 1 else 0, 0)
  }

  lemma PathIsWhole()
    ensures CString(PATH) == PATH
  {
    CStringUnique(PATH, PATH);
  }

  lemma AnswersConform()
    ensures Answers(ReqMsg(PATH, 0, 0), ANSWER0, BODY, BLOCK)
    ensures Answers(ReqMsg(PATH, 1, 0), ANSWER1, BODY, BLOCK)
    ensures GoodResponse(Meaning, PATH, ANSWER0, FOLLOW_UP)
    ensures GoodResponse(Meaning, PATH, ANSWER1, [])
  {
    assert ANSWER0.Payload() == BlockOf(BODY, BLOCK, 0);
    assert ANSWER1.Payload() == BlockOf(BODY, BLOCK, 1);
  }

  /** One exchange: the due request is taken from the stream, sent and answered. */
  lemma Exchange(w0: World, es: seq<Event>, w: World, x: nat, resp: Response, hdr: seq<byte>)
    returns (es': seq<Event>, w': World)
    requires Does(Meaning, w0, es, w) && AtPoll(Meaning, w, x) && w.xfers[x].phase.Live? && w.xfers[x].uri == PATH
    requires GoodResponse(Meaning, PATH, resp, hdr) && resp.block.Some?
    ensures Does(Meaning, w0, es', w') && AtPoll(Meaning, w', x)
    ensures |w'.xfers| == |w.xfers| && w'.xfers[x].uri == PATH
    ensures w'.xfers[x].log.resps == w.xfers[x].log.resps + [resp]
    ensures w'.xfers[x].log.hdrs == w.xfers[x].log.hdrs + [hdr]
    ensures w'.xfers[x].phase == if Ends(resp) then Complete else Live
  {
    hide Inv, Does, Allowed, StepPollStream, StepPollReq, StepRespond, Fitting, Rebuilt, CString, Continuations, Meaning;
    PathIsWhole();
    InvShaped(Meaning, w);
    PollYields(Meaning, w, x);
    DoesOneMore(Meaning, w0, es, w, PollStream(x));
    var w1 := StepPollStream(w, x).value;
    InvShaped(Meaning, w1);
    var rid := w1.out.rid;
    ItemUri(Meaning, w1, x, rid);
    var first: seq<byte> := [];
    assert Meaning(first) == ReqMsg(PATH, 0, FIRST_SZX) by { FirstMeans(); }
    SendItem(Meaning, w1, x, rid, first);
    DoesOneMore(Meaning, w0, es + [PollStream(x)], w1, PollReq(rid, first, true));
    var w2 := StepPollReq(w1, rid, first, true).value;
    InvShaped(Meaning, w2);
    MayAnswer(Meaning, w2, resp, hdr);
    HearAnswer(Meaning, w2, x, rid, resp, hdr);
    es' := es + [PollStream(x)] + [PollReq(rid, first, true)];
    DoesOneMore(Meaning, w0, es', w2, Respond(resp, hdr));
    es' := es' + [Respond(resp, hdr)];
    w' := StepRespond(w2, resp, hdr).value;
  }

  lemma FirstMeans()
    ensures Meaning([]) == ReqMsg(PATH, 0, FIRST_SZX)
  {
  }

  /** The whole transfer, from boot: it follows the discipline, the server conforms, the transfer
      completes, and the program has the right number of bytes, but not the body. */
  lemma OverlapDamagesBody() returns (es: seq<Event>)
    ensures Disciplined(Meaning, START, es) && Run(START, es).Ok? && |Run(START, es).value.xfers| == 1
    ensures var t := Run(START, es).value.xfers[0];
            && t.phase.Complete? && Follows(Meaning, t.log, BODY, BLOCK)
            && |Body(t.log.got)| == |BODY| && Body(t.log.got) != BODY
  {
    hide Inv, Does, Allowed, StepNew, Answers, CString, Continuations, Meaning, GoodResponse, XferOk;
    StartOk(Meaning);
    InvShaped(Meaning, START);
    NothingDone(Meaning, START);
    OpenTransfer(Meaning, START, [49], PATH, BODY, BLOCK);
    DoesOneMore(Meaning, START, [], START, NewTransfer([49], PATH));
    var w1 := StepNew(START, [49], PATH).value;
    AnswersConform();
    var es2, w2 := Exchange(START, [] + [NewTransfer([49], PATH)], w1, 0, ANSWER0, FOLLOW_UP);
    var es3, w3 := Exchange(START, es2, w2, 0, ANSWER1, []);
    es := es3;
    InvShaped(Meaning, w3);
    Damaged(w3.xfers[0], w3);
    assert Disciplined(Meaning, START, es) && Run(START, es) == Ok(w3) by { DoesIs(START, es, w3); }
  }

  lemma DoesIs(w: World, es: seq<Event>, w': World)
    requires Does(Meaning, w, es, w')
    ensures WellShaped(w) && Disciplined(Meaning, w, es) && Run(w, es) == Ok(w')
  {
    hide Disciplined, Run, WellShaped;
  }

  lemma Damaged(t: Transfer, w: World)
    requires Inv(Meaning, w) && w.inflight.None? && |w.xfers| == 1 && w.xfers[0] == t && t.phase.Complete? && t.uri == PATH
    requires t.log.resps == [ANSWER0, ANSWER1] && t.log.hdrs == [FOLLOW_UP, []]
    ensures Follows(Meaning, t.log, BODY, BLOCK)
    ensures |Body(t.log.got)| == |BODY| && Body(t.log.got) != BODY
  {
    hide Inv, Answers, CString, SentWell, GotWell, BlockOf, Meaning;
    PathIsWhole();
    InvShaped(Meaning, w);
    XferFacts(Meaning, w, 0);
    SentMeans(t);
    AnswersConform();
    WholeBody(Meaning, t, BODY, BLOCK);
    assert !Spares(PATH, ANSWER0, FOLLOW_UP) by { NotSpared(); }
    assert t.log.resps[0] == ANSWER0 && t.log.hdrs[0] == FOLLOW_UP;
  }

  lemma NotSpared()
    ensures !Spares(PATH, ANSWER0, FOLLOW_UP)
  {
    assert FOLLOW_UP[4] != ANSWER0.buf[4];
  }

  /** The two requests ask for blocks 0 and 1. */
  lemma SentMeans(t: Transfer)
    requires XferOk(Meaning, t, false) && t.uri == PATH
    requires t.log.resps == [ANSWER0, ANSWER1] && t.log.hdrs == [FOLLOW_UP, []]
    ensures |t.log.sent| == 2
    ensures Meaning(t.log.sent[0].pdu) == ReqMsg(PATH, 0, 0) && Meaning(t.log.sent[1].pdu) == ReqMsg(PATH, 1, 0)
  {
    hide GotWell, CString;
    PathIsWhole();
    assert SentWell(Meaning, t.addr, t.uri, t.log, 0);
    assert SentWell(Meaning, t.addr, t.uri, t.log, 1);
  }
}
