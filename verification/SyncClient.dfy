/** The synchronous command-line CoAP client: one retained path, follow-ups sent from inside
    the response handler. It is the reference for what a blockwise transfer must request. */
module SyncClient {
  import opened Wrappers
  import opened CBytes
  import opened BlockwiseCore
  import opened BlockwiseRuns
  import opened BlockwiseTheorems

  /** What the handler requests next when it answers a response for the retained path. */
  function SyncNext(path: seq<byte>, r: Response): Option<ReqMsg> {
    if !r.Carries() || r.block.None? then None else
    var b := r.block.value;
    if !b.more || (b.num == 0 && path == []) then None else Some(ReqMsg(path, b.num + 1, b.szx))
  }

  function ToSeq(o: Option<ReqMsg>): seq<ReqMsg> {
    if o.Some? then [o.value] else []
  }

  /** All requests of one command: the first one, then one per response that asks for more. */
  function SyncRequests(path: seq<byte>, resps: seq<Response>): seq<ReqMsg> {
    if resps == [] then [ReqMsg(path, 0, FIRST_SZX)]
    else SyncRequests(path, resps[..|resps| - 1]) + ToSeq(SyncNext(path, resps[|resps| - 1]))
  }

  lemma RequestsGrow(path: seq<byte>, resps: seq<Response>, r: Response)
    ensures SyncRequests(path, resps + [r]) == SyncRequests(path, resps) + ToSeq(SyncNext(path, r))
  {
    assert (resps + [r])[..|resps|] == resps;
  }

  class Client {
    const lastPath: array<byte>
    var sent: seq<ReqMsg>
    ghost var command: seq<byte>
    ghost var resps: seq<Response>

    /** The retained path is the command's URI, or empty if the URI was too long, and the
        requests issued so far are those of the reference. */
    ghost predicate Valid()
      reads this, lastPath
    {
      && lastPath.Length == ROW_MAX
      && lastPath[ROW_MAX - 1] == 0
      && CString(lastPath[..]) == (if |command| < ROW_MAX then CString(command) else [])
      && (|command| < ROW_MAX ==> sent == SyncRequests(CString(command), resps))
    }

    constructor ()
      ensures lastPath.Length == ROW_MAX
    {
      lastPath := new byte[ROW_MAX];
      sent := [];
    }

    /** A GET command: retain the path if it fits, send the first request. */
    method Get(uri: seq<byte>)
      requires lastPath.Length == ROW_MAX
      modifies this, lastPath
      ensures Valid() && command == uri && resps == []
      ensures sent == [ReqMsg(CString(uri), 0, FIRST_SZX)]
    {
      forall j | 0 <= j < ROW_MAX {
        lastPath[j] := 0;
      }
      if |uri| < ROW_MAX {
        forall j | 0 <= j < |uri| {
          lastPath[j] := uri[j];
        }
        assert lastPath[..] == Padded(uri, ROW_MAX);
        PaddedReadsBack(uri, ROW_MAX);
      } else {
        CStringUnique(lastPath[..], []);
      }
      command, resps := uri, [];
      sent := [ReqMsg(CString(uri), 0, FIRST_SZX)];
    }

    /** The response handler. */
    method OnResponse(r: Response)
      requires Valid()
      modifies this
      ensures Valid() && command == old(command) && resps == old(resps) + [r]
      ensures sent == old(sent) + ToSeq(SyncNext(CString(lastPath[..]), r))
      ensures (r.memo == 3 || r.memo == 6) && r.block.Some? && r.block.value.more && CString(lastPath[..]) != [] ==>
                sent == old(sent) + [ReqMsg(CString(lastPath[..]), r.block.value.num + 1, r.block.value.szx)]
      ensures r.memo == 4 || r.memo == 5 || Ends(r) ==> sent == old(sent)
    {
      hide CString, SyncRequests;
      RequestsGrow(CString(command), resps, r);
      resps := resps + [r];
      if !r.Carries() || r.block.None? {
        return;
      }
      var b := r.block.value;
      if b.more {
        var path := CString(lastPath[..]);
        if b.num == 0 && |path| == 0 {
          return;
        }
        sent := sent + [ReqMsg(path, b.num + 1, b.szx)];
      }
    }
  }

  function Parsed(p: Parser, sent: seq<Wire>): seq<ReqMsg> {
    seq(|sent|, k requires 0 <= k < |sent| => p(sent[k].pdu))
  }

  /** A successful or a truncated response, by the library's numbers. */
  predicate IsData(r: Response) {
    r.memo == 3 || r.memo == 6
  }

  /** What the asynchronous handler left in the queue, as the server will understand it. */
  function QueuedNext(p: Parser, s: Slot): Option<ReqMsg> {
    if s.queue != [] && s.queue[0].Some? && s.queue[0].value.hdr.Some?
    then Some(p(s.queue[0].value.hdr.value)) else None
  }

  /** Given the same response and the same path, the asynchronous handler queues what the
      synchronous one sends, unless the response is an error whose Block2 option asks for more:
      then the asynchronous one goes on alone. */
  lemma HandlersAgreeExactly(p: Parser, c: Core, r: Response, hdr: seq<byte>)
    requires Shaped(c) && c.last.Some? && c.slots[c.last.value].queue == []
    requires Rebuilt(p, CString(c.slots[c.last.value].uri), r, hdr) && OnResponse(c, r, hdr).Ok?
    ensures var uri := CString(c.slots[c.last.value].uri);
            var after := OnResponse(c, r, hdr).value.0.slots[c.last.value];
            QueuedNext(p, after) == SyncNext(uri, r)
            <==> r.memo == 3 || r.memo == 6 || r.block.None? || !AsksNext(uri, r.block.value)
  {
    hide CString, BufferAfter, MemoOf, Padded;
  }

  lemma SyncFollows(path: seq<byte>, r: Response)
    ensures SyncNext(path, r) == if r.memo == 3 || r.memo == 6 then NextOf(path, r) else None
  {
  }

  lemma {:induction false} SyncLength(path: seq<byte>, resps: seq<Response>)
    ensures |SyncRequests(path, resps)| <= |resps| + 1
    ensures |SyncRequests(path, resps)| == |resps| + 1 ==> forall k :: 0 <= k < |resps| ==> SyncNext(path, resps[k]).Some?
  {
    if resps == [] {
    } else {
      var n := |resps| - 1;
      SyncLength(path, resps[..n]);
      assert forall k :: 0 <= k < n ==> resps[..n][k] == resps[k];
    }
  }

  lemma {:induction false} CarriedMatches(p: Parser, t: Transfer, flying: bool, n: nat)
    requires XferOk(p, t, flying) && 0 < n <= |t.log.sent|
    requires forall k :: 0 <= k < n - 1 ==> IsData(t.log.resps[k])
    ensures Parsed(p, t.log.sent[..n]) == SyncRequests(CString(t.uri), t.log.resps[..n - 1])
  {
    hide CString, NextOf, GotWell;
    assert SentWell(p, t.addr, t.uri, t.log, n - 1);
    if n == 1 {
      assert Parsed(p, t.log.sent[..1]) == [p(t.log.sent[0].pdu)];
    } else {
      CarriedMatches(p, t, flying, n - 1);
      SyncFollows(CString(t.uri), t.log.resps[n - 2]);
      assert t.log.resps[..n - 1][..n - 2] == t.log.resps[..n - 2];
      assert Parsed(p, t.log.sent[..n]) == Parsed(p, t.log.sent[..n - 1]) + [p(t.log.sent[n - 1].pdu)];
    }
  }

  /** The first n requests a transfer puts on the wire are the ones the synchronous client
      sends after the same responses, exactly if these responses carry data. */
  lemma AsyncMatchesSync(p: Parser, t: Transfer, flying: bool, n: nat)
    requires XferOk(p, t, flying) && 0 < n <= |t.log.sent|
    ensures n - 1 <= |t.log.resps|
    ensures Parsed(p, t.log.sent[..n]) == SyncRequests(CString(t.uri), t.log.resps[..n - 1])
            <==> forall k :: 0 <= k < n - 1 ==> IsData(t.log.resps[k])
  {
    hide CString, NextOf, GotWell, SentWell, SyncRequests;
    if forall k :: 0 <= k < n - 1 ==> IsData(t.log.resps[k]) {
      CarriedMatches(p, t, flying, n);
    } else {
      SyncLength(CString(t.uri), t.log.resps[..n - 1]);
    }
  }

  /** In every disciplined run: with responses that carry data, the requests of a transfer and
      the one it is due to send, if its last response calls for one, are together what the
      synchronous client sends; so a transfer that is over asked for all of it. */
  lemma RunsMatchSync(p: Parser, es: seq<Event>, x: nat)
    requires Disciplined(p, START, es)
    requires Run(START, es).Ok? ==>
               && x < |Run(START, es).value.xfers|
               && Run(START, es).value.xfers[x].log.sent != []
               && forall k :: 0 <= k < |Run(START, es).value.xfers[x].log.resps| ==> IsData(Run(START, es).value.xfers[x].log.resps[k])
    ensures Run(START, es).Ok?
    ensures var w := Run(START, es).value;
            var t := w.xfers[x];
            && (|t.log.sent| > |t.log.resps| ==>
                  Parsed(p, t.log.sent) == SyncRequests(CString(t.uri), t.log.resps))
            && (|t.log.sent| == |t.log.resps| ==>
                  Parsed(p, t.log.sent) + ToSeq(NextOf(CString(t.uri), t.log.resps[|t.log.resps| - 1]))
                  == SyncRequests(CString(t.uri), t.log.resps))
            && (t.phase.Complete? ==> Parsed(p, t.log.sent) == SyncRequests(CString(t.uri), t.log.resps))
  {
    hide SlotsInv, XfersInv, HeldInv, FlightInv, BusyCount, HeldUnique, Step, Disciplined, Run, Allowed, CString, SentWell, GotWell, Parsed;
    DisciplinedRunsAreSafe(p, es);
    var w := Run(START, es).value;
    var t := w.xfers[x];
    XferFacts(p, w, x);
    var n := |t.log.sent|;
    CarriedMatches(p, t, InFlightOf(w, x), n);
    assert t.log.sent[..n] == t.log.sent;
    assert t.log.resps[..|t.log.resps|] == t.log.resps;
  }
}
