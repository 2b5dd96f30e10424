/** The blockwise client as a state machine over whole runs: the static data, the requests
    the program holds, and the history of every transfer. */
module BlockwiseRuns {
  import opened Wrappers
  import opened CBytes
  import opened BlockwiseCore
  import opened Futures

  /** What a request means to the server. */
  datatype ReqMsg = ReqMsg(uri: seq<byte>, num: nat, szx: nat)

  /** How the CoAP library's bytes are understood. */
  type Parser = seq<byte> -> ReqMsg

  const FIRST_SZX: nat := 0

  /** A request handed out by a stream: its future state and the transfer it belongs to. */
  datatype Held = Held(req: Req, xfer: nat, fstat: Stage<Memo>)

  datatype Phase = Live | Complete | Shut

  datatype Wire = Wire(addr: seq<byte>, pdu: seq<byte>)

  /** What a transfer sent, what came back, what the program got, and the follow-up the
      handler built for each response. */
  datatype Log = Log(sent: seq<Wire>, resps: seq<Response>, got: seq<Memo>, hdrs: seq<seq<byte>>)

  /** The history of one transfer. nones counts how often its stream ended. */
  datatype Transfer = Transfer(
    idx: nat, addr: seq<byte>, uri: seq<byte>, phase: Phase, nones: nat, log: Log)

  datatype Output = Nothing | NoSlot | Opening(xfer: nat)
                  | Pending | Item(rid: nat) | End | Ready(memo: Memo)

  /** gen names the transfer that last took a slot. The counters are history. */
  datatype World = World(
    core: Core, held: map<nat, Held>, nextId: nat, inflight: Option<nat>,
    gen: seq<Option<nat>>, xfers: seq<Transfer>,
    news: nat, completes: nat, closes: nat, out: Output)

  datatype Event =
    | NewTransfer(addr: seq<byte>, uri: seq<byte>)
    | PollStream(xfer: nat)
    | PollReq(rid: nat, first: seq<byte>, delivered: bool)
    | Respond(resp: Response, hdr: seq<byte>)
    | PlainResponse(resp: Response, hdr: seq<byte>)
    | Close(xfer: nat)

  const START := World(INITIAL, map[], 0, None, seq(STATES_MAX, _ => None), [], 0, 0, 0, Nothing)

  predicate WellShaped(w: World) {
    && Shaped(w.core)
    && |w.gen| == STATES_MAX
    && (forall x :: 0 <= x < |w.xfers| ==> w.xfers[x].idx < STATES_MAX)
    && (forall r :: r in w.held ==>
          r < w.nextId && w.held[r].xfer < |w.xfers| && w.held[r].req.idx < STATES_MAX)
    && (w.inflight.Some? ==> w.inflight.value in w.held && w.held[w.inflight.value].fstat == Registered)
  }

  // Steps. An event that names something that does not exist is no event of the system and
  // counts as a panic.

  function StepNew(w: World, addr: seq<byte>, uri: seq<byte>): (r: Outcome<World>)
    requires WellShaped(w)
    ensures r.Ok? ==> WellShaped(r.value)
  {
    match FirstFree(w.core.slots, 0)
    case None => Ok(w.(out := NoSlot))
    case Some(i) =>
      var slot :- Opened(w.core.slots[i], Req(i, addr, uri, None));
      Ok(w.(core := w.core.(slots := w.core.slots[i := slot]),
            gen := w.gen[i := Some(|w.xfers|)],
            xfers := w.xfers + [Transfer(i, addr, uri, Live, 0, Log([], [], [], []))],
            news := w.news + 1, out := Opening(|w.xfers|)))
  }

  /** A handle reads the queue of its slot, whoever occupies the slot by now. */
  function StepPollStream(w: World, x: nat): (r: Outcome<World>)
    requires WellShaped(w)
    ensures r.Ok? ==> WellShaped(r.value)
  {
    if x >= |w.xfers| then Panic else
    var i := w.xfers[x].idx;
    var s := w.core.slots[i];
    if s.queue == [] then Ok(w.(out := Pending)) else
    var w1 := w.(core := w.core.(slots := w.core.slots[i := s.(queue := s.queue[1..])]));
    match s.queue[0]
    case None =>
      Ok(w1.(xfers := w.xfers[x := w.xfers[x].(nones := w.xfers[x].nones + 1)], out := End))
    case Some(req) =>
      Ok(w1.(held := w.held[w.nextId := Held(req, x, New)], nextId := w.nextId + 1, out := Item(w.nextId)))
  }

  /** First poll of a request: send, or fail at once if its slot was released. When the
      datagram cannot be delivered, nobody will ever resolve the request. */
  function StepFirstPoll(w: World, rid: nat, first: seq<byte>, delivered: bool): (r: Outcome<World>)
    requires WellShaped(w) && rid in w.held && w.held[rid].fstat.New?
    ensures r.Ok? ==> WellShaped(r.value)
  {
    var h := w.held[rid];
    var i := h.req.idx;
    if !w.core.slots[i].Busy() then
      Ok(w.(core := w.core.(last := None), held := w.held - {rid}, out := Ready(Err)))
    else
      var slot :- Update(w.core.slots[i], h.req.addr, h.req.uri, h.req.hdr);
      var w1 := w.(core := Core(Some(i), w.core.slots[i := slot]),
                   held := w.held[rid := h.(fstat := Registered)], out := Pending);
      if !delivered then Ok(w1) else
      var t := w.xfers[h.xfer];
      var wire := Wire(CString(h.req.addr), WireBytes(slot, first));
      Ok(w1.(inflight := Some(rid), xfers := w.xfers[h.xfer := t.(log := t.log.(sent := t.log.sent + [wire]))]))
  }

  function StepPollReq(w: World, rid: nat, first: seq<byte>, delivered: bool): (r: Outcome<World>)
    requires WellShaped(w)
    ensures r.Ok? ==> WellShaped(r.value)
  {
    if rid !in w.held then Panic else
    match w.held[rid].fstat
    case New => StepFirstPoll(w, rid, first, delivered)
    case Registered => Panic
    case Resolved(None) => Panic
    case Resolved(Some(memo)) => Ok(w.(held := w.held - {rid}, out := Ready(memo)))
  }

  predicate Ends(r: Response) {
    r.block.Some? && !r.block.value.more
  }

  function Answered(t: Transfer, resp: Response, memo: Memo, hdr: seq<byte>): Transfer {
    t.(log := Log(t.log.sent, t.log.resps + [resp], t.log.got + [memo], t.log.hdrs + [hdr]),
       phase := if Ends(resp) then Complete else t.phase)
  }

  /** The response to the request in flight: handle Block2, then resolve the future. */
  function StepRespond(w: World, resp: Response, hdr: seq<byte>): (r: Outcome<World>)
    requires WellShaped(w)
    ensures r.Ok? ==> WellShaped(r.value)
  {
    if w.inflight.None? then Panic else
    var rid := w.inflight.value;
    var h := w.held[rid];
    var t := w.xfers[h.xfer];
    var (core, memo) :- OnResponse(w.core, resp, hdr);
    Ok(w.(core := core, inflight := None, held := w.held[rid := h.(fstat := Resolved(Some(memo)))],
          xfers := w.xfers[h.xfer := Answered(t, resp, memo, hdr)],
          completes := w.completes + (if Ends(resp) then 1 else 0), out := Nothing))
  }

  /** The response to a request that is not blockwise runs through the same handler. */
  function StepPlain(w: World, resp: Response, hdr: seq<byte>): (r: Outcome<World>)
    requires WellShaped(w)
    ensures r.Ok? ==> WellShaped(r.value)
  {
    var (core, _) :- OnResponse(w.core, resp, hdr);
    Ok(w.(core := core, out := Nothing))
  }

  function StepClose(w: World, x: nat): (r: Outcome<World>)
    requires WellShaped(w)
    ensures r.Ok? ==> WellShaped(r.value)
  {
    if x >= |w.xfers| then Panic else
    var i := w.xfers[x].idx;
    var slot :- Closed(w.core.slots[i]);
    Ok(w.(core := w.core.(slots := w.core.slots[i := slot]),
          xfers := w.xfers[x := w.xfers[x].(phase := Shut)],
          closes := w.closes + 1, out := Nothing))
  }

  function Step(w: World, e: Event): (r: Outcome<World>)
    requires WellShaped(w)
    ensures r.Ok? ==> WellShaped(r.value)
  {
    match e
    case NewTransfer(addr, uri) => StepNew(w, addr, uri)
    case PollStream(x) => StepPollStream(w, x)
    case PollReq(r, first, delivered) => StepPollReq(w, r, first, delivered)
    case Respond(resp, hdr) => StepRespond(w, resp, hdr)
    case PlainResponse(resp, hdr) => StepPlain(w, resp, hdr)
    case Close(x) => StepClose(w, x)
  }

  // The client discipline.

  predicate InFlightOf(w: World, x: nat)
    requires WellShaped(w)
  {
    w.inflight.Some? && w.held[w.inflight.value].xfer == x
  }

  /** The sizes and states the handler insists on: the payload in the buffer and of at most 128
      bytes if it is copied out, a known memo state, room for the follow-up request. */
  predicate Fitting(uri: seq<byte>, resp: Response, hdr: seq<byte>) {
    && resp.InBounds()
    && (resp.Carries() ==> resp.len <= PAYLOAD_OUT_MAX)
    && MEMO_RESP <= resp.memo <= MEMO_RESP_TRUNC
    && (resp.block.Some? && AsksNext(uri, resp.block.value) ==> |hdr| <= |resp.buf|)
  }

  /** A follow-up that is built means "the next block of this URI" and has at most 63 bytes. */
  ghost predicate Rebuilt(p: Parser, uri: seq<byte>, resp: Response, hdr: seq<byte>) {
    resp.block.Some? && AsksNext(uri, resp.block.value) ==>
      0 < |hdr| < ROW_MAX && p(hdr) == ReqMsg(uri, resp.block.value.num + 1, resp.block.value.szx)
  }

  ghost predicate GoodResponse(p: Parser, uri: seq<byte>, resp: Response, hdr: seq<byte>) {
    Fitting(uri, resp, hdr) && Rebuilt(p, uri, resp, hdr)
  }

  /** The URI the handler finds in the slot of the request in flight. */
  function UriInFlight(w: World): seq<byte>
    requires WellShaped(w) && w.inflight.Some?
  {
    CString(w.core.slots[w.held[w.inflight.value].req.idx].uri)
  }

  /** The rules of order: strings and headers of at most 63 bytes, handles and requests not used
      once their slot has a new owner, one blockwise request in flight and no new one polled
      meanwhile, no double close and no close under a request in flight, and Block2 only in
      answers to blockwise requests. */
  ghost predicate Orderly(p: Parser, w: World, e: Event)
    requires WellShaped(w)
  {
    match e
    case NewTransfer(addr, uri) => |addr| < ROW_MAX && |uri| < ROW_MAX
    case PollStream(x) => x < |w.xfers| && w.gen[w.xfers[x].idx] == Some(x)
    case PollReq(r, first, _) =>
      && r in w.held
      && (w.held[r].fstat.New? ==>
            && w.inflight.None?
            && w.gen[w.held[r].req.idx] == Some(w.held[r].xfer)
            && p(first) == ReqMsg(CString(w.held[r].req.uri), 0, FIRST_SZX))
    case Respond(resp, hdr) => w.inflight.Some? && Rebuilt(p, UriInFlight(w), resp, hdr)
    case PlainResponse(resp, hdr) => resp.block.None?
    case Close(x) => x < |w.xfers| && w.xfers[x].phase.Live? && !InFlightOf(w, x)
  }

  /** The rules of size: responses fit, and no request is polled between its first poll and
      its answer or after it gave its result. */
  predicate Fits(w: World, e: Event)
    requires WellShaped(w)
  {
    match e
    case PollReq(r, _, _) => r in w.held ==> !w.held[r].fstat.Registered? && w.held[r].fstat != Resolved(None)
    case Respond(resp, hdr) => w.inflight.Some? ==> Fitting(UriInFlight(w), resp, hdr)
    case PlainResponse(resp, hdr) => Fitting([], resp, hdr)
    case _ => true
  }

  /** The client discipline. */
  ghost predicate Allowed(p: Parser, w: World, e: Event)
    requires WellShaped(w)
  {
    Orderly(p, w, e) && Fits(w, e)
  }

  // The invariant.

  /** The follow-up request that a response calls for, if any. */
  function NextOf(uri: seq<byte>, r: Response): Option<ReqMsg> {
    if r.block.Some? && AsksNext(uri, r.block.value)
    then Some(ReqMsg(uri, r.block.value.num + 1, r.block.value.szx))
    else None
  }

  /** The bytes of the receive buffer that the program is given as payload. */
  function Delivered(uri: seq<byte>, r: Response, hdr: seq<byte>): seq<byte> {
    var buf := if NextOf(uri, r).Some? && |hdr| <= |r.buf| then Overwritten(r.buf, hdr) else r.buf;
    if r.InBounds() then r.(buf := buf).Payload() else []
  }

  /** The k-th request on the wire: the transfer's own address; first a plain request for its
      URI, then byte for byte the follow-up built for the response before it. */
  ghost predicate SentWell(p: Parser, addr: seq<byte>, uri: seq<byte>, log: Log, k: nat)
    requires k < |log.sent| && |log.hdrs| == |log.resps| >= |log.sent| - 1
  {
    && log.sent[k].addr == CString(addr)
    && (k == 0 ==> p(log.sent[k].pdu) == ReqMsg(CString(uri), 0, FIRST_SZX))
    && (k > 0 ==> log.sent[k].pdu == log.hdrs[k - 1]
                  && NextOf(CString(uri), log.resps[k - 1]) == Some(p(log.hdrs[k - 1])))
  }

  ghost predicate GotWell(uri: seq<byte>, log: Log, k: nat)
    requires k < |log.resps| == |log.hdrs| == |log.got|
  {
    && Fitting(CString(uri), log.resps[k], log.hdrs[k])
    && MemoOf(log.resps[k].memo, Delivered(CString(uri), log.resps[k], log.hdrs[k])) == Ok(log.got[k])
  }

  /** A transfer's requests are the ones its own responses call for, one after the other. */
  ghost predicate LogOk(p: Parser, addr: seq<byte>, uri: seq<byte>, log: Log) {
    && |log.resps| == |log.got| == |log.hdrs| <= |log.sent| <= |log.resps| + 1
    && (forall k :: 0 <= k < |log.sent| ==> SentWell(p, addr, uri, log, k))
    && (forall k :: 0 <= k < |log.resps| ==> GotWell(uri, log, k))
  }

  ghost predicate XferOk(p: Parser, t: Transfer, flying: bool) {
    && LogOk(p, t.addr, t.uri, t.log)
    && |t.addr| < ROW_MAX && |t.uri| < ROW_MAX
    && |t.log.sent| == |t.log.resps| + (if flying then 1 else 0)
    && (t.phase.Complete? <==> |t.log.resps| > 0 && Ends(t.log.resps[|t.log.resps| - 1]))
    && t.nones <= 1
  }

  /** A request not yet polled is the one its live transfer is due to send. */
  ghost predicate DueOk(p: Parser, t: Transfer, hdrLen: Option<nat>, q: Req) {
    && q.idx == t.idx
    && |t.log.sent| == |t.log.resps|
    && |q.addr| < ROW_MAX && |q.uri| < ROW_MAX
    && CString(q.addr) == CString(t.addr) && CString(q.uri) == CString(t.uri)
    && (match q.hdr
        case None => |t.log.sent| == 0 && hdrLen == Some(0)
        case Some(h) =>
          && 0 < |h| < ROW_MAX
          && 0 < |t.log.sent| == |t.log.hdrs|
          && h == t.log.hdrs[|t.log.sent| - 1]
          && NextOf(CString(t.uri), t.log.resps[|t.log.sent| - 1]) == Some(p(h)))
  }

  predicate RowsZero(s: Slot) {
    s.addr == Zeros(ROW_MAX) && s.uri == Zeros(ROW_MAX) && s.hdr == Zeros(ROW_MAX)
  }

  predicate RowsOk(s: Slot) {
    && RowsShaped(s)
    && s.addr[ROW_MAX - 1] == 0 && s.uri[ROW_MAX - 1] == 0
    && (s.hdrLen.Some? ==> s.hdrLen.value < ROW_MAX)
    && (!s.Busy() ==> RowsZero(s))
    && |s.queue| <= 1
  }

  /** A slot and the transfer that last took it: the slot is occupied exactly while the
      transfer lives, holds at most the one request that is due, and its stream ends once. */
  ghost predicate SlotOk(p: Parser, s: Slot, owner: Option<Transfer>) {
    && RowsOk(s)
    && (match owner
        case None => !s.Busy() && s.queue == []
        case Some(t) =>
          && (s.Busy() <==> t.phase.Live?)
          && t.nones + (if s.queue == [None] then 1 else 0) == (if s.Busy() then 0 else 1)
          && (s.queue != [] && s.queue[0].Some? ==> s.Busy() && DueOk(p, t, s.hdrLen, s.queue[0].value)))
  }

  /** A held request that was not polled yet excludes every other continuation of its
      transfer: nothing is queued, and (by HeldUnique) no other request is unpolled. */
  ghost predicate HeldOk(p: Parser, h: Held, t: Transfer, s: Slot) {
    && h.req.idx == t.idx
    && (h.fstat.New? && t.phase.Live? ==> DueOk(p, t, s.hdrLen, h.req) && s.queue == [])
  }

  ghost predicate HeldUnique(held: map<nat, Held>) {
    forall r, r' | r in held && r' in held && held[r].fstat.New? && held[r'].fstat.New? ::
      held[r].xfer == held[r'].xfer ==> r == r'
  }

  /** From poll to resolve, the global index names the slot of the request in flight, and
      the slot's rows hold that transfer's strings. */
  ghost predicate FlightOk(last: Option<nat>, t: Transfer, s: Slot) {
    && t.phase.Live?
    && last == Some(t.idx)
    && CString(s.addr) == CString(t.addr)
    && CString(s.uri) == CString(t.uri)
  }

  function BusyCount(slots: seq<Slot>): nat {
    if slots == [] then 0 else (if slots[0].Busy() then 1 else 0) + BusyCount(slots[1..])
  }

  function Owner(w: World, i: nat): Option<Transfer>
    requires i < |w.gen|
  {
    if w.gen[i].Some? && w.gen[i].value < |w.xfers| then Some(w.xfers[w.gen[i].value]) else None
  }

  ghost predicate SlotsInv(p: Parser, w: World)
    requires WellShaped(w)
  {
    forall i :: 0 <= i < STATES_MAX ==>
      && SlotOk(p, w.core.slots[i], Owner(w, i))
      && (w.gen[i].Some? ==> w.gen[i].value < |w.xfers| && w.xfers[w.gen[i].value].idx == i)
  }

  ghost predicate XfersInv(p: Parser, w: World)
    requires WellShaped(w)
  {
    forall x :: 0 <= x < |w.xfers| ==>
      && XferOk(p, w.xfers[x], InFlightOf(w, x))
      && (w.xfers[x].phase.Live? ==> w.gen[w.xfers[x].idx] == Some(x))
  }

  ghost predicate HeldInv(p: Parser, w: World)
    requires WellShaped(w)
  {
    forall r :: r in w.held ==>
      HeldOk(p, w.held[r], w.xfers[w.held[r].xfer], w.core.slots[w.held[r].req.idx])
  }

  ghost predicate FlightInv(w: World)
    requires WellShaped(w)
  {
    w.inflight.Some? ==>
      var h := w.held[w.inflight.value];
      FlightOk(w.core.last, w.xfers[h.xfer], w.core.slots[h.req.idx])
  }

  ghost predicate Inv(p: Parser, w: World) {
    && WellShaped(w)
    && SlotsInv(p, w)
    && XfersInv(p, w)
    && HeldInv(p, w)
    && HeldUnique(w.held)
    && FlightInv(w)
    && BusyCount(w.core.slots) + w.completes + w.closes == w.news
  }

  lemma {:induction false} BusyCountUpdate(slots: seq<Slot>, i: nat, s: Slot)
    requires i < |slots|
    ensures BusyCount(slots[i := s]) + (if slots[i].Busy() then 1 else 0)
            == BusyCount(slots) + (if s.Busy() then 1 else 0)
  {
    if i == 0 {
      assert slots[0 := s][1..] == slots[1..];
    } else {
      assert slots[i := s][1..] == slots[1..][i - 1 := s];
      BusyCountUpdate(slots[1..], i - 1, s);
    }
  }

  lemma {:induction false} NoneBusy(slots: seq<Slot>)
    requires forall i :: 0 <= i < |slots| ==> !slots[i].Busy()
    ensures BusyCount(slots) == 0
  {
    if slots == [] {
    } else {
      NoneBusy(slots[1..]);
    }
  }

  lemma StartOk(p: Parser)
    ensures Inv(p, START)
  {
    NoneBusy(START.core.slots);
  }

  // A disciplined step touches one slot i and the transfer x that owns it, and nothing else.

  ghost predicate Local(w: World, w': World, i: nat, x: nat) {
    && WellShaped(w) && WellShaped(w')
    && i < STATES_MAX && x < |w'.xfers|
    && |w'.xfers| == (if x < |w.xfers| then |w.xfers| else x + 1)
    && (x < |w.xfers| ==> w.xfers[x].idx == i)
    && w'.xfers[x].idx == i
    && w'.gen == w.gen[i := Some(x)]
    && (forall j :: 0 <= j < STATES_MAX && j != i ==> w'.core.slots[j] == w.core.slots[j])
    && (forall y :: 0 <= y < |w'.xfers| && y != x ==> y < |w.xfers| && w'.xfers[y] == w.xfers[y])
  }

  lemma LocalSlots(p: Parser, w: World, w': World, i: nat, x: nat)
    requires Local(w, w', i, x) && SlotsInv(p, w)
    requires SlotOk(p, w'.core.slots[i], Some(w'.xfers[x]))
    ensures SlotsInv(p, w')
  {
    forall j | 0 <= j < STATES_MAX
      ensures SlotOk(p, w'.core.slots[j], Owner(w', j))
      ensures w'.gen[j].Some? ==> w'.gen[j].value < |w'.xfers| && w'.xfers[w'.gen[j].value].idx == j
    {
      if j != i {
        assert SlotOk(p, w.core.slots[j], Owner(w, j));
      }
    }
  }

  /** The previous owner of slot i, if it is not x, is no longer alive. */
  ghost predicate TakenOver(w: World, i: nat, x: nat)
    requires WellShaped(w) && i < STATES_MAX
  {
    w.gen[i] == Some(x) || (w.gen[i].Some? ==> w.gen[i].value < |w.xfers| && !w.xfers[w.gen[i].value].phase.Live?)
  }

  lemma LocalXfers(p: Parser, w: World, w': World, i: nat, x: nat)
    requires Local(w, w', i, x) && XfersInv(p, w) && TakenOver(w, i, x)
    requires forall y :: 0 <= y < |w.xfers| && y != x ==> InFlightOf(w', y) == InFlightOf(w, y)
    requires XferOk(p, w'.xfers[x], InFlightOf(w', x))
    ensures XfersInv(p, w')
  {
    forall y | 0 <= y < |w'.xfers|
      ensures XferOk(p, w'.xfers[y], InFlightOf(w', y))
      ensures w'.xfers[y].phase.Live? ==> w'.gen[w'.xfers[y].idx] == Some(y)
    {
      if y != x {
        assert w'.xfers[y] == w.xfers[y];
      }
    }
  }

  /** Requests of other transfers are untouched; those of x keep their standing. */
  ghost predicate HeldLocal(p: Parser, w: World, w': World, i: nat, x: nat)
    requires Local(w, w', i, x)
  {
    && HeldUnique(w'.held)
    && (forall r :: r in w'.held && w'.held[r].xfer != x ==> r in w.held && w'.held[r] == w.held[r])
    && (forall r :: r in w'.held && w'.held[r].xfer == x ==>
          w'.held[r].req.idx == i && HeldOk(p, w'.held[r], w'.xfers[x], w'.core.slots[i]))
  }

  lemma LocalHeld(p: Parser, w: World, w': World, i: nat, x: nat)
    requires Local(w, w', i, x) && XfersInv(p, w) && HeldInv(p, w) && TakenOver(w, i, x)
    requires HeldLocal(p, w, w', i, x)
    ensures HeldInv(p, w')
  {
    forall r | r in w'.held
      ensures HeldOk(p, w'.held[r], w'.xfers[w'.held[r].xfer], w'.core.slots[w'.held[r].req.idx])
    {
      var y := w'.held[r].xfer;
      if y != x {
        assert w'.xfers[y] == w.xfers[y];
        assert HeldOk(p, w.held[r], w.xfers[y], w.core.slots[w.held[r].req.idx]);
      }
    }
  }

  lemma OutOnly(p: Parser, w: World, o: Output)
    requires Inv(p, w)
    ensures Inv(p, w.(out := o))
  {
    hide SlotOk, XferOk, HeldOk, FlightOk, HeldUnique, BusyCount;
  }

  // What each operation does to its slot and its transfer.

  lemma OpenedOk(p: Parser, s: Slot, owner: Option<Transfer>, i: nat, addr: seq<byte>, uri: seq<byte>)
    requires SlotOk(p, s, owner) && !s.Busy() && i < STATES_MAX && |addr| < ROW_MAX && |uri| < ROW_MAX
    ensures owner.Some? ==> !owner.value.phase.Live?
    ensures Opened(s, Req(i, addr, uri, None)).Ok?
    ensures var t := Transfer(i, addr, uri, Live, 0, Log([], [], [], []));
            SlotOk(p, Opened(s, Req(i, addr, uri, None)).value, Some(t)) && XferOk(p, t, false)
  {
  }

  /** A request in flight for another transfer is not disturbed. */
  lemma LocalFlight(p: Parser, w: World, w': World, i: nat, x: nat)
    requires Local(w, w', i, x) && XfersInv(p, w) && HeldInv(p, w) && FlightInv(w) && TakenOver(w, i, x)
    requires !InFlightOf(w, x) && w'.inflight == w.inflight && w'.core.last == w.core.last
    requires w.inflight.Some? ==> w'.held[w.inflight.value] == w.held[w.inflight.value]
    ensures FlightInv(w')
  {
    hide XferOk;
    if w.inflight.Some? {
      var h := w.held[w.inflight.value];
      assert HeldOk(p, h, w.xfers[h.xfer], w.core.slots[h.req.idx]);
      assert w.gen[h.req.idx] == Some(h.xfer);
      assert w'.xfers[h.xfer] == w.xfers[h.xfer];
    }
  }

  lemma LocalKeeps(p: Parser, w: World, w': World, i: nat, x: nat)
    requires Inv(p, w) && Local(w, w', i, x) && TakenOver(w, i, x)
    requires SlotOk(p, w'.core.slots[i], Some(w'.xfers[x]))
    requires XferOk(p, w'.xfers[x], InFlightOf(w', x))
    requires HeldLocal(p, w, w', i, x)
    requires FlightInv(w')
    requires forall y :: 0 <= y < |w.xfers| && y != x ==> InFlightOf(w', y) == InFlightOf(w, y)
    requires w'.core.slots == w.core.slots[i := w'.core.slots[i]]
    requires w'.news - w'.completes - w'.closes + (if w.core.slots[i].Busy() then 1 else 0)
             == w.news - w.completes - w.closes + (if w'.core.slots[i].Busy() then 1 else 0)
    ensures Inv(p, w')
  {
    hide SlotOk, XferOk, HeldOk, FlightOk, BusyCount, SlotsInv, XfersInv, HeldInv, FlightInv, LogOk;
    LocalSlots(p, w, w', i, x);
    LocalXfers(p, w, w', i, x);
    LocalHeld(p, w, w', i, x);
    BusyCountUpdate(w.core.slots, i, w'.core.slots[i]);
  }

  lemma SlotFacts(p: Parser, w: World, i: nat)
    requires Inv(p, w) && i < STATES_MAX
    ensures SlotOk(p, w.core.slots[i], Owner(w, i))
    ensures w.gen[i].Some? ==> w.gen[i].value < |w.xfers| && w.xfers[w.gen[i].value].idx == i
  {
    hide SlotOk;
  }

  lemma XferFacts(p: Parser, w: World, x: nat)
    requires Inv(p, w) && x < |w.xfers|
    ensures XferOk(p, w.xfers[x], InFlightOf(w, x))
    ensures w.xfers[x].phase.Live? ==> w.gen[w.xfers[x].idx] == Some(x)
  {
    hide XferOk;
  }

  lemma NewKeeps(p: Parser, w: World, addr: seq<byte>, uri: seq<byte>)
    requires Inv(p, w) && Allowed(p, w, NewTransfer(addr, uri))
    ensures StepNew(w, addr, uri).Ok? && Inv(p, StepNew(w, addr, uri).value)
  {
    hide SlotOk, XferOk, HeldOk, FlightOk, BusyCount, Opened, SlotsInv, XfersInv, HeldInv, FlightInv, HeldUnique;
    var f := FirstFree(w.core.slots, 0);
    if f.Some? {
      var i, x := f.value, |w.xfers|;
      SlotFacts(p, w, i);
      OpenedOk(p, w.core.slots[i], Owner(w, i), i, addr, uri);
      LocalFlight(p, w, StepNew(w, addr, uri).value, i, x);
      LocalKeeps(p, w, StepNew(w, addr, uri).value, i, x);
    } else { OutOnly(p, w, NoSlot); }
  }

  lemma PoppedOk(p: Parser, s: Slot, t: Transfer, flying: bool)
    requires SlotOk(p, s, Some(t)) && XferOk(p, t, flying) && s.queue != []
    ensures s.queue[1..] == []
    ensures SlotOk(p, s.(queue := []), Some(if s.queue[0].None? then t.(nones := t.nones + 1) else t))
    ensures s.queue[0].None? ==> !t.phase.Live? && XferOk(p, t.(nones := t.nones + 1), flying)
    ensures s.queue[0].Some? ==>
              t.phase.Live? && !flying && s.queue[0].value.idx == t.idx && DueOk(p, t, s.hdrLen, s.queue[0].value)
  {
  }

  /** A finished transfer has no request in flight. */
  lemma NotFlying(w: World, x: nat)
    requires WellShaped(w) && FlightInv(w) && x < |w.xfers|
    ensures InFlightOf(w, x) ==> w.xfers[x].phase.Live?
  {
  }

  lemma PopHeld(p: Parser, w: World, x: nat)
    requires Inv(p, w) && Allowed(p, w, PollStream(x))
    requires var s := w.core.slots[w.xfers[x].idx];
             && s.queue != []
             && (s.queue[0].Some? ==> w.xfers[x].phase.Live? && s.queue[1..] == []
                                      && s.queue[0].value.idx == w.xfers[x].idx && DueOk(p, w.xfers[x], s.hdrLen, s.queue[0].value))
             && (s.queue[0].None? ==> !w.xfers[x].phase.Live?)
    ensures StepPollStream(w, x).Ok?
    ensures var w' := StepPollStream(w, x).value;
            Local(w, w', w.xfers[x].idx, x) && HeldLocal(p, w, w', w.xfers[x].idx, x)
  {
    hide SlotOk, XferOk, DueOk, FlightOk, BusyCount, SlotsInv, XfersInv, HeldInv, FlightInv, RowsShaped;
    var i := w.xfers[x].idx;
    var s := w.core.slots[i];
    var w' := StepPollStream(w, x).value;
    forall r | r in w.held && w.held[r].xfer == x
      ensures w.held[r].req.idx == i
      ensures HeldOk(p, w.held[r], w'.xfers[x], w'.core.slots[i])
      ensures w.held[r].fstat.New? ==> s.queue[0].None?
    {
      HeldFacts(p, w, r);
    }
  }

  lemma PollStreamKeeps(p: Parser, w: World, x: nat)
    requires Inv(p, w) && Allowed(p, w, PollStream(x))
    ensures StepPollStream(w, x).Ok? && Inv(p, StepPollStream(w, x).value)
  {
    hide SlotOk, XferOk, DueOk, FlightOk, BusyCount, SlotsInv, XfersInv, HeldInv, FlightInv, HeldLocal;
    var i := w.xfers[x].idx;
    var s := w.core.slots[i];
    SlotFacts(p, w, i);
    XferFacts(p, w, x);
    if s.queue == [] {
      OutOnly(p, w, Pending);
    } else {
      PoppedOk(p, s, w.xfers[x], InFlightOf(w, x));
      NotFlying(w, x);
      PopHeld(p, w, x);
      LocalFlight(p, w, StepPollStream(w, x).value, i, x);
      LocalKeeps(p, w, StepPollStream(w, x).value, i, x);
    }
  }

  lemma ClosedOk(p: Parser, s: Slot, t: Transfer)
    requires SlotOk(p, s, Some(t)) && XferOk(p, t, false) && t.phase.Live?
    ensures Closed(s).Ok?
    ensures SlotOk(p, Closed(s).value, Some(t.(phase := Shut))) && XferOk(p, t.(phase := Shut), false)
    ensures !Closed(s).value.Busy() && s.Busy()
  {
    hide SentWell, GotWell, DueOk;
  }

  lemma CloseKeeps(p: Parser, w: World, x: nat)
    requires Inv(p, w) && Allowed(p, w, Close(x))
    ensures StepClose(w, x).Ok? && Inv(p, StepClose(w, x).value)
  {
    hide SlotOk, XferOk, DueOk, FlightOk, BusyCount, SlotsInv, XfersInv, FlightInv, Closed, CString;
    var i := w.xfers[x].idx;
    SlotFacts(p, w, i);
    XferFacts(p, w, x);
    ClosedOk(p, w.core.slots[i], w.xfers[x]);
    var w' := StepClose(w, x).value;
    forall r | r in w.held && w.held[r].xfer == x
      ensures w.held[r].req.idx == i && HeldOk(p, w.held[r], w'.xfers[x], w'.core.slots[i])
    {
      assert HeldOk(p, w.held[r], w.xfers[x], w.core.slots[w.held[r].req.idx]);
    }
    LocalFlight(p, w, w', i, x);
    LocalKeeps(p, w, w', i, x);
  }

  lemma PlainKeeps(p: Parser, w: World, resp: Response, hdr: seq<byte>)
    requires Inv(p, w) && Allowed(p, w, PlainResponse(resp, hdr))
    ensures StepPlain(w, resp, hdr).Ok? && Inv(p, StepPlain(w, resp, hdr).value)
  {
    hide SlotOk, XferOk, HeldOk, FlightOk, BusyCount, SlotsInv, XfersInv, HeldInv, FlightInv;
    OutOnly(p, w, Nothing);
  }

  // First poll of a request.

  lemma SentOk(p: Parser, s: Slot, t: Transfer, q: Req, first: seq<byte>)
    requires SlotOk(p, s, Some(t)) && XferOk(p, t, false) && t.phase.Live?
    requires DueOk(p, t, s.hdrLen, q) && s.queue == []
    requires p(first) == ReqMsg(CString(q.uri), 0, FIRST_SZX)
    ensures Update(s, q.addr, q.uri, q.hdr).Ok?
    ensures var s' := Update(s, q.addr, q.uri, q.hdr).value;
            var t' := t.(log := t.log.(sent := t.log.sent + [Wire(CString(q.addr), WireBytes(s', first))]));
            && s'.Busy() && s'.queue == []
            && SlotOk(p, s', Some(t)) && SlotOk(p, s', Some(t'))
            && XferOk(p, t', true)
            && FlightOk(Some(t.idx), t', s')
  {
    hide GotWell;
    PaddedReadsBack(q.addr, ROW_MAX);
    PaddedReadsBack(q.uri, ROW_MAX);
    var s' := Update(s, q.addr, q.uri, q.hdr).value;
    SentLog(p, t, Wire(CString(q.addr), WireBytes(s', first)));
  }

  lemma SentLog(p: Parser, t: Transfer, wire: Wire)
    requires LogOk(p, t.addr, t.uri, t.log) && |t.log.sent| == |t.log.resps|
    requires SentWell(p, t.addr, t.uri, t.log.(sent := t.log.sent + [wire]), |t.log.sent|)
    ensures LogOk(p, t.addr, t.uri, t.log.(sent := t.log.sent + [wire]))
  {
    hide CString, NextOf, Delivered, MemoOf, Fitting;
    var log' := t.log.(sent := t.log.sent + [wire]);
    forall k | 0 <= k < |log'.sent| ensures SentWell(p, t.addr, t.uri, log', k) {
      if k < |t.log.sent| { assert SentWell(p, t.addr, t.uri, t.log, k); }
    }
    forall k | 0 <= k < |log'.resps| ensures GotWell(t.uri, log', k) { assert GotWell(t.uri, t.log, k); }
  }

  lemma HeldFacts(p: Parser, w: World, r: nat)
    requires Inv(p, w) && r in w.held
    ensures HeldOk(p, w.held[r], w.xfers[w.held[r].xfer], w.core.slots[w.held[r].req.idx])
  {
    hide HeldOk;
  }

  /** Once a live transfer's unpolled request is polled, none of its requests is unpolled. */
  lemma FirstPollHeld(p: Parser, w: World, rid: nat, first: seq<byte>, delivered: bool)
    requires Inv(p, w) && rid in w.held && w.held[rid].fstat.New?
    requires w.gen[w.held[rid].req.idx] == Some(w.held[rid].xfer)
    requires StepFirstPoll(w, rid, first, delivered).Ok? && w.core.slots[w.held[rid].req.idx].Busy()
    ensures var w' := StepFirstPoll(w, rid, first, delivered).value;
            && Local(w, w', w.held[rid].req.idx, w.held[rid].xfer)
            && HeldLocal(p, w, w', w.held[rid].req.idx, w.held[rid].xfer)
  {
    hide SlotOk, XferOk, DueOk, FlightOk, BusyCount, SlotsInv, XfersInv, HeldInv, FlightInv, Update, WireBytes, CString, RowsShaped;
    var h := w.held[rid];
    var i, x := h.req.idx, h.xfer;
    HeldFacts(p, w, rid);
    var w' := StepFirstPoll(w, rid, first, delivered).value;
    forall r | r in w.held && w.held[r].xfer == x && r != rid
      ensures w.held[r].req.idx == i && HeldOk(p, w.held[r], w'.xfers[x], w'.core.slots[i])
    {
      HeldFacts(p, w, r);
    }
  }

  lemma FirstPollKeeps(p: Parser, w: World, rid: nat, first: seq<byte>, delivered: bool)
    requires Inv(p, w) && Allowed(p, w, PollReq(rid, first, delivered)) && w.held[rid].fstat.New?
    requires w.core.slots[w.held[rid].req.idx].Busy()
    ensures StepFirstPoll(w, rid, first, delivered).Ok?
    ensures Inv(p, StepFirstPoll(w, rid, first, delivered).value)
  {
    hide SlotOk, XferOk, DueOk, FlightOk, BusyCount, SlotsInv, XfersInv, HeldInv, Update, WireBytes, CString, HeldLocal, HeldUnique;
    var h := w.held[rid];
    var i, x := h.req.idx, h.xfer;
    SlotFacts(p, w, i);
    XferFacts(p, w, x);
    HeldFacts(p, w, rid);
    OwnerLives(p, w, i);
    SentOk(p, w.core.slots[i], w.xfers[x], h.req, first);
    FirstPollHeld(p, w, rid, first, delivered);
    LocalKeeps(p, w, StepFirstPoll(w, rid, first, delivered).value, i, x);
  }

  lemma OwnerLives(p: Parser, w: World, i: nat)
    requires Inv(p, w) && i < STATES_MAX && w.core.slots[i].Busy()
    ensures Owner(w, i).Some? && Owner(w, i).value.phase.Live?
  {
    hide DueOk, XfersInv, HeldInv, FlightInv, CString;
    SlotFacts(p, w, i);
  }

  lemma DropKeeps(p: Parser, w: World, rid: nat, last: Option<nat>, o: Output)
    requires Inv(p, w) && rid in w.held && w.inflight != Some(rid)
    requires last == w.core.last || (w.inflight.None? && last.None?)
    ensures Inv(p, w.(core := w.core.(last := last), held := w.held - {rid}, out := o))
  {
    hide SlotOk, XferOk, HeldOk, FlightOk, BusyCount;
  }

  lemma PollReqKeeps(p: Parser, w: World, rid: nat, first: seq<byte>, delivered: bool)
    requires Inv(p, w) && Allowed(p, w, PollReq(rid, first, delivered))
    ensures StepPollReq(w, rid, first, delivered).Ok?
    ensures Inv(p, StepPollReq(w, rid, first, delivered).value)
  {
    hide SlotOk, XferOk, HeldOk, FlightOk, BusyCount, SlotsInv, XfersInv, HeldInv, FlightInv, HeldUnique, Update;
    var h := w.held[rid];
    match h.fstat {
      case New =>
        if w.core.slots[h.req.idx].Busy() {
          FirstPollKeeps(p, w, rid, first, delivered);
        } else {
          DropKeeps(p, w, rid, None, Ready(Err));
        }
      case Resolved(memo) =>
        DropKeeps(p, w, rid, w.core.last, Ready(memo.value));
    }
  }

  // The response to the request in flight.

  lemma AnsweredLog(p: Parser, t: Transfer, resp: Response, memo: Memo, hdr: seq<byte>)
    requires XferOk(p, t, true) && t.phase.Live?
    requires Fitting(CString(t.uri), resp, hdr)
    requires MemoOf(resp.memo, Delivered(CString(t.uri), resp, hdr)) == Ok(memo)
    ensures XferOk(p, Answered(t, resp, memo, hdr), false)
  {
    hide CString, NextOf, Delivered, MemoOf, Fitting;
    var t' := Answered(t, resp, memo, hdr);
    forall k | 0 <= k < |t'.log.sent| ensures SentWell(p, t.addr, t.uri, t'.log, k) { assert SentWell(p, t.addr, t.uri, t.log, k); }
    forall k | 0 <= k < |t'.log.resps| ensures GotWell(t.uri, t'.log, k) {
      if k < |t.log.resps| { assert GotWell(t.uri, t.log, k); }
    }
  }

  /** While a request is in flight its slot is occupied and its queue is empty. */
  lemma FlyingSlot(p: Parser, s: Slot, t: Transfer)
    requires SlotOk(p, s, Some(t)) && XferOk(p, t, true) && t.phase.Live?
    ensures RowsOk(s) && s.Busy() && s.queue == [] && t.nones == 0
    ensures |t.log.sent| == |t.log.resps| + 1 && |t.log.resps| == |t.log.hdrs|
  {
    hide SentWell, GotWell, CString, NextOf;
  }

  lemma CompletedOk(p: Parser, s: Slot, t: Transfer)
    requires RowsOk(s) && s.Busy() && s.queue == [] && t.nones == 0 && t.phase.Complete?
    ensures Completed(s).Ok? && !Completed(s).value.Busy() && SlotOk(p, Completed(s).value, Some(t))
  {
  }

  lemma ContinuedOk(p: Parser, s: Slot, t: Transfer, resp: Response, hdr: seq<byte>, memo: Memo)
    requires RowsOk(s) && s.Busy() && s.queue == [] && t.nones == 0 && t.phase.Live? && t.idx < STATES_MAX
    requires |t.log.sent| == |t.log.resps| + 1 && |t.log.resps| == |t.log.hdrs|
    requires CString(s.addr) == CString(t.addr) && CString(s.uri) == CString(t.uri)
    requires NextOf(CString(s.uri), resp) == Some(p(hdr)) && !Ends(resp) && 0 < |hdr| < ROW_MAX
    ensures var c := Continued(s, Req(t.idx, CString(s.addr), CString(s.uri), Some(hdr)));
            c.Ok? && c.value.Busy() && SlotOk(p, c.value, Some(Answered(t, resp, memo, hdr)))
  {
    hide NextOf;
    CStringIdempotent(t.addr);
    CStringIdempotent(t.uri);
  }

  lemma BlockOk(p: Parser, s: Slot, t: Transfer, resp: Response, hdr: seq<byte>, memo: Memo)
    requires SlotOk(p, s, Some(t)) && XferOk(p, t, true) && FlightOk(Some(t.idx), t, s) && t.idx < STATES_MAX
    requires GoodResponse(p, CString(s.uri), resp, hdr) && resp.block.Some?
    ensures s.Busy() && OnBlock(s, t.idx, resp.block.value, hdr).Ok?
    ensures var s' := OnBlock(s, t.idx, resp.block.value, hdr).value;
            SlotOk(p, s', Some(Answered(t, resp, memo, hdr))) && (s'.Busy() <==> !Ends(resp))
  {
    hide XferOk, CString, Completed, Continued, DueOk;
    FlyingSlot(p, s, t);
    if Ends(resp) {
      CompletedOk(p, s, Answered(t, resp, memo, hdr));
    } else if AsksNext(CString(s.uri), resp.block.value) {
      ContinuedOk(p, s, t, resp, hdr, memo);
    }
  }

  lemma MemoOk(r: Response, hdr: seq<byte>, s: Slot, p: Parser)
    requires GoodResponse(p, CString(s.uri), r, hdr)
    ensures r.InBounds() && MemoOf(r.memo, r.Payload()).Ok?
    ensures BufferAfter(s, r, hdr).Ok?
    ensures r.(buf := BufferAfter(s, r, hdr).value).InBounds()
    ensures r.(buf := BufferAfter(s, r, hdr).value).Payload() == Delivered(CString(s.uri), r, hdr)
    ensures r.block.None? ==> r.Payload() == Delivered(CString(s.uri), r, hdr)
    ensures MemoOf(r.memo, Delivered(CString(s.uri), r, hdr)).Ok?
  {
  }

  /** A response that is attributed to the slot of the request in flight. */
  lemma RespondKeeps(p: Parser, w: World, resp: Response, hdr: seq<byte>)
    requires Inv(p, w) && Allowed(p, w, Respond(resp, hdr))
    ensures StepRespond(w, resp, hdr).Ok? && Inv(p, StepRespond(w, resp, hdr).value)
  {
    hide SlotOk, XferOk, DueOk, BusyCount, SlotsInv, XfersInv, HeldInv, CString, HeldLocal, HeldUnique;
    hide OnBlock, BufferAfter, MemoOf, Fitting, Rebuilt, Delivered;
    var h := w.held[w.inflight.value];
    var i, x := h.req.idx, h.xfer;
    HeldFacts(p, w, w.inflight.value);
    SlotFacts(p, w, i);
    XferFacts(p, w, x);
    MemoOk(resp, hdr, w.core.slots[i], p);
    var memo := MemoOf(resp.memo, Delivered(CString(w.core.slots[i].uri), resp, hdr)).value;
    AnsweredLog(p, w.xfers[x], resp, memo, hdr);
    if resp.block.Some? {
      BlockOk(p, w.core.slots[i], w.xfers[x], resp, hdr, memo);
    } else {
      SilentOk(p, w.core.slots[i], w.xfers[x], resp, memo, hdr);
    }
    RespondHeld(p, w, resp, hdr);
    LocalKeeps(p, w, StepRespond(w, resp, hdr).value, i, x);
  }

  lemma SilentOk(p: Parser, s: Slot, t: Transfer, resp: Response, memo: Memo, hdr: seq<byte>)
    requires SlotOk(p, s, Some(t)) && XferOk(p, t, true) && t.phase.Live? && resp.block.None?
    ensures SlotOk(p, s, Some(Answered(t, resp, memo, hdr)))
  {
    hide XferOk, DueOk;
    FlyingSlot(p, s, t);
  }

  lemma RespondHeld(p: Parser, w: World, resp: Response, hdr: seq<byte>)
    requires Inv(p, w) && w.inflight.Some? && w.core.last == Some(w.held[w.inflight.value].req.idx)
    requires w.gen[w.held[w.inflight.value].req.idx] == Some(w.held[w.inflight.value].xfer)
    requires StepRespond(w, resp, hdr).Ok?
    ensures var w' := StepRespond(w, resp, hdr).value;
            var h := w.held[w.inflight.value];
            Local(w, w', h.req.idx, h.xfer) && HeldLocal(p, w, w', h.req.idx, h.xfer)
  {
    hide SlotOk, FlightOk, BusyCount, SlotsInv, XfersInv, HeldInv, FlightInv, CString, OnBlock, BufferAfter, MemoOf, LogOk, RowsShaped;
    var h := w.held[w.inflight.value];
    var i, x := h.req.idx, h.xfer;
    HeldFacts(p, w, w.inflight.value);
    XferFacts(p, w, x);
    var w' := StepRespond(w, resp, hdr).value;
    forall r | r in w.held && w.held[r].xfer == x && r != w.inflight.value
      ensures w.held[r].req.idx == i && HeldOk(p, w.held[r], w'.xfers[x], w'.core.slots[i])
    {
      HeldFacts(p, w, r);
    }
  }

  lemma StepKeeps(p: Parser, w: World, e: Event)
    requires Inv(p, w) && Allowed(p, w, e)
    ensures Step(w, e).Ok? && Inv(p, Step(w, e).value)
  {
    hide Inv, Allowed, StepNew, StepPollStream, StepPollReq, StepRespond, StepPlain, StepClose;
    match e {
      case NewTransfer(addr, uri) => NewKeeps(p, w, addr, uri);
      case PollStream(x) => PollStreamKeeps(p, w, x);
      case PollReq(r, first, delivered) => PollReqKeeps(p, w, r, first, delivered);
      case Respond(resp, hdr) => RespondKeeps(p, w, resp, hdr);
      case PlainResponse(resp, hdr) => PlainKeeps(p, w, resp, hdr);
      case Close(x) => CloseKeeps(p, w, x);
    }
  }
}
