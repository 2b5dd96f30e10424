/** The static data behind the asynchronous blockwise client as values: four slots, one
    global index, and what each entry point does to them. */
module BlockwiseCore {
  import opened Wrappers
  import opened CBytes

  const STATES_MAX: nat := 4
  const ROW_MAX: nat := 64          // REQ_ADDR_MAX, REQ_URI_MAX and BLOCKWISE_HDR_MAX
  const PAYLOAD_OUT_MAX: nat := 128

  /** A blockwise GET request. hdr holds the prebuilt bytes of a follow-up request. */
  datatype Req = Req(idx: nat, addr: seq<byte>, uri: seq<byte>, hdr: Option<seq<byte>>)

  /** One slot: the grids' rows, the one-item stream queue, and, when the slot is
      occupied, the length of the stored header. */
  datatype Slot = Slot(
    hdrLen: Option<nat>,
    addr: seq<byte>, uri: seq<byte>, hdr: seq<byte>,
    queue: seq<Option<Req>>)
  {
    predicate Busy() {
      hdrLen.Some?
    }
  }

  datatype Core = Core(last: Option<nat>, slots: seq<Slot>)

  predicate Shaped(c: Core) {
    && |c.slots| == STATES_MAX
    && (c.last.Some? ==> c.last.value < STATES_MAX)
    && forall i :: 0 <= i < STATES_MAX ==> RowsShaped(c.slots[i])
  }

  predicate RowsShaped(s: Slot) {
    && |s.addr| == |s.uri| == |s.hdr| == ROW_MAX
    && (s.hdrLen.Some? ==> s.hdrLen.value <= ROW_MAX)
    && (forall k :: 0 <= k < |s.queue| && s.queue[k].Some? ==> s.queue[k].value.idx < STATES_MAX)
  }

  const FREE_SLOT := Slot(None, Zeros(ROW_MAX), Zeros(ROW_MAX), Zeros(ROW_MAX), [])

  const INITIAL := Core(None, seq(STATES_MAX, _ => FREE_SLOT))

  /** Store metadata in an occupied slot; the strict bound leaves room for a NUL. */
  function Update(s: Slot, addr: seq<byte>, uri: seq<byte>, hdr: Option<seq<byte>>): Outcome<Slot> {
    if s.Busy() && |addr| < ROW_MAX && |uri| < ROW_MAX && (hdr.Some? ==> |hdr.value| < ROW_MAX) then
      var s1 := s.(addr := Padded(addr, ROW_MAX), uri := Padded(uri, ROW_MAX));
      Ok(if hdr.None? then s1 else s1.(hdr := Padded(hdr.value, ROW_MAX), hdrLen := Some(|hdr.value|)))
    else
      Panic
  }

  function Released(s: Slot): Outcome<Slot> {
    var cleared :- Update(s, [], [], Some([]));
    Ok(cleared.(hdrLen := None))
  }

  /** The stream holds one item; the blockwise layer insists that it is empty. */
  function Added(s: Slot, item: Option<Req>): Outcome<Slot> {
    if s.queue == [] then Ok(s.(queue := [item])) else Panic
  }

  function Completed(s: Slot): Outcome<Slot> {
    var freed :- Released(s);
    Added(freed, None)
  }

  function Closed(s: Slot): Outcome<Slot> {
    var freed :- Released(s);
    Added(freed.(queue := []), None)
  }

  /** NEXT: a follow-up request is queued on its slot. */
  function Continued(s: Slot, req: Req): Outcome<Slot> {
    if req.hdr.Some? && |req.hdr.value| <= ROW_MAX && |req.addr| <= ROW_MAX && |req.uri| <= ROW_MAX
    then Added(s, Some(req))
    else Panic
  }

  /** NEW: a free slot becomes occupied. The stored header length always restarts at 0. */
  function Opened(s: Slot, req: Req): Outcome<Slot> {
    if |req.addr| <= ROW_MAX && |req.uri| <= ROW_MAX
    then Added(s.(hdrLen := Some(0), queue := []), Some(req))
    else Panic
  }

  /** The lowest free slot at or after i. */
  function FirstFree(slots: seq<Slot>, i: nat): (r: Option<nat>)
    requires i <= |slots|
    ensures r.Some? ==> i <= r.value < |slots| && !slots[r.value].Busy()
    ensures forall j :: i <= j < (if r.Some? then r.value else |slots|) ==> slots[j].Busy()
    decreases |slots| - i
  {
    if i == |slots| then None
    else if !slots[i].Busy() then Some(i)
    else FirstFree(slots, i + 1)
  }

  /** The bytes a request puts on the wire: the stored header if there is one, else a
      request freshly built from the URI. */
  function WireBytes(s: Slot, first: seq<byte>): seq<byte>
    requires RowsShaped(s)
  {
    if s.hdrLen.Some? && s.hdrLen.value > 0 then s.hdr[..s.hdrLen.value] else first
  }

  // Response side.

  const MEMO_RESP: nat := 3
  const MEMO_TIMEOUT: nat := 4
  const MEMO_ERR: nat := 5
  const MEMO_RESP_TRUNC: nat := 6

  datatype Block = Block(num: nat, more: bool, szx: nat)

  /** A received response: memo state, Block2 option, and the receive buffer with the
      place of the payload in it. */
  datatype Response = Response(memo: nat, block: Option<Block>, buf: seq<byte>, off: nat, len: nat)
  {
    predicate InBounds() {
      off + len <= |buf|
    }

    predicate Carries() {
      memo == MEMO_RESP || memo == MEMO_RESP_TRUNC
    }

    function Payload(): seq<byte>
      requires InBounds()
    {
      if Carries() then buf[off..off + len] else []
    }
  }

  datatype Memo = Resp(payload: Option<seq<byte>>) | Timeout | Err | RespTrunc(payload: Option<seq<byte>>)

  function MemoOf(state: nat, payload: seq<byte>): Outcome<Memo> {
    var p := if payload == [] then None else Some(payload);
    if |payload| > PAYLOAD_OUT_MAX then Panic
    else if state == MEMO_RESP then Ok(Resp(p))
    else if state == MEMO_TIMEOUT then Ok(Timeout)
    else if state == MEMO_ERR then Ok(Err)
    else if state == MEMO_RESP_TRUNC then Ok(RespTrunc(p))
    else Panic
  }

  /** The memo state and payload a result stands for. */
  function StateOf(m: Memo): nat {
    match m
    case Resp(_) => MEMO_RESP
    case Timeout => MEMO_TIMEOUT
    case Err => MEMO_ERR
    case RespTrunc(_) => MEMO_RESP_TRUNC
  }

  function PayloadOf(m: Memo): seq<byte> {
    if (m.Resp? || m.RespTrunc?) && m.payload.Some? then m.payload.value else []
  }

  /** Results are told apart as the C side told them: nothing is lost, nothing is made up. */
  lemma MemoRoundTrip(state: nat, payload: seq<byte>)
    ensures MemoOf(state, payload).Ok? <==> 3 <= state <= 6 && |payload| <= 128
    ensures MemoOf(state, payload).Ok? ==>
              && StateOf(MemoOf(state, payload).value) == state
              && PayloadOf(MemoOf(state, payload).value) == (if state == 3 || state == 6 then payload else [])
  {
  }

  /** Does this Block2 option make the handler build a follow-up request? */
  predicate AsksNext(uri: seq<byte>, b: Block) {
    b.more && !(b.num == 0 && uri == [])
  }

  /** The Block2 branch of the response handler, on the slot the global index names. */
  function OnBlock(s: Slot, idx: nat, b: Block, hdr: seq<byte>): Outcome<Slot> {
    if !b.more then Completed(s)
    else if !s.Busy() || 0 !in s.addr || 0 !in s.uri then Panic
    else if !AsksNext(CString(s.uri), b) then Ok(s)
    else Continued(s, Req(idx, CString(s.addr), CString(s.uri), Some(hdr)))
  }

  /** The receive buffer once the handler is done: a follow-up request is built in it. */
  function BufferAfter(s: Slot, r: Response, hdr: seq<byte>): Outcome<seq<byte>> {
    if r.block.None? || !AsksNext(CString(s.uri), r.block.value) then Ok(r.buf)
    else if |hdr| <= |r.buf| then Ok(Overwritten(r.buf, hdr))
    else Panic
  }

  /** The whole response handler. hdr is the follow-up request the CoAP library builds.
      The payload is copied out of the buffer last. */
  function OnResponse(c: Core, r: Response, hdr: seq<byte>): (o: Outcome<(Core, Memo)>)
    requires Shaped(c)
    ensures o.Ok? ==> Shaped(o.value.0)
  {
    if !r.InBounds() then Panic
    else if r.block.None? then
      var memo :- MemoOf(r.memo, r.Payload());
      Ok((c, memo))
    else if c.last.None? then Panic
    else
      var idx := c.last.value;
      var slot :- OnBlock(c.slots[idx], idx, r.block.value, hdr);
      var buf :- BufferAfter(c.slots[idx], r, hdr);
      var memo :- MemoOf(r.memo, r.(buf := buf).Payload());
      Ok((c.(slots := c.slots[idx := slot]), memo))
  }

  // What the program is told, with the library's state numbers written out.

  /** A result that says: 3 a response, 4 a timeout, 5 an error, 6 a truncated response; a response,
      whole or truncated, with its payload, if it has one. */
  ghost predicate Says(m: Memo, state: nat, payload: seq<byte>) {
    var p := if |payload| == 0 then None else Some(payload);
    match state
    case 3 => m == Resp(p)
    case 4 => m == Timeout
    case 5 => m == Err
    case 6 => m == RespTrunc(p)
    case _ => false
  }

  /** A response without Block2 changes no slot, and is reported for what it is. It is a panic
      exactly if it is out of bounds, of another state, or its payload has more than 128 bytes. */
  lemma PlainResult(c: Core, r: Response, hdr: seq<byte>)
    requires Shaped(c) && r.block.None?
    ensures OnResponse(c, r, hdr).Ok? <==>
              && r.off + r.len <= |r.buf|
              && 3 <= r.memo <= 6
              && (r.memo == 3 || r.memo == 6 ==> r.len <= 128)
    ensures OnResponse(c, r, hdr).Ok? ==>
              && OnResponse(c, r, hdr).value.0 == c
              && Says(OnResponse(c, r, hdr).value.1, r.memo, r.buf[r.off..r.off + r.len])
  {
  }

  /** With Block2 the payload is read from the buffer as the follow-up request left it. */
  lemma BlockResult(c: Core, r: Response, hdr: seq<byte>)
    requires Shaped(c) && r.block.Some? && OnResponse(c, r, hdr).Ok?
    ensures c.last.Some? && r.off + r.len <= |r.buf|
    ensures var b, uri := r.block.value, CString(c.slots[c.last.value].uri);
            var next := b.more && (b.num > 0 || uri != []);
            && (next ==> |hdr| <= |r.buf|)
            && var buf := if next then hdr + r.buf[|hdr|..] else r.buf;
            Says(OnResponse(c, r, hdr).value.1, r.memo, buf[r.off..r.off + r.len])
  {
    hide CString, OnBlock;
  }
}
