/** A blockwise request as the program holds it, with its future in place: polling it, and the
    handler that answers it. Both are proved against the functions of BlockwiseCore. */
module BlockwiseRequests {
  import opened Wrappers
  import opened CBytes
  import opened BlockwiseCore
  import opened Futures
  import opened BlockwiseStore

  class ReqInner {
    const req: Req
    const fstat: FutureState<Memo>

    constructor (r: Req)
      ensures req == r && fresh(fstat) && fstat.stage.New?
    {
      req := r;
      fstat := new FutureState();
    }

    /** The first poll registers the task and prepares the slot, or reports an error if the slot
        was released; a poll after the answer takes the result; any other poll panics. */
    method Poll(d: BlockwiseData, task: nat) returns (ok: bool, r: Option<Memo>)
      requires d.Valid() && req.idx < STATES_MAX
      modifies fstat, d`last, d`states, d.addr, d.uri, d.hdr
      ensures old(fstat.stage).Registered? || old(fstat.stage) == Resolved(None) ==> !ok
      ensures old(fstat.stage).Resolved? && old(fstat.stage).value.Some? ==>
                && ok && r == old(fstat.stage).value && fstat.stage == Resolved(None)
                && d.Valid() && d.Abs() == old(d.Abs())
      ensures old(fstat.stage).New? && !old(d.SlotAt(req.idx)).Busy() ==>
                ok && r == Some(Err) && d.Valid() && d.Abs() == old(d.Abs()).(last := None)
      ensures old(fstat.stage).New? && old(d.SlotAt(req.idx)).Busy() ==>
                var stored := Update(old(d.SlotAt(req.idx)), req.addr, req.uri, req.hdr);
                && (ok <==> stored.Ok?)
                && (ok ==> && r.None? && fstat.stage.Registered? && fstat.waker == Some(task)
                           && d.Valid()
                           && d.Abs() == Core(Some(req.idx), old(d.Abs()).slots[req.idx := stored.value]))
    {
      hide Update, RowsShaped;
      r := None;
      match fstat.stage {
        case New =>
          ok := fstat.Register(task);
          var valid;
          ok, valid := d.FirstPoll(req);
          if !valid {
            r := Some(Err);
          }
        case Resolved(_) =>
          ok, r := fstat.Take();
        case Registered =>
          ok := false;
      }
    }
  }

  /** The follow-up request the CoAP library builds from the slot the global index names. */
  ghost function FollowUp(c: Core, build: seq<byte> -> seq<byte>): seq<byte>
    requires Shaped(c)
  {
    if c.last.Some? then build(CString(c.slots[c.last.value].uri)) else []
  }

  /** Write the request at the start of the receive buffer. */
  method Rebuild(buf: array<byte>, hdr: seq<byte>)
    requires |hdr| <= buf.Length
    modifies buf
    ensures buf[..] == Overwritten(old(buf[..]), hdr)
  {
    var j := 0;
    while j < |hdr|
      invariant 0 <= j <= |hdr|
      invariant buf[..j] == hdr[..j]
      invariant forall k :: |hdr| <= k < buf.Length ==> buf[k] == old(buf[k])
    {
      buf[j] := hdr[j];
      j := j + 1;
    }
    assert buf[..] == hdr + old(buf[..])[|hdr|..];
  }

  lemma ValidIsShaped(d: BlockwiseData)
    requires d.Valid()
    ensures Shaped(d.Abs())
  {
    var c := d.Abs();
    forall i | 0 <= i < STATES_MAX ensures RowsShaped(c.slots[i]) {
      assert c.slots[i] == d.SlotAt(i);
    }
  }

  /** The handler of a blockwise or plain response: Block2 first, which may rebuild the receive
      buffer in place, then the payload is copied out of the buffer, then the future is resolved
      and its task is woken. It panics exactly when OnResponse does or nobody is waiting. */
  method ResponseHandler(d: BlockwiseData, memo: nat, block: Option<Block>, buf: array<byte>, off: nat, len: nat,
                         build: seq<byte> -> seq<byte>, f: FutureState<Memo>)
    returns (ok: bool, wake: Option<nat>)
    requires d.Valid()
    modifies d`states, d.streams, d.addr, d.uri, d.hdr, buf, f
    ensures Shaped(old(d.Abs()))
    ensures var after := OnResponse(old(d.Abs()), Response(memo, block, old(buf[..]), off, len), FollowUp(old(d.Abs()), build));
            && (ok <==> after.Ok? && old(f.stage).Registered?)
            && (ok ==> && d.Valid() && d.Abs() == after.value.0
                       && f.stage == Resolved(Some(after.value.1)) && wake == old(f.waker))
  {
    hide OnBlock, MemoOf, CString, RowsShaped, AsksNext;
    ValidIsShaped(d);
    ok, wake := false, None;
    ghost var r := Response(memo, block, buf[..], off, len);
    if off + len > buf.Length {
      return;
    }
    if block.Some? {
      var handled := TakeBlock2(d, block.value, buf, build);
      if !handled {
        return;
      }
    }
    var payload := if memo == MEMO_RESP || memo == MEMO_RESP_TRUNC then buf[off..off + len] else [];
    assert payload == r.(buf := buf[..]).Payload();
    var result := MemoOf(memo, payload);
    if result.Ok? {
      ok, wake := f.Resolve(result.value);
    }
  }

  /** The slots and the receive buffer after a Block2 option. */
  ghost function AfterBlock2(c: Core, buf: seq<byte>, b: Block, build: seq<byte> -> seq<byte>): Outcome<(Core, seq<byte>)>
    requires Shaped(c)
  {
    if c.last.None? then Panic else
    var i := c.last.value;
    var hdr := FollowUp(c, build);
    var slot :- OnBlock(c.slots[i], i, b, hdr);
    var c' := c.(slots := c.slots[i := slot]);
    if !AsksNext(CString(c.slots[i].uri), b) then Ok((c', buf))
    else if |hdr| <= |buf| then Ok((c', Overwritten(buf, hdr)))
    else Panic
  }

  /** The Block2 part: the slot and the receive buffer. */
  method TakeBlock2(d: BlockwiseData, b: Block, buf: array<byte>, build: seq<byte> -> seq<byte>) returns (ok: bool)
    requires d.Valid()
    modifies d`states, d.streams, d.addr, d.uri, d.hdr, buf
    ensures Shaped(old(d.Abs()))
    ensures ok <==> AfterBlock2(old(d.Abs()), old(buf[..]), b, build).Ok?
    ensures ok ==> d.Valid() && AfterBlock2(old(d.Abs()), old(buf[..]), b, build).value == (d.Abs(), buf[..])
  {
    hide OnBlock, CString, RowsShaped;
    ValidIsShaped(d);
    ok := false;
    if d.last.None? {
      return;
    }
    var i := d.last.value;
    assert d.Abs().slots[i] == d.SlotAt(i);
    var terminated, uri := ReadCString(d.uri, i);
    ghost var s := d.SlotAt(i);
    ok := HandleBlock2(d, b, build);
    if ok {
      assert d.Abs().slots == old(d.Abs()).slots[i := d.SlotAt(i)];
      if b.more {
        MoreNeedsNul(s, i, b, build(CString(s.uri)));
      }
      if b.more && !(b.num == 0 && uri == []) {
        var hdr := build(uri);
        ok := |hdr| <= buf.Length;
        if ok {
          Rebuild(buf, hdr);
        }
      }
    }
  }

  lemma MoreNeedsNul(s: Slot, idx: nat, b: Block, hdr: seq<byte>)
    requires b.more && OnBlock(s, idx, b, hdr).Ok?
    ensures 0 in s.uri
  {
  }
}
