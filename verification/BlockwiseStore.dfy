/** The static data of the blockwise client as the program keeps it: three grids of bytes, the
    occupied slots, the stream queues and the global index, all updated in place. Each entry
    point is proved against its function on values in BlockwiseCore. */
module BlockwiseStore {
  import opened Wrappers
  import opened CBytes
  import opened BlockwiseCore
  import opened XStream
  import opened Futures

  const STREAM_SIZE: nat := 2

  type Grid = array2<byte>

  function Row(g: Grid, i: nat): (r: seq<byte>)
    requires g.Length0 == STATES_MAX && g.Length1 == ROW_MAX && i < STATES_MAX
    reads g
    ensures |r| == ROW_MAX
  {
    seq(ROW_MAX, j requires 0 <= j < ROW_MAX reads g => g[i, j])
  }

  /** Fill a row with zeros, then copy the data in; refused if no NUL would be left. */
  method UpdateMetadata(data: seq<byte>, g: Grid, i: nat) returns (ok: bool)
    requires g.Length0 == STATES_MAX && g.Length1 == ROW_MAX && i < STATES_MAX
    modifies g
    ensures ok <==> |data| < ROW_MAX
    ensures ok ==> Row(g, i) == Padded(data, ROW_MAX)
    ensures forall k :: 0 <= k < STATES_MAX && (k != i || !ok) ==> Row(g, k) == old(Row(g, k))
  {
    ok := |data| < ROW_MAX;
    if !ok {
      return;
    }
    var j := 0;
    while j < ROW_MAX
      invariant 0 <= j <= ROW_MAX
      invariant forall k :: 0 <= k < j ==> g[i, k] == 0
      invariant forall k, l :: 0 <= k < STATES_MAX && 0 <= l < ROW_MAX && k != i ==> g[k, l] == old(g[k, l])
    {
      g[i, j] := 0;
      j := j + 1;
    }
    j := 0;
    while j < |data|
      invariant 0 <= j <= |data|
      invariant forall k :: 0 <= k < j ==> g[i, k] == data[k]
      invariant forall k :: j <= k < ROW_MAX ==> g[i, k] == 0
      invariant forall k, l :: 0 <= k < STATES_MAX && 0 <= l < ROW_MAX && k != i ==> g[k, l] == old(g[k, l])
    {
      g[i, j] := data[j];
      j := j + 1;
    }
  }

  method NewGrid() returns (g: Grid)
    ensures fresh(g) && g.Length0 == STATES_MAX && g.Length1 == ROW_MAX
    ensures forall i :: 0 <= i < STATES_MAX ==> Row(g, i) == Zeros(ROW_MAX)
  {
    g := new byte[STATES_MAX, ROW_MAX]((_, _) => 0);
  }

  method NewStreams() returns (streams: seq<Stream<Option<Req>>>)
    ensures |streams| == STATES_MAX && fresh(streams)
    ensures forall i, j :: 0 <= i < j < STATES_MAX ==> streams[i] != streams[j]
    ensures forall i :: 0 <= i < STATES_MAX ==>
              streams[i].Valid() && streams[i].size == 2 && streams[i].queue == []
  {
    streams := [];
    while |streams| < STATES_MAX
      invariant |streams| <= STATES_MAX && fresh(streams)
      invariant forall i, j :: 0 <= i < j < |streams| ==> streams[i] != streams[j]
      invariant forall i :: 0 <= i < |streams| ==>
                  streams[i].Valid() && streams[i].size == 2 && streams[i].queue == []
    {
      var s := new Stream<Option<Req>>(STREAM_SIZE);
      streams := streams + [s];
    }
  }

  class BlockwiseData {
    var last: Option<nat>
    var states: seq<Option<nat>>
    const streams: seq<Stream<Option<Req>>>
    const addr: Grid
    const uri: Grid
    const hdr: Grid

    ghost predicate Fits()
      reads this, streams
    {
      && |states| == |streams| == STATES_MAX
      && (forall i, j :: 0 <= i < j < STATES_MAX ==> streams[i] != streams[j])
      && (forall i :: 0 <= i < STATES_MAX ==> streams[i].Valid() && streams[i].size == 2)
      && addr.Length0 == uri.Length0 == hdr.Length0 == STATES_MAX
      && addr.Length1 == uri.Length1 == hdr.Length1 == ROW_MAX
      && addr != uri && addr != hdr && uri != hdr
    }

    ghost function SlotAt(i: nat): Slot
      requires Fits() && i < STATES_MAX
      reads this, addr, uri, hdr, streams
    {
      Slot(states[i], Row(addr, i), Row(uri, i), Row(hdr, i), streams[i].queue)
    }

    ghost function Abs(): Core
      requires Fits()
      reads this, addr, uri, hdr, streams
    {
      Core(last, [SlotAt(0), SlotAt(1), SlotAt(2), SlotAt(3)])
    }

    ghost predicate Valid()
      reads this, addr, uri, hdr, streams
    {
      && Fits()
      && (last.Some? ==> last.value < STATES_MAX)
      && forall i :: 0 <= i < STATES_MAX ==> RowsShaped(SlotAt(i))
    }

    /** Slot idx became s; the other slots and the global index are as they were. */
    twostate predicate Became(idx: nat, s: Slot)
      requires old(Fits()) && idx < STATES_MAX
      reads this, addr, uri, hdr, streams
    {
      && Fits()
      && last == old(last)
      && SlotAt(idx) == s
      && (forall j :: 0 <= j < STATES_MAX && j != idx ==> SlotAt(j) == old(SlotAt(j)))
      && Valid()
    }

    /** Slots that are as they were are still well shaped. */
    twostate lemma StillValid(idx: nat)
      requires old(Valid()) && Fits() && idx < STATES_MAX && RowsShaped(SlotAt(idx))
      requires last == old(last) || last == None || last == Some(idx)
      requires forall j :: 0 <= j < STATES_MAX && j != idx ==> SlotAt(j) == old(SlotAt(j))
      ensures Valid()
    {
      forall i | 0 <= i < STATES_MAX ensures RowsShaped(SlotAt(i)) {
        if i != idx {
          assert old(RowsShaped(SlotAt(i)));
        }
      }
    }

    constructor ()
      ensures Valid() && Abs() == INITIAL
      ensures fresh(addr) && fresh(uri) && fresh(hdr) && fresh(streams)
    {
      last, states := None, [None, None, None, None];
      var a := NewGrid();
      var u := NewGrid();
      var h := NewGrid();
      var sd := NewStreams();
      addr, uri, hdr, streams := a, u, h, sd;
      new;
      assert forall i :: 0 <= i < STATES_MAX ==> SlotAt(i) == FREE_SLOT;
    }

    method UpdateState(idx: nat, a: seq<byte>, u: seq<byte>, h: Option<seq<byte>>) returns (ok: bool)
      requires Valid() && idx < STATES_MAX
      modifies this`states, addr, uri, hdr
      ensures ok <==> Update(old(SlotAt(idx)), a, u, h).Ok?
      ensures ok ==> Became(idx, Update(old(SlotAt(idx)), a, u, h).value)
    {
      ok := false;
      if states[idx].None? {
        return;
      }
      var okA := UpdateMetadata(a, addr, idx);
      if !okA { return; }
      var okU := UpdateMetadata(u, uri, idx);
      if !okU { return; }
      if h.Some? {
        var okH := UpdateMetadata(h.value, hdr, idx);
        if !okH { return; }
        states := states[idx := Some(|h.value|)];
      }
      ok := true;
      assert old(RowsShaped(SlotAt(idx)));
      StillValid(idx);
    }

    /** clear_state, then invalidate_state. */
    method Release(idx: nat) returns (ok: bool)
      requires Valid() && idx < STATES_MAX
      modifies this`states, addr, uri, hdr
      ensures ok <==> Released(old(SlotAt(idx))).Ok?
      ensures ok ==> Became(idx, Released(old(SlotAt(idx))).value)
    {
      ok := UpdateState(idx, [], [], Some([]));
      if ok {
        states := states[idx := None];
        StillValid(idx);
      }
    }

    method Add(idx: nat, item: Option<Req>) returns (ok: bool)
      requires Valid() && idx < STATES_MAX
      requires item.Some? ==> item.value.idx < STATES_MAX
      modifies streams[idx]
      ensures ok <==> Added(old(SlotAt(idx)), item).Ok?
      ensures ok ==> Became(idx, Added(old(SlotAt(idx)), item).value)
    {
      ok := |streams[idx].queue| == 0;
      if ok {
        ok := streams[idx].Add(item);
        assert old(RowsShaped(SlotAt(idx)));
        StillValid(idx);
      }
    }

    method Empty(idx: nat)
      requires Valid() && idx < STATES_MAX
      modifies streams[idx]
      ensures Became(idx, old(SlotAt(idx)).(queue := []))
    {
      assert old(RowsShaped(SlotAt(idx)));
      streams[idx].Empty();
      StillValid(idx);
    }

    method Close(idx: nat) returns (ok: bool)
      requires Valid() && idx < STATES_MAX
      modifies this`states, streams[idx], addr, uri, hdr
      ensures ok <==> Closed(old(SlotAt(idx))).Ok?
      ensures ok ==> Became(idx, Closed(old(SlotAt(idx))).value)
    {
      ok := Release(idx);
      if ok {
        Empty(idx);
        ok := Add(idx, None);
      }
    }

    method Complete(idx: nat) returns (ok: bool)
      requires Valid() && idx < STATES_MAX
      modifies this`states, streams[idx], addr, uri, hdr
      ensures ok <==> Completed(old(SlotAt(idx))).Ok?
      ensures ok ==> Became(idx, Completed(old(SlotAt(idx))).value)
    {
      ok := Release(idx);
      if ok {
        ok := Add(idx, None);
      }
    }

    method Next(idx: nat, a: seq<byte>, u: seq<byte>, h: seq<byte>) returns (ok: bool)
      requires Valid() && idx < STATES_MAX
      modifies streams[idx]
      ensures ok <==> Continued(old(SlotAt(idx)), Req(idx, a, u, Some(h))).Ok?
      ensures ok ==> Became(idx, Continued(old(SlotAt(idx)), Req(idx, a, u, Some(h))).value)
    {
      ok := |h| <= ROW_MAX && |a| <= ROW_MAX && |u| <= ROW_MAX;
      if ok {
        ok := Add(idx, Some(Req(idx, a, u, Some(h))));
      }
    }

    /** find_state_available: the first slot without an owner. */
    method FindAvailable() returns (r: Option<nat>)
      requires Valid()
      ensures r == FirstFree(Abs().slots, 0)
    {
      var i := 0;
      while i < STATES_MAX && states[i].Some?
        invariant 0 <= i <= STATES_MAX
        invariant FirstFree(Abs().slots, 0) == FirstFree(Abs().slots, i)
      {
        i := i + 1;
      }
      r := if i < STATES_MAX then Some(i) else None;
    }

    /** NEW. r is the slot taken, if one was free. */
    method New(a: seq<byte>, u: seq<byte>) returns (ok: bool, r: Option<nat>)
      requires Valid()
      modifies this`states, streams
      ensures r == FirstFree(old(Abs()).slots, 0)
      ensures r.None? ==> ok && Valid() && Abs() == old(Abs())
      ensures r.Some? ==> (ok <==> Opened(old(SlotAt(r.value)), Req(r.value, a, u, None)).Ok?)
      ensures r.Some? && ok ==> Became(r.value, Opened(old(SlotAt(r.value)), Req(r.value, a, u, None)).value)
    {
      ok := true;
      r := FindAvailable();
      if r.Some? {
        var i := r.value;
        states := states[i := Some(0)];
        ok := |a| <= ROW_MAX && |u| <= ROW_MAX;
        if ok {
          Empty(i);
          ok := Add(i, Some(Req(i, a, u, None)));
        }
      }
    }

    /** The stream's poll: hand out the queued item, or leave the task registered. */
    method PollNext(idx: nat, task: nat) returns (item: Option<Option<Req>>)
      requires Valid() && idx < STATES_MAX
      modifies streams[idx]
      ensures item == (if old(SlotAt(idx)).queue == [] then None else Some(old(SlotAt(idx)).queue[0]))
      ensures Became(idx, old(SlotAt(idx)).(queue := if item.None? then [] else old(SlotAt(idx)).queue[1..]))
      ensures item.None? ==> streams[idx].waker == Some(task)
    {
      assert old(RowsShaped(SlotAt(idx)));
      item := streams[idx].PollNext(task);
      StillValid(idx);
    }

    /** The first poll of a request: name its slot and store its metadata, or find that the
        slot was released. */
    method FirstPoll(req: Req) returns (ok: bool, valid: bool)
      requires Valid() && req.idx < STATES_MAX
      modifies this`last, this`states, addr, uri, hdr
      ensures valid <==> old(SlotAt(req.idx)).Busy()
      ensures !valid ==> ok && Valid() && Abs() == old(Abs()).(last := None)
      ensures valid ==> (ok <==> Update(old(SlotAt(req.idx)), req.addr, req.uri, req.hdr).Ok?)
      ensures valid && ok ==>
                && Valid()
                && last == Some(req.idx)
                && SlotAt(req.idx) == Update(old(SlotAt(req.idx)), req.addr, req.uri, req.hdr).value
                && forall j :: 0 <= j < STATES_MAX && j != req.idx ==> SlotAt(j) == old(SlotAt(j))
    {
      ok, valid := true, states[req.idx].Some?;
      assert old(RowsShaped(SlotAt(req.idx)));
      if valid {
        last := Some(req.idx);
        StillValid(req.idx);
        ok := UpdateState(req.idx, req.addr, req.uri, req.hdr);
      } else {
        last := None;
        StillValid(req.idx);
      }
    }

    /** xbd_blockwise_hdr_copy: the stored header goes to the start of the send buffer. A released
        slot or a header longer than the buffer is a panic. */
    method HdrCopy(buf: array<byte>, idx: nat) returns (ok: bool, len: nat)
      requires Valid() && idx < STATES_MAX
      modifies buf
      ensures ok <==> SlotAt(idx).Busy() && states[idx].value <= buf.Length
      ensures ok ==> len == states[idx].value
      ensures ok ==> forall first: seq<byte> :: len > 0 ==> buf[..len] == WireBytes(SlotAt(idx), first)
      ensures ok ==> buf[len..] == old(buf[len..])
      ensures !ok ==> buf[..] == old(buf[..])
    {
      assert RowsShaped(SlotAt(idx));
      ok, len := false, 0;
      if states[idx].None? || buf.Length < states[idx].value {
        return;
      }
      ok, len := true, states[idx].value;
      var j := 0;
      while j < len
        invariant 0 <= j <= len
        invariant forall k :: 0 <= k < j ==> buf[k] == hdr[idx, k]
        invariant buf[len..] == old(buf[len..])
      {
        buf[j] := hdr[idx, j];
        j := j + 1;
      }
      assert buf[..len] == Row(hdr, idx)[..len];
    }
  }

  /** strlen, then a copy of that many bytes. An unterminated row runs off its end. */
  method ReadCString(g: Grid, i: nat) returns (ok: bool, s: seq<byte>)
    requires g.Length0 == STATES_MAX && g.Length1 == ROW_MAX && i < STATES_MAX
    ensures ok <==> 0 in Row(g, i)
    ensures ok ==> s == CString(Row(g, i))
  {
    s := [];
    while |s| < ROW_MAX && g[i, |s|] != 0
      invariant |s| <= ROW_MAX && s == Row(g, i)[..|s|] && 0 !in s
      decreases ROW_MAX - |s|
    {
      s := s + [g[i, |s|]];
    }
    ok := |s| < ROW_MAX;
    if ok {
      assert Row(g, i)[|s|] == 0;
      CStringUnique(Row(g, i), s);
    } else {
      assert s == Row(g, i);
    }
  }

  /** _resp_handler_blockwise_async: the slot is the one the global index names. build is the
      CoAP library's request for the next block of a URI. */
  method HandleBlock2(d: BlockwiseData, b: Block, build: seq<byte> -> seq<byte>) returns (ok: bool)
    requires d.Valid()
    modifies d`states, d.streams, d.addr, d.uri, d.hdr
    ensures ok ==> old(d.last).Some?
    ensures old(d.last).Some? ==>
              var s := old(d.SlotAt(d.last.value));
              var after := OnBlock(s, old(d.last).value, b, build(CString(s.uri)));
              (ok <==> after.Ok?) && (ok ==> d.Became(old(d.last).value, after.value))
  {
    ok := false;
    if d.last.None? {
      return;
    }
    var idx := d.last.value;
    if b.more {
      if d.states[idx].None? {
        return;
      }
      var okA, a := ReadCString(d.addr, idx);
      var okU, u := ReadCString(d.uri, idx);
      if !okA || !okU {
        return;
      }
      if b.num == 0 && |u| == 0 {
        ok := true;
        return;
      }
      ok := d.Next(idx, a, u, build(u));
    } else {
      ok := d.Complete(idx);
    }
  }
}
