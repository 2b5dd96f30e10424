/** The blockwise client against a server that follows section 2.4 of RFC 7959: blocks in
    order, each once, and the body put back together. */
module BlockwiseServer {
  import opened Wrappers
  import opened CBytes
  import opened BlockwiseCore
  import opened BlockwiseRuns

  function Cut(n: nat, size: nat): nat {
    if n <= size then n else size
  }

  /** Block k of a body cut into blocks of sz bytes. */
  function BlockOf(body: seq<byte>, sz: nat, k: nat): seq<byte>
    requires k * sz <= (k + 1) * sz
  {
    body[Cut(k * sz, |body|)..Cut((k + 1) * sz, |body|)]
  }

  lemma BlockEdges(k: nat, sz: nat)
    ensures 0 <= k * sz <= (k + 1) * sz == k * sz + sz
  {
  }

  const SZX_LIMIT: nat := 8    // a three-bit field

  /** The response of a conforming server to the request m. */
  ghost predicate Answers(m: ReqMsg, r: Response, body: seq<byte>, sz: nat) {
    BlockEdges(m.num, sz);
    && r.InBounds()
    && r.memo == MEMO_RESP
    && r.block.Some?
    && r.block.value.num == m.num
    && r.block.value.szx < SZX_LIMIT
    && (r.block.value.more <==> (m.num + 1) * sz < |body|)
    && r.Payload() == BlockOf(body, sz, m.num)
  }

  ghost predicate Follows(p: Parser, log: Log, body: seq<byte>, sz: nat) {
    && |log.resps| <= |log.sent|
    && forall k :: 0 <= k < |log.resps| ==> Answers(p(log.sent[k].pdu), log.resps[k], body, sz)
  }

  /** The number of blocks of a body of n bytes; an empty body is one empty block. */
  function NumBlocks(n: nat, sz: nat): (b: nat)
    requires sz > 0
    ensures b >= 1
  {
    if n <= sz then 1 else 1 + NumBlocks(n - sz, sz)
  }

  lemma {:induction false} NumBlocksIs(n: nat, sz: nat, b: nat)
    requires sz > 0 && b >= 1 && n <= b * sz && (b == 1 || (b - 1) * sz < n)
    ensures NumBlocks(n, sz) == b
  {
    if b <= 1 {
    } else {
      BlockEdges(b - 1, sz);
      BlockEdges(b - 2, sz);
      NumBlocksIs(n - sz, sz, b - 1);
    }
  }

  lemma {:induction false} NumBlocksBounds(n: nat, sz: nat)
    requires sz > 0
    ensures var b := NumBlocks(n, sz); n <= b * sz && (b == 1 || (b - 1) * sz < n)
  {
    if n <= sz {
    } else {
      NumBlocksBounds(n - sz, sz);
      BlockEdges(NumBlocks(n - sz, sz), sz);
      BlockEdges(NumBlocks(n - sz, sz) - 1, sz);
    }
  }

  /** The k-th request of a transfer asks for block k of its own URI, and never for a block
      past the end. */
  lemma {:induction false} BlocksInOrder(p: Parser, t: Transfer, flying: bool, body: seq<byte>, sz: nat, k: nat)
    requires XferOk(p, t, flying) && Follows(p, t.log, body, sz) && sz > 0 && k < |t.log.sent|
    ensures p(t.log.sent[k].pdu).num == k && p(t.log.sent[k].pdu).uri == CString(t.uri)
    ensures t.log.sent[k].addr == CString(t.addr)
    ensures p(t.log.sent[k].pdu).szx < SZX_LIMIT
    ensures k > 0 ==> k * sz < |body|
  {
    hide CString, GotWell;
    assert SentWell(p, t.addr, t.uri, t.log, k);
    if k == 0 {
    } else {
      BlocksInOrder(p, t, flying, body, sz, k - 1);
      assert Answers(p(t.log.sent[k - 1].pdu), t.log.resps[k - 1], body, sz);
    }
  }

  /** A transfer that ran to completion asked for every block exactly once. */
  lemma CompleteAsksEveryBlock(p: Parser, t: Transfer, flying: bool, body: seq<byte>, sz: nat)
    requires XferOk(p, t, flying) && Follows(p, t.log, body, sz) && sz > 0
    requires t.phase.Complete? && !flying
    ensures |t.log.sent| == |t.log.resps| == NumBlocks(|body|, sz)
    ensures forall k :: 0 <= k < |t.log.sent| ==> p(t.log.sent[k].pdu).num == k
  {
    hide CString, SentWell, GotWell;
    var n := |t.log.sent|;
    forall k | 0 <= k < n ensures p(t.log.sent[k].pdu).num == k {
      BlocksInOrder(p, t, flying, body, sz, k);
    }
    BlocksInOrder(p, t, flying, body, sz, n - 1);
    assert Answers(p(t.log.sent[n - 1].pdu), t.log.resps[n - 1], body, sz);
    NumBlocksIs(|body|, sz, n);
  }

  // The body.

  function Body(got: seq<Memo>): seq<byte> {
    if got == [] then [] else Body(got[..|got| - 1]) + PayloadOf(got[|got| - 1])
  }

  /** Each follow-up request is no longer than what precedes the payload in the buffer it is
      built in. */
  ghost predicate Clear(t: Transfer) {
    && |t.log.hdrs| == |t.log.resps|
    && forall k :: 0 <= k < |t.log.resps| && NextOf(CString(t.uri), t.log.resps[k]).Some? ==>
         |t.log.hdrs[k]| <= t.log.resps[k].off
  }

  /** Rebuilding the request in the receive buffer spares the payload for every content of
      request and buffer exactly when the request ends before the payload starts, or there
      is no payload. */
  lemma RebuildSparesPayload(length: nat, off: nat, len: nat)
    ensures (forall buf: seq<byte>, hdr: seq<byte> | |hdr| == length <= |buf| && off + len <= |buf| ::
               Overwritten(buf, hdr)[off..off + len] == buf[off..off + len])
            <==> length <= off || len == 0
  {
    if length > off && len > 0 {
      var n := if length < off + len then off + len else length;
      var buf: seq<byte>, hdr: seq<byte> := Zeros(n), seq(length, _ => 1);
      assert Overwritten(buf, hdr)[off..off + len][0] == 1 != buf[off..off + len][0];
    } else {
      forall buf: seq<byte>, hdr: seq<byte> | |hdr| == length <= |buf| && off + len <= |buf|
        ensures Overwritten(buf, hdr)[off..off + len] == buf[off..off + len]
      {
        SparedPayload(buf, hdr, off, len);
      }
    }
  }

  lemma SparedPayload(buf: seq<byte>, hdr: seq<byte>, off: nat, len: nat)
    requires |hdr| <= |buf| && off + len <= |buf| && (|hdr| <= off || len == 0)
    ensures Overwritten(buf, hdr)[off..off + len] == buf[off..off + len]
  {
    if len > 0 {
      var o := Overwritten(buf, hdr);
      assert forall i :: off <= i < off + len ==> o[i] == o[|hdr|..][i - |hdr|] == buf[i];
    }
  }

  /** What the program is given in place of a payload that the follow-up request runs into: the
      bytes of the request that landed there, then what is left of the payload. */
  lemma DeliveredInstead(uri: seq<byte>, r: Response, hdr: seq<byte>)
    requires r.InBounds() && r.Carries() && NextOf(uri, r).Some? && r.off <= |hdr| <= |r.buf|
    ensures var cut := Cut(|hdr|, r.off + r.len);
            Delivered(uri, r, hdr) == hdr[r.off..cut] + r.buf[cut..r.off + r.len]
  {
    var cut := Cut(|hdr|, r.off + r.len);
    var o := Overwritten(r.buf, hdr);
    assert o == hdr + r.buf[|hdr|..];
    assert o[r.off..cut] == hdr[r.off..cut];
    assert o[cut..r.off + r.len] == r.buf[cut..r.off + r.len];
    assert o[r.off..r.off + r.len] == o[r.off..cut] + o[cut..r.off + r.len];
  }

  /** The follow-up request, where it runs into the payload, happens to write the same bytes. */
  predicate Spares(uri: seq<byte>, r: Response, hdr: seq<byte>) {
    NextOf(uri, r).Some? && r.InBounds() && |hdr| <= |r.buf| ==>
      forall i :: r.off <= i < r.off + r.len && i < |hdr| ==> hdr[i] == r.buf[i]
  }

  /** The payload reaches the program if and only if the follow-up request spares it. */
  lemma DeliversExactly(uri: seq<byte>, r: Response, hdr: seq<byte>)
    requires r.InBounds() && r.Carries()
    ensures |Delivered(uri, r, hdr)| == |r.Payload()|
    ensures Delivered(uri, r, hdr) == r.Payload() <==> Spares(uri, r, hdr)
  {
    if NextOf(uri, r).Some? && |hdr| <= |r.buf| {
      var o, n := Overwritten(r.buf, hdr), r.off + r.len;
      forall i | 0 <= i < |o| ensures o[i] == if i < |hdr| then hdr[i] else r.buf[i] {
        assert i >= |hdr| ==> o[i] == o[|hdr|..][i - |hdr|];
      }
      if o[r.off..n] == r.buf[r.off..n] {
        forall i | r.off <= i < n && i < |hdr| ensures hdr[i] == r.buf[i] {
          assert o[r.off..n][i - r.off] == r.buf[r.off..n][i - r.off];
        }
      }
    }
  }

  /** No follow-up of the first n responses damaged a payload. */
  ghost predicate Spared(t: Transfer, n: nat) {
    && n <= |t.log.resps| == |t.log.hdrs|
    && forall k :: 0 <= k < n ==> Spares(CString(t.uri), t.log.resps[k], t.log.hdrs[k])
  }

  /** In particular if each follow-up ends before the payload begins. */
  lemma ClearSpares(t: Transfer)
    requires Clear(t)
    ensures Spared(t, |t.log.resps|)
  {
    hide CString, NextOf;
  }

  lemma JoinExactly(a: seq<byte>, b: seq<byte>, c: seq<byte>, d: seq<byte>)
    requires |a| == |c|
    ensures a + b == c + d <==> a == c && b == d
  {
    if a + b == c + d {
      assert a == (a + b)[..|a|] && c == (c + d)[..|a|];
      assert b == (a + b)[|a|..] && d == (c + d)[|a|..];
    }
  }

  /** The program is given block k, or bytes of its length. */
  lemma GotBlock(p: Parser, t: Transfer, flying: bool, body: seq<byte>, sz: nat, k: nat)
    requires XferOk(p, t, flying) && Follows(p, t.log, body, sz) && sz > 0 && k < |t.log.resps|
    ensures 0 <= k * sz <= (k + 1) * sz
    ensures |PayloadOf(t.log.got[k])| == |BlockOf(body, sz, k)|
    ensures PayloadOf(t.log.got[k]) == BlockOf(body, sz, k) <==> Spares(CString(t.uri), t.log.resps[k], t.log.hdrs[k])
  {
    hide CString, SentWell, BlockOf, NextOf, Delivered, Spares;
    BlocksInOrder(p, t, flying, body, sz, k);
    assert Answers(p(t.log.sent[k].pdu), t.log.resps[k], body, sz);
    DeliversExactly(CString(t.uri), t.log.resps[k], t.log.hdrs[k]);
    assert GotWell(t.uri, t.log, k);
  }

  /** The payloads of the first n responses have the length of the first n blocks, and are these
      blocks if and only if they were spared. */
  lemma {:induction false} PayloadsJoin(p: Parser, t: Transfer, flying: bool, body: seq<byte>, sz: nat, n: nat)
    requires XferOk(p, t, flying) && Follows(p, t.log, body, sz) && sz > 0 && n <= |t.log.resps|
    ensures 0 <= n * sz && |Body(t.log.got[..n])| == Cut(n * sz, |body|)
    ensures Body(t.log.got[..n]) == body[..Cut(n * sz, |body|)] <==> Spared(t, n)
  {
    hide XferOk, Follows, CString, BlockOf, Spares, PayloadOf;
    assert |t.log.got| == |t.log.resps| == |t.log.hdrs| by { LogLengths(p, t, flying); }
    if n == 0 {
    } else {
      var k := n - 1;
      PayloadsJoin(p, t, flying, body, sz, k);
      GotBlock(p, t, flying, body, sz, k);
      assert t.log.got[..n][..k] == t.log.got[..k];
      JoinBlock(body, sz, k);
      JoinExactly(Body(t.log.got[..k]), PayloadOf(t.log.got[k]), body[..Cut(k * sz, |body|)], BlockOf(body, sz, k));
      assert Spared(t, n) <==> Spared(t, k) && Spares(CString(t.uri), t.log.resps[k], t.log.hdrs[k]);
    }
  }

  lemma LogLengths(p: Parser, t: Transfer, flying: bool)
    requires XferOk(p, t, flying)
    ensures |t.log.got| == |t.log.resps| == |t.log.hdrs|
  {
  }

  lemma JoinBlock(body: seq<byte>, sz: nat, k: nat)
    ensures 0 <= k * sz <= (k + 1) * sz
    ensures body[..Cut(k * sz, |body|)] + BlockOf(body, sz, k) == body[..Cut((k + 1) * sz, |body|)]
  {
  }

  /** A completed transfer hands the program as many bytes as the body has, whatever the body and
      whatever the block size, and the body itself if and only if every payload was spared. */
  lemma WholeBody(p: Parser, t: Transfer, body: seq<byte>, sz: nat)
    requires XferOk(p, t, false) && t.phase.Complete? && Follows(p, t.log, body, sz) && sz > 0
    ensures |Body(t.log.got)| == |body|
    ensures Body(t.log.got) == body <==> Spared(t, |t.log.resps|)
  {
    hide CString, SentWell, GotWell, Spares;
    var n := |t.log.resps|;
    CompleteAsksEveryBlock(p, t, false, body, sz);
    NumBlocksBounds(|body|, sz);
    PayloadsJoin(p, t, false, body, sz, n);
    assert t.log.got[..n] == t.log.got;
    assert body[..|body|] == body;
  }
}
