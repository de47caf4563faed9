/** downloadPieceFromSession as it runs: a map of outstanding requests, a cursor, a counter and a buffer,
    updated in place. */
module PeerSessions {
  import opened Bytes
  import opened Bitfield
  import opened Layout
  import opened Wire
  import opened Transfer

  /** Piece sizes and indices fit the 32-bit fields of the wire format. */
  predicate FitsWire(t: Torrent) {
    0 < t.pieceLength < 0x1_0000_0000 && |t.hashes| <= 0x1_0000_0000
  }

  /** Go's uint32(n). */
  function Wrap(n: nat): u32 { n % 0x1_0000_0000 }

  function Requests(p: nat, reqs: seq<(nat, nat)>): (ms: seq<Message>)
    ensures |ms| == |reqs|
  {
    seq(|reqs|, i requires 0 <= i < |reqs| => RequestMessage(Wrap(p), Wrap(reqs[i].0), Wrap(reqs[i].1)))
  }

  /** One cancel per block in flight, in any order. */
  ghost predicate IsCancelList(p: nat, inflight: map<nat, nat>, ms: seq<Message>) {
    && |ms| == |inflight|
    && forall off | off in inflight :: CancelMessage(Wrap(p), Wrap(off), Wrap(inflight[off])) in ms
  }

  predicate SendsCancels(r: TransferResult) {
    r == Aborted(CancelledByOther) || r == Aborted(ChokedByPeer)
  }

  /** The builtin copy into a buffer. */
  method CopyInto(buf: array<byte>, off: nat, block: Bytes)
    requires off + |block| <= buf.Length
    modifies buf
    ensures buf[..] == Copied(old(buf[..]), off, block)
  {
    forall k | 0 <= k < |block| { buf[off + k] := block[k]; }
  }

  /** What the session has sent: the requests, then the cancels if the transfer ended with them. */
  ghost predicate OutboxAfter(p: nat, before: seq<Message>, after: seq<Message>, e: Ending) {
    var requests := before + Requests(p, e.x.requested);
    && requests <= after
    && if SendsCancels(e.result) then IsCancelList(p, e.x.inflight, after[|requests|..]) else after == requests
  }

  class PeerSession {
    var bitfield: Bytes
    var inflight: int          // pipelining target, tuned between pieces
    var outbox: seq<Message>   // everything sent so far

    constructor (bitfield: Bytes, inflight: int)
      ensures this.bitfield == bitfield && this.inflight == inflight && outbox == []
    {
      this.bitfield, this.inflight, outbox := bitfield, inflight, [];
    }

    method SendCancels(p: nat, inflight: map<nat, nat>)
      modifies this`outbox
      ensures old(outbox) <= outbox && IsCancelList(p, inflight, outbox[|old(outbox)|..])
    {
      var todo := inflight.Keys;
      ghost var sent: seq<Message> := [];
      while todo != {}
        invariant todo <= inflight.Keys
        invariant outbox == old(outbox) + sent
        invariant |sent| + |todo| == |inflight.Keys|
        invariant forall off | off in inflight && off !in todo ::
                    CancelMessage(Wrap(p), Wrap(off), Wrap(inflight[off])) in sent
      {
        var off :| off in todo;
        var m := CancelMessage(Wrap(p), Wrap(off), Wrap(inflight[off]));
        outbox := outbox + [m];
        sent := sent + [m];
        todo := todo - {off};
      }
    }

    /** The inner loop: keep the pipeline full. x holds the caller's locals, y what they become. */
    method FillPipeline(p: nat, size: nat, sends: nat, pending: map<nat, nat>, nextBegin: nat, ghost x: Xfer)
      returns (pending': map<nat, nat>, nextBegin': nat, sent: bool, ghost y: Xfer)
      requires pending == x.inflight && nextBegin == x.nextBegin <= size
      modifies this`outbox
      ensures (y, sent) == Fill(x, size, Limit(inflight), sends)
      ensures pending' == y.inflight && nextBegin' == y.nextBegin
      ensures x.requested <= y.requested
      ensures outbox == old(outbox) + Requests(p, y.requested[|x.requested|..])
    {
      hide Requests;
      NoRequests(p);
      assert x.requested[|x.requested|..] == [];
      pending', nextBegin', y := pending, nextBegin, x;
      var left := sends;
      var limit := Limit(inflight);
      while |pending'| < limit && nextBegin' < size
        invariant Fill(x, size, limit, sends) == Fill(y, size, limit, left)
        invariant pending' == y.inflight && nextBegin' == y.nextBegin <= size
        invariant x.requested <= y.requested
        invariant outbox == old(outbox) + Requests(p, y.requested[|x.requested|..])
        decreases size - nextBegin'
      {
        var blockLen := BLOCK_SIZE;
        if nextBegin' + blockLen > size {
          blockLen := size - nextBegin';
        }
        if left == 0 {
          sent := false;
          return;
        }
        outbox := outbox + [RequestMessage(Wrap(p), Wrap(nextBegin'), Wrap(blockLen))];
        left := left - 1;
        pending' := pending'[nextBegin' := blockLen];
        nextBegin' := nextBegin' + blockLen;
        ghost var z := Request1(y, size);
        assert z.requested[|x.requested|..] == y.requested[|x.requested|..] + [(y.nextBegin, blockLen)];
        RequestsAppend(p, y.requested[|x.requested|..], (y.nextBegin, blockLen));
        y := z;
      }
      sent := true;
    }

    /** A Piece message; the buffer is written in place. */
    method HandlePiece(p: nat, msg: Message, pieceData: array<byte>, pending: map<nat, nat>, written: nat, ghost x: Xfer)
      returns (pending': map<nat, nat>, written': nat, error: Option<TransferError>, ghost z: Xfer)
      requires p < 0x1_0000_0000 && XferInv(pieceData.Length, x) && msg.id == MSG_PIECE
      requires pending == x.inflight && written == x.written && pieceData[..] == x.buf
      modifies pieceData
      ensures OnMessage(p, bitfield, x, msg) == if error.Some? then Halt(bitfield, error.value) else Continue(bitfield, z)
      ensures error != Some(ChokedByPeer) && error != Some(CancelledByOther)
      ensures pending' == z.inflight && written' == z.written && pieceData[..] == z.buf
      ensures error.Some? ==> z == x
      ensures z.requested == x.requested && z.nextBegin == x.nextBegin
    {
      pending', written', error, z := pending, written, None, x;
      var parsed := ParsePieceMessage(msg.payload);
      if parsed.None? {
        error := Some(BadPieceMessage);
        return;
      }
      var (index, off, block) := parsed.value;
      if index != Wrap(p) || off !in pending {
        return;
      }
      if |block| != pending[off] {
        error := Some(ShortBlock);
        return;
      }
      AcceptPartition(pieceData.Length, x, off, block);
      hide XferInv, ParsePieceMessage;
      CopyInto(pieceData, off, block);
      pending' := pending - {off};
      written' := written + |block|;
      z := Accept(x, off, block);
    }

    method HandleMessage(p: nat, msg: Message, pieceData: array<byte>, pending: map<nat, nat>, written: nat, ghost x: Xfer)
      returns (pending': map<nat, nat>, written': nat, error: Option<TransferError>, ghost z: Xfer)
      requires p < 0x1_0000_0000 && XferInv(pieceData.Length, x)
      requires pending == x.inflight && written == x.written && pieceData[..] == x.buf
      modifies this`bitfield, pieceData
      ensures OnMessage(p, old(bitfield), x, msg)
              == if error.Some? then Halt(bitfield, error.value) else Continue(bitfield, z)
      ensures error != Some(CancelledByOther)
      ensures pending' == z.inflight && written' == z.written && pieceData[..] == z.buf
      ensures error.Some? ==> z == x
      ensures z.requested == x.requested && z.nextBegin == x.nextBegin
    {
      hide XferInv;
      pending', written', error, z := pending, written, None, x;
      if msg.id == MSG_PIECE {
        pending', written', error, z := HandlePiece(p, msg, pieceData, pending, written, x);
      } else if msg.id == MSG_HAVE {
        if |msg.payload| >= 4 {
          bitfield := WithPiece(bitfield, GetU32(msg.payload[..4]));
        }
      } else if msg.id == MSG_BITFIELD {
        bitfield := msg.payload;
        if !HasPiece(bitfield, p) {
          error := Some(MissingPiece);
        }
      } else if msg.id == MSG_CHOKE {
        error := Some(ChokedByPeer);
      }
    }

    method DownloadPiece(c: Config, p: nat, events: seq<Event>) returns (r: TransferResult)
      requires FitsWire(c.t) && p < NumPieces(c)
      modifies this`outbox, this`bitfield
      ensures var e := Fetch(c, p, inflight, old(bitfield), events);
              r == e.result && bitfield == e.bits && OutboxAfter(p, old(outbox), outbox, e)
    {
      hide XferInv, OnMessage, Fill, Fetch, IsCancelList, WithPiece, HasPiece, Run, OutboxAfter, Requests, Limit, Start;
      ghost var e := Fetch(c, p, inflight, bitfield, events);
      var size: nat := PieceLengthAt(c.t, p);
      ghost var x := Start(size);
      FetchUnfold(c, p, inflight, bitfield, events);
      StartFacts(size);
      NoRequests(p);
      if |bitfield| > 0 && !HasPiece(bitfield, p) {
        OutboxPlain(p, old(outbox), outbox, e);
        return Aborted(MissingPiece);
      }
      var pieceData := new byte[size](_ => 0);
      var pending: map<nat, nat>, nextBegin: nat, written: nat, now: nat := map[], 0, 0, 0;
      StartInv(size);
      assert pieceData[..] == Zeros(size);
      while written < size
        invariant now <= |events| && pieceData.Length == size
        invariant x.inflight == pending && x.nextBegin == nextBegin && x.written == written && x.buf == pieceData[..]
        invariant XferInv(size, x)
        invariant e == Run(c, p, inflight, bitfield, x, events[now..])
        invariant outbox == old(outbox) + Requests(p, x.requested)
        decreases |events| - now
      {
        if now == |events| {
          RunOutOfEvents(c, p, inflight, bitfield, x, events);
          OutboxPlain(p, old(outbox), outbox, e);
          return Aborted(ReadFailed);
        }
        var event := events[now];
        RunUnfold(c, p, inflight, bitfield, x, events, now);
        if event.cancel {
          SendCancels(p, pending);
          OutboxCancelled(p, old(outbox), outbox, e);
          return Aborted(CancelledByOther);
        }
        FillInv(x, size, Limit(inflight), event.sends);
        InvBounds(size, x);
        var sent;
        ghost var y;
        pending, nextBegin, sent, y := FillPipeline(p, size, event.sends, pending, nextBegin, x);
        RequestsExtend(p, x.requested, y.requested);
        if !sent {
          OutboxPlain(p, old(outbox), outbox, e);
          return Aborted(SendFailed);
        }
        if event.read.Failed? {
          OutboxPlain(p, old(outbox), outbox, e);
          return Aborted(ReadFailed);
        }
        MessageInv(size, p, bitfield, y, event.read.msg);
        var error;
        pending, written, error, x := HandleMessage(p, event.read.msg, pieceData, pending, written, y);
        if error.Some? {
          if error.value == ChokedByPeer {
            SendCancels(p, pending);
            OutboxCancelled(p, old(outbox), outbox, e);
          } else {
            OutboxPlain(p, old(outbox), outbox, e);
          }
          return Aborted(error.value);
        }
        now := now + 1;
      }
      RunFinished(c, p, inflight, bitfield, x, events[now..]);
      OutboxPlain(p, old(outbox), outbox, e);
      if c.sha1(pieceData[..]) != c.t.hashes[p] {
        return Aborted(HashMismatch);
      }
      return Fetched(pieceData[..]);
    }
  }

  lemma FetchUnfold(c: Config, p: nat, target: int, bits: Bytes, events: seq<Event>)
    requires c.t.pieceLength > 0 && p < NumPieces(c)
    ensures var x := Start(PieceLengthAt(c.t, p));
            Fetch(c, p, target, bits, events)
            == if |bits| > 0 && !HasPiece(bits, p) then Ending(Aborted(MissingPiece), bits, x)
               else Run(c, p, target, bits, x, events[0..])
  {
    assert events[0..] == events;
  }

  lemma StartFacts(size: nat)
    ensures var x := Start(size);
            x.inflight == map[] && x.nextBegin == 0 && x.written == 0 && x.buf == Zeros(size) && x.requested == []
  {
  }

  lemma NoRequests(p: nat)
    ensures Requests(p, []) == []
  {
  }

  lemma OutboxPlain(p: nat, before: seq<Message>, after: seq<Message>, e: Ending)
    requires after == before + Requests(p, e.x.requested) && !SendsCancels(e.result)
    ensures OutboxAfter(p, before, after, e)
  {
  }

  lemma OutboxCancelled(p: nat, before: seq<Message>, after: seq<Message>, e: Ending)
    requires SendsCancels(e.result)
    requires var requests := before + Requests(p, e.x.requested);
             requests <= after && IsCancelList(p, e.x.inflight, after[|requests|..])
    ensures OutboxAfter(p, before, after, e)
  {
  }

  lemma RunFinished(c: Config, p: nat, target: int, bits: Bytes, x: Xfer, events: seq<Event>)
    requires c.t.pieceLength > 0 && p < NumPieces(c) && x.written >= PieceLengthAt(c.t, p)
    ensures Run(c, p, target, bits, x, events)
            == Ending(if c.sha1(x.buf) == c.t.hashes[p] then Fetched(x.buf) else Aborted(HashMismatch), bits, x)
  {
  }

  lemma RunOutOfEvents(c: Config, p: nat, target: int, bits: Bytes, x: Xfer, events: seq<Event>)
    requires c.t.pieceLength > 0 && p < NumPieces(c) && x.written < PieceLengthAt(c.t, p)
    ensures Run(c, p, target, bits, x, events[|events|..]) == Ending(Aborted(ReadFailed), bits, x)
  {
  }

  /** One iteration of the transfer loop. */
  lemma RunUnfold(c: Config, p: nat, target: int, bits: Bytes, x: Xfer, events: seq<Event>, now: nat)
    requires c.t.pieceLength > 0 && p < NumPieces(c) && x.written < PieceLengthAt(c.t, p) && now < |events|
    ensures var e, event := Run(c, p, target, bits, x, events[now..]), events[now];
            var (y, sent) := Fill(x, PieceLengthAt(c.t, p), Limit(target), event.sends);
            if event.cancel then e == Ending(Aborted(CancelledByOther), bits, x)
            else if !sent then e == Ending(Aborted(SendFailed), bits, y)
            else if event.read.Failed? then e == Ending(Aborted(ReadFailed), bits, y)
            else
              match OnMessage(p, bits, y, event.read.msg)
              case Halt(bits', error) => e == Ending(Aborted(error), bits', y)
              case Continue(bits', z) => e == Run(c, p, target, bits', z, events[now + 1..])
  {
    assert events[now..][0] == events[now] && events[now..][1..] == events[now + 1..];
    hide Fill, OnMessage;
  }

  lemma InvBounds(size: nat, x: Xfer)
    requires XferInv(size, x)
    ensures x.nextBegin <= size && |x.buf| == size
  {
  }

  lemma RequestsAppend(p: nat, a: seq<(nat, nat)>, r: (nat, nat))
    ensures Requests(p, a + [r]) == Requests(p, a) + [RequestMessage(Wrap(p), Wrap(r.0), Wrap(r.1))]
  {
  }

  lemma RequestsExtend(p: nat, a: seq<(nat, nat)>, b: seq<(nat, nat)>)
    requires a <= b
    ensures Requests(p, a) + Requests(p, b[|a|..]) == Requests(p, b)
  {
  }
}
