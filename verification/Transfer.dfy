/** Fetching one piece over a session: pipelined block requests answered by an arbitrary message stream. */
module Transfer {
  import opened Bytes
  import opened Bitfield
  import opened Layout
  import opened Wire

  const BLOCK_SIZE := 16384
  const MIN_INFLIGHT := 4
  const MAX_INFLIGHT := 16

  datatype Block = Block(off: nat, data: Bytes)

  /** The locals of downloadPieceFromSession, and two histories: the requests sent and the blocks accepted. */
  datatype Xfer = Xfer(
    inflight: map<nat, nat>,
    nextBegin: nat,
    written: nat,
    buf: Bytes,
    requested: seq<(nat, nat)>,
    received: seq<Block>)

  datatype TransferError =
    | MissingPiece | CancelledByOther | SendFailed | ReadFailed | BadPieceMessage | ShortBlock | ChokedByPeer | HashMismatch

  datatype TransferResult = Fetched(data: Bytes) | Aborted(error: TransferError)

  /** What the outside world does during one iteration: whether the cancel channel has a signal, how many sends
      succeed, and what the read returns. */
  datatype Event = Event(cancel: bool, sends: nat, read: ReadResult)

  function Limit(target: int): (limit: nat)
    ensures MIN_INFLIGHT <= limit <= MAX_INFLIGHT
  {
    if target < MIN_INFLIGHT then MIN_INFLIGHT else if target > MAX_INFLIGHT then MAX_INFLIGHT else target
  }

  function BlockLen(size: nat, begin: nat): nat
    requires begin <= size
  {
    if begin + BLOCK_SIZE > size then size - begin else BLOCK_SIZE
  }

  function Start(size: nat): Xfer {
    Xfer(map[], 0, 0, Zeros(size), [], [])
  }

  function Request1(x: Xfer, size: nat): Xfer
    requires x.nextBegin < size
  {
    var len := BlockLen(size, x.nextBegin);
    x.(inflight := x.inflight[x.nextBegin := len], nextBegin := x.nextBegin + len,
       requested := x.requested + [(x.nextBegin, len)])
  }

  /** Requests until the pipeline is full, the piece is fully requested, or a send fails. */
  function Fill(x: Xfer, size: nat, limit: nat, sends: nat): (Xfer, bool)
    decreases sends, if x.nextBegin <= size then size - x.nextBegin else 0
  {
    if |x.inflight| >= limit || x.nextBegin >= size then (x, true)
    else if sends == 0 then (x, false)
    else Fill(Request1(x, size), size, limit, sends - 1)
  }

  /** copy(dst[off:], block) for a block that fits. */
  function Copied(buf: Bytes, off: nat, block: Bytes): (b: Bytes)
    requires off + |block| <= |buf|
    ensures |b| == |buf|
    ensures forall k :: 0 <= k < |b| ==> b[k] == if off <= k < off + |block| then block[k - off] else buf[k]
  {
    buf[..off] + block + buf[off + |block|..]
  }

  datatype Reaction = Continue(bits: Bytes, x: Xfer) | Halt(bits: Bytes, error: TransferError)

  /** One message of the peer. */
  function OnMessage(p: nat, bits: Bytes, x: Xfer, m: Message): Reaction {
    if m.id == MSG_PIECE then
      match ParsePieceMessage(m.payload)
      case None => Halt(bits, BadPieceMessage)
      case Some((index, off, block)) =>
        if index != p || off !in x.inflight then Continue(bits, x)
        else if |block| != x.inflight[off] then Halt(bits, ShortBlock)
        else Continue(bits, Accept(x, off, block))
    else if m.id == MSG_HAVE then
      Continue(if |m.payload| >= 4 then WithPiece(bits, GetU32(m.payload[..4])) else bits, x)
    else if m.id == MSG_BITFIELD then
      if HasPiece(m.payload, p) then Continue(m.payload, x) else Halt(m.payload, MissingPiece)
    else if m.id == MSG_CHOKE then Halt(bits, ChokedByPeer)
    else Continue(bits, x)
  }

  function Accept(x: Xfer, off: nat, block: Bytes): Xfer {
    Xfer(x.inflight - {off}, x.nextBegin, x.written + |block|,
         if off + |block| <= |x.buf| then Copied(x.buf, off, block) else x.buf,
         x.requested, x.received + [Block(off, block)])
  }

  /** How a transfer ended: result, session bitfield, and the locals at that point. */
  datatype Ending = Ending(result: TransferResult, bits: Bytes, x: Xfer)

  /** The transfer from state x on, for a given sequence of events; no more events means the connection is gone. */
  function Run(c: Config, p: nat, target: int, bits: Bytes, x: Xfer, events: seq<Event>): Ending
    requires c.t.pieceLength > 0 && p < NumPieces(c)
    decreases events
  {
    var size := PieceLengthAt(c.t, p);
    if x.written >= size then
      Ending(if c.sha1(x.buf) == c.t.hashes[p] then Fetched(x.buf) else Aborted(HashMismatch), bits, x)
    else if events == [] then Ending(Aborted(ReadFailed), bits, x)
    else if events[0].cancel then Ending(Aborted(CancelledByOther), bits, x)
    else
      var (y, sent) := Fill(x, size, Limit(target), events[0].sends);
      if !sent then Ending(Aborted(SendFailed), bits, y)
      else
        match events[0].read
        case Failed(_) => Ending(Aborted(ReadFailed), bits, y)
        case Received(m) =>
          match OnMessage(p, bits, y, m)
          case Halt(bits', e) => Ending(Aborted(e), bits', y)
          case Continue(bits', z) => Run(c, p, target, bits', z, events[1..])
  }

  function Fetch(c: Config, p: nat, target: int, bits: Bytes, events: seq<Event>): Ending
    requires c.t.pieceLength > 0 && p < NumPieces(c)
  {
    var x := Start(PieceLengthAt(c.t, p));
    if |bits| > 0 && !HasPiece(bits, p) then Ending(Aborted(MissingPiece), bits, x)
    else Run(c, p, target, bits, x, events)
  }

  // ----- Invariants -----

  predicate BlockStart(size: nat, off: nat) { off % BLOCK_SIZE == 0 && off < size }

  /** Blocks in flight and blocks received are a partition of what has been requested. */
  ghost predicate Partition(size: nat, x: Xfer) {
    && x.nextBegin <= size
    && (x.nextBegin == size || x.nextBegin % BLOCK_SIZE == 0)
    && (forall off | off in x.inflight ::
          BlockStart(size, off) && off < x.nextBegin && x.inflight[off] == BlockLen(size, off))
    && (forall i :: 0 <= i < |x.received| ==>
          && BlockStart(size, x.received[i].off) && x.received[i].off < x.nextBegin
          && |x.received[i].data| == BlockLen(size, x.received[i].off)
          && x.received[i].off !in x.inflight)
    && (forall i, j :: 0 <= i < j < |x.received| ==> x.received[i].off != x.received[j].off)
    && (forall off: nat :: BlockStart(size, off) && off < x.nextBegin ==> off in x.inflight || off in Offsets(x.received))
  }

  function Offsets(received: seq<Block>): set<nat> {
    set i | 0 <= i < |received| :: received[i].off
  }

  /** The buffer holds every received block at its place. */
  ghost predicate Assembled(size: nat, x: Xfer) {
    && |x.buf| == size
    && forall i :: 0 <= i < |x.received| ==>
         && x.received[i].off + |x.received[i].data| <= size
         && x.buf[x.received[i].off..x.received[i].off + |x.received[i].data|] == x.received[i].data
  }

  /** Bytes of the blocks of offs among the first n blocks of the piece. */
  function BytesOf(size: nat, offs: set<nat>, n: nat): nat {
    if n == 0 then 0
    else
      var off := (n - 1) * BLOCK_SIZE;
      BytesOf(size, offs, n - 1) + (if off in offs && off <= size then BlockLen(size, off) else 0)
  }

  function NumBlocks(size: nat): nat { (size + BLOCK_SIZE - 1) / BLOCK_SIZE }

  ghost predicate XferInv(size: nat, x: Xfer) {
    && Partition(size, x)
    && Assembled(size, x)
    && x.written == BytesOf(size, Offsets(x.received), NumBlocks(size))
    && |x.inflight| <= MAX_INFLIGHT
  }

  lemma {:induction false} BytesOfAdd(size: nat, offs: set<nat>, off: nat, n: nat)
    requires BlockStart(size, off) && off !in offs
    ensures BytesOf(size, offs + {off}, n) == BytesOf(size, offs, n) + (if off < n * BLOCK_SIZE then BlockLen(size, off) else 0)
  {
    if n > 0 { BytesOfAdd(size, offs, off, n - 1); }
  }

  lemma {:induction false} BytesOfAll(size: nat, offs: set<nat>, n: nat)
    requires n <= NumBlocks(size)
    ensures BytesOf(size, offs, n) <= if n * BLOCK_SIZE <= size then n * BLOCK_SIZE else size
    ensures (forall off: nat :: BlockStart(size, off) && off < n * BLOCK_SIZE ==> off in offs)
            <==> BytesOf(size, offs, n) == if n * BLOCK_SIZE <= size then n * BLOCK_SIZE else size
  {
    if n > 0 {
      BytesOfAll(size, offs, n - 1);
      var last := (n - 1) * BLOCK_SIZE;
      assert BlockStart(size, last);
      forall off: nat | BlockStart(size, off) && off < n * BLOCK_SIZE ensures off < (n - 1) * BLOCK_SIZE || off == last {
        assert off == off / BLOCK_SIZE * BLOCK_SIZE;
      }
    }
  }

  /** All bytes are in exactly when every block has been received, each exactly once. */
  lemma CompleteIff(size: nat, x: Xfer)
    requires XferInv(size, x)
    ensures x.written <= size
    ensures x.written == size <==> forall off: nat :: BlockStart(size, off) ==> off in Offsets(x.received)
  {
    BytesOfAll(size, Offsets(x.received), NumBlocks(size));
  }

  lemma StartInv(size: nat)
    ensures XferInv(size, Start(size))
  {
    NothingReceived(size, NumBlocks(size));
    assert Offsets([]) == {};
  }

  lemma {:induction false} NothingReceived(size: nat, n: nat)
    ensures BytesOf(size, {}, n) == 0
  {
    if n > 0 { NothingReceived(size, n - 1); }
  }

  lemma {:induction false} FillInv(x: Xfer, size: nat, limit: nat, sends: nat)
    requires XferInv(size, x) && limit <= MAX_INFLIGHT
    ensures var (y, ok) := Fill(x, size, limit, sends);
            && XferInv(size, y) && y.received == x.received && y.buf == x.buf && y.written == x.written
            && (ok ==> |y.inflight| >= limit || y.nextBegin == size)
    decreases sends
  {
    if |x.inflight| < limit && x.nextBegin < size && sends > 0 {
      RequestInv(x, size);
      FillInv(Request1(x, size), size, limit, sends - 1);
    }
  }

  lemma RequestPartition(x: Xfer, size: nat)
    requires Partition(size, x) && x.nextBegin < size
    ensures Partition(size, Request1(x, size))
  {
    hide Offsets;
    var y := Request1(x, size);
    forall off: nat | BlockStart(size, off) && off < y.nextBegin ensures off in y.inflight || off in Offsets(y.received) {
      if off >= x.nextBegin {
        assert off / BLOCK_SIZE == x.nextBegin / BLOCK_SIZE;
      }
    }
  }

  lemma RequestInv(x: Xfer, size: nat)
    requires XferInv(size, x) && x.nextBegin < size && |x.inflight| < MAX_INFLIGHT
    ensures XferInv(size, Request1(x, size))
  {
    RequestPartition(x, size);
    hide Partition, BytesOf;
  }

  /** After filling, at least one request is outstanding whenever bytes are still missing. */
  lemma SomethingOutstanding(x: Xfer, size: nat, target: int, sends: nat)
    requires XferInv(size, x) && x.written < size
    ensures var (y, ok) := Fill(x, size, Limit(target), sends);
            ok ==> 1 <= |y.inflight| <= MAX_INFLIGHT
  {
    FillInv(x, size, Limit(target), sends);
    var (y, ok) := Fill(x, size, Limit(target), sends);
    if ok && |y.inflight| == 0 {
      assert y.inflight == map[];
      CompleteIff(size, y);
    }
  }

  lemma OffsetsAccept(received: seq<Block>, b: Block)
    ensures Offsets(received + [b]) == Offsets(received) + {b.off}
  {
    var all := received + [b];
    assert forall i :: 0 <= i < |received| ==> all[i] == received[i];
    assert all[|received|].off == b.off;
  }

  lemma AcceptPartition(size: nat, x: Xfer, off: nat, block: Bytes)
    requires Partition(size, x) && off in x.inflight && |block| == x.inflight[off]
    ensures off + |block| <= size && off !in Offsets(x.received)
    ensures Partition(size, Accept(x, off, block))
  {
    var y := Accept(x, off, block);
    OffsetsAccept(x.received, Block(off, block));
    assert off !in Offsets(x.received);
    hide Offsets;
    assert forall i :: 0 <= i < |x.received| ==> y.received[i] == x.received[i];
    forall o: nat | BlockStart(size, o) && o < y.nextBegin ensures o in y.inflight || o in Offsets(y.received) {
      assert o in x.inflight || o in Offsets(x.received);
    }
  }

  lemma AcceptInv(size: nat, x: Xfer, off: nat, block: Bytes)
    requires XferInv(size, x) && off in x.inflight && |block| == x.inflight[off]
    ensures off + |block| <= size
    ensures XferInv(size, Accept(x, off, block))
  {
    AcceptPartition(size, x, off, block);
    OffsetsAccept(x.received, Block(off, block));
    BytesOfAdd(size, Offsets(x.received), off, NumBlocks(size));
    AcceptAssembles(size, x, off, block);
    BlocksFit(size, off);
    assert |x.inflight - {off}| <= |x.inflight|;
  }

  lemma BlocksFit(size: nat, off: nat)
    requires BlockStart(size, off)
    ensures off < NumBlocks(size) * BLOCK_SIZE
  {
  }

  lemma BlocksApart(size: nat, a: nat, b: nat)
    requires BlockStart(size, a) && BlockStart(size, b) && a < b
    ensures a + BlockLen(size, a) <= b
  {
    assert a / BLOCK_SIZE < b / BLOCK_SIZE;
  }

  lemma AcceptAssembles(size: nat, x: Xfer, off: nat, block: Bytes)
    requires XferInv(size, x) && off in x.inflight && |block| == x.inflight[off] && off + |block| <= size
    ensures Assembled(size, Accept(x, off, block))
  {
    var y := Accept(x, off, block);
    forall i | 0 <= i < |y.received|
      ensures var b := y.received[i]; b.off + |b.data| <= size && y.buf[b.off..b.off + |b.data|] == b.data
    {
      if i < |x.received| {
        var b := x.received[i];
        if b.off < off { BlocksApart(size, b.off, off); } else { BlocksApart(size, off, b.off); }
        assert y.buf[b.off..b.off + |b.data|] == x.buf[b.off..b.off + |b.data|];
      }
    }
  }

  lemma MessageInv(size: nat, p: nat, bits: Bytes, x: Xfer, m: Message)
    requires XferInv(size, x)
    ensures var r := OnMessage(p, bits, x, m); r.Continue? ==> XferInv(size, r.x)
  {
    hide XferInv;
    if m.id == MSG_PIECE && ParsePieceMessage(m.payload).Some? {
      var (index, off, block) := ParsePieceMessage(m.payload).value;
      if off in x.inflight && |block| == x.inflight[off] {
        AcceptInv(size, x, off, block);
      }
    }
  }

  lemma {:induction false} RunKeepsInv(c: Config, p: nat, target: int, bits: Bytes, x: Xfer, events: seq<Event>)
    requires c.t.pieceLength > 0 && p < NumPieces(c) && XferInv(PieceLengthAt(c.t, p), x)
    ensures var e := Run(c, p, target, bits, x, events);
            && XferInv(PieceLengthAt(c.t, p), e.x)
            && (e.result.Fetched? ==>
                  && e.result.data == e.x.buf && e.x.written >= PieceLengthAt(c.t, p)
                  && c.sha1(e.x.buf) == c.t.hashes[p])
    decreases events
  {
    hide XferInv, OnMessage, Fill;
    var size := PieceLengthAt(c.t, p);
    if x.written < size && events != [] && !events[0].cancel {
      FillInv(x, size, Limit(target), events[0].sends);
      var (y, sent) := Fill(x, size, Limit(target), events[0].sends);
      if sent && events[0].read.Received? {
        MessageInv(size, p, bits, y, events[0].read.msg);
        var r := OnMessage(p, bits, y, events[0].read.msg);
        if r.Continue? {
          RunKeepsInv(c, p, target, r.bits, r.x, events[1..]);
        }
      }
    }
  }

  /** Whatever the peer sends, data handed over is the whole piece: verified, every block received exactly once,
      and nothing but those blocks in it. */
  lemma FetchedIsWhole(c: Config, p: nat, target: int, bits: Bytes, events: seq<Event>)
    requires c.t.pieceLength > 0 && p < NumPieces(c)
    ensures var e, size := Fetch(c, p, target, bits, events), PieceLengthAt(c.t, p);
            && XferInv(size, e.x)
            && (e.result.Fetched? ==>
                  && Verified(c, p, e.result.data)
                  && e.result.data == e.x.buf
                  && e.x.inflight == map[]
                  && forall off: nat :: BlockStart(size, off) ==> off in Offsets(e.x.received))
  {
    var size := PieceLengthAt(c.t, p);
    StartInv(size);
    if !(|bits| > 0 && !HasPiece(bits, p)) {
      hide Run, Start;
      RunKeepsInv(c, p, target, bits, Start(size), events);
      var e := Run(c, p, target, bits, Start(size), events);
      CompleteIff(size, e.x);
      if e.result.Fetched? { NothingInFlight(size, e.x); }
    }
  }

  lemma NothingInFlight(size: nat, x: Xfer)
    requires XferInv(size, x) && forall off: nat :: BlockStart(size, off) ==> off in Offsets(x.received)
    ensures x.inflight == map[]
  {
    assert forall off | off in x.inflight :: off !in Offsets(x.received);
    assert forall off :: off !in x.inflight;
  }

  // ----- Honest peers -----

  /** Every block received so far is what orig has at that offset. */
  ghost predicate Consistent(orig: Bytes, x: Xfer) {
    forall i :: 0 <= i < |x.received| ==> var b := x.received[i];
      b.off + |b.data| <= |orig| && orig[b.off..b.off + |b.data|] == b.data
  }

  /** Piece messages for p carry bytes of orig, wherever they fall inside it. Anything else is allowed. */
  ghost predicate HonestMessage(p: nat, orig: Bytes, m: Message) {
    m.id == MSG_PIECE && ParsePieceMessage(m.payload).Some? ==>
      var (index, off, block) := ParsePieceMessage(m.payload).value;
      index == p && off + |block| <= |orig| ==> orig[off..off + |block|] == block
  }

  ghost predicate HonestEvents(p: nat, orig: Bytes, events: seq<Event>) {
    forall i :: 0 <= i < |events| && events[i].read.Received? ==> HonestMessage(p, orig, events[i].read.msg)
  }

  lemma MessageConsistent(size: nat, p: nat, orig: Bytes, bits: Bytes, x: Xfer, m: Message)
    requires XferInv(size, x) && |orig| == size && Consistent(orig, x) && HonestMessage(p, orig, m)
    ensures var r := OnMessage(p, bits, x, m); r.Continue? ==> Consistent(orig, r.x)
  {
    hide Consistent, BytesOf, Assembled;
    if m.id == MSG_PIECE && ParsePieceMessage(m.payload).Some? {
      var (index, off, block) := ParsePieceMessage(m.payload).value;
      if index == p && off in x.inflight && |block| == x.inflight[off] {
        AcceptPartition(size, x, off, block);
        AcceptConsistent(orig, x, off, block);
      }
    }
  }

  lemma AcceptConsistent(orig: Bytes, x: Xfer, off: nat, block: Bytes)
    requires Consistent(orig, x) && off + |block| <= |orig| && orig[off..off + |block|] == block
    ensures Consistent(orig, Accept(x, off, block))
  {
    var y := Accept(x, off, block);
    assert forall i :: 0 <= i < |x.received| ==> y.received[i] == x.received[i];
  }

  lemma {:induction false} RunConsistent(c: Config, p: nat, target: int, bits: Bytes, x: Xfer, events: seq<Event>,
                                         orig: Bytes)
    requires c.t.pieceLength > 0 && p < NumPieces(c) && XferInv(PieceLengthAt(c.t, p), x)
    requires |orig| == PieceLengthAt(c.t, p) && Consistent(orig, x) && HonestEvents(p, orig, events)
    ensures Consistent(orig, Run(c, p, target, bits, x, events).x)
    decreases events
  {
    hide XferInv, OnMessage, Fill, HonestMessage;
    var size := PieceLengthAt(c.t, p);
    if x.written < size && events != [] && !events[0].cancel {
      FillInv(x, size, Limit(target), events[0].sends);
      var (y, sent) := Fill(x, size, Limit(target), events[0].sends);
      if sent && events[0].read.Received? {
        MessageInv(size, p, bits, y, events[0].read.msg);
        MessageConsistent(size, p, orig, bits, y, events[0].read.msg);
        var r := OnMessage(p, bits, y, events[0].read.msg);
        if r.Continue? {
          RunConsistent(c, p, target, r.bits, r.x, events[1..], orig);
        }
      }
    }
  }

  lemma CompleteIsOriginal(size: nat, x: Xfer, orig: Bytes)
    requires XferInv(size, x) && x.written == size && |orig| == size && Consistent(orig, x)
    ensures x.buf == orig
  {
    CompleteIff(size, x);
    hide Partition, BytesOf;
    forall k | 0 <= k < size ensures x.buf[k] == orig[k] {
      ByteFromBlock(size, x, orig, k);
    }
  }

  lemma ByteFromBlock(size: nat, x: Xfer, orig: Bytes, k: nat)
    requires XferInv(size, x) && |orig| == size && Consistent(orig, x) && k < size
    requires forall off: nat :: BlockStart(size, off) ==> off in Offsets(x.received)
    ensures x.buf[k] == orig[k]
  {
    hide Partition, Assembled, BytesOf, Consistent;
    var off := k / BLOCK_SIZE * BLOCK_SIZE;
    assert BlockStart(size, off);
    var i :| 0 <= i < |x.received| && x.received[i].off == off;
    BlockHolds(size, x, i, k);
    BlockByte(size, x, orig, i, k);
  }

  lemma BlockHolds(size: nat, x: Xfer, i: nat, k: nat)
    requires Partition(size, x) && i < |x.received| && k < size && x.received[i].off == k / BLOCK_SIZE * BLOCK_SIZE
    ensures x.received[i].off <= k < x.received[i].off + |x.received[i].data|
  {
  }

  lemma BlockByte(size: nat, x: Xfer, orig: Bytes, i: nat, k: nat)
    requires Assembled(size, x) && |orig| == size && Consistent(orig, x)
    requires i < |x.received| && x.received[i].off <= k < x.received[i].off + |x.received[i].data| && k < size
    ensures x.buf[k] == orig[k]
  {
    var b := x.received[i];
    assert x.buf[k] == x.buf[b.off..b.off + |b.data|][k - b.off];
    assert orig[k] == orig[b.off..b.off + |b.data|][k - b.off];
  }

  /** A peer that sends only true blocks of the piece, in any order, with any other traffic, duplicates and
      stale pieces in between, never causes a hash mismatch: what arrives is the piece. */
  lemma HonestPeerDelivers(c: Config, p: nat, target: int, bits: Bytes, events: seq<Event>, orig: Bytes)
    requires c.t.pieceLength > 0 && p < NumPieces(c) && Verified(c, p, orig) && HonestEvents(p, orig, events)
    ensures var r := Fetch(c, p, target, bits, events).result;
            && r != Aborted(HashMismatch)
            && (r.Fetched? ==> r.data == orig)
  {
    var size := PieceLengthAt(c.t, p);
    StartInv(size);
    if !(|bits| > 0 && !HasPiece(bits, p)) {
      RunConsistent(c, p, target, bits, Start(size), events, orig);
      RunKeepsInv(c, p, target, bits, Start(size), events);
      var e := Run(c, p, target, bits, Start(size), events);
      MismatchIsComplete(c, p, target, bits, Start(size), events);
      CompleteIff(size, e.x);
      hide Run, Start, XferInv, Consistent;
      if e.x.written == size {
        CompleteIsOriginal(size, e.x, orig);
      }
    }
  }

  lemma {:induction false} MismatchIsComplete(c: Config, p: nat, target: int, bits: Bytes, x: Xfer, events: seq<Event>)
    requires c.t.pieceLength > 0 && p < NumPieces(c)
    ensures var e := Run(c, p, target, bits, x, events);
            e.result == Aborted(HashMismatch) ==>
              e.x.written >= PieceLengthAt(c.t, p) && c.sha1(e.x.buf) != c.t.hashes[p]
    decreases events
  {
    hide OnMessage, Fill;
    var size := PieceLengthAt(c.t, p);
    if x.written < size && events != [] && !events[0].cancel {
      var (y, sent) := Fill(x, size, Limit(target), events[0].sends);
      if sent && events[0].read.Received? {
        var r := OnMessage(p, bits, y, events[0].read.msg);
        if r.Continue? {
          MismatchIsComplete(c, p, target, r.bits, r.x, events[1..]);
        } else {
          HaltIsNoMismatch(p, bits, y, events[0].read.msg);
        }
      }
    }
  }

  lemma HaltIsNoMismatch(p: nat, bits: Bytes, x: Xfer, m: Message)
    ensures var r := OnMessage(p, bits, x, m); r.Halt? ==> r.error != HashMismatch
  {
  }
}
