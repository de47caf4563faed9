/** Which event of a transfer decides how it ends, read off the list of events: what has arrived and what is
    outstanding is counted in blocks, without following the loop. */
module TransferCauses {
  import opened Bytes
  import opened Bitfield
  import opened Layout
  import opened Numbers
  import opened PeerSessions
  import opened Wire
  import opened Transfer

  // ----- Reading the list of events -----

  function Blocks(size: nat): nat { (size + 16383) / 16384 }

  /** The length of the block at off. */
  function LengthAt(size: nat, off: nat): int { Min(16384, size - off) }

  /** How many blocks have been asked for once the pipeline is full: as many as fit in it beyond those in got. */
  function Due(size: nat, limit: nat, got: set<nat>): nat {
    if |got| + limit <= Blocks(size) then |got| + limit else Blocks(size)
  }

  /** With the pipeline full, the block at off has been asked for and is not there. */
  predicate Wanted(size: nat, limit: nat, got: set<nat>, off: nat) {
    off % 16384 == 0 && off < size && off < 16384 * (|got| + limit) && off !in got
  }

  predicate Reads(e: Event, id: int) { e.read.Received? && e.read.msg.id == id }

  /** The event brings a Piece message for a block of p that is wanted. */
  predicate Brings(p: nat, size: nat, limit: nat, got: set<nat>, e: Event, off: nat) {
    && Reads(e, 7) && |e.read.msg.payload| >= 8
    && GetU32(e.read.msg.payload[0..4]) == p && GetU32(e.read.msg.payload[4..8]) == off
    && Wanted(size, limit, got, off)
  }

  /** ... and of the right length. */
  predicate Delivers(p: nat, size: nat, limit: nat, got: set<nat>, e: Event, off: nat) {
    Brings(p, size, limit, got, e, off) && |e.read.msg.payload| - 8 == LengthAt(size, off)
  }

  function OffsetIn(e: Event): nat {
    if Reads(e, 7) && |e.read.msg.payload| >= 8 then GetU32(e.read.msg.payload[4..8]) else 0
  }

  /** The blocks that have arrived before event j. */
  function Got(p: nat, size: nat, limit: nat, events: seq<Event>, j: nat): set<nat>
    requires j <= |events|
  {
    if j == 0 then {}
    else
      var got, e := Got(p, size, limit, events, j - 1), events[j - 1];
      if Delivers(p, size, limit, got, e, OffsetIn(e)) then got + {OffsetIn(e)} else got
  }

  /** How many blocks have been asked for before event j. */
  function Asked(p: nat, size: nat, limit: nat, events: seq<Event>, j: nat): nat
    requires j <= |events|
  {
    if j == 0 then 0 else Due(size, limit, Got(p, size, limit, events, j - 1))
  }

  /** The error that event e brings to a transfer that is not complete, if any: the first that applies of a cancel
      signal, a send that fails, a read that fails, a Choke, a Bitfield without p, a Piece message without its header,
      and a wanted block of the wrong length. */
  function Cause(p: nat, size: nat, limit: nat, got: set<nat>, asked: nat, e: Event): Option<TransferError> {
    if e.cancel then Some(CancelledByOther)
    else if asked + e.sends < Due(size, limit, got) then Some(SendFailed)
    else if e.read.Failed? then Some(ReadFailed)
    else if Reads(e, 0) then Some(ChokedByPeer)
    else if Reads(e, 5) && !HasPiece(e.read.msg.payload, p) then Some(MissingPiece)
    else if Reads(e, 7) && |e.read.msg.payload| < 8 then Some(BadPieceMessage)
    else if Brings(p, size, limit, got, e, OffsetIn(e)) && !Delivers(p, size, limit, got, e, OffsetIn(e)) then
      Some(ShortBlock)
    else None
  }

  function CauseAt(p: nat, size: nat, limit: nat, events: seq<Event>, j: nat): Option<TransferError>
    requires j < |events|
  {
    Cause(p, size, limit, Got(p, size, limit, events, j), Asked(p, size, limit, events, j), events[j])
  }

  /** The bitfield known before event j. */
  function Field(bits: Bytes, events: seq<Event>, j: nat): Bytes
    requires j <= |events|
  {
    if j == 0 then bits
    else if Reads(events[j - 1], 5) then events[j - 1].read.msg.payload
    else if Reads(events[j - 1], 4) && |events[j - 1].read.msg.payload| >= 4 then
      WithPiece(Field(bits, events, j - 1), GetU32(events[j - 1].read.msg.payload[0..4]))
    else Field(bits, events, j - 1)
  }

  /** The event is a Have for piece q. */
  predicate Announces(e: Event, q: nat) {
    Reads(e, 4) && |e.read.msg.payload| >= 4 && GetU32(e.read.msg.payload[0..4]) == q
  }

  /** The known pieces are those of the last Bitfield, or of the initial one, and the Haves since. */
  lemma {:induction false} FieldIsLast(bits: Bytes, events: seq<Event>, i: nat, j: nat, q: nat)
    requires i <= j <= |events| && forall k :: i <= k < j ==> !Reads(events[k], 5)
    ensures HasPiece(Field(bits, events, j), q)
            <==> HasPiece(Field(bits, events, i), q) || exists k :: i <= k < j && Announces(events[k], q)
    ensures i > 0 && Reads(events[i - 1], 5) ==> Field(bits, events, i) == events[i - 1].read.msg.payload
    ensures Field(bits, events, 0) == bits
    decreases j
  {
    hide HasPiece, WithPiece;
    if i < j {
      FieldIsLast(bits, events, i, j - 1, q);
      var e := events[j - 1];
      if Reads(e, 4) && |e.read.msg.payload| >= 4 {
        WithPieceExact(Field(bits, events, j - 1), GetU32(e.read.msg.payload[0..4]), q);
      }
    }
  }

  // ----- The loop agrees -----

  function At(size: nat, blocks: nat): nat { if 16384 * blocks <= size then 16384 * blocks else size }

  /** The requests for the first n blocks. */
  function FirstRequests(size: nat, n: nat): seq<(nat, nat)>
    requires n <= Blocks(size)
  {
    seq(n, i requires 0 <= i < n => (16384 * i, Min(16384, size - 16384 * i)))
  }

  ghost predicate Agrees(size: nat, limit: nat, x: Xfer, got: set<nat>, asked: nat) {
    && XferInv(size, x) && Offsets(x.received) == got
    && asked <= Blocks(size) && asked <= |got| + limit
    && x.nextBegin == At(size, asked) && |x.inflight| + |got| == asked
    && x.requested == FirstRequests(size, asked)
  }

  lemma StartAgrees(size: nat, limit: nat)
    ensures Agrees(size, limit, Start(size), {}, 0)
  {
    StartInv(size);
    assert Offsets([]) == {};
  }

  lemma NextBlock(size: nat, asked: nat)
    requires At(size, asked) < size
    ensures asked < Blocks(size) && At(size, asked) == 16384 * asked
    ensures BlockLen(size, 16384 * asked) == LengthAt(size, 16384 * asked)
    ensures At(size, asked + 1) == 16384 * asked + BlockLen(size, 16384 * asked)
  {
  }

  lemma OneMoreRequest(size: nat, asked: nat)
    requires asked < Blocks(size)
    ensures FirstRequests(size, asked + 1) == FirstRequests(size, asked) + [(16384 * asked, LengthAt(size, 16384 * asked))]
  {
  }

  lemma RequestAgrees(size: nat, limit: nat, x: Xfer, got: set<nat>, asked: nat)
    requires Agrees(size, limit, x, got, asked) && |x.inflight| < limit <= 16 && x.nextBegin < size
    ensures Agrees(size, limit, Request1(x, size), got, asked + 1)
  {
    hide XferInv, Offsets, FirstRequests, At, Blocks, BlockLen, LengthAt;
    RequestInv(x, size);
    NewKey(size, x);
    NextBlock(size, asked);
    OneMoreRequest(size, asked);
  }

  lemma NewKey(size: nat, x: Xfer)
    requires XferInv(size, x) && x.nextBegin < size
    ensures x.nextBegin !in x.inflight
  {
  }

  lemma {:induction false} FillAgrees(size: nat, limit: nat, x: Xfer, got: set<nat>, asked: nat, sends: nat)
    requires Agrees(size, limit, x, got, asked) && limit <= 16
    ensures var (y, ok) := Fill(x, size, limit, sends);
            && asked <= Due(size, limit, got)
            && ok == (asked + sends >= Due(size, limit, got))
            && Agrees(size, limit, y, got, if ok then Due(size, limit, got) else asked + sends)
            && y.received == x.received
    decreases sends
  {
    hide XferInv, Offsets, FirstRequests;
    if |x.inflight| < limit && x.nextBegin < size && sends > 0 {
      RequestAgrees(size, limit, x, got, asked);
      FillAgrees(size, limit, Request1(x, size), got, asked + 1, sends - 1);
    }
  }

  /** With the pipeline full, the blocks in flight are the wanted ones. */
  lemma InFlightIsWanted(size: nat, limit: nat, x: Xfer, got: set<nat>, off: nat)
    requires Agrees(size, limit, x, got, Due(size, limit, got))
    ensures off in x.inflight <==> Wanted(size, limit, got, off)
    ensures off in x.inflight ==> x.inflight[off] == LengthAt(size, off)
  {
    hide FirstRequests;
    assert forall i :: 0 <= i < |x.received| ==> x.received[i].off in Offsets(x.received);
    hide Offsets;
    if off in x.inflight {
      assert off !in got by { NotReceived(size, x, off); }
    }
    if Wanted(size, limit, got, off) {
      assert off < x.nextBegin;
      assert BlockStart(size, off);
    }
  }

  lemma NotReceived(size: nat, x: Xfer, off: nat)
    requires XferInv(size, x) && off in x.inflight
    ensures off !in Offsets(x.received)
  {
  }

  lemma AcceptAgrees(size: nat, limit: nat, x: Xfer, got: set<nat>, off: nat, block: Bytes)
    requires Agrees(size, limit, x, got, Due(size, limit, got)) && off in x.inflight && |block| == x.inflight[off]
    ensures Agrees(size, limit, Accept(x, off, block), got + {off}, Due(size, limit, got))
  {
    AcceptInv(size, x, off, block);
    OffsetsAccept(x.received, Block(off, block));
    NotReceived(size, x, off);
    hide XferInv, Offsets, FirstRequests;
  }

  /** All bytes are there exactly when all blocks are. */
  lemma CompleteWithAll(size: nat, limit: nat, x: Xfer, got: set<nat>, asked: nat)
    requires Agrees(size, limit, x, got, asked)
    ensures x.written >= size <==> |got| == Blocks(size)
    ensures |got| <= Blocks(size)
  {
    CompleteIff(size, x);
    hide Offsets, FirstRequests;
    if x.written == size {
      if x.nextBegin < size {
        assert BlockStart(size, x.nextBegin);
        NextNotReceived(size, x);
      }
      if off :| off in x.inflight { NotReceived(size, x, off); }
      assert x.inflight == map[];
    }
    if |got| == Blocks(size) {
      assert x.inflight == map[];
    }
  }

  lemma NextNotReceived(size: nat, x: Xfer)
    requires XferInv(size, x)
    ensures x.nextBegin !in Offsets(x.received)
  {
  }

  // ----- One message -----

  /** A message that brings a wanted block in full is taken in; one with a cause ends the transfer; no other changes
      more than the bitfield. */
  lemma MessageAgrees(p: nat, size: nat, limit: nat, bits: Bytes, x: Xfer, got: set<nat>, asked: nat, e: Event)
    requires Agrees(size, limit, x, got, Due(size, limit, got)) && e.read.Received?
    requires !e.cancel && asked + e.sends >= Due(size, limit, got)
    ensures var r, cause := OnMessage(p, bits, x, e.read.msg), Cause(p, size, limit, got, asked, e);
            match cause
            case Some(error) => r.Halt? && r.error == error
            case None =>
              r.Continue? && r.x == if Delivers(p, size, limit, got, e, OffsetIn(e))
                                    then Accept(x, OffsetIn(e), e.read.msg.payload[8..]) else x
  {
    InFlightIsWanted(size, limit, x, got, OffsetIn(e));
    hide Agrees, Wanted, Due, HasPiece, WithPiece, Accept;
  }

  /** The bitfield after a message. */
  lemma MessageBits(p: nat, bits: Bytes, x: Xfer, events: seq<Event>, start: Bytes, j: nat)
    requires j < |events| && events[j].read.Received? && bits == Field(start, events, j)
    ensures OnMessage(p, bits, x, events[j].read.msg).bits == Field(start, events, j + 1)
  {
    hide HasPiece, WithPiece, Accept, ParsePieceMessage;
  }

  // ----- The whole transfer -----

  /** x is the loop's state before event j. */
  ghost predicate Before(p: nat, size: nat, limit: nat, start: Bytes, events: seq<Event>, j: nat, bits: Bytes, x: Xfer)
    requires j <= |events|
  {
    && Agrees(size, limit, x, Got(p, size, limit, events, j), Asked(p, size, limit, events, j))
    && bits == Field(start, events, j)
  }

  /** Block off, with these bytes, is among the received. */
  ghost predicate Holds(x: Xfer, off: nat, data: Bytes) {
    exists i :: 0 <= i < |x.received| && x.received[i] == Block(off, data)
  }

  /** An event without a cause takes the loop one event further. */
  lemma Iterates(c: Config, p: nat, target: int, start: Bytes, events: seq<Event>, j: nat, bits: Bytes, x: Xfer)
    returns (bits': Bytes, x': Xfer)
    requires c.t.pieceLength > 0 && p < NumPieces(c) && j < |events|
    requires var size, limit := PieceLengthAt(c.t, p), Limit(target);
             && Before(p, size, limit, start, events, j, bits, x)
             && |Got(p, size, limit, events, j)| < Blocks(size) && CauseAt(p, size, limit, events, j) == None
    ensures Before(p, PieceLengthAt(c.t, p), Limit(target), start, events, j + 1, bits', x')
    ensures Run(c, p, target, bits, x, events[j..]) == Run(c, p, target, bits', x', events[j + 1..])
    ensures x.received <= x'.received
    ensures var got := Got(p, PieceLengthAt(c.t, p), Limit(target), events, j);
            Delivers(p, PieceLengthAt(c.t, p), Limit(target), got, events[j], OffsetIn(events[j])) ==>
              Holds(x', OffsetIn(events[j]), events[j].read.msg.payload[8..])
  {
    var size, limit, e := PieceLengthAt(c.t, p), Limit(target), events[j];
    var got, asked := Got(p, size, limit, events, j), Asked(p, size, limit, events, j);
    CompleteWithAll(size, limit, x, got, asked);
    FillAgrees(size, limit, x, got, asked, e.sends);
    var y := Fill(x, size, limit, e.sends).0;
    hide Agrees, Due, Delivers, Fill, OnMessage, Field, Limit, PieceLengthAt, Wanted, Brings, HasPiece;
    MessageAgrees(p, size, limit, bits, y, got, asked, e);
    MessageBits(p, bits, y, events, start, j);
    var r := OnMessage(p, bits, y, e.read.msg);
    bits', x' := r.bits, r.x;
    if Delivers(p, size, limit, got, e, OffsetIn(e)) {
      DeliveredInFlight(p, size, limit, y, got, e);
      AcceptAgrees(size, limit, y, got, OffsetIn(e), e.read.msg.payload[8..]);
      assert x'.received[|y.received|] == Block(OffsetIn(e), e.read.msg.payload[8..]);
    }
    assert events[j..][0] == e && events[j..][1..] == events[j + 1..];
  }

  lemma DeliveredInFlight(p: nat, size: nat, limit: nat, x: Xfer, got: set<nat>, e: Event)
    requires Agrees(size, limit, x, got, Due(size, limit, got)) && Delivers(p, size, limit, got, e, OffsetIn(e))
    ensures OffsetIn(e) in x.inflight && |e.read.msg.payload[8..]| == x.inflight[OffsetIn(e)]
  {
    InFlightIsWanted(size, limit, x, got, OffsetIn(e));
    hide Agrees, Wanted, Due;
  }

  /** The transfer gets as far as event j: no event before it has a cause, and some block is missing up to there. */
  ghost predicate Undecided(p: nat, size: nat, limit: nat, events: seq<Event>, j: nat)
    requires j <= |events|
  {
    forall i :: 0 <= i < j ==> |Got(p, size, limit, events, i)| < Blocks(size) && CauseAt(p, size, limit, events, i) == None
  }

  lemma {:induction false} GetsTo(c: Config, p: nat, target: int, start: Bytes, events: seq<Event>, j: nat)
    returns (bits: Bytes, x: Xfer)
    requires c.t.pieceLength > 0 && p < NumPieces(c) && j <= |events| && (start == [] || HasPiece(start, p))
    requires Undecided(p, PieceLengthAt(c.t, p), Limit(target), events, j)
    ensures Before(p, PieceLengthAt(c.t, p), Limit(target), start, events, j, bits, x)
    ensures Fetch(c, p, target, start, events) == Run(c, p, target, bits, x, events[j..])
    ensures forall i :: 0 <= i < j ==> InPlace(p, PieceLengthAt(c.t, p), Limit(target), events, i, x)
  {
    hide Fetch, Run, Limit, PieceLengthAt, Before, CauseAt, Holds, HasPiece, Undecided, InPlace, Got, Delivers, OffsetIn;
    var size, limit := PieceLengthAt(c.t, p), Limit(target);
    if j == 0 {
      bits, x := Begins(c, p, target, start, events);
    } else {
      Sooner(p, size, limit, events, j);
      bits, x := GetsTo(c, p, target, start, events, j - 1);
      var y := x;
      bits, x := Iterates(c, p, target, start, events, j - 1, bits, y);
      forall i | 0 <= i < j ensures InPlace(p, size, limit, events, i, x) {
        if i < j - 1 { StaysInPlace(p, size, limit, events, i, y, x); }
        else { NowInPlace(p, size, limit, events, i, x); }
      }
    }
  }

  lemma Begins(c: Config, p: nat, target: int, start: Bytes, events: seq<Event>) returns (bits: Bytes, x: Xfer)
    requires c.t.pieceLength > 0 && p < NumPieces(c) && (start == [] || HasPiece(start, p))
    ensures Before(p, PieceLengthAt(c.t, p), Limit(target), start, events, 0, bits, x)
    ensures Fetch(c, p, target, start, events) == Run(c, p, target, bits, x, events[0..])
  {
    hide Run, HasPiece, PieceLengthAt, Limit, Agrees;
    bits, x := start, Transfer.Start(PieceLengthAt(c.t, p));
    StartAgrees(PieceLengthAt(c.t, p), Limit(target));
    assert events[0..] == events;
  }

  lemma Sooner(p: nat, size: nat, limit: nat, events: seq<Event>, j: nat)
    requires 0 < j <= |events| && Undecided(p, size, limit, events, j)
    ensures Undecided(p, size, limit, events, j - 1)
    ensures |Got(p, size, limit, events, j - 1)| < Blocks(size) && CauseAt(p, size, limit, events, j - 1) == None
  {
    hide Got, CauseAt;
  }

  lemma NowInPlace(p: nat, size: nat, limit: nat, events: seq<Event>, i: nat, x: Xfer)
    requires i < |events|
    requires Delivers(p, size, limit, Got(p, size, limit, events, i), events[i], OffsetIn(events[i])) ==>
               Holds(x, OffsetIn(events[i]), events[i].read.msg.payload[8..])
    ensures InPlace(p, size, limit, events, i, x)
  {
    hide Holds, Got, Wanted, OffsetIn;
  }

  /** If event i delivers a block, x has it. */
  ghost predicate InPlace(p: nat, size: nat, limit: nat, events: seq<Event>, i: nat, x: Xfer)
    requires i < |events|
  {
    Delivers(p, size, limit, Got(p, size, limit, events, i), events[i], OffsetIn(events[i])) ==>
      Holds(x, OffsetIn(events[i]), events[i].read.msg.payload[8..])
  }

  lemma StaysInPlace(p: nat, size: nat, limit: nat, events: seq<Event>, i: nat, x: Xfer, y: Xfer)
    requires i < |events| && InPlace(p, size, limit, events, i, x) && x.received <= y.received
    ensures InPlace(p, size, limit, events, i, y)
  {
    hide Wanted, OffsetIn, Got;
    if Delivers(p, size, limit, Got(p, size, limit, events, i), events[i], OffsetIn(events[i])) {
      var off, data := OffsetIn(events[i]), events[i].read.msg.payload[8..];
      var k :| 0 <= k < |x.received| && x.received[k] == Block(off, data);
      assert y.received[k] == Block(off, data);
    }
  }

  /** How many requests have gone out when event j ends the transfer. */
  function SentBy(p: nat, size: nat, limit: nat, events: seq<Event>, j: nat): nat
    requires j < |events|
  {
    var asked := Asked(p, size, limit, events, j);
    if events[j].cancel then asked
    else if asked + events[j].sends < Due(size, limit, Got(p, size, limit, events, j)) then asked + events[j].sends
    else Due(size, limit, Got(p, size, limit, events, j))
  }

  /** One iteration that ends the transfer. */
  lemma Stops(c: Config, p: nat, target: int, start: Bytes, events: seq<Event>, j: nat, bits: Bytes, x: Xfer)
    requires c.t.pieceLength > 0 && p < NumPieces(c) && j < |events|
    requires var size, limit := PieceLengthAt(c.t, p), Limit(target);
             && Before(p, size, limit, start, events, j, bits, x)
             && |Got(p, size, limit, events, j)| < Blocks(size) && CauseAt(p, size, limit, events, j).Some?
    ensures var size, limit := PieceLengthAt(c.t, p), Limit(target);
            var e, cause := Run(c, p, target, bits, x, events[j..]), CauseAt(p, size, limit, events, j).value;
            && e.result == Aborted(cause)
            && e.bits == Field(start, events, if cause == MissingPiece then j + 1 else j)
            && Agrees(size, limit, e.x, Got(p, size, limit, events, j), SentBy(p, size, limit, events, j))
  {
    hide Agrees, Due, Fill, OnMessage, Field, Limit, PieceLengthAt, HasPiece, Got, Asked, Run, Cause, SentBy, Blocks, WithPiece;
    var size, limit, e := PieceLengthAt(c.t, p), Limit(target), events[j];
    var got, asked := Got(p, size, limit, events, j), Asked(p, size, limit, events, j);
    CompleteWithAll(size, limit, x, got, asked);
    FillAgrees(size, limit, x, got, asked, e.sends);
    RunUnfold(c, p, target, bits, x, events, j);
    CauseOrder(p, size, limit, events, j);
    var y := Fill(x, size, limit, e.sends).0;
    if !e.cancel && asked + e.sends >= Due(size, limit, got) && e.read.Received? {
      MessageAgrees(p, size, limit, bits, y, got, asked, e);
      MessageBits(p, bits, y, events, start, j);
      if Cause(p, size, limit, got, asked, e) != Some(MissingPiece) { HaltBits(p, bits, y, e, start, events, j); }
    }
  }

  /** The causes that come before the message is looked at, and the requests sent by then. */
  lemma CauseOrder(p: nat, size: nat, limit: nat, events: seq<Event>, j: nat)
    requires j < |events|
    ensures var e, got, asked := events[j], Got(p, size, limit, events, j), Asked(p, size, limit, events, j);
            var cause, sent, due := Cause(p, size, limit, got, asked, e), SentBy(p, size, limit, events, j), Due(size, limit, got);
            && cause == CauseAt(p, size, limit, events, j)
            && if e.cancel then cause == Some(CancelledByOther) && sent == asked
               else if asked + e.sends < due then cause == Some(SendFailed) && sent == asked + e.sends
               else sent == due && (e.read.Failed? ==> cause == Some(ReadFailed))
  {
    hide Due, Got, Asked, HasPiece, Brings, Delivers;
  }

  lemma HaltBits(p: nat, bits: Bytes, x: Xfer, e: Event, start: Bytes, events: seq<Event>, j: nat)
    requires j < |events| && e == events[j] && e.read.Received? && bits == Field(start, events, j)
    requires OnMessage(p, bits, x, e.read.msg).Halt? && OnMessage(p, bits, x, e.read.msg).error != MissingPiece
    ensures OnMessage(p, bits, x, e.read.msg).bits == Field(start, events, j)
  {
    hide HasPiece, WithPiece, Accept, ParsePieceMessage, Field;
  }

  // ----- What decides -----

  /** A session whose bitfield lacks the piece gives up before it asks for anything. */
  lemma LackingPeerDecides(c: Config, p: nat, target: int, start: Bytes, events: seq<Event>)
    requires c.t.pieceLength > 0 && p < NumPieces(c) && start != [] && !HasPiece(start, p)
    ensures var e := Fetch(c, p, target, start, events);
            e.result == Aborted(MissingPiece) && e.bits == start && e.x.requested == [] && e.x.inflight == map[]
  {
  }

  /** The first event with a cause decides, if a block is still missing then: its own error, the bitfield known by
      then, the requests of the first blocks sent by then, and in flight those of them that have not arrived. */
  lemma CauseDecides(c: Config, p: nat, target: int, start: Bytes, events: seq<Event>, j: nat)
    requires c.t.pieceLength > 0 && p < NumPieces(c) && j < |events| && (start == [] || HasPiece(start, p))
    requires var size, limit := PieceLengthAt(c.t, p), Limit(target);
             && Undecided(p, size, limit, events, j) && |Got(p, size, limit, events, j)| < Blocks(size)
             && CauseAt(p, size, limit, events, j).Some?
    ensures var size, limit := PieceLengthAt(c.t, p), Limit(target);
            var e, cause := Fetch(c, p, target, start, events), CauseAt(p, size, limit, events, j).value;
            var sent := SentBy(p, size, limit, events, j);
            && e.result == Aborted(cause)
            && e.bits == Field(start, events, if cause == MissingPiece then j + 1 else j)
            && sent <= Blocks(size) && e.x.requested == FirstRequests(size, sent)
            && (forall off: nat :: off in e.x.inflight <==>
                  off % 16384 == 0 && off < size && off < 16384 * sent && off !in Got(p, size, limit, events, j))
            && (forall off: nat :: off in e.x.inflight ==> e.x.inflight[off] == LengthAt(size, off))
  {
    hide Fetch, Run, Limit, PieceLengthAt, Agrees, Got, Undecided, CauseAt, SentBy, Field, Before, InPlace;
    var bits, x := GetsTo(c, p, target, start, events, j);
    Stops(c, p, target, start, events, j, bits, x);
    var size, limit := PieceLengthAt(c.t, p), Limit(target);
    var e := Fetch(c, p, target, start, events);
    forall off: nat
      ensures off in e.x.inflight <==>
                off % 16384 == 0 && off < size && off < 16384 * SentBy(p, size, limit, events, j)
                && off !in Got(p, size, limit, events, j)
      ensures off in e.x.inflight ==> e.x.inflight[off] == LengthAt(size, off)
    {
      OutstandingBlocks(size, limit, e.x, Got(p, size, limit, events, j), SentBy(p, size, limit, events, j), off);
    }
    AgreesOnRequests(size, limit, e.x, Got(p, size, limit, events, j), SentBy(p, size, limit, events, j));
  }

  lemma AgreesOnRequests(size: nat, limit: nat, x: Xfer, got: set<nat>, asked: nat)
    requires Agrees(size, limit, x, got, asked)
    ensures asked <= Blocks(size) && x.requested == FirstRequests(size, asked)
  {
  }

  lemma OutstandingBlocks(size: nat, limit: nat, x: Xfer, got: set<nat>, asked: nat, off: nat)
    requires Agrees(size, limit, x, got, asked)
    ensures off in x.inflight <==> off % 16384 == 0 && off < size && off < 16384 * asked && off !in got
    ensures off in x.inflight ==> x.inflight[off] == LengthAt(size, off)
  {
    hide FirstRequests;
    assert forall i :: 0 <= i < |x.received| ==> x.received[i].off in Offsets(x.received);
    hide Offsets;
    if off in x.inflight { NotReceived(size, x, off); }
    if off % 16384 == 0 && off < size && off < 16384 * asked && off !in got {
      assert off < x.nextBegin && BlockStart(size, off);
    }
  }

  /** If all blocks arrive before any cause, the hash decides, on exactly the bytes that the delivering events brought. */
  lemma HashDecides(c: Config, p: nat, target: int, start: Bytes, events: seq<Event>, j: nat)
    requires c.t.pieceLength > 0 && p < NumPieces(c) && j <= |events| && (start == [] || HasPiece(start, p))
    requires var size, limit := PieceLengthAt(c.t, p), Limit(target);
             Undecided(p, size, limit, events, j) && |Got(p, size, limit, events, j)| == Blocks(size)
    ensures var size, limit := PieceLengthAt(c.t, p), Limit(target);
            var e := Fetch(c, p, target, start, events);
            && |e.x.buf| == size
            && e.result == (if c.sha1(e.x.buf) == c.t.hashes[p] then Fetched(e.x.buf) else Aborted(HashMismatch))
            && e.bits == Field(start, events, j)
            && (forall i :: 0 <= i < j ==> Contributes(p, size, limit, events, i, e.x.buf))
  {
    hide Limit, PieceLengthAt, Agrees, Got, Undecided, CauseAt, SentBy, Field, InPlace, Contributes;
    var bits, x := GetsTo(c, p, target, start, events, j);
    var size, limit := PieceLengthAt(c.t, p), Limit(target);
    CompleteWithAll(size, limit, x, Got(p, size, limit, events, j), Asked(p, size, limit, events, j));
    hide Fetch, Asked, Blocks;
    AgreesOnLength(size, limit, x, Got(p, size, limit, events, j), Asked(p, size, limit, events, j));
    forall i | 0 <= i < j ensures Contributes(p, size, limit, events, i, x.buf) {
      PlaceInBuffer(p, size, limit, events, i, x);
    }
  }

  /** If event i delivers a block, buf has its bytes at its place. */
  ghost predicate Contributes(p: nat, size: nat, limit: nat, events: seq<Event>, i: nat, buf: Bytes)
    requires i < |events|
  {
    Delivers(p, size, limit, Got(p, size, limit, events, i), events[i], OffsetIn(events[i])) ==>
      var off, data := OffsetIn(events[i]), events[i].read.msg.payload[8..];
      off + |data| <= |buf| && buf[off..off + |data|] == data
  }

  lemma AgreesOnLength(size: nat, limit: nat, x: Xfer, got: set<nat>, asked: nat)
    requires Agrees(size, limit, x, got, asked)
    ensures |x.buf| == size && XferInv(size, x)
  {
  }

  lemma PlaceInBuffer(p: nat, size: nat, limit: nat, events: seq<Event>, i: nat, x: Xfer)
    requires i < |events| && XferInv(size, x) && InPlace(p, size, limit, events, i, x)
    ensures Contributes(p, size, limit, events, i, x.buf)
  {
    hide Wanted, OffsetIn, Got, Partition, BytesOf, Offsets;
    if Delivers(p, size, limit, Got(p, size, limit, events, i), events[i], OffsetIn(events[i])) {
      var k :| 0 <= k < |x.received| && x.received[k] == Block(OffsetIn(events[i]), events[i].read.msg.payload[8..]);
    }
  }

  /** If the stream ends before either, that is a failed read. */
  lemma EndDecides(c: Config, p: nat, target: int, start: Bytes, events: seq<Event>)
    requires c.t.pieceLength > 0 && p < NumPieces(c) && (start == [] || HasPiece(start, p))
    requires var size, limit := PieceLengthAt(c.t, p), Limit(target);
             Undecided(p, size, limit, events, |events|) && |Got(p, size, limit, events, |events|)| < Blocks(size)
    ensures var e := Fetch(c, p, target, start, events);
            e.result == Aborted(ReadFailed) && e.bits == Field(start, events, |events|)
  {
    hide Limit, PieceLengthAt, Agrees, Got, Undecided, CauseAt, SentBy, Field, InPlace;
    var bits, x := GetsTo(c, p, target, start, events, |events|);
    var size, limit := PieceLengthAt(c.t, p), Limit(target);
    CompleteWithAll(size, limit, x, Got(p, size, limit, events, |events|), Asked(p, size, limit, events, |events|));
    hide Fetch, Asked, Blocks;
    assert events[|events|..] == [];
  }

  /** One of the three always applies to a session that may have the piece. */
  lemma {:induction false} SomethingDecides(p: nat, size: nat, limit: nat, events: seq<Event>, from: nat) returns (j: nat)
    requires from <= |events| && Undecided(p, size, limit, events, from)
    ensures from <= j <= |events| && Undecided(p, size, limit, events, j)
    ensures || |Got(p, size, limit, events, j)| >= Blocks(size)
            || j == |events|
            || CauseAt(p, size, limit, events, j).Some?
    decreases |events| - from
  {
    hide CauseAt, Got;
    j := from;
    if j < |events| && |Got(p, size, limit, events, j)| < Blocks(size) && CauseAt(p, size, limit, events, j) == None {
      j := SomethingDecides(p, size, limit, events, from + 1);
    }
  }

  /** A fetched piece, or a hash mismatch, means that all blocks arrived before any event with a cause. */
  lemma FetchedMeansUndisturbed(c: Config, p: nat, target: int, start: Bytes, events: seq<Event>) returns (j: nat)
    requires c.t.pieceLength > 0 && p < NumPieces(c)
    requires var r := Fetch(c, p, target, start, events).result; r.Fetched? || r == Aborted(HashMismatch)
    ensures var size, limit := PieceLengthAt(c.t, p), Limit(target);
            && j <= |events| && Undecided(p, size, limit, events, j)
            && |Got(p, size, limit, events, j)| == Blocks(size)
  {
    var size, limit := PieceLengthAt(c.t, p), Limit(target);
    if start != [] && !HasPiece(start, p) {
      LackingPeerDecides(c, p, target, start, events);
    }
    hide Fetch, Limit, PieceLengthAt, Got, Undecided, CauseAt, HasPiece, Field, FirstRequests, Contributes, SentBy;
    NothingDecidedYet(p, size, limit, events);
    j := SomethingDecides(p, size, limit, events, 0);
    GotAtMost(c, p, target, start, events, j);
    if |Got(p, size, limit, events, j)| < Blocks(size) {
      if j == |events| {
        EndDecides(c, p, target, start, events);
      } else {
        CauseDecides(c, p, target, start, events, j);
        CauseIsNoMismatch(p, size, limit, events, j);
      }
    }
  }

  lemma NothingDecidedYet(p: nat, size: nat, limit: nat, events: seq<Event>)
    ensures Undecided(p, size, limit, events, 0)
  {
  }

  lemma CauseIsNoMismatch(p: nat, size: nat, limit: nat, events: seq<Event>, j: nat)
    requires j < |events|
    ensures CauseAt(p, size, limit, events, j) != Some(HashMismatch)
  {
    hide Got, Asked, Brings, Delivers, Due, HasPiece;
  }

  lemma GotAtMost(c: Config, p: nat, target: int, start: Bytes, events: seq<Event>, j: nat)
    requires c.t.pieceLength > 0 && p < NumPieces(c) && j <= |events| && (start == [] || HasPiece(start, p))
    requires Undecided(p, PieceLengthAt(c.t, p), Limit(target), events, j)
    ensures |Got(p, PieceLengthAt(c.t, p), Limit(target), events, j)| <= Blocks(PieceLengthAt(c.t, p))
  {
    hide Limit, PieceLengthAt, Agrees, Got, Undecided, CauseAt, Field, InPlace, Fetch, Run, Asked, Blocks;
    var bits, x := GetsTo(c, p, target, start, events, j);
    var size, limit := PieceLengthAt(c.t, p), Limit(target);
    CompleteWithAll(size, limit, x, Got(p, size, limit, events, j), Asked(p, size, limit, events, j));
  }

  // ----- What is sent -----

  /** A session sends the request for the first blocks in order; a cancelled or choked transfer then sends one cancel
      for each block in flight, and no other transfer sends anything more. */
  lemma WhatIsSent(c: Config, p: nat, before: seq<Message>, after: seq<Message>, e: Ending, n: nat)
    requires FitsWire(c.t) && p < NumPieces(c) && n <= Blocks(PieceLengthAt(c.t, p))
    requires e.x.requested == FirstRequests(PieceLengthAt(c.t, p), n) && OutboxAfter(p, before, after, e)
    ensures |after| >= |before| + n && after[..|before|] == before
    ensures forall i :: 0 <= i < n ==>
              var size := PieceLengthAt(c.t, p);
              && 16384 * i < size
              && after[|before| + i] == RequestMessage(p, 16384 * i, Min(16384, size - 16384 * i))
    ensures e.result != Aborted(CancelledByOther) && e.result != Aborted(ChokedByPeer) ==> |after| == |before| + n
    ensures e.result == Aborted(CancelledByOther) || e.result == Aborted(ChokedByPeer) ==>
              && |after| == |before| + n + |e.x.inflight|
              && forall off | off in e.x.inflight && off < 0x1_0000_0000 && e.x.inflight[off] < 0x1_0000_0000 ::
                   CancelMessage(p, off, e.x.inflight[off]) in after[|before| + n..]
  {
    hide PieceLengthAt, RequestMessage, CancelMessage;
    var size := PieceLengthAt(c.t, p);
    var requests := Requests(p, e.x.requested);
    assert |requests| == n;
    forall i | 0 <= i < n
      ensures 16384 * i < size
      ensures after[|before| + i] == RequestMessage(p, 16384 * i, Min(16384, size - 16384 * i))
    {
      RequestNumber(c, p, n, i);
      assert (before + requests)[|before| + i] == requests[i];
    }
  }

  lemma InsidePiece(size: nat, n: nat, i: nat)
    requires i < n <= Blocks(size)
    ensures 16384 * i < size
  {
  }

  lemma RequestNumber(c: Config, p: nat, n: nat, i: nat)
    requires FitsWire(c.t) && p < NumPieces(c) && i < n <= Blocks(PieceLengthAt(c.t, p))
    ensures var size := PieceLengthAt(c.t, p);
            && 16384 * i < size < 0x1_0000_0000
            && Requests(p, FirstRequests(size, n))[i] == RequestMessage(p, 16384 * i, Min(16384, size - 16384 * i))
  {
    hide RequestMessage, PieceLengthAt;
    var size: nat := PieceLengthAt(c.t, p);
    InsidePiece(size, n, i);
    assert FirstRequests(size, n)[i] == (16384 * i, Min(16384, size - 16384 * i));
  }

  /** The pipeline is as deep as the session's target, but at least 4 and at most 16. */
  lemma PipelineDepth(target: int)
    ensures 4 <= Limit(target) <= 16
    ensures 4 <= target <= 16 ==> Limit(target) == target
    ensures target < 4 ==> Limit(target) == 4
    ensures target > 16 ==> Limit(target) == 16
  {
  }
}
