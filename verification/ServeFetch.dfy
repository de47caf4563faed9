/** A downloader fetching a piece from a listener that serves it from a seed store, over an unchoked session
    whose two directions are FIFO channels. */
module ServeFetch {
  import opened Bytes
  import opened Layout
  import opened Wire
  import opened Transfer
  import opened Bitfield
  import opened PeerSessions
  import opened SeedStores
  import Listener

  /** Both ends and the messages under way; qs and ps record which blocks those messages are about. */
  datatype Net = Net(x: Xfer, toServer: seq<Message>, toClient: seq<Message>, qs: seq<nat>, ps: seq<nat>)

  datatype NetStep = ClientRequest | ServerAnswer | ClientReceive

  predicate CanRequest(n: Net, size: nat, limit: nat) {
    |n.x.inflight| < limit && n.x.nextBegin < size
  }

  predicate NetEnabled(n: Net, size: nat, limit: nat, step: NetStep) {
    match step
    case ClientRequest => CanRequest(n, size, limit)
    case ServerAnswer => n.toServer != []
    // The downloader reads only with the pipeline full.
    case ClientReceive => n.toClient != [] && n.x.written < size && !CanRequest(n, size, limit)
  }

  function Request(p: nat, size: nat, off: nat): Message
    requires off <= size
  {
    RequestMessage(Wrap(p), Wrap(off), Wrap(BlockLen(size, off)))
  }

  /** None is a failed transfer. */
  function NetNext(s: SeedStore, n: Net, p: nat, size: nat, limit: nat, step: NetStep): Option<Net>
    requires s.t.pieceLength > 0 && NetEnabled(n, size, limit, step)
  {
    match step
    case ClientRequest =>
      Some(n.(x := Request1(n.x, size), toServer := n.toServer + [Request(p, size, n.x.nextBegin)],
              qs := n.qs + [n.x.nextBegin]))
    case ServerAnswer =>
      var rest := n.(toServer := n.toServer[1..], qs := if n.qs == [] then [] else n.qs[1..]);
      (match Answer(s, n.toServer[0])
       case None => Some(rest)
       case Some(m) => Some(rest.(toClient := n.toClient + [m], ps := n.ps + (if n.qs == [] then [] else [n.qs[0]]))))
    case ClientReceive =>
      match OnMessage(p, [], n.x, n.toClient[0])
      case Halt(_, _) => None
      case Continue(_, y) =>
        Some(n.(x := y, toClient := n.toClient[1..], ps := if n.ps == [] then [] else n.ps[1..]))
  }

  /** The answer to the request for block off. */
  function BlockMessage(p: nat, size: nat, orig: Bytes, off: nat): Message
    requires |orig| == size && off <= size
  {
    PieceMessage(Wrap(p), Wrap(off), orig[off..off + BlockLen(size, off)])
  }

  ghost predicate Serves(s: SeedStore, p: nat, orig: Bytes) {
    && FitsWire(s.t) && p < |s.t.hashes|
    && Has(s, p)
    && 0 <= PieceOffset(s.t, p) && PieceEnd(s.t, p) <= |s.file|
    && orig == PieceBytes(s, p)
  }

  function RequestsFor(p: nat, size: nat, offs: seq<nat>): (ms: seq<Message>)
    requires AllStarts(size, offs)
    ensures |ms| == |offs|
  {
    seq(|offs|, i requires 0 <= i < |offs| => Request(p, size, offs[i]))
  }

  function BlocksFor(p: nat, size: nat, orig: Bytes, offs: seq<nat>): (ms: seq<Message>)
    requires AllStarts(size, offs) && |orig| == size
    ensures |ms| == |offs|
  {
    seq(|offs|, i requires 0 <= i < |offs| => BlockMessage(p, size, orig, offs[i]))
  }

  predicate AllStarts(size: nat, offs: seq<nat>) {
    forall i :: 0 <= i < |offs| ==> BlockStart(size, offs[i])
  }

  /** Every block in flight is either a request under way or an answer under way, with the stored bytes. */
  ghost predicate NetInv(n: Net, p: nat, size: nat, orig: Bytes, limit: nat) {
    && |orig| == size
    && 1 <= limit <= MAX_INFLIGHT
    && XferInv(size, n.x) && Consistent(orig, n.x)
    && AllStarts(size, n.qs) && n.toServer == RequestsFor(p, size, n.qs)
    && AllStarts(size, n.ps) && n.toClient == BlocksFor(p, size, orig, n.ps)
    && Lists(n.ps + n.qs, n.x.inflight)
  }

  lemma RequestsForLaws(p: nat, size: nat, offs: seq<nat>, off: nat)
    requires AllStarts(size, offs) && BlockStart(size, off)
    ensures AllStarts(size, offs + [off])
    ensures RequestsFor(p, size, offs + [off]) == RequestsFor(p, size, offs) + [Request(p, size, off)]
    ensures offs != [] ==>
              && AllStarts(size, offs[1..])
              && RequestsFor(p, size, offs)[0] == Request(p, size, offs[0])
              && RequestsFor(p, size, offs)[1..] == RequestsFor(p, size, offs[1..])
  {
    hide Request, BlockStart;
  }

  lemma BlocksForLaws(p: nat, size: nat, orig: Bytes, offs: seq<nat>, off: nat)
    requires AllStarts(size, offs) && BlockStart(size, off) && |orig| == size
    ensures AllStarts(size, offs + [off])
    ensures BlocksFor(p, size, orig, offs + [off]) == BlocksFor(p, size, orig, offs) + [BlockMessage(p, size, orig, off)]
    ensures offs != [] ==>
              && AllStarts(size, offs[1..])
              && BlocksFor(p, size, orig, offs)[0] == BlockMessage(p, size, orig, offs[0])
              && BlocksFor(p, size, orig, offs)[1..] == BlocksFor(p, size, orig, offs[1..])
  {
    hide BlockMessage, BlockStart;
  }

  /** offs lists the keys of inflight, each once. */
  ghost predicate Lists(offs: seq<nat>, inflight: map<nat, nat>) {
    && (forall i, j :: 0 <= i < j < |offs| ==> offs[i] != offs[j])
    && (forall off :: off in inflight <==> off in offs)
  }

  lemma ListsGrow(offs: seq<nat>, inflight: map<nat, nat>, off: nat, len: nat)
    requires Lists(offs, inflight) && off !in inflight
    ensures Lists(offs + [off], inflight[off := len])
  {
  }

  lemma ListsShrink(offs: seq<nat>, inflight: map<nat, nat>)
    requires Lists(offs, inflight) && offs != []
    ensures offs[0] in inflight && Lists(offs[1..], inflight - {offs[0]})
  {
    assert offs == [offs[0]] + offs[1..];
  }

  lemma AnswerUnfold(s: SeedStore, m: Message, index: u32, begin: u32, length: u32)
    requires s.t.pieceLength > 0 && m.id == MSG_REQUEST && ParseRequestMessage(m.payload) == Some((index, begin, length))
    requires ReadPiece(s, index, begin, length).Some?
    ensures Answer(s, m) == Some(PieceMessage(index, begin, ReadPiece(s, index, begin, length).value))
  {
    hide ParseRequestMessage, ReadPiece, PieceMessage;
  }

  lemma ServesFacts(s: SeedStore, p: nat, orig: Bytes, off: nat)
    requires Serves(s, p, orig) && |orig| == PieceLengthAt(s.t, p)
    ensures s.t.pieceLength > 0 && |orig| < 0x1_0000_0000 && p < 0x1_0000_0000
    ensures BlockStart(|orig|, off) ==>
              && off < 0x1_0000_0000 && 0 < BlockLen(|orig|, off) < 0x1_0000_0000
              && ReadPiece(s, p, off, BlockLen(|orig|, off)) == Some(orig[off..off + BlockLen(|orig|, off)])
  {
    if BlockStart(|orig|, off) { ReadPieceIff(s, p, off, BlockLen(|orig|, off)); }
  }

  lemma WrapSmall(n: nat)
    requires n < 0x1_0000_0000
    ensures Wrap(n) == n
  {
  }

  /** A request of the downloader is always inside the range ReadPiece accepts, and is answered with the block. */
  lemma RequestsAreServed(s: SeedStore, p: nat, orig: Bytes, off: nat)
    requires Serves(s, p, orig) && BlockStart(|orig|, off) && |orig| == PieceLengthAt(s.t, p)
    ensures Answer(s, Request(p, |orig|, off)) == Some(BlockMessage(p, |orig|, orig, off))
  {
    hide Serves, Answer, ReadPiece, RequestMessage, ParseRequestMessage, PieceMessage, PieceLengthAt, BlockLen, Wrap;
    ServesFacts(s, p, orig, off);
    var len := BlockLen(|orig|, off);
    WrapSmall(p);
    WrapSmall(off);
    WrapSmall(len);
    RequestInverse(RequestMessage(p, off, len).payload, p, off, len);
    RequestIsRequest(p, off, len);
    AnswerUnfold(s, RequestMessage(p, off, len), p, off, len);
  }

  lemma RequestIsRequest(index: u32, begin: u32, length: u32)
    ensures RequestMessage(index, begin, length).id == MSG_REQUEST
  {
  }

  lemma PieceIsPiece(index: u32, begin: u32, block: Bytes)
    ensures PieceMessage(index, begin, block).id == MSG_PIECE
  {
  }

  lemma OnPiece(p: nat, bits: Bytes, x: Xfer, m: Message, off: u32, block: Bytes)
    requires p < 0x1_0000_0000 && m.id == MSG_PIECE && ParsePieceMessage(m.payload) == Some((p, off, block))
    requires off in x.inflight && |block| == x.inflight[off]
    ensures OnMessage(p, bits, x, m) == Continue(bits, Accept(x, off, block))
  {
    hide ParsePieceMessage, Accept;
  }

  /** ... and its answer is the block the downloader is waiting for. */
  lemma AnswersAreAccepted(p: nat, size: nat, orig: Bytes, x: Xfer, off: nat)
    requires |orig| == size < 0x1_0000_0000 && p < 0x1_0000_0000
    requires XferInv(size, x) && Consistent(orig, x) && off in x.inflight && BlockStart(size, off)
    ensures var r := OnMessage(p, [], x, BlockMessage(p, size, orig, off));
            && r.Continue? && r.x.inflight == x.inflight - {off} && r.x.nextBegin == x.nextBegin
            && XferInv(size, r.x) && Consistent(orig, r.x)
  {
    hide XferInv, Consistent, OnMessage, PieceMessage, ParsePieceMessage, BlockStart, Wrap;
    FlightFacts(size, x, off);
    WrapSmall(p);
    WrapSmall(off);
    var block := orig[off..off + BlockLen(size, off)];
    AcceptInv(size, x, off, block);
    AcceptConsistent(orig, x, off, block);
    var m := PieceMessage(p, off, block);
    PieceInverse(m.payload, p, off, block);
    PieceIsPiece(p, off, block);
    OnPiece(p, [], x, m, off, block);
  }

  lemma FlightFacts(size: nat, x: Xfer, off: nat)
    requires XferInv(size, x) && off in x.inflight
    ensures BlockStart(size, off) && x.inflight[off] == BlockLen(size, off) && |x.buf| == size
    ensures off < size && off + BlockLen(size, off) <= size
  {
  }

  lemma ClientRequestKeeps(s: SeedStore, n: Net, p: nat, size: nat, orig: Bytes, limit: nat)
    requires s.t.pieceLength > 0 && NetInv(n, p, size, orig, limit) && NetEnabled(n, size, limit, ClientRequest)
    ensures NetInv(NetNext(s, n, p, size, limit, ClientRequest).value, p, size, orig, limit)
  {
    hide XferInv, Lists, Request, RequestsFor, BlocksFor, AllStarts, BlockStart, BlockLen, Answer, OnMessage;
    var m, off := NetNext(s, n, p, size, limit, ClientRequest).value, n.x.nextBegin;
    RequestInv(n.x, size);
    FreshBlock(size, n.x);
    RequestsForLaws(p, size, n.qs, off);
    ListsGrow(n.ps + n.qs, n.x.inflight, off, BlockLen(size, off));
    assert m.ps + m.qs == (n.ps + n.qs) + [off];
  }

  lemma FreshBlock(size: nat, x: Xfer)
    requires XferInv(size, x) && x.nextBegin < size
    ensures BlockStart(size, x.nextBegin) && x.nextBegin !in x.inflight
  {
  }

  lemma ServerAnswerKeeps(s: SeedStore, n: Net, p: nat, size: nat, orig: Bytes, limit: nat)
    requires Serves(s, p, orig) && s.t.pieceLength > 0 && size == PieceLengthAt(s.t, p)
    requires NetInv(n, p, size, orig, limit) && NetEnabled(n, size, limit, ServerAnswer)
    ensures var m := NetNext(s, n, p, size, limit, ServerAnswer).value;
            NetInv(m, p, size, orig, limit) && |m.toClient| == |n.toClient| + 1 && m.x == n.x
  {
    hide XferInv, Serves, Answer, Request, BlockMessage, Lists, Consistent, RequestsFor, BlocksFor, BlockStart, OnMessage, PieceLengthAt;
    var m := NetNext(s, n, p, size, limit, ServerAnswer).value;
    var off := n.qs[0];
    RequestsForLaws(p, size, n.qs, off);
    BlocksForLaws(p, size, orig, n.ps, off);
    RequestsAreServed(s, p, orig, off);
    assert m.ps + m.qs == n.ps + n.qs;
  }

  lemma ClientReceiveKeeps(s: SeedStore, n: Net, p: nat, size: nat, orig: Bytes, limit: nat)
    requires Serves(s, p, orig) && s.t.pieceLength > 0 && size == PieceLengthAt(s.t, p)
    requires NetInv(n, p, size, orig, limit) && NetEnabled(n, size, limit, ClientReceive)
    ensures NetNext(s, n, p, size, limit, ClientReceive).Some?
    ensures var m := NetNext(s, n, p, size, limit, ClientReceive).value;
            NetInv(m, p, size, orig, limit) && m.x.nextBegin == n.x.nextBegin
  {
    hide XferInv, Serves, Answer, OnMessage, Request, BlockMessage, Lists, Consistent, RequestsFor, BlocksFor, BlockStart, PieceLengthAt;
    var off := n.ps[0];
    ServesFacts(s, p, orig, off);
    ListsShrink(n.ps + n.qs, n.x.inflight);
    AnswersAreAccepted(p, size, orig, n.x, off);
    BlocksForLaws(p, size, orig, n.ps, off);
    var m := NetNext(s, n, p, size, limit, ClientReceive).value;
    assert m.ps + m.qs == (n.ps + n.qs)[1..];
  }

  /** What is left to do; every step makes it smaller, so every run comes to an end. */
  function Remaining(n: Net, size: nat): int {
    3 * (size - n.x.nextBegin) + 2 * |n.toServer| + |n.toClient|
  }

  /** The transfer never fails, keeps its invariant and always moves forward. */
  lemma NetStepKeeps(s: SeedStore, n: Net, p: nat, size: nat, orig: Bytes, limit: nat, step: NetStep)
    requires Serves(s, p, orig) && s.t.pieceLength > 0 && size == PieceLengthAt(s.t, p)
    requires NetInv(n, p, size, orig, limit) && NetEnabled(n, size, limit, step)
    ensures NetNext(s, n, p, size, limit, step).Some?
    ensures var m := NetNext(s, n, p, size, limit, step).value;
            NetInv(m, p, size, orig, limit) && 0 <= Remaining(m, size) < Remaining(n, size)
  {
    hide Consistent, Serves;
    match step
    case ClientRequest => ClientRequestKeeps(s, n, p, size, orig, limit);
    case ServerAnswer => ServerAnswerKeeps(s, n, p, size, orig, limit);
    case ClientReceive => ClientReceiveKeeps(s, n, p, size, orig, limit);
  }

  /** Where no step is possible the piece is complete and equals the stored bytes. */
  lemma StuckIsComplete(n: Net, p: nat, size: nat, orig: Bytes, limit: nat)
    requires NetInv(n, p, size, orig, limit)
    requires forall step :: !NetEnabled(n, size, limit, step)
    ensures n.x.written == size && n.x.buf == orig
  {
    assert !NetEnabled(n, size, limit, ClientRequest) && !NetEnabled(n, size, limit, ServerAnswer)
           && !NetEnabled(n, size, limit, ClientReceive);
    CompleteIff(size, n.x);
    assert n.x.written < size ==> n.ps + n.qs == [];
    assert n.ps + n.qs == [] ==> n.x.inflight == map[];
    CompleteIsOriginal(size, n.x, orig);
  }

  /** A complete schedule: steps taken while any is possible. */
  ghost predicate Completes(s: SeedStore, n: Net, p: nat, size: nat, limit: nat, steps: seq<NetStep>, last: Net)
    requires s.t.pieceLength > 0
    decreases steps
  {
    if steps == [] then last == n && forall step :: !NetEnabled(n, size, limit, step)
    else
      && NetEnabled(n, size, limit, steps[0])
      && var m := NetNext(s, n, p, size, limit, steps[0]);
         m.Some? && Completes(s, m.value, p, size, limit, steps[1..], last)
  }

  /** Taking steps while any is possible ends in a complete schedule. */
  lemma {:induction false} ScheduleExists(s: SeedStore, n: Net, p: nat, orig: Bytes, limit: nat)
    returns (steps: seq<NetStep>, last: Net)
    requires Serves(s, p, orig) && s.t.pieceLength > 0 && NetInv(n, p, PieceLengthAt(s.t, p), orig, limit)
    ensures Completes(s, n, p, PieceLengthAt(s.t, p), limit, steps, last)
    decreases Remaining(n, PieceLengthAt(s.t, p))
  {
    hide NetInv, NetEnabled, NetNext, Serves, Remaining;
    var size := PieceLengthAt(s.t, p);
    if step :| NetEnabled(n, size, limit, step) {
      NetStepKeeps(s, n, p, size, orig, limit, step);
      var rest;
      rest, last := ScheduleExists(s, NetNext(s, n, p, size, limit, step).value, p, orig, limit);
      steps := [step] + rest;
    } else {
      steps, last := [], n;
    }
  }

  lemma {:induction false} ScheduleDelivers(s: SeedStore, n: Net, p: nat, orig: Bytes, limit: nat,
                                            steps: seq<NetStep>, last: Net)
    requires Serves(s, p, orig) && NetInv(n, p, PieceLengthAt(s.t, p), orig, limit)
    requires Completes(s, n, p, PieceLengthAt(s.t, p), limit, steps, last)
    ensures last.x.buf == orig && last.x.written == |orig|
    decreases steps
  {
    var size := PieceLengthAt(s.t, p);
    if steps == [] {
      StuckIsComplete(n, p, size, orig, limit);
    } else {
      hide NetInv, NetEnabled, NetNext, Serves;
      NetStepKeeps(s, n, p, size, orig, limit, steps[0]);
      ScheduleDelivers(s, NetNext(s, n, p, size, limit, steps[0]).value, p, orig, limit, steps[1..], last);
    }
  }

  /** Every complete schedule of an unchoked session delivers exactly the stored piece. */
  lemma FetchGetsStoredPiece(s: SeedStore, p: nat, target: int, steps: seq<NetStep>, last: Net)
    requires FitsWire(s.t) && p < |s.t.hashes| && Has(s, p)
    requires 0 <= PieceOffset(s.t, p) && PieceEnd(s.t, p) <= |s.file|
    requires Completes(s, Net(Start(PieceLengthAt(s.t, p)), [], [], [], []), p, PieceLengthAt(s.t, p), Limit(target), steps, last)
    ensures last.x.buf == PieceBytes(s, p)
    ensures |steps| > 0
  {
    var size, orig := PieceLengthAt(s.t, p), PieceBytes(s, p);
    var n := Net(Start(size), [], [], [], []);
    StartInv(size);
    assert NetInv(n, p, size, orig, Limit(target));
    ScheduleDelivers(s, n, p, orig, Limit(target), steps, last);
    assert NetEnabled(n, size, Limit(target), ClientRequest);
  }

  // ----- The client of the network is the transfer loop -----

  /** What the transfer loop sees during a schedule: nothing cancelled, every send done, and the messages received. */
  function Seen(s: SeedStore, n: Net, p: nat, size: nat, limit: nat, steps: seq<NetStep>): seq<Event>
    requires s.t.pieceLength > 0
    decreases |steps|
  {
    if steps == [] || !NetEnabled(n, size, limit, steps[0]) || NetNext(s, n, p, size, limit, steps[0]).None? then []
    else
      (if steps[0].ClientReceive? then [Event(false, size, Received(n.toClient[0]))] else [])
      + Seen(s, NetNext(s, n, p, size, limit, steps[0]).value, p, size, limit, steps[1..])
  }

  lemma {:induction false} SeenIsPlain(s: SeedStore, n: Net, p: nat, size: nat, limit: nat, steps: seq<NetStep>)
    requires s.t.pieceLength > 0
    ensures var events := Seen(s, n, p, size, limit, steps);
            events != [] ==> !events[0].cancel && events[0].sends == size
    decreases |steps|
  {
    hide NetNext, NetEnabled;
    if steps != [] && NetEnabled(n, size, limit, steps[0]) && NetNext(s, n, p, size, limit, steps[0]).Some? {
      SeenIsPlain(s, NetNext(s, n, p, size, limit, steps[0]).value, p, size, limit, steps[1..]);
    }
  }

  /** With sends to spare, filling does not depend on how many there are. */
  lemma {:induction false} FillSpare(x: Xfer, size: nat, limit: nat, a: nat, b: nat)
    requires x.nextBegin <= size && size - x.nextBegin <= a && size - x.nextBegin <= b
    ensures Fill(x, size, limit, a) == Fill(x, size, limit, b) && Fill(x, size, limit, a).1
    decreases size - x.nextBegin
  {
    if |x.inflight| < limit && x.nextBegin < size {
      FillSpare(Request1(x, size), size, limit, a - 1, b - 1);
    }
  }

  lemma RequestThenFill(x: Xfer, size: nat, limit: nat)
    requires |x.inflight| < limit && x.nextBegin < size
    ensures Fill(x, size, limit, size) == Fill(Request1(x, size), size, limit, size)
  {
    FillSpare(Request1(x, size), size, limit, size - 1, size);
  }

  lemma StillMissing(x: Xfer, size: nat)
    requires XferInv(size, x) && x.nextBegin < size
    ensures x.written < size
  {
    CompleteIff(size, x);
    FreshBlock(size, x);
    assert x.nextBegin !in Offsets(x.received);
  }

  /** A request sent between two iterations is one the next iteration would have sent. */
  lemma RunAfterRequest(c: Config, p: nat, target: int, bits: Bytes, x: Xfer, events: seq<Event>)
    requires c.t.pieceLength > 0 && p < NumPieces(c) && events != []
    requires var size := PieceLengthAt(c.t, p);
             && x.written < size && |x.inflight| < Limit(target) && x.nextBegin < size
             && !events[0].cancel && events[0].sends == size
    ensures Run(c, p, target, bits, x, events)
            == Run(c, p, target, bits, Request1(x, PieceLengthAt(c.t, p)), events)
  {
    hide Fill, OnMessage, BlockLen;
    RequestThenFill(x, PieceLengthAt(c.t, p), Limit(target));
  }

  lemma RunAfterReceive(c: Config, p: nat, target: int, bits: Bytes, x: Xfer, y: Xfer, m: Message, events: seq<Event>)
    requires c.t.pieceLength > 0 && p < NumPieces(c)
    requires var size := PieceLengthAt(c.t, p); x.written < size && !(|x.inflight| < Limit(target) && x.nextBegin < size)
    requires OnMessage(p, bits, x, m) == Continue(bits, y)
    ensures Run(c, p, target, bits, x, [Event(false, PieceLengthAt(c.t, p), Received(m))] + events)
            == Run(c, p, target, bits, y, events)
  {
    hide OnMessage;
    var all := [Event(false, PieceLengthAt(c.t, p), Received(m))] + events;
    assert all[1..] == events;
  }

  lemma BitsDoNotMatter(p: nat, bits: Bytes, x: Xfer, m: Message, y: Xfer)
    requires m.id == MSG_PIECE && OnMessage(p, [], x, m).Continue? && OnMessage(p, [], x, m).x == y
    ensures OnMessage(p, bits, x, m) == Continue(bits, y)
  {
    hide ParsePieceMessage, Accept;
  }

  lemma FirstIsPiece(n: Net, p: nat, size: nat, orig: Bytes, limit: nat)
    requires NetInv(n, p, size, orig, limit) && n.toClient != []
    ensures n.toClient[0].id == MSG_PIECE
  {
    hide XferInv, Consistent, Lists;
  }

  ghost function Verdict(c: Config, p: nat, x: Xfer): TransferResult
    requires p < NumPieces(c)
  {
    if c.sha1(x.buf) == c.t.hashes[p] then Fetched(x.buf) else Aborted(HashMismatch)
  }

  /** What a step means for the transfer loop. */
  lemma StepEffect(s: SeedStore, n: Net, m: Net, p: nat, size: nat, limit: nat, steps: seq<NetStep>)
    requires s.t.pieceLength > 0 && steps != [] && NetEnabled(n, size, limit, steps[0])
    requires NetNext(s, n, p, size, limit, steps[0]) == Some(m)
    ensures var rest := Seen(s, m, p, size, limit, steps[1..]);
            match steps[0]
            case ClientRequest =>
              && |n.x.inflight| < limit && n.x.nextBegin < size && m.x == Request1(n.x, size)
              && Seen(s, n, p, size, limit, steps) == rest
            case ServerAnswer => m.x == n.x && Seen(s, n, p, size, limit, steps) == rest
            case ClientReceive =>
              && n.toClient != [] && n.x.written < size && !(|n.x.inflight| < limit && n.x.nextBegin < size)
              && OnMessage(p, [], n.x, n.toClient[0]).Continue? && OnMessage(p, [], n.x, n.toClient[0]).x == m.x
              && Seen(s, n, p, size, limit, steps) == [Event(false, size, Received(n.toClient[0]))] + rest
  {
    hide OnMessage, Answer, Request1, Request;
  }

  /** One step of a schedule, given that the loop ends as wanted from the next point on. */
  lemma StepIsRun(s: SeedStore, c: Config, n: Net, m: Net, p: nat, orig: Bytes, target: int, bits: Bytes,
                  steps: seq<NetStep>, r: TransferResult, y: Xfer)
    requires s.t.pieceLength > 0 && c.t == s.t && p < NumPieces(c) && steps != []
    requires var size, limit := PieceLengthAt(s.t, p), Limit(target);
             && NetInv(n, p, size, orig, limit) && NetInv(m, p, size, orig, limit)
             && NetEnabled(n, size, limit, steps[0]) && NetNext(s, n, p, size, limit, steps[0]) == Some(m)
             && Run(c, p, target, bits, m.x, Seen(s, m, p, size, limit, steps[1..])) == Ending(r, bits, y)
    requires r.Fetched? || r == Aborted(HashMismatch)
    ensures Run(c, p, target, bits, n.x, Seen(s, n, p, PieceLengthAt(s.t, p), Limit(target), steps)) == Ending(r, bits, y)
  {
    hide NetInv, NetNext, NetEnabled, Seen, Run, OnMessage, Request1, Limit, PieceLengthAt;
    var size, limit := PieceLengthAt(s.t, p), Limit(target);
    StepEffect(s, n, m, p, size, limit, steps);
    var rest := Seen(s, m, p, size, limit, steps[1..]);
    SeenIsPlain(s, m, p, size, limit, steps[1..]);
    match steps[0]
    case ClientRequest =>
      HasInv(n, p, size, orig, limit);
      StillMissing(n.x, size);
      RequestKeepsWritten(n.x, size);
      RunNeedsEvents(c, p, target, bits, m.x, rest, r, y);
      RunAfterRequest(c, p, target, bits, n.x, rest);
    case ServerAnswer =>
    case ClientReceive =>
      FirstIsPiece(n, p, size, orig, limit);
      BitsDoNotMatter(p, bits, n.x, n.toClient[0], m.x);
      RunAfterReceive(c, p, target, bits, n.x, m.x, n.toClient[0], rest);
  }

  /** From any point of a schedule on, the loop of the source ends as the schedule does. */
  lemma {:induction false} ScheduleIsRun(s: SeedStore, c: Config, n: Net, p: nat, orig: Bytes, target: int, bits: Bytes,
                                         steps: seq<NetStep>, last: Net)
    requires c.t == s.t && Serves(s, p, orig) && p < NumPieces(c)
    requires NetInv(n, p, PieceLengthAt(s.t, p), orig, Limit(target))
    requires Completes(s, n, p, PieceLengthAt(s.t, p), Limit(target), steps, last)
    ensures Run(c, p, target, bits, n.x, Seen(s, n, p, PieceLengthAt(s.t, p), Limit(target), steps))
            == Ending(Verdict(c, p, last.x), bits, last.x)
    decreases |steps|
  {
    hide NetInv, NetNext, NetEnabled, OnMessage, Limit, PieceLengthAt;
    var size, limit := PieceLengthAt(s.t, p), Limit(target);
    if steps == [] {
      StuckIsComplete(n, p, size, orig, limit);
    } else {
      NetStepKeeps(s, n, p, size, orig, limit, steps[0]);
      var m := NetNext(s, n, p, size, limit, steps[0]).value;
      ScheduleIsRun(s, c, m, p, orig, target, bits, steps[1..], last);
      StepIsRun(s, c, n, m, p, orig, target, bits, steps, Verdict(c, p, last.x), last.x);
    }
  }

  lemma HasInv(n: Net, p: nat, size: nat, orig: Bytes, limit: nat)
    requires NetInv(n, p, size, orig, limit)
    ensures XferInv(size, n.x)
  {
  }

  lemma RequestKeepsWritten(x: Xfer, size: nat)
    requires x.nextBegin < size
    ensures Request1(x, size).written == x.written
  {
  }

  lemma RunNeedsEvents(c: Config, p: nat, target: int, bits: Bytes, x: Xfer, events: seq<Event>, r: TransferResult, y: Xfer)
    requires c.t.pieceLength > 0 && p < NumPieces(c) && x.written < PieceLengthAt(c.t, p)
    requires Run(c, p, target, bits, x, events) == Ending(r, bits, y) && (r.Fetched? || r == Aborted(HashMismatch))
    ensures events != []
  {
  }

  /** Fed with the server's answers in any complete schedule, downloadPieceFromSession returns the stored piece, or
      a hash mismatch exactly when the stored bytes do not have the torrent's hash. */
  lemma FetchReturnsStoredPiece(s: SeedStore, c: Config, p: nat, target: int, bits: Bytes, steps: seq<NetStep>, last: Net)
    requires c.t == s.t && FitsWire(s.t) && p < |s.t.hashes| && Has(s, p)
    requires 0 <= PieceOffset(s.t, p) && PieceEnd(s.t, p) <= |s.file|
    requires bits == [] || HasPiece(bits, p)
    requires Completes(s, Net(Start(PieceLengthAt(s.t, p)), [], [], [], []), p, PieceLengthAt(s.t, p), Limit(target), steps,
                       last)
    ensures var n := Net(Start(PieceLengthAt(s.t, p)), [], [], [], []);
            var r := Fetch(c, p, target, bits, Seen(s, n, p, PieceLengthAt(s.t, p), Limit(target), steps)).result;
            r == if Verified(c, p, PieceBytes(s, p)) then Fetched(PieceBytes(s, p)) else Aborted(HashMismatch)
  {
    var size, orig := PieceLengthAt(s.t, p), PieceBytes(s, p);
    var n := Net(Start(size), [], [], [], []);
    StartInv(size);
    assert NetInv(n, p, size, orig, Limit(target));
    FetchGetsStoredPiece(s, p, target, steps, last);
    ScheduleIsRun(s, c, n, p, orig, target, bits, steps, last);
  }

  /** The server side above is the listener's: over a seed store, a Request on an open, unchoked connection is
      answered with exactly what Answer says. */
  lemma ListenerAnswers(s: SeedStore, e: Listener.Env, c: Listener.Conn, m: Message)
    requires s.t.pieceLength > 0 && m.id == MSG_REQUEST && !c.peerChoked
    requires e.provider.Some?
    requires forall i, b, l :: e.provider.value(i, b, l) == ReadPiece(s, i, b, l)
    ensures Listener.OnMessage(e, c, m).log == c.log + if Answer(s, m).Some? then [Answer(s, m).value] else []
  {
    hide ReadPiece;
    var request := ParseRequestMessage(m.payload);
    if request.Some? {
      var (index, begin, length) := request.value;
      assert e.provider.value(index, begin, length) == ReadPiece(s, index, begin, length);
    }
  }
}
