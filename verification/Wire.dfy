/** Peer wire messages (BEP 3): length-prefixed frames, their reader, and the Request and Piece payloads. */
module Wire {
  import opened Bytes

  const MSG_KEEP_ALIVE := -1
  const MSG_CHOKE := 0
  const MSG_UNCHOKE := 1
  const MSG_INTERESTED := 2
  const MSG_HAVE := 4
  const MSG_BITFIELD := 5
  const MSG_REQUEST := 6
  const MSG_PIECE := 7
  const MSG_CANCEL := 8
  const MSG_EXTENDED := 20

  const MAX_MESSAGE_SIZE := 32 * 1024 * 1024

  datatype Message = Message(id: int, payload: Bytes)

  datatype ReadError = EndOfStream | Oversized
  datatype ReadResult = Received(msg: Message) | Failed(error: ReadError)

  /** The messages the wire format can carry. */
  predicate Sendable(m: Message) {
    || (m.id == MSG_KEEP_ALIVE && m.payload == [])
    || (0 <= m.id < 256 && 1 + |m.payload| <= MAX_MESSAGE_SIZE)
  }

  /** Go's conversions uint32(...) and byte(...) wrap around. */
  function Encode(m: Message): Bytes {
    if m.id == MSG_KEEP_ALIVE then [0, 0, 0, 0]
    else PutU32((1 + |m.payload|) % 0x1_0000_0000) + [m.id % 256] + m.payload
  }

  /** The outcome of reading one frame from s, and how many bytes of s that takes. */
  function ParseFrame(s: Bytes): (ReadResult, nat) {
    if |s| < 4 then (Failed(EndOfStream), |s|)
    else
      var length := GetU32(s[..4]);
      if length == 0 then (Received(Message(MSG_KEEP_ALIVE, [])), 4)
      else if length > MAX_MESSAGE_SIZE then (Failed(Oversized), 4)
      else if |s| < 4 + length then (Failed(EndOfStream), |s|)
      else (Received(Message(s[4], s[5..4 + length])), 4 + length)
  }

  /** The receiving end of a connection: the bytes the peer sent that have not been read. */
  class Stream {
    var unread: Bytes

    constructor (s: Bytes)
      ensures unread == s
    {
      unread := s;
    }

    /** io.ReadFull: either n bytes, or everything that is left and an error. */
    method ReadFull(n: nat) returns (ok: bool, buf: Bytes)
      modifies this
      ensures ok == (n <= |old(unread)|)
      ensures old(unread) == buf + unread
      ensures if ok then |buf| == n else unread == []
    {
      ok := n <= |unread|;
      var k := if ok then n else |unread|;
      buf, unread := unread[..k], unread[k..];
    }

    method ReadMessage() returns (r: ReadResult)
      modifies this
      ensures r == ParseFrame(old(unread)).0
      ensures ParseFrame(old(unread)).1 <= |old(unread)|
      ensures unread == old(unread)[ParseFrame(old(unread)).1..]
    {
      ghost var all := unread;
      var ok, lengthBuf := ReadFull(4);
      if !ok {
        return Failed(EndOfStream);
      }
      assert lengthBuf == all[..4];
      var length := GetU32(lengthBuf);
      if length == 0 {
        return Received(Message(MSG_KEEP_ALIVE, []));
      }
      if length > MAX_MESSAGE_SIZE {
        return Failed(Oversized);
      }
      var payload;
      ok, payload := ReadFull(length);
      if !ok {
        return Failed(EndOfStream);
      }
      assert payload == all[4..4 + length];
      assert payload[1..] == all[5..4 + length];
      return Received(Message(payload[0], payload[1..]));
    }
  }

  /** Reading undoes writing, whatever follows on the stream. */
  lemma ReadBack(m: Message, s: Bytes)
    requires Sendable(m)
    ensures ParseFrame(Encode(m) + s) == (Received(m), |Encode(m)|)
  {
    var t := Encode(m) + s;
    if m.id == MSG_KEEP_ALIVE {
      assert t[..4] == [0, 0, 0, 0];
    } else {
      var length := 1 + |m.payload|;
      assert t[..4] == PutU32(length);
      GetPutU32(length);
      assert t[5..4 + length] == m.payload;
    }
  }

  /** Nothing but the encoding of a sendable message is ever accepted. */
  lemma AcceptsOnlyEncodings(s: Bytes)
    requires ParseFrame(s).0.Received?
    ensures ParseFrame(s).1 <= |s|
    ensures Sendable(ParseFrame(s).0.msg)
    ensures s[..ParseFrame(s).1] == Encode(ParseFrame(s).0.msg)
  {
    PutGetU32(s[..4]);
    var length := GetU32(s[..4]);
    if length == 0 {
      assert PutU32(0) == [0, 0, 0, 0];
    } else {
      assert s[..4 + length] == s[..4] + [s[4]] + s[5..4 + length];
    }
  }

  function EncodeAll(ms: seq<Message>): Bytes {
    if ms == [] then [] else Encode(ms[0]) + EncodeAll(ms[1..])
  }

  /** The messages read from s until the first failure, and that failure. */
  function ParseAll(s: Bytes): (seq<Message>, ReadError)
    decreases |s|
  {
    var (r, n) := ParseFrame(s);
    match r
    case Failed(e) => ([], e)
    case Received(m) => var (ms, e) := ParseAll(s[n..]); ([m] + ms, e)
  }

  lemma ParseAllStep(m: Message, rest: Bytes)
    requires Sendable(m)
    ensures ParseAll(Encode(m) + rest) == ([m] + ParseAll(rest).0, ParseAll(rest).1)
  {
    ReadBack(m, rest);
    assert (Encode(m) + rest)[|Encode(m)|..] == rest;
  }

  /** A receiver gets exactly the list that was sent, then whatever the rest of the stream holds. */
  lemma {:induction false} StreamRoundTrip(ms: seq<Message>, s: Bytes)
    requires forall m | m in ms :: Sendable(m)
    ensures ParseAll(EncodeAll(ms) + s) == (ms + ParseAll(s).0, ParseAll(s).1)
  {
    hide Encode, ParseFrame, ParseAll;
    var t := EncodeAll(ms) + s;
    if ms == [] {
      assert t == s && ms + ParseAll(s).0 == ParseAll(s).0;
    } else {
      var rest := EncodeAll(ms[1..]) + s;
      assert t == Encode(ms[0]) + rest;
      ParseAllStep(ms[0], rest);
      StreamRoundTrip(ms[1..], s);
      assert [ms[0]] + (ms[1..] + ParseAll(s).0) == ms + ParseAll(s).0;
    }
  }

  lemma NothingToRead()
    ensures ParseAll([]).0 == []
  {
  }

  /** No two message lists share an encoding. */
  lemma EncodeAllInjective(ms: seq<Message>, ms': seq<Message>)
    requires forall m | m in ms :: Sendable(m)
    requires forall m | m in ms' :: Sendable(m)
    requires EncodeAll(ms) == EncodeAll(ms')
    ensures ms == ms'
  {
    StreamRoundTrip(ms, []);
    StreamRoundTrip(ms', []);
    NothingToRead();
    calc {
      ms;
      ParseAll(EncodeAll(ms) + []).0;
      ParseAll(EncodeAll(ms') + []).0;
      ms';
    }
  }

  // ----- Request and Piece payloads -----

  function RequestMessage(index: u32, begin: u32, length: u32): Message {
    Message(MSG_REQUEST, PutU32(index) + PutU32(begin) + PutU32(length))
  }

  function CancelMessage(index: u32, begin: u32, length: u32): Message {
    Message(MSG_CANCEL, PutU32(index) + PutU32(begin) + PutU32(length))
  }

  function ParseRequestMessage(payload: Bytes): Option<(u32, u32, u32)> {
    if |payload| != 12 then None
    else Some((GetU32(payload[0..4]), GetU32(payload[4..8]), GetU32(payload[8..12])))
  }

  function PieceMessage(index: u32, begin: u32, block: Bytes): Message {
    Message(MSG_PIECE, PutU32(index) + PutU32(begin) + block)
  }

  function ParsePieceMessage(payload: Bytes): Option<(u32, u32, Bytes)> {
    if |payload| < 8 then None
    else Some((GetU32(payload[0..4]), GetU32(payload[4..8]), payload[8..]))
  }

  /** A payload parses as a request exactly when the request builder makes it. */
  lemma RequestInverse(payload: Bytes, index: u32, begin: u32, length: u32)
    ensures ParseRequestMessage(payload) == Some((index, begin, length))
            <==> payload == RequestMessage(index, begin, length).payload
  {
    GetPutU32(index); GetPutU32(begin); GetPutU32(length);
    var p := RequestMessage(index, begin, length).payload;
    assert p[0..4] == PutU32(index) && p[4..8] == PutU32(begin) && p[8..12] == PutU32(length);
    if |payload| == 12 {
      PutGetU32(payload[0..4]); PutGetU32(payload[4..8]); PutGetU32(payload[8..12]);
      assert payload == payload[0..4] + payload[4..8] + payload[8..12];
    }
  }

  lemma PieceInverse(payload: Bytes, index: u32, begin: u32, block: Bytes)
    ensures ParsePieceMessage(payload) == Some((index, begin, block))
            <==> payload == PieceMessage(index, begin, block).payload
  {
    GetPutU32(index); GetPutU32(begin);
    var p := PieceMessage(index, begin, block).payload;
    assert p[0..4] == PutU32(index) && p[4..8] == PutU32(begin) && p[8..] == block;
    if |payload| >= 8 {
      PutGetU32(payload[0..4]); PutGetU32(payload[4..8]);
      assert payload == payload[0..4] + payload[4..8] + payload[8..];
    }
  }

  // ----- The bytes on the wire -----

  /** Words go most significant byte first. */
  lemma WordBytes(a: byte, b: byte, c: byte, d: byte)
    ensures var n := a as int * 0x100_0000 + b as int * 0x1_0000 + c as int * 0x100 + d as int;
            n < 0x1_0000_0000 && PutU32(n) == [a, b, c, d] && GetU32([a, b, c, d]) == n
  {
    PutGetU32([a, b, c, d]);
  }

  /** A frame is its length in four bytes, the message number and the payload. */
  lemma SmallFrame(id: byte, payload: Bytes)
    requires |payload| < 255
    ensures Encode(Message(id, payload)) == [0, 0, 0, 1 + |payload|, id] + payload
  {
    WordBytes(0, 0, 0, 1 + |payload|);
  }

  /** The message numbers, as they appear in frames. */
  lemma FrameBytes(payload: Bytes)
    requires |payload| < 255
    ensures Encode(Message(MSG_KEEP_ALIVE, [])) == [0, 0, 0, 0]
    ensures Encode(Message(MSG_CHOKE, [])) == [0, 0, 0, 1, 0]
    ensures Encode(Message(MSG_UNCHOKE, [])) == [0, 0, 0, 1, 1]
    ensures Encode(Message(MSG_INTERESTED, [])) == [0, 0, 0, 1, 2]
    ensures Encode(Message(MSG_HAVE, payload)) == [0, 0, 0, 1 + |payload|, 4] + payload
    ensures Encode(Message(MSG_BITFIELD, payload)) == [0, 0, 0, 1 + |payload|, 5] + payload
    ensures Encode(Message(MSG_EXTENDED, payload)) == [0, 0, 0, 1 + |payload|, 20] + payload
  {
    SmallFrame(MSG_CHOKE, []);
    SmallFrame(MSG_UNCHOKE, []);
    SmallFrame(MSG_INTERESTED, []);
    SmallFrame(MSG_HAVE, payload);
    SmallFrame(MSG_BITFIELD, payload);
    SmallFrame(MSG_EXTENDED, payload);
    assert Encode(Message(MSG_KEEP_ALIVE, [])) == [0, 0, 0, 0];
    hide Encode;
  }

  /** Request, Cancel and Piece payloads for any fields: three words, or two words and the block. */
  lemma PayloadBytes(index: u32, begin: u32, length: u32, block: Bytes)
    ensures RequestMessage(index, begin, length) == Message(6, PutU32(index) + PutU32(begin) + PutU32(length))
    ensures CancelMessage(index, begin, length) == Message(8, PutU32(index) + PutU32(begin) + PutU32(length))
    ensures PieceMessage(index, begin, block) == Message(7, PutU32(index) + PutU32(begin) + block)
  {
  }

  /** A frame is refused for its length exactly when the length word exceeds 32 MiB. */
  lemma OversizedIff(s: Bytes)
    ensures ParseFrame(s).0 == Failed(Oversized)
            <==> |s| >= 4 && s[0] as int * 0x100_0000 + s[1] as int * 0x1_0000 + s[2] as int * 0x100 + s[3] > 33_554_432
  {
    if |s| >= 4 {
      WordBytes(s[0], s[1], s[2], s[3]);
      assert s[..4] == [s[0], s[1], s[2], s[3]];
    }
  }
}
