/** Fetching the info dictionary from a peer in 16 KiB slices (BEP 9, extension messages). */
module Metadata {
  import opened Bytes
  import opened Wire
  import opened Bencode
  import opened BencodeLaws
  import opened InfoDict

  const MAX_SKIP := 200
  const SLICE := 16384
  const MAX_SIZE := 10 * 1024 * 1024

  datatype FetchError =
    | ReadFailed | NoMetadataExtension | BadSize | PieceRejected | PieceNotReceived | HashMismatch | BadDict(error: InfoError)

  datatype Outcome = Got(info: Info) | Refused(error: FetchError)

  // ----- The extension handshake -----

  /** The dictionary of an extension handshake message. */
  function HandshakeDict(scan: Scan, m: Message): Option<Entries> {
    if m.id != MSG_EXTENDED || |m.payload| == 0 || m.payload[0] != 0 then None
    else
      match Decode(scan, m.payload[1..])
      case Ok((Dict(e), _)) => Some(e)
      case _ => None
  }

  /** The peer's message number for ut_metadata, 0 if it has none. */
  function MetadataId(e: Entries): int {
    match DictAt(e, "m")
    case Some(names) => Default(IntAt(names, "ut_metadata"), 0)
    case None => 0
  }

  function MetadataSize(e: Entries): int { Default(IntAt(e, "metadata_size"), 0) }

  datatype Greeting = Greeting(id: int, size: int, rest: seq<Message>)

  /** The first usable handshake among at most 200 messages; None when the stream ends first. */
  function AwaitHandshake(scan: Scan, ms: seq<Message>, skip: nat): Option<Greeting>
    requires skip <= MAX_SKIP
    decreases MAX_SKIP - skip
  {
    if skip == MAX_SKIP then Some(Greeting(0, 0, ms))
    else if ms == [] then None
    else
      match HandshakeDict(scan, ms[0])
      case None => AwaitHandshake(scan, ms[1..], skip + 1)
      case Some(e) => Some(Greeting(MetadataId(e), MetadataSize(e), ms[1..]))
  }

  // ----- The slices -----

  datatype Reply = Other | Data(raw: Bytes) | Reject

  /** What a message says while a slice is awaited. The raw bytes follow the dictionary, whose end the length
      scanner finds. */
  function ReplyOf(scan: Scan, m: Message): Reply {
    if m.id != MSG_EXTENDED || |m.payload| < 2 then Other
    else
      match Scanned(m.payload[1..])
      case Err(_) => Other
      case Ok(dictLen) =>
        match Decode(scan, m.payload[1..1 + dictLen])
        case Ok((Dict(e), _)) =>
          var msgType := Default(IntAt(e, "msg_type"), 0);
          if msgType == 1 then Data(m.payload[1 + dictLen..]) else if msgType == 2 then Reject else Other
        case _ => Other
  }

  datatype Slice = Arrived(raw: Bytes, rest: seq<Message>) | Lost(error: FetchError)

  function AwaitSlice(scan: Scan, ms: seq<Message>, skip: nat): Slice
    requires skip <= MAX_SKIP
    decreases MAX_SKIP - skip
  {
    if skip == MAX_SKIP then Lost(PieceNotReceived)
    else if ms == [] then Lost(ReadFailed)
    else
      match ReplyOf(scan, ms[0])
      case Other => AwaitSlice(scan, ms[1..], skip + 1)
      case Data(raw) => Arrived(raw, ms[1..])
      case Reject => Lost(PieceRejected)
  }

  /** copy(buf[off..], raw): as much as fits. */
  function Overwrite(buf: Bytes, off: nat, raw: Bytes): (r: Bytes)
    requires off <= |buf|
    ensures |r| == |buf|
  {
    var n := if |raw| <= |buf| - off then |raw| else |buf| - off;
    buf[..off] + raw[..n] + buf[off + n..]
  }

  function SliceCount(size: nat): nat { (size + SLICE - 1) / SLICE }

  lemma SlicesInBounds(size: nat, i: nat)
    requires i < SliceCount(size)
    ensures i * 16384 < size
  {
  }

  datatype Assembly = Assembled(buf: Bytes) | Broken(error: FetchError)

  function Assemble(scan: Scan, ms: seq<Message>, i: nat, buf: Bytes): (r: Assembly)
    requires i <= SliceCount(|buf|)
    ensures r.Assembled? ==> |r.buf| == |buf|
    decreases SliceCount(|buf|) - i
  {
    if i == SliceCount(|buf|) then Assembled(buf)
    else
      match AwaitSlice(scan, ms, 0)
      case Lost(e) => Broken(e)
      case Arrived(raw, rest) =>
        SlicesInBounds(|buf|, i);
        Assemble(scan, rest, i + 1, Overwrite(buf, i * SLICE, raw))
  }

  /** What fetchMetadata makes of the messages that follow the protocol handshake. */
  function Fetch(scan: Scan, sha1: Bytes -> Bytes, infoHash: Bytes, ms: seq<Message>): Outcome {
    match AwaitHandshake(scan, ms, 0)
    case None => Refused(ReadFailed)
    case Some(Greeting(id, size, rest)) =>
      if id == 0 then Refused(NoMetadataExtension)
      else if size <= 0 || size > MAX_SIZE then Refused(BadSize)
      else
        match Assemble(scan, rest, 0, Zeros(size))
        case Broken(e) => Refused(e)
        case Assembled(buf) =>
          if sha1(buf) != infoHash then Refused(HashMismatch)
          else
            match ParseInfo(scan, buf)
            case Parsed(info) => Got(info)
            case Invalid(e) => Refused(BadDict(e))
  }

  // ----- What it guarantees -----

  /** Whatever the peer sends, an accepted dictionary was decoded from bytes with the wanted hash. */
  lemma SuccessIsAuthentic(scan: Scan, sha1: Bytes -> Bytes, infoHash: Bytes, ms: seq<Message>) returns (buf: Bytes)
    requires Fetch(scan, sha1, infoHash, ms).Got?
    ensures sha1(buf) == infoHash && 0 < |buf| <= 10485760
    ensures ParseInfo(scan, buf) == Parsed(Fetch(scan, sha1, infoHash, ms).info)
  {
    var g := AwaitHandshake(scan, ms, 0).value;
    buf := Assemble(scan, g.rest, 0, Zeros(g.size)).buf;
  }

  /** With no collision, whatever the peer sends, the result is the original's dictionary. */
  lemma SuccessIsOriginal(scan: Scan, sha1: Bytes -> Bytes, original: Bytes, ms: seq<Message>)
    requires forall b: Bytes :: sha1(b) == sha1(original) ==> b == original
    requires Fetch(scan, sha1, sha1(original), ms).Got?
    ensures ParseInfo(scan, original) == Parsed(Fetch(scan, sha1, sha1(original), ms).info)
  {
    var buf := SuccessIsAuthentic(scan, sha1, sha1(original), ms);
    assert buf == original;
  }

  /** Slice i of the original. */
  function SliceOf(original: Bytes, i: nat): Bytes
    requires i < SliceCount(|original|)
  {
    SlicesInBounds(|original|, i);
    var off := i * 16384;
    original[off..if off + 16384 <= |original| then off + 16384 else |original|]
  }

  /** m answers the request for slice i: an extension message holding an encoded dictionary with msg_type 1 and
      then exactly the slice. */
  ghost predicate Answers(m: Message, original: Bytes, i: nat)
    requires i < SliceCount(|original|)
  {
    exists id: byte, v: Value ::
      && IsDataDict(v)
      && m == Message(MSG_EXTENDED, [id] + (EncodeValue(v) + SliceOf(original, i)))
  }

  ghost predicate IsDataDict(v: Value) {
    v.Dict? && Encodable(v) && IntAt(v.entries, "msg_type") == Some(1)
  }

  /** m is a handshake offering ut_metadata and the given size. */
  ghost predicate Offers(m: Message, size: nat) {
    exists v: Value, t: Bytes :: OffersWith(m, size, v, t)
  }

  ghost predicate OffersWith(m: Message, size: nat, v: Value, t: Bytes) {
    && v.Dict? && Encodable(v) && MetadataId(v.entries) != 0 && IntAt(v.entries, "metadata_size") == Some(size)
    && m == Message(MSG_EXTENDED, [0] + (EncodeValue(v) + t))
  }

  lemma AnswerIsData(scan: Scan, m: Message, original: Bytes, i: nat)
    requires ReadsDecimals(scan) && i < SliceCount(|original|) && Answers(m, original, i)
    ensures ReplyOf(scan, m) == Data(SliceOf(original, i))
  {
    hide Decode, EncodeValue, Scanned, Encodable, ReadsDecimals, SliceOf, IntAt;
    var id: byte, v :| IsDataDict(v) && m == Message(MSG_EXTENDED, [id] + (EncodeValue(v) + SliceOf(original, i)));
    var body := EncodeValue(v) + SliceOf(original, i);
    var n := |EncodeValue(v)|;
    assert m.payload[1..] == body && m.payload[1 + n..] == SliceOf(original, i);
    ScannerFindsEnd(scan, v, SliceOf(original, i));
    RoundTrip(scan, v, SliceOf(original, i));
    RoundTrip(scan, v, []);
    assert EncodeValue(v) + [] == EncodeValue(v) == m.payload[1..1 + n];
    NotEmpty(v);
  }

  lemma NotEmpty(v: Value)
    ensures EncodeValue(v) != []
  {
  }

  // ----- Other traffic -----

  /** Messages that are not extension messages are skipped while a handshake or a slice is awaited. */
  lemma OnlyExtensionsMatter(scan: Scan, m: Message)
    requires m.id != MSG_EXTENDED
    ensures HandshakeDict(scan, m) == None && ReplyOf(scan, m) == Other
  {
  }

  ghost predicate NoReplies(scan: Scan, noise: seq<Message>) {
    forall k :: 0 <= k < |noise| ==> ReplyOf(scan, noise[k]) == Other
  }

  ghost predicate NoHandshakes(scan: Scan, noise: seq<Message>) {
    forall k :: 0 <= k < |noise| ==> HandshakeDict(scan, noise[k]) == None
  }

  lemma {:induction false} SkipReplies(scan: Scan, noise: seq<Message>, rest: seq<Message>, skip: nat)
    requires NoReplies(scan, noise) && skip + |noise| <= MAX_SKIP
    ensures AwaitSlice(scan, noise + rest, skip) == AwaitSlice(scan, rest, skip + |noise|)
    decreases |noise|
  {
    hide ReplyOf;
    if noise == [] {
      assert noise + rest == rest;
    } else {
      assert (noise + rest)[1..] == noise[1..] + rest;
      SkipReplies(scan, noise[1..], rest, skip + 1);
    }
  }

  lemma {:induction false} SkipHandshakes(scan: Scan, noise: seq<Message>, rest: seq<Message>, skip: nat)
    requires NoHandshakes(scan, noise) && skip + |noise| <= MAX_SKIP
    ensures AwaitHandshake(scan, noise + rest, skip) == AwaitHandshake(scan, rest, skip + |noise|)
    decreases |noise|
  {
    hide HandshakeDict;
    if noise == [] {
      assert noise + rest == rest;
    } else {
      assert (noise + rest)[1..] == noise[1..] + rest;
      SkipHandshakes(scan, noise[1..], rest, skip + 1);
    }
  }

  lemma TooMuchNoise(scan: Scan, noise: seq<Message>, rest: seq<Message>)
    requires NoReplies(scan, noise) && |noise| >= MAX_SKIP
    ensures AwaitSlice(scan, noise + rest, 0) == Lost(PieceNotReceived)
  {
    hide ReplyOf;
    var front := noise[..MAX_SKIP];
    SkipReplies(scan, front, noise[MAX_SKIP..] + rest, 0);
    assert front + (noise[MAX_SKIP..] + rest) == noise + rest;
  }

  /** A slice arrives through any other traffic exactly when fewer than 200 messages come before it. */
  lemma SliceArrivesIff(scan: Scan, noise: seq<Message>, m: Message, rest: seq<Message>, original: Bytes, i: nat)
    requires ReadsDecimals(scan) && NoReplies(scan, noise) && i < SliceCount(|original|) && Answers(m, original, i)
    ensures AwaitSlice(scan, noise + ([m] + rest), 0)
            == if |noise| < 200 then Arrived(SliceOf(original, i), rest) else Lost(PieceNotReceived)
  {
    hide ReplyOf, Answers, SliceOf, ReadsDecimals, NoReplies;
    AnswerIsData(scan, m, original, i);
    if |noise| < MAX_SKIP {
      SkipReplies(scan, noise, [m] + rest, 0);
      assert ([m] + rest)[1..] == rest;
    } else {
      TooMuchNoise(scan, noise, [m] + rest);
    }
  }

  /** What comes between one request and the next: other messages, then the answer. */
  datatype Turn = Turn(noise: seq<Message>, answer: Message)

  function Replies(turns: seq<Turn>): seq<Message> {
    if turns == [] then [] else turns[0].noise + ([turns[0].answer] + Replies(turns[1..]))
  }

  ghost predicate Serves(scan: Scan, turn: Turn, original: Bytes, i: nat)
    requires i < SliceCount(|original|)
  {
    NoReplies(scan, turn.noise) && |turn.noise| < 200 && Answers(turn.answer, original, i)
  }

  /** The first i slices are in place. */
  lemma {:induction false} AssembleHonest(scan: Scan, turns: seq<Turn>, tail: seq<Message>, original: Bytes, i: nat,
                                          buf: Bytes)
    requires ReadsDecimals(scan) && |buf| == |original| && i <= SliceCount(|original|)
    requires |turns| == SliceCount(|original|) - i
    requires forall k :: 0 <= k < |turns| ==> Serves(scan, turns[k], original, i + k)
    requires buf[..Filled(original, i)] == original[..Filled(original, i)]
    ensures Assemble(scan, Replies(turns) + tail, i, buf) == Assembled(original)
    decreases SliceCount(|original|) - i
  {
    hide ReplyOf, Answers, Overwrite, ReadsDecimals, SliceOf, NoReplies, AwaitSlice;
    if i == SliceCount(|original|) {
      assert buf[..|buf|] == buf && original[..|buf|] == original;
    } else {
      var t, rest := turns[0], Replies(turns[1..]) + tail;
      assert Serves(scan, t, original, i + 0);
      assert Replies(turns) + tail == t.noise + ([t.answer] + rest);
      SliceArrivesIff(scan, t.noise, t.answer, rest, original, i);
      OneMoreSlice(original, buf, i);
      forall k | 0 <= k < |turns[1..]| ensures Serves(scan, turns[1..][k], original, i + 1 + k) {
        assert Serves(scan, turns[k + 1], original, i + (k + 1));
      }
      AssembleHonest(scan, turns[1..], tail, original, i + 1, Overwrite(buf, i * SLICE, SliceOf(original, i)));
    }
  }

  function Filled(original: Bytes, i: nat): (n: nat)
    ensures n <= |original|
  {
    if i * SLICE <= |original| then i * SLICE else |original|
  }

  lemma OneMoreSlice(original: Bytes, buf: Bytes, i: nat)
    requires |buf| == |original| && i < SliceCount(|original|)
    requires buf[..Filled(original, i)] == original[..Filled(original, i)]
    ensures i * SLICE < |buf|
    ensures var b := Overwrite(buf, i * SLICE, SliceOf(original, i));
            b[..Filled(original, i + 1)] == original[..Filled(original, i + 1)]
  {
    SlicesInBounds(|original|, i);
    var off, next := i * SLICE, Filled(original, i + 1);
    var b := Overwrite(buf, off, SliceOf(original, i));
    assert b[..next] == buf[..off] + original[off..next];
    assert original[..next] == original[..off] + original[off..next];
  }

  /** The peer's side of an exchange: a handshake and one turn for each slice, with fewer than 200 other messages
      before each of them, and anything afterwards. */
  datatype Exchange = Exchange(noise: seq<Message>, hello: Message, turns: seq<Turn>, tail: seq<Message>)

  function Messages(x: Exchange): seq<Message> {
    x.noise + ([x.hello] + (Replies(x.turns) + x.tail))
  }

  ghost predicate Honest(scan: Scan, x: Exchange, original: Bytes) {
    && NoHandshakes(scan, x.noise) && |x.noise| < 200
    && Offers(x.hello, |original|)
    && |x.turns| == SliceCount(|original|)
    && forall k :: 0 <= k < |x.turns| ==> Serves(scan, x.turns[k], original, k)
  }

  /** A peer that offers the original and answers each request with its slice, in order and through any other
      traffic that stays under the skip limit, delivers it, for every size; the hash decides whether it is wanted. */
  lemma HonestPeerDelivers(scan: Scan, sha1: Bytes -> Bytes, infoHash: Bytes, original: Bytes, x: Exchange)
    requires ReadsDecimals(scan) && 0 < |original| <= 10485760 && Honest(scan, x, original)
    ensures var r := Fetch(scan, sha1, infoHash, Messages(x));
            r == if sha1(original) != infoHash then Refused(HashMismatch)
                 else match ParseInfo(scan, original) case Parsed(info) => Got(info) case Invalid(e) => Refused(BadDict(e))
  {
    hide Serves, Offers, ParseInfo, Assemble, AwaitHandshake, ReadsDecimals, NoHandshakes, Replies;
    var id := OfferIsGreeting(scan, x.noise, x.hello, |original|, Replies(x.turns) + x.tail);
    forall k | 0 <= k < |x.turns| ensures Serves(scan, x.turns[k], original, 0 + k) {
    }
    AssembleHonest(scan, x.turns, x.tail, original, 0, Zeros(|original|));
  }

  lemma OfferIsGreeting(scan: Scan, noise: seq<Message>, hello: Message, size: nat, ms: seq<Message>) returns (id: int)
    requires ReadsDecimals(scan) && Offers(hello, size) && NoHandshakes(scan, noise) && |noise| < MAX_SKIP
    ensures id != 0 && AwaitHandshake(scan, noise + ([hello] + ms), 0) == Some(Greeting(id, size, ms))
  {
    hide HandshakeDict, EncodeValue, Encodable, ReadsDecimals, MetadataId, NoHandshakes;
    var v, t :| OffersWith(hello, size, v, t);
    OfferIsDict(scan, hello, size, v, t);
    id := MetadataId(v.entries);
    SkipHandshakes(scan, noise, [hello] + ms, 0);
    assert ([hello] + ms)[1..] == ms;
  }

  lemma OfferIsDict(scan: Scan, hello: Message, size: nat, v: Value, t: Bytes)
    requires ReadsDecimals(scan) && OffersWith(hello, size, v, t)
    ensures HandshakeDict(scan, hello) == Some(v.entries)
  {
    hide Decode, EncodeValue, Encodable, ReadsDecimals, MetadataId;
    assert hello.payload[1..] == EncodeValue(v) + t;
    RoundTrip(scan, v, t);
  }

  /** From a torrent to the torrent: an honest peer's info dictionary comes back field by field. */
  lemma TorrentTravels(scan: Scan, sha1: Bytes -> Bytes, info: Info, x: Exchange)
    requires ReadsDecimals(scan) && Describable(info)
    requires |EncodeValue(InfoValue(info))| <= 10485760 && Honest(scan, x, EncodeValue(InfoValue(info)))
    ensures Fetch(scan, sha1, sha1(EncodeValue(InfoValue(info))), Messages(x)) == Got(info)
  {
    hide *;
    var original := EncodeValue(InfoValue(info));
    InfoRoundTrip(scan, info, []);
    assert original + [] == original;
    NotEmpty(InfoValue(info));
    HonestPeerDelivers(scan, sha1, sha1(original), original, x);
  }

  // ----- What ends an exchange early -----

  /** What a dictionary followed by raw bytes says: msg_type 1 is data, 2 is a rejection, anything else is skipped. */
  lemma DictReply(scan: Scan, id: byte, v: Value, raw: Bytes)
    requires ReadsDecimals(scan) && v.Dict? && Encodable(v)
    ensures var m := Message(20, [id] + (EncodeValue(v) + raw));
            var key := Ascii("msg_type");
            ReplyOf(scan, m) == if key in v.entries && v.entries[key] == Int(1) then Data(raw)
                                else if key in v.entries && v.entries[key] == Int(2) then Reject else Other
  {
    hide Decode, EncodeValue, Scanned, Encodable, ReadsDecimals, Ascii;
    var m := Message(20, [id] + (EncodeValue(v) + raw));
    var n := |EncodeValue(v)|;
    assert m.payload[1..] == EncodeValue(v) + raw && m.payload[1 + n..] == raw;
    ScannerFindsEnd(scan, v, raw);
    RoundTrip(scan, v, []);
    assert EncodeValue(v) + [] == EncodeValue(v) == m.payload[1..1 + n];
    NotEmpty(v);
  }

  /** What the first usable handshake means: without ut_metadata, or with a size that is not between 1 byte and
      10 MiB, the exchange ends; without any handshake it ends after 200 messages or with the stream. */
  lemma HandshakeDecides(scan: Scan, sha1: Bytes -> Bytes, infoHash: Bytes, noise: seq<Message>, v: Value, t: Bytes,
                         rest: seq<Message>)
    requires ReadsDecimals(scan) && v.Dict? && Encodable(v) && NoHandshakes(scan, noise) && |noise| < MAX_SKIP
    ensures var r := Fetch(scan, sha1, infoHash, noise + ([Message(20, [0] + (EncodeValue(v) + t))] + rest));
            && (MetadataId(v.entries) == 0 ==> r == Refused(NoMetadataExtension))
            && (MetadataId(v.entries) != 0 ==>
                  var size := Default(IntAt(v.entries, "metadata_size"), 0);
                  (size < 1 || size > 10_485_760) ==> r == Refused(BadSize))
  {
    hide HandshakeDict, EncodeValue, Encodable, ReadsDecimals, MetadataId, NoHandshakes, Assemble, IntAt, ParseInfo;
    var hello := Message(20, [0] + (EncodeValue(v) + t));
    HelloIsDict(scan, hello, v, t);
    SkipHandshakes(scan, noise, [hello] + rest, 0);
    assert ([hello] + rest)[1..] == rest;
  }

  lemma HelloIsDict(scan: Scan, hello: Message, v: Value, t: Bytes)
    requires ReadsDecimals(scan) && v.Dict? && Encodable(v) && hello == Message(20, [0] + (EncodeValue(v) + t))
    ensures HandshakeDict(scan, hello) == Some(v.entries)
  {
    hide Decode, EncodeValue, Encodable, ReadsDecimals;
    assert hello.payload[1..] == EncodeValue(v) + t;
    RoundTrip(scan, v, t);
  }

  lemma NoHandshakeAtAll(scan: Scan, sha1: Bytes -> Bytes, infoHash: Bytes, noise: seq<Message>)
    requires NoHandshakes(scan, noise)
    ensures Fetch(scan, sha1, infoHash, noise) == Refused(if |noise| < 200 then ReadFailed else NoMetadataExtension)
  {
    hide HandshakeDict, Assemble;
    if |noise| < MAX_SKIP {
      SkipHandshakes(scan, noise, [], 0);
      assert noise + [] == noise;
    } else {
      SkipHandshakes(scan, noise[..MAX_SKIP], noise[MAX_SKIP..], 0);
      assert noise[..MAX_SKIP] + noise[MAX_SKIP..] == noise;
    }
  }

  /** After any number of slices, whatever is next decides: a rejection, 200 other messages, or the end of the stream
      end the exchange with their own errors. */
  lemma {:induction false} SliceFailureDecides(scan: Scan, turns: seq<Turn>, last: seq<Message>, original: Bytes, i: nat,
                                               buf: Bytes)
    requires ReadsDecimals(scan) && |buf| == |original| && i + |turns| < SliceCount(|original|)
    requires forall k :: 0 <= k < |turns| ==> Serves(scan, turns[k], original, i + k)
    requires AwaitSlice(scan, last, 0).Lost?
    ensures Assemble(scan, Replies(turns) + last, i, buf) == Broken(AwaitSlice(scan, last, 0).error)
    decreases |turns|
  {
    hide ReplyOf, Answers, Overwrite, ReadsDecimals, SliceOf, NoReplies, AwaitSlice;
    if turns == [] {
      assert Replies(turns) + last == last;
    } else {
      var t, rest := turns[0], Replies(turns[1..]) + last;
      assert Serves(scan, t, original, i + 0);
      assert Replies(turns) + last == t.noise + ([t.answer] + rest);
      SliceArrivesIff(scan, t.noise, t.answer, rest, original, i);
      SlicesInBounds(|buf|, i);
      forall k | 0 <= k < |turns[1..]| ensures Serves(scan, turns[1..][k], original, i + 1 + k) {
        assert Serves(scan, turns[k + 1], original, i + (k + 1));
      }
      SliceFailureDecides(scan, turns[1..], last, original, i + 1, Overwrite(buf, i * SLICE, SliceOf(original, i)));
    }
  }

  /** A rejection after fewer than 200 other messages, 200 other messages, and a stream that ends before. */
  lemma SliceFailures(scan: Scan, noise: seq<Message>, reject: Message, rest: seq<Message>)
    requires NoReplies(scan, noise) && ReplyOf(scan, reject) == Reject
    ensures |noise| < 200 ==> AwaitSlice(scan, noise + ([reject] + rest), 0) == Lost(PieceRejected)
    ensures |noise| < 200 ==> AwaitSlice(scan, noise, 0) == Lost(ReadFailed)
    ensures |noise| >= 200 ==> AwaitSlice(scan, noise + rest, 0) == Lost(PieceNotReceived)
  {
    hide ReplyOf;
    if |noise| < MAX_SKIP {
      SkipReplies(scan, noise, [reject] + rest, 0);
      SkipReplies(scan, noise, [], 0);
      assert noise + [] == noise;
    } else {
      TooMuchNoise(scan, noise, rest);
    }
  }

  // ----- fetchMetadata as it runs -----

  method ReadHandshakeMessages(scan: Scan, input: Stream) returns (ok: bool, id: int, size: int)
    modifies input
    ensures var g := AwaitHandshake(scan, ParseAll(old(input.unread)).0, 0);
            ok == g.Some? && (ok ==> g.value == Greeting(id, size, ParseAll(input.unread).0))
  {
    hide HandshakeDict, MetadataId, MetadataSize;
    ghost var all := ParseAll(input.unread).0;
    var skip := 0;
    while skip < MAX_SKIP
      invariant 0 <= skip <= MAX_SKIP
      invariant AwaitHandshake(scan, all, 0) == AwaitHandshake(scan, ParseAll(input.unread).0, skip)
    {
      ghost var before := input.unread;
      var r := input.ReadMessage();
      ParseAllHead(before);
      if r.Failed? {
        return false, 0, 0;
      }
      var hs := HandshakeDict(scan, r.msg);
      if hs.Some? {
        return true, MetadataId(hs.value), MetadataSize(hs.value);
      }
      skip := skip + 1;
    }
    return true, 0, 0;
  }

  lemma ParseAllHead(s: Bytes)
    ensures ParseFrame(s).1 <= |s|
    ensures match ParseFrame(s).0
            case Failed(_) => ParseAll(s).0 == []
            case Received(m) => ParseAll(s).0 != [] && ParseAll(s).0[0] == m
                                && ParseAll(s).0[1..] == ParseAll(s[ParseFrame(s).1..]).0
  {
  }

  method CopyAt(buf: array<byte>, off: nat, raw: Bytes)
    requires off <= buf.Length
    modifies buf
    ensures buf[..] == Overwrite(old(buf[..]), off, raw)
  {
    var n := if |raw| <= buf.Length - off then |raw| else buf.Length - off;
    forall k | 0 <= k < n { buf[off + k] := raw[k]; }
  }

  /** Waits for one slice and copies it into place. */
  method ReadSlice(scan: Scan, input: Stream, i: nat, buf: array<byte>) returns (r: Option<FetchError>)
    requires i < SliceCount(buf.Length)
    modifies input, buf
    ensures match AwaitSlice(scan, ParseAll(old(input.unread)).0, 0)
            case Lost(e) => r == Some(e)
            case Arrived(raw, rest) =>
              && r == None && i * SLICE <= buf.Length
              && buf[..] == Overwrite(old(buf[..]), i * SLICE, raw) && ParseAll(input.unread).0 == rest
  {
    hide ReplyOf, Overwrite;
    ghost var all := ParseAll(input.unread).0;
    SlicesInBounds(buf.Length, i);
    var skip := 0;
    while skip < MAX_SKIP
      invariant 0 <= skip <= MAX_SKIP && buf[..] == old(buf[..])
      invariant AwaitSlice(scan, all, 0) == AwaitSlice(scan, ParseAll(input.unread).0, skip)
    {
      ghost var before := input.unread;
      var m := input.ReadMessage();
      ParseAllHead(before);
      if m.Failed? {
        return Some(ReadFailed);
      }
      match ReplyOf(scan, m.msg)
      case Data(raw) =>
        CopyAt(buf, i * SLICE, raw);
        return None;
      case Reject =>
        return Some(PieceRejected);
      case Other =>
      skip := skip + 1;
    }
    return Some(PieceNotReceived);
  }

  method FetchMetadata(scan: Scan, sha1: Bytes -> Bytes, infoHash: Bytes, input: Stream) returns (r: Outcome)
    modifies input
    ensures r == Fetch(scan, sha1, infoHash, ParseAll(old(input.unread)).0)
  {
    hide AwaitHandshake, AwaitSlice, Overwrite, ParseInfo;
    var ok, id, size := ReadHandshakeMessages(scan, input);
    if !ok {
      return Refused(ReadFailed);
    }
    if id == 0 {
      return Refused(NoMetadataExtension);
    }
    if size <= 0 || size > MAX_SIZE {
      return Refused(BadSize);
    }
    var buf := new byte[size](_ => 0);
    ghost var whole := Assemble(scan, ParseAll(input.unread).0, 0, Zeros(size));
    assert buf[..] == Zeros(size);
    for i := 0 to SliceCount(size)
      invariant buf.Length == size
      invariant Assemble(scan, ParseAll(input.unread).0, i, buf[..]) == whole
    {
      var failure := ReadSlice(scan, input, i, buf);
      if failure.Some? {
        return Refused(failure.value);
      }
    }
    if sha1(buf[..]) != infoHash {
      return Refused(HashMismatch);
    }
    var info := DecodeInfoDict(scan, buf[..]);
    return match info case Parsed(i) => Got(i) case Invalid(e) => Refused(BadDict(e));
  }
}
