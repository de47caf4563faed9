/** One inbound connection: the choke state told to the peer, and the blocks served to it. */
module Listener {
  import opened Bytes
  import opened Wire

  type BlockReader = (int, int, int) -> Option<Bytes>

  /** What the connection depends on. verdict(n) is the answer to the n-th question put to ShouldUnchoke, and
      sendOk(n) the outcome of the n-th send. */
  datatype Env = Env(
    bitfield: Bytes,
    addrOk: bool,
    hasPolicy: bool,
    verdict: nat -> bool,
    provider: Option<BlockReader>,
    reports: bool,
    sendOk: nat -> bool)

  /** log holds every send attempted, uploaded the sizes passed to OnUploaded; open until a send fails that
      is not ignored. */
  datatype Conn = Conn(log: seq<Message>, asked: nat, peerChoked: bool, open: bool, uploaded: seq<nat>)

  predicate Governed(e: Env) { e.addrOk && e.hasPolicy }

  const CHOKE := Message(MSG_CHOKE, [])
  const UNCHOKE := Message(MSG_UNCHOKE, [])

  // ----- The connection as a function of its input -----

  function Greet(e: Env): Conn {
    Conn([Message(MSG_BITFIELD, e.bitfield), CHOKE], 0, true, true, [])
  }

  function Sent(e: Env, c: Conn, m: Message): Conn {
    c.(log := c.log + [m], open := e.sendOk(|c.log|))
  }

  function Tell(e: Env, c: Conn, choke: bool): Conn {
    var d := Sent(e, c, if choke then CHOKE else UNCHOKE);
    if d.open then d.(peerChoked := choke) else d
  }

  function Consult(e: Env, c: Conn): Conn {
    var want, d := e.verdict(c.asked), c.(asked := c.asked + 1);
    if want == c.peerChoked then Tell(e, d, !want) else d
  }

  function LoopTop(e: Env, c: Conn): Conn {
    if Governed(e) then Consult(e, c) else c
  }

  /** The block a request message asks for, if the provider has it. */
  function Lookup(e: Env, m: Message): Option<(u32, u32, Bytes)> {
    match (e.provider, ParseRequestMessage(m.payload))
    case (Some(read), Some((index, begin, length))) =>
      (match read(index, begin, length)
       case Some(block) => Some((index, begin, block))
       case None => None)
    case _ => None
  }

  function OnMessage(e: Env, c: Conn, m: Message): Conn {
    if m.id == MSG_INTERESTED then (if Governed(e) then Consult(e, c) else Tell(e, c, false))
    else if m.id == MSG_REQUEST && !c.peerChoked then
      match Lookup(e, m)
      case None => c
      case Some((index, begin, block)) =>
        var d := Sent(e, c, PieceMessage(index, begin, block));
        if d.open && e.reports && e.addrOk then d.(uploaded := d.uploaded + [|block|]) else d
    else c
  }

  /** The connection when it ends, and the messages it took from the peer. */
  function Run(e: Env, c: Conn, input: Bytes): (Conn, seq<Message>)
    decreases |input|
  {
    var d := LoopTop(e, c);
    if !d.open then (d, [])
    else
      var (r, n) := ParseFrame(input);
      match r
      case Failed(_) => (d, [])
      case Received(m) =>
        var f := OnMessage(e, d, m);
        if !f.open then (f, [m])
        else var (last, ms) := Run(e, f, input[n..]); (last, [m] + ms)
  }

  // ----- The discipline of the choke state -----

  predicate IsChokeState(m: Message) { m.id == MSG_CHOKE || m.id == MSG_UNCHOKE }

  /** What the peer was last told; None before the first Choke or Unchoke. */
  function Standing(log: seq<Message>): Option<bool> {
    if log == [] then None
    else
      var m := log[|log| - 1];
      if IsChokeState(m) then Some(m.id == MSG_CHOKE) else Standing(log[..|log| - 1])
  }

  /** m may follow log: a Choke at the start or after Unchoke, an Unchoke after Choke, a Piece after Unchoke. */
  predicate MayFollow(log: seq<Message>, m: Message) {
    && (m.id == MSG_CHOKE ==> Standing(log) != Some(true))
    && (m.id == MSG_UNCHOKE ==> Standing(log) == Some(true))
    && (m.id == MSG_PIECE ==> Standing(log) == Some(false))
  }

  ghost predicate Disciplined(log: seq<Message>) {
    forall i :: 0 <= i < |log| ==> MayFollow(log[..i], log[i])
  }

  function BlockBytes(log: seq<Message>): nat {
    if log == [] then 0
    else
      var m := log[|log| - 1];
      BlockBytes(log[..|log| - 1]) + if m.id == MSG_PIECE && |m.payload| >= 8 then |m.payload| - 8 else 0
  }

  function Total(sizes: seq<nat>): nat {
    if sizes == [] then 0 else Total(sizes[..|sizes| - 1]) + sizes[|sizes| - 1]
  }

  /** The sends that succeeded, the greeting's two counted in whatever their outcome. */
  function Delivered(c: Conn): seq<Message>
    requires c.log != []
  {
    if c.open then c.log else c.log[..|c.log| - 1]
  }

  ghost predicate ConnInv(e: Env, c: Conn) {
    && |c.log| >= 2
    && (c.open ==> Standing(c.log) == Some(c.peerChoked))
    && (Governed(e) ==> Disciplined(c.log))
    && (forall i :: 2 <= i < |c.log| ==> e.sendOk(i) == (i < |c.log| - 1 || c.open))
    && Total(c.uploaded) == if e.reports && e.addrOk then BlockBytes(Delivered(c)) else 0
  }

  lemma PrefixDisciplined(log: seq<Message>, more: seq<Message>)
    requires log <= more && Disciplined(more)
    ensures Disciplined(log)
  {
    hide MayFollow;
    forall i | 0 <= i < |log| ensures MayFollow(log[..i], log[i]) {
      assert MayFollow(more[..i], more[i]) && more[..i] == log[..i];
    }
  }

  lemma AppendFacts(log: seq<Message>, m: Message)
    ensures Standing(log + [m]) == if IsChokeState(m) then Some(m.id == MSG_CHOKE) else Standing(log)
    ensures BlockBytes(log + [m])
            == BlockBytes(log) + if m.id == MSG_PIECE && |m.payload| >= 8 then |m.payload| - 8 else 0
    ensures Disciplined(log + [m]) <==> Disciplined(log) && MayFollow(log, m)
  {
    AppendDisciplined(log, m);
    hide Disciplined, MayFollow;
    assert (log + [m])[..|log|] == log;
  }

  lemma AppendDisciplined(log: seq<Message>, m: Message)
    ensures Disciplined(log + [m]) <==> Disciplined(log) && MayFollow(log, m)
  {
    hide MayFollow;
    var l := log + [m];
    assert l[..|log|] == log && l[|log|] == m;
    if Disciplined(l) {
      assert MayFollow(l[..|log|], l[|log|]);
      PrefixDisciplined(log, l);
    }
    if Disciplined(log) && MayFollow(log, m) {
      forall i | 0 <= i < |l| ensures MayFollow(l[..i], l[i]) {
        assert i < |log| ==> l[..i] == log[..i];
      }
    }
  }

  lemma GreetKeeps(e: Env)
    ensures ConnInv(e, Greet(e)) && Disciplined(Greet(e).log) && Standing(Greet(e).log) == Some(true)
  {
    var b := Message(MSG_BITFIELD, e.bitfield);
    AppendFacts([], b);
    AppendFacts([b], CHOKE);
    assert [] + [b] == [b] && [b] + [CHOKE] == Greet(e).log;
  }

  lemma TellKeeps(e: Env, c: Conn, choke: bool)
    requires ConnInv(e, c) && c.open
    requires Governed(e) ==> choke != c.peerChoked
    ensures ConnInv(e, Tell(e, c, choke))
  {
    hide Standing, Disciplined, BlockBytes, Total;
    AppendFacts(c.log, if choke then CHOKE else UNCHOKE);
  }

  lemma LoopTopKeeps(e: Env, c: Conn)
    requires ConnInv(e, c) && c.open
    ensures ConnInv(e, LoopTop(e, c))
  {
    hide Standing, Disciplined, BlockBytes, Total, Tell;
    if Governed(e) && e.verdict(c.asked) == c.peerChoked {
      TellKeeps(e, c.(asked := c.asked + 1), !e.verdict(c.asked));
    }
  }

  lemma ServeKeeps(e: Env, c: Conn, m: Message)
    requires ConnInv(e, c) && c.open && m.id == MSG_REQUEST && !c.peerChoked && Lookup(e, m).Some?
    ensures ConnInv(e, OnMessage(e, c, m))
  {
    hide Standing, Disciplined, BlockBytes, Total, Lookup;
    var (index, begin, block) := Lookup(e, m).value;
    AppendFacts(c.log, PieceMessage(index, begin, block));
    TotalAppend(c.uploaded, |block|);
  }

  lemma TotalAppend(sizes: seq<nat>, n: nat)
    ensures Total(sizes + [n]) == Total(sizes) + n
  {
    assert (sizes + [n])[..|sizes|] == sizes;
  }

  lemma OnMessageKeeps(e: Env, c: Conn, m: Message)
    requires ConnInv(e, c) && c.open
    ensures ConnInv(e, OnMessage(e, c, m))
  {
    hide ConnInv, Tell, Sent, Lookup, Consult;
    if m.id == MSG_INTERESTED {
      if Governed(e) {
        LoopTopKeeps(e, c);
      } else {
        TellKeeps(e, c, false);
      }
    } else if m.id == MSG_REQUEST && !c.peerChoked && Lookup(e, m).Some? {
      ServeKeeps(e, c, m);
    }
  }

  lemma {:induction false} RunKeeps(e: Env, c: Conn, input: Bytes)
    requires ConnInv(e, c) && c.open
    ensures ConnInv(e, Run(e, c, input).0)
    decreases |input|
  {
    hide ConnInv, LoopTop, OnMessage;
    LoopTopKeeps(e, c);
    var d := LoopTop(e, c);
    var (r, n) := ParseFrame(input);
    if d.open && r.Received? {
      OnMessageKeeps(e, d, r.msg);
      if OnMessage(e, d, r.msg).open { RunKeeps(e, OnMessage(e, d, r.msg), input[n..]); }
    }
  }

  /** Whatever the peer sends: under a policy and with a known address the choke state alternates from Choke on and
      blocks go out only while the peer is unchoked. */
  lemma ChokeStateAlternates(e: Env, input: Bytes)
    requires Governed(e)
    ensures Disciplined(Run(e, Greet(e), input).0.log)
  {
    GreetKeeps(e);
    RunKeeps(e, Greet(e), input);
  }

  /** The uploads reported add up to the block bytes of the Piece messages that were sent. */
  lemma UploadsAreExact(e: Env, input: Bytes)
    requires e.reports && e.addrOk
    ensures var c := Run(e, Greet(e), input).0; c.log != [] && Total(c.uploaded) == BlockBytes(Delivered(c))
  {
    GreetKeeps(e);
    RunKeeps(e, Greet(e), input);
  }

  /** After the greeting every send but the last succeeded: a failed one ends the connection. */
  lemma FailedSendIsLast(e: Env, input: Bytes, i: nat)
    requires 2 <= i < |Run(e, Greet(e), input).0.log| && !e.sendOk(i)
    ensures i == |Run(e, Greet(e), input).0.log| - 1 && !Run(e, Greet(e), input).0.open
  {
    GreetKeeps(e);
    RunKeeps(e, Greet(e), input);
  }

  /** Every block that goes out was asked for while the peer was unchoked, and is what the provider holds there. */
  lemma OnlyAnswers(e: Env, c: Conn, m: Message)
    requires |OnMessage(e, c, m).log| > |c.log| && OnMessage(e, c, m).log[|c.log|].id == MSG_PIECE
    ensures m.id == MSG_REQUEST && !c.peerChoked
    ensures exists index: u32, begin: u32, length: u32, block: Bytes ::
              && m.payload == RequestMessage(index, begin, length).payload
              && e.provider.Some? && e.provider.value(index, begin, length) == Some(block)
              && OnMessage(e, c, m).log == c.log + [PieceMessage(index, begin, block)]
  {
    var (index, begin, length) := ParseRequestMessage(m.payload).value;
    RequestInverse(m.payload, index, begin, length);
    assert e.provider.value(index, begin, length).Some?;
  }

  /** The converse: an open connection that has told its peer Unchoke answers a request for a block the provider
      holds with exactly that block. */
  lemma HeldBlockIsSent(e: Env, c: Conn, index: u32, begin: u32, length: u32, block: Bytes)
    requires ConnInv(e, c) && c.open && Standing(c.log) == Some(false)
    requires e.provider.Some? && e.provider.value(index, begin, length) == Some(block)
    ensures OnMessage(e, c, RequestMessage(index, begin, length)).log == c.log + [PieceMessage(index, begin, block)]
  {
    hide Standing;
    var m := RequestMessage(index, begin, length);
    RequestInverse(m.payload, index, begin, length);
    assert Lookup(e, m) == Some((index, begin, block));
  }

  // ----- Obeying the policy -----

  /** After asking, the peer has been told what the policy answered. */
  lemma ConsultObeys(e: Env, c: Conn)
    requires ConnInv(e, c) && c.open
    ensures var d := Consult(e, c);
            d.asked == c.asked + 1 && (d.open ==> Standing(d.log) == Some(!e.verdict(c.asked)))
  {
    hide Disciplined, BlockBytes, Total, Standing;
    AppendFacts(c.log, CHOKE);
    AppendFacts(c.log, UNCHOKE);
  }

  lemma RequestKeepsStanding(e: Env, c: Conn, m: Message)
    requires m.id != MSG_INTERESTED
    ensures OnMessage(e, c, m).asked == c.asked && Standing(OnMessage(e, c, m).log) == Standing(c.log)
  {
    hide Lookup, Standing, Disciplined, BlockBytes;
    if m.id == MSG_REQUEST && !c.peerChoked && Lookup(e, m).Some? {
      var (index, begin, block) := Lookup(e, m).value;
      AppendFacts(c.log, PieceMessage(index, begin, block));
    }
  }

  /** A governed connection asks its policy before every read and for every Interested, and whenever it reads the
      peer has been told the latest answer. Cutting the input shows this at every point of a connection. */
  lemma {:induction false} PolicyIsObeyed(e: Env, c: Conn, input: Bytes)
    requires Governed(e) && ConnInv(e, c) && c.open
    ensures var (last, ms) := Run(e, c, input);
            last.open ==>
              && last.asked == c.asked + |ms| + 1 + Interests(ms)
              && Standing(last.log) == Some(!e.verdict(last.asked - 1))
    decreases |input|
  {
    hide ConnInv, OnMessage, Consult, Standing;
    ConsultObeys(e, c);
    LoopTopKeeps(e, c);
    var d := LoopTop(e, c);
    var (r, n) := ParseFrame(input);
    if d.open && r.Received? {
      var f := OnMessage(e, d, r.msg);
      OnMessageKeeps(e, d, r.msg);
      MessageAsks(e, d, r.msg);
      if f.open {
        PolicyIsObeyed(e, f, input[n..]);
        var ms := Run(e, f, input[n..]).1;
        assert ([r.msg] + ms)[1..] == ms;
      }
    }
  }

  lemma MessageAsks(e: Env, c: Conn, m: Message)
    requires Governed(e) && ConnInv(e, c) && c.open
    ensures OnMessage(e, c, m).asked == c.asked + if m.id == MSG_INTERESTED then 1 else 0
  {
    hide Standing, Disciplined, BlockBytes, Total, Lookup;
  }

  /** ... and right after an Interested, before anything else is read. */
  lemma InterestedIsAnswered(e: Env, c: Conn, m: Message)
    requires ConnInv(e, c) && c.open && m.id == MSG_INTERESTED && OnMessage(e, c, m).open
    ensures Standing(OnMessage(e, c, m).log) == Some(if Governed(e) then !e.verdict(c.asked) else false)
  {
    hide Standing, Disciplined, BlockBytes, Total;
    if Governed(e) {
      ConsultObeys(e, c);
    } else {
      AppendFacts(c.log, UNCHOKE);
    }
  }

  /** Without a policy the peer stands unchoked exactly from its first Interested on. */
  lemma {:induction false} WithoutPolicy(e: Env, c: Conn, input: Bytes)
    requires !Governed(e) && ConnInv(e, c) && c.open
    ensures var (last, ms) := Run(e, c, input);
            last.open ==> last.asked == c.asked
                          && Standing(last.log) == if Interests(ms) > 0 then Some(false) else Standing(c.log)
    decreases |input|
  {
    hide ConnInv, OnMessage, Standing;
    var (r, n) := ParseFrame(input);
    if r.Received? {
      var f := OnMessage(e, c, r.msg);
      OnMessageKeeps(e, c, r.msg);
      UngovernedAsks(e, c, r.msg);
      if f.open {
        if r.msg.id == MSG_INTERESTED {
          InterestedIsAnswered(e, c, r.msg);
        } else {
          RequestKeepsStanding(e, c, r.msg);
        }
        WithoutPolicy(e, f, input[n..]);
        var ms := Run(e, f, input[n..]).1;
        assert ([r.msg] + ms)[1..] == ms;
      }
    }
  }

  lemma UngovernedAsks(e: Env, c: Conn, m: Message)
    requires !Governed(e)
    ensures OnMessage(e, c, m).asked == c.asked
  {
    hide Lookup;
  }

  // ----- One more message -----

  /** A connection that is still open after some messages acts on the next one, and then comes round again. */
  lemma {:induction false} RunOneMore(e: Env, c: Conn, ms: seq<Message>, m: Message)
    requires (forall x | x in ms :: Sendable(x)) && Sendable(m) && Run(e, c, EncodeAll(ms)).0.open
    ensures var d := Run(e, c, EncodeAll(ms)).0;
            OnMessage(e, d, m).log <= Run(e, c, EncodeAll(ms + [m])).0.log
    decreases |ms|
  {
    hide LoopTop, OnMessage, Encode, ParseFrame;
    var d := LoopTop(e, c);
    if ms == [] {
      EmptyFrame();
      ReadBack(m, []);
      assert EncodeAll([m]) == Encode(m) + [] by { assert [m][1..] == []; }
      assert ms + [m] == [m];
      assert (Encode(m) + [])[|Encode(m)|..] == [];
      StepExtends(e, OnMessage(e, d, m), m);
    } else {
      ReadBack(ms[0], EncodeAll(ms[1..]));
      ReadBack(ms[0], EncodeAll(ms[1..] + [m]));
      assert (ms + [m])[0] == ms[0] && (ms + [m])[1..] == ms[1..] + [m];
      assert (Encode(ms[0]) + EncodeAll(ms[1..]))[|Encode(ms[0])|..] == EncodeAll(ms[1..]);
      assert (Encode(ms[0]) + EncodeAll(ms[1..] + [m]))[|Encode(ms[0])|..] == EncodeAll(ms[1..] + [m]);
      RunOneMore(e, OnMessage(e, d, ms[0]), ms[1..], m);
    }
  }

  lemma EmptyFrame()
    ensures ParseFrame([]).0.Failed?
  {
  }

  /** Over a whole connection: a peer that stands unchoked and asks for a block the provider holds gets that block
      next, with the index and offset it asked for. */
  lemma UnchokedPeerIsServed(e: Env, ms: seq<Message>, index: u32, begin: u32, length: u32, block: Bytes)
    requires forall x | x in ms :: Sendable(x)
    requires var c := Run(e, Greet(e), EncodeAll(ms)).0; c.open && Standing(c.log) == Some(false)
    requires e.provider.Some? && e.provider.value(index, begin, length) == Some(block)
    ensures Run(e, Greet(e), EncodeAll(ms)).0.log + [PieceMessage(index, begin, block)]
            <= Run(e, Greet(e), EncodeAll(ms + [RequestMessage(index, begin, length)])).0.log
  {
    hide ConnInv, Standing, Run, Disciplined;
    GreetKeeps(e);
    RunKeeps(e, Greet(e), EncodeAll(ms));
    HeldBlockIsSent(e, Run(e, Greet(e), EncodeAll(ms)).0, index, begin, length, block);
    RunOneMore(e, Greet(e), ms, RequestMessage(index, begin, length));
  }

  /** Every connection opens with the bitfield and a Choke. */
  lemma OpensWithBitfield(e: Env, input: Bytes)
    ensures [Message(5, e.bitfield), Message(0, [])] <= Run(e, Greet(e), input).0.log
  {
    RunExtends(e, Greet(e), input);
  }

  // ----- Without a policy -----

  function Interests(ms: seq<Message>): nat {
    if ms == [] then 0 else (if ms[0].id == MSG_INTERESTED then 1 else 0) + Interests(ms[1..])
  }

  /** Every Interested sends another Unchoke, so from an unchoked peer on, discipline needs that there is none. */
  lemma {:induction false} UngovernedRun(e: Env, c: Conn, input: Bytes)
    requires !Governed(e) && ConnInv(e, c) && c.open && Disciplined(c.log)
    ensures Disciplined(Run(e, c, input).0.log)
            <==> Interests(Run(e, c, input).1) <= if c.peerChoked then 1 else 0
    decreases |input|
  {
    hide ConnInv, Disciplined, OnMessage, Lookup;
    var (r, n) := ParseFrame(input);
    if r.Received? {
      var f := OnMessage(e, c, r.msg);
      OnMessageKeeps(e, c, r.msg);
      UngovernedMessage(e, c, r.msg);
      if f.open {
        var ms := Run(e, f, input[n..]).1;
        assert ([r.msg] + ms)[1..] == ms;
        RunExtends(e, f, input[n..]);
        if Disciplined(f.log) {
          UngovernedRun(e, f, input[n..]);
        } else if Disciplined(Run(e, f, input[n..]).0.log) {
          PrefixDisciplined(f.log, Run(e, f, input[n..]).0.log);
        }
      }
    }
  }

  lemma UngovernedMessage(e: Env, c: Conn, m: Message)
    requires !Governed(e) && ConnInv(e, c) && c.open && Disciplined(c.log)
    ensures var f := OnMessage(e, c, m);
            && (Disciplined(f.log) <==> m.id != MSG_INTERESTED || c.peerChoked)
            && (f.open ==> f.peerChoked == (c.peerChoked && m.id != MSG_INTERESTED))
  {
    hide Disciplined, Standing, BlockBytes, Total, Lookup;
    if m.id == MSG_INTERESTED {
      AppendFacts(c.log, UNCHOKE);
    } else if m.id == MSG_REQUEST && !c.peerChoked && Lookup(e, m).Some? {
      var (index, begin, block) := Lookup(e, m).value;
      AppendFacts(c.log, PieceMessage(index, begin, block));
    }
  }

  lemma StepExtends(e: Env, c: Conn, m: Message)
    ensures c.log <= LoopTop(e, c).log && c.log <= OnMessage(e, c, m).log
  {
    hide Lookup;
  }

  lemma {:induction false} RunExtends(e: Env, c: Conn, input: Bytes)
    ensures c.log <= Run(e, c, input).0.log
    decreases |input|
  {
    hide LoopTop, OnMessage;
    var d := LoopTop(e, c);
    var (r, n) := ParseFrame(input);
    StepExtends(e, c, CHOKE);
    if r.Received? { StepExtends(e, d, r.msg); }
    if d.open && r.Received? && OnMessage(e, d, r.msg).open {
      RunExtends(e, OnMessage(e, d, r.msg), input[n..]);
    }
  }

  /** The listener keeps the discipline exactly when it has a policy and the address, or the peer sends at most
      one Interested. */
  lemma AlternatesIff(e: Env, input: Bytes)
    ensures Disciplined(Run(e, Greet(e), input).0.log)
            <==> Governed(e) || Interests(Run(e, Greet(e), input).1) <= 1
  {
    GreetKeeps(e);
    if Governed(e) {
      ChokeStateAlternates(e, input);
    } else {
      UngovernedRun(e, Greet(e), input);
    }
  }

  /** With no send failing, the messages taken are all that the stream holds. */
  lemma {:induction false} TakesWholeStream(e: Env, c: Conn, input: Bytes)
    requires c.open && forall i :: e.sendOk(i)
    ensures Run(e, c, input).1 == ParseAll(input).0
    decreases |input|
  {
    var d := LoopTop(e, c);
    var (r, n) := ParseFrame(input);
    if r.Received? {
      TakesWholeStream(e, OnMessage(e, d, r.msg), input[n..]);
    }
  }

  /** ... of the input: with no send failing, the Interested messages on the stream decide. */
  lemma AlternatesIffInput(e: Env, input: Bytes)
    requires forall i :: e.sendOk(i)
    ensures Disciplined(Run(e, Greet(e), input).0.log) <==> Governed(e) || Interests(ParseAll(input).0) <= 1
  {
    TakesWholeStream(e, Greet(e), input);
    AlternatesIff(e, input);
  }

  /** Two Interested messages and no policy: Unchoke goes out twice in a row. */
  lemma RepeatedUnchoke(e: Env)
    requires !Governed(e) && forall i :: e.sendOk(i)
    ensures var ms := [Message(MSG_INTERESTED, []), Message(MSG_INTERESTED, [])];
            !Disciplined(Run(e, Greet(e), EncodeAll(ms)).0.log)
  {
    var i := Message(MSG_INTERESTED, []);
    var ms := [i, i];
    StreamRoundTrip(ms, []);
    NothingToRead();
    assert EncodeAll(ms) + [] == EncodeAll(ms) && ms + [] == ms;
    TakesWholeStream(e, Greet(e), EncodeAll(ms));
    assert ms[1..] == [i] && [i][1..] == [];
    assert Interests([i]) == 1;
    AlternatesIff(e, EncodeAll(ms));
  }

  // ----- The connection as the program runs it -----

  class Connection {
    const env: Env
    const input: Stream
    var log: seq<Message>
    var asked: nat
    var peerChoked: bool
    var open: bool
    var uploaded: seq<nat>

    constructor (env: Env, input: Stream)
      ensures this.env == env && this.input == input
    {
      this.env, this.input := env, input;
      log, asked, peerChoked, open, uploaded := [], 0, false, true, [];
    }

    function State(): Conn
      reads this
    {
      Conn(log, asked, peerChoked, open, uploaded)
    }

    method SendMessage(m: Message) returns (ok: bool)
      modifies this
      ensures ok == env.sendOk(old(|log|))
      ensures State() == old(State()).(log := old(log) + [m])
    {
      ok := env.sendOk(|log|);
      log := log + [m];
    }

    method ShouldUnchoke() returns (want: bool)
      modifies this
      ensures want == env.verdict(old(asked))
      ensures State() == old(State()).(asked := old(asked) + 1)
    {
      want := env.verdict(asked);
      asked := asked + 1;
    }

    /** Brings the choke state in line with the policy. */
    method FollowPolicy()
      requires open
      modifies this
      ensures State() == Consult(env, old(State()))
    {
      var wantUnchoked := ShouldUnchoke();
      if wantUnchoked && peerChoked {
        open := SendMessage(UNCHOKE);
        if open { peerChoked := false; }
      } else if !wantUnchoked && !peerChoked {
        open := SendMessage(CHOKE);
        if open { peerChoked := true; }
      }
    }

    method Handle(m: Message)
      requires open
      modifies this
      ensures State() == OnMessage(env, old(State()), m)
    {
      if m.id == MSG_INTERESTED {
        if env.addrOk && env.hasPolicy {
          FollowPolicy();
        } else {
          open := SendMessage(UNCHOKE);
          if open { peerChoked := false; }
        }
      } else if m.id == MSG_REQUEST {
        if env.provider.None? || peerChoked { return; }
        var request := ParseRequestMessage(m.payload);
        if request.None? { return; }
        var (index, begin, length) := request.value;
        var block := env.provider.value(index, begin, length);
        if block.None? { return; }
        open := SendMessage(PieceMessage(index, begin, block.value));
        if open && env.reports && env.addrOk { uploaded := uploaded + [|block.value|]; }
      }
    }

    /** The whole connection after the handshake, until the stream or a send fails. */
    method Serve()
      requires log == [] && asked == 0 && uploaded == [] && open
      modifies this, input
      ensures State() == Run(env, Greet(env), old(input.unread)).0
    {
      var ignored := SendMessage(Message(MSG_BITFIELD, env.bitfield));
      ignored := SendMessage(CHOKE);
      peerChoked := true;
      assert log == Greet(env).log;
      while true
        invariant open
        invariant Run(env, State(), input.unread).0 == Run(env, Greet(env), old(input.unread)).0
        decreases |input.unread|
      {
        if env.addrOk && env.hasPolicy {
          FollowPolicy();
          if !open { return; }
        }
        var r := input.ReadMessage();
        if r.Failed? { return; }
        Handle(r.msg);
        if !open { return; }
      }
    }
  }
}
