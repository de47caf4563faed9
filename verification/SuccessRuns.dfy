/** A download can finish: from which states some run leads to success, and that it does from every start. */
module SuccessRuns {
  import opened Bytes
  import opened Layout
  import opened Engine
  import opened EngineQueue
  import opened EngineBus
  import opened EngineCount
  import opened EngineSessions
  import opened EngineDisk
  import opened EngineRuns
  import opened Resume
  import opened SoleWriter
  import opened RunSteps

  ghost predicate AllVerifiable(c: Config) {
    c.t.pieceLength > 0 && forall p | 0 <= p < NumPieces(c) :: Verifiable(c, p)
  }

  /** A worker that can only wait for room in the queue. */
  predicate Stuck(pc: WorkerPC) { pc.Requeueing? || (pc.Attempting? && pc.a >= 12) }

  predicate Busy(k: Connector) { k.Dialing? || k.Offering? }

  /** A session can be had without a new peer. */
  ghost predicate Supplied(m: Swarm) {
    m.ready != [] || m.available != {} || exists j :: 0 <= j < |m.connectors| && Busy(m.connectors[j])
  }

  ghost predicate PeerAtHand(m: Swarm, w: Worker) { Supplied(m) || w.sess.Some? }

  /** Worker i can go on by itself to the end of its piece. */
  ghost predicate Working(c: Config, s: State, i: nat) {
    && i < |s.workers| && !s.cancelled && LockFree(s) && s.swarm.connectors != []
    && AllVerifiable(c) && PeerAtHand(s.swarm, s.workers[i]) && !Stuck(s.workers[i].pc)
  }

  /** Only worker i and the connectors have moved; the queue and the known peers are the same. */
  ghost predicate Kept(s: State, s': State, i: nat) {
    && Moved(s, s', i) && s'.pieces.queue == s.pieces.queue
    && |s'.swarm.connectors| == |s.swarm.connectors| && s'.swarm.known == s.swarm.known
  }

  /** Completed pieces verify on disk, and worker w, on a piece that is not complete, has written what it claims. */
  ghost predicate Clean(c: Config, d: Pieces, w: Worker)
    requires c.t.pieceLength > 0
  {
    && AllStored(c, d) && DiskFacts(c, d.disk, w.pc)
    && (OnPiece(w.pc) && Holds(w, w.pc.p) && !w.pc.Checking? ==> w.pc.p < |d.completed| && !d.completed[w.pc.p])
  }

  // ----- One step of a worker that finishes its piece -----

  function Stage(pc: WorkerPC): nat {
    match pc
    case Checking(_) => 16
    case Subscribing(_) => 15
    case Attempting(_, _, _) => 14
    case Fetching(_, _, _) => 13
    case Transferring(_, _, _) => 12
    case Writing(_, _, _, _, _) => 11
    case Committing(_, _) => 10
    case Announcing(_, _) => 9
    case Signalling(_, _, _) => 8
    case Releasing(_, _) => 7
    case Counting(_, _) => 6
    case Summing(_, _, _) => 5
    case Injecting(_, _) => 4
    case Serving(_) => 3
    case Requeueing(_) => 2
    case Idle => 0
    case Exited => 0
  }

  function Togo(pc: WorkerPC): nat {
    match pc
    case Writing(_, _, _, data, k) => if k <= |data| then |data| - k else 0
    case Signalling(_, _, pending) => |pending|
    case _ => 0
  }

  predicate Nearer(pc: WorkerPC, pc': WorkerPC) {
    Stage(pc') < Stage(pc) || (Stage(pc') == Stage(pc) && Togo(pc') < Togo(pc))
  }

  predicate OnItsOwn(pc: WorkerPC) {
    !pc.Idle? && !pc.Exited? && !pc.Fetching? && !pc.Transferring? && !Stuck(pc)
  }

  /** The step of a worker that waits for nobody. */
  function Usual(pc: WorkerPC): WorkerStep {
    match pc
    case Checking(_) => Check
    case Subscribing(_) => Subscribe
    case Attempting(_, _, _) => Attempt
    case Writing(_, _, _, data, k) => if k < |data| then WriteByte else WriteEnd
    case Committing(_, _) => Commit
    case Announcing(_, _) => Announce
    case Signalling(_, _, _) => Signal
    case Releasing(_, _) => WgDone
    case Counting(_, _) => Count
    case Summing(_, _, _) => Sum
    case Injecting(_, _) => Inject
    case _ => Serve
  }

  lemma UsualEnabled(c: Config, s: State, w: Worker)
    requires Typed(c, s) && WorkerTyped(c, s.bus, w) && OnItsOwn(w.pc) && LockFree(s)
    ensures WorkerEnabled(c, s, w, Usual(w.pc))
  {
  }

  lemma UsualNearer(c: Config, s: State, w: Worker)
    requires Typed(c, s) && WorkerTyped(c, s.bus, w) && OnItsOwn(w.pc) && WorkerEnabled(c, s, w, Usual(w.pc))
    ensures var pc' := PcAfter(c, s, w, Usual(w.pc)); Nearer(w.pc, pc') && !Stuck(pc') && !pc'.Exited?
  {
  }

  lemma UsualPieces(c: Config, d: Pieces, pc: WorkerPC)
    requires OnItsOwn(pc) && !d.endgame.Sweeping?
    ensures var d' := PiecesAfter(c, d, pc, Usual(pc)); d'.queue == d.queue && !d'.endgame.Sweeping?
  {
    hide Poke;
  }

  lemma UsualSwarm(m: Swarm, w: Worker)
    requires OnItsOwn(w.pc) && PeerAtHand(m, w) && (w.sess.Some? ==> w.sess.value.peer in m.known)
    ensures var m', sess' := SwarmAfter(m, w, Usual(w.pc)), SessionAfter(m, w, Usual(w.pc));
            && m'.known == m.known && m'.connectors == m.connectors && m'.ready == m.ready
            && PeerAtHand(m', Worker(w.pc, sess'))
  {
  }

  /** A worker's peer is a known one. */
  lemma SessionKnown(s: State, i: nat)
    requires Exclusive(s) && i < |s.workers| && s.workers[i].sess.Some?
    ensures s.workers[i].sess.value.peer in s.swarm.known
  {
    var k := s.workers[i].sess.value.peer;
    TotalAtLeast(s.workers, WorkerHas(k), i);
    assert Holders(s, k) == Bit(OnLoan(s.swarm, k));
  }

  lemma CleanStep(c: Config, s: State, w: Worker, act: WorkerStep)
    requires Typed(c, s) && WorkerTyped(c, s.bus, w) && WorkerEnabled(c, s, w, act)
    requires Clean(c, s.pieces, w) && !act.Take? && !act.Requeue?
    ensures Clean(c, PiecesAfter(c, s.pieces, w.pc, act), Worker(PcAfter(c, s, w, act), SessionAfter(s.swarm, w, act)))
  {
    hide DiskFacts, AllStored, SessionAfter, Poke, Verified, PieceOffset;
    if act.WriteByte? {
      CleanByte(c, s, w);
    } else {
      OtherWorkDisk(c, s, w, act);
    }
  }

  lemma CleanByte(c: Config, s: State, w: Worker)
    requires Typed(c, s) && WorkerTyped(c, s.bus, w) && WorkerEnabled(c, s, w, WriteByte) && Clean(c, s.pieces, w)
    ensures var d' := PiecesAfter(c, s.pieces, w.pc, WriteByte);
            AllStored(c, d') && DiskFacts(c, d'.disk, PcAfter(c, s, w, WriteByte))
  {
    hide Verified, Stored, PieceOffset, PieceLengthAt, OnDisk, SessionAfter, Poke;
    var p, data, k := w.pc.p, w.pc.data, w.pc.k;
    LengthOf(c, p, data);
    OffsetNonNegative(c.t, p);
    PokeExtends(s.pieces.disk, PieceOffset(c.t, p), data, k);
    var d' := PiecesAfter(c, s.pieces, w.pc, WriteByte);
    forall r | 0 <= r < NumPieces(c) && d'.completed[r] ensures Stored(c, d'.disk, r) {
      PokeKeepsStored(c, s.pieces.disk, p, k, data[k], r);
    }
  }

  // ----- A session -----

  lemma ConnectorMoves(c: Config, o: State, s: State, j: nat, move: ConnectorStep) returns (s': State)
    requires Reached(c, o, s) && j < |s.swarm.connectors|
    requires ConnectorEnabled(s.swarm, s.swarm.connectors[j], move, s.cancelled)
    ensures Reached(c, o, s') && s' == s.(swarm := ConnectorNext(s.swarm, j, move))
  {
    hide Reached, Typed, ConnectorEnabled, ConnectorNext;
    ReachedTyped(c, o, s);
    s' := Advance(c, o, s, Connect(j, move));
  }

  /** Without discovering a peer some connector gets a session ready. */
  lemma ReadyOne(c: Config, o: State, s: State) returns (s': State)
    requires Reached(c, o, s) && Open(s) && !s.cancelled && s.swarm.connectors != [] && Supplied(s.swarm)
    ensures Reached(c, o, s') && s' == s.(swarm := s'.swarm) && s'.swarm.ready != []
    ensures |s'.swarm.connectors| == |s.swarm.connectors| && s'.swarm.known == s.swarm.known
  {
    hide Reached;
    s' := s;
    if s.swarm.ready == [] {
      var j: nat;
      if i :| 0 <= i < |s.swarm.connectors| && Busy(s.swarm.connectors[i]) {
        j := i;
      } else {
        assert !Busy(s.swarm.connectors[0]);
        var k :| k in s.swarm.available;
        j := 0;
        s' := ConnectorMoves(c, o, s, 0, Acquire(k));
      }
      if s'.swarm.connectors[j].Dialing? { s' := ConnectorMoves(c, o, s', j, DialOk); }
      s' := ConnectorMoves(c, o, s', j, Offer);
    }
  }

  // ----- A worker finishes its piece -----

  lemma OnItsOwnStep(c: Config, o: State, s: State, i: nat) returns (s': State)
    requires Reached(c, o, s) && Working(c, s, i) && OnItsOwn(s.workers[i].pc)
    ensures Reached(c, o, s') && Kept(s, s', i) && Working(c, s', i)
    ensures Nearer(s.workers[i].pc, s'.workers[i].pc) && !s'.workers[i].pc.Exited?
    ensures Clean(c, s.pieces, s.workers[i]) ==> Clean(c, s'.pieces, s'.workers[i])
  {
    hide Inv, Clean, PcAfter, PiecesAfter, SwarmAfter, SessionAfter, BusAfter, Usual, OnItsOwn, Nearer, Stuck, Supplied,
      AllVerifiable, WorkerTyped, WorkerEnabled, Typed, IsPath, Open;
    var w := s.workers[i];
    AllVerifiableSized(c);
    ReachedTyped(c, o, s);
    WorkerIsTyped(c, s, i);
    UsualEnabled(c, s, w);
    UsualNearer(c, s, w);
    UsualPieces(c, s.pieces, w.pc);
    if w.sess.Some? { InvExclusive(c, s); SessionKnown(s, i); }
    UsualSwarm(s.swarm, w);
    if Clean(c, s.pieces, w) { UsualIsOther(w.pc); CleanStep(c, s, w, Usual(w.pc)); }
    s' := Act(c, o, s, i, Usual(w.pc));
    SameSession(s'.swarm, w.pc, s'.workers[i]);
  }

  lemma InvExclusive(c: Config, s: State)
    requires Inv(c, s)
    ensures Exclusive(s)
  {
  }

  lemma UsualIsOther(pc: WorkerPC)
    ensures !Usual(pc).Take? && !Usual(pc).Requeue?
  {
  }

  lemma SameSession(m: Swarm, pc: WorkerPC, w: Worker)
    ensures PeerAtHand(m, Worker(pc, w.sess)) == PeerAtHand(m, w)
  {
  }

  lemma FetchStep(c: Config, o: State, s: State, i: nat) returns (s': State)
    requires Reached(c, o, s) && Working(c, s, i) && s.workers[i].pc.Fetching?
    ensures Reached(c, o, s') && Kept(s, s', i) && Working(c, s', i)
    ensures Nearer(s.workers[i].pc, s'.workers[i].pc) && !s'.workers[i].pc.Exited?
    ensures Clean(c, s.pieces, s.workers[i]) ==> Clean(c, s'.pieces, s'.workers[i])
  {
    hide Reached, Clean, AllVerifiable, BusAfter, Open;
    ReachedTyped(c, o, s);
    WorkerIsTyped(c, s, i);
    ReachedInv(c, o, s);
    hide Typed, WorkerTyped, Inv, Supplied;
    assert s.workers[i].sess.None? by { FetchingHasNone(c, s.bus, s.workers[i]); }
    var t := ReadyOne(c, o, s);
    ReachedTyped(c, o, t);
    WorkerIsTyped(c, t, i);
    if Clean(c, s.pieces, s.workers[i]) { CleanStep(c, t, t.workers[i], Fetch); }
    s' := Act(c, o, t, i, Fetch);
  }

  lemma FetchingHasNone(c: Config, b: Bus, w: Worker)
    requires WorkerTyped(c, b, w) && w.pc.Fetching?
    ensures w.sess.None?
  {
  }

  lemma ReceiveStep(c: Config, o: State, s: State, i: nat) returns (s': State)
    requires Reached(c, o, s) && Working(c, s, i) && s.workers[i].pc.Transferring?
    ensures Reached(c, o, s') && Kept(s, s', i) && Working(c, s', i)
    ensures Nearer(s.workers[i].pc, s'.workers[i].pc) && !s'.workers[i].pc.Exited?
    ensures Clean(c, s.pieces, s.workers[i]) ==> Clean(c, s'.pieces, s'.workers[i])
  {
    hide Reached, Clean, BusAfter, Supplied;
    ReachedTyped(c, o, s);
    WorkerIsTyped(c, s, i);
    assert Verifiable(c, s.workers[i].pc.p);
    hide Typed, WorkerTyped, Verified;
    var data :| Verified(c, s.workers[i].pc.p, data);
    if Clean(c, s.pieces, s.workers[i]) { CleanStep(c, s, s.workers[i], Receive(data)); }
    s' := Act(c, o, s, i, Receive(data));
  }

  /** By itself a worker gets to the end of its piece, whatever it is doing, and without any room in the queue. */
  lemma {:induction false} Settle(c: Config, o: State, s: State, i: nat) returns (s': State)
    requires Reached(c, o, s) && Working(c, s, i) && !s.workers[i].pc.Exited?
    ensures Reached(c, o, s') && Kept(s, s', i) && Working(c, s', i) && s'.workers[i].pc == Idle
    ensures Clean(c, s.pieces, s.workers[i]) ==> Clean(c, s'.pieces, s'.workers[i])
    decreases Stage(s.workers[i].pc), Togo(s.workers[i].pc)
  {
    hide Reached, Clean, AllVerifiable, PeerAtHand;
    var pc := s.workers[i].pc;
    if pc == Idle {
      s' := s;
    } else {
      var t;
      if pc.Fetching? { t := FetchStep(c, o, s, i); }
      else if pc.Transferring? { t := ReceiveStep(c, o, s, i); }
      else { t := OnItsOwnStep(c, o, s, i); }
      s' := Settle(c, o, t, i);
    }
  }

  lemma IdleIsClean(c: Config, d: Pieces, w: Worker)
    requires c.t.pieceLength > 0 && (w.pc.Idle? || w.pc.Checking?)
    ensures Clean(c, d, w) <==> AllStored(c, d)
  {
    hide AllStored;
  }

  /** An idle worker empties the queue. */
  lemma {:induction false} DrainQueue(c: Config, o: State, s: State, i: nat) returns (s': State)
    requires Reached(c, o, s) && Working(c, s, i) && s.workers[i].pc == Idle
    ensures Reached(c, o, s') && Working(c, s', i) && s'.workers[i].pc == Idle
    ensures Moved(s, s', i) && s'.pieces.queue == [] && s'.swarm.known == s.swarm.known
    ensures |s'.swarm.connectors| == |s.swarm.connectors|
    ensures AllStored(c, s.pieces) ==> AllStored(c, s'.pieces)
    decreases |s.pieces.queue|
  {
    hide Reached, Clean, AllVerifiable, AllStored, Supplied;
    if s.pieces.queue == [] {
      s' := s;
    } else {
      var t := TakeHead(c, o, s, i);
      AllVerifiableSized(c);
      IdleIsClean(c, t.pieces, t.workers[i]);
      SameStored(c, s.pieces, t.pieces);
      var u := Settle(c, o, t, i);
      IdleIsClean(c, u.pieces, u.workers[i]);
      s' := DrainQueue(c, o, u, i);
    }
  }

  lemma AllVerifiableSized(c: Config)
    requires AllVerifiable(c)
    ensures c.t.pieceLength > 0
  {
  }

  lemma SameStored(c: Config, d: Pieces, d': Pieces)
    requires c.t.pieceLength > 0 && d'.completed == d.completed && d'.disk == d.disk
    ensures AllStored(c, d') == AllStored(c, d)
  {
  }

  // ----- The end of the download -----

  predicate AtRest(pc: WorkerPC) { pc.Idle? || Stuck(pc) }

  /** A stuck worker waits with its piece, if it does not already. */
  lemma StandsBack(c: Config, o: State, s: State, i: nat) returns (s': State)
    requires Reached(c, o, s) && i < |s.workers| && Stuck(s.workers[i].pc)
    ensures Reached(c, o, s') && Moved(s, s', i) && s'.workers[i].pc == Requeueing(s.workers[i].pc.p)
    ensures s'.pieces == s.pieces && s'.swarm == s.swarm
  {
    hide Reached, BusAfter;
    s' := s;
    if s.workers[i].pc.Attempting? {
      ReachedTyped(c, o, s);
      WorkerIsTyped(c, s, i);
      hide Typed, WorkerTyped;
      s' := Act(c, o, s, i, Attempt);
    }
  }

  lemma GivesUp(c: Config, o: State, s: State, i: nat) returns (s': State)
    requires Reached(c, o, s) && i < |s.workers| && s.cancelled && Stuck(s.workers[i].pc)
    ensures Reached(c, o, s') && Moved(s, s', i) && s'.workers[i].pc == Idle
    ensures s'.pieces == s.pieces && s'.swarm.known == s.swarm.known
  {
    hide Reached, BusAfter;
    s' := StandsBack(c, o, s, i);
    ReachedTyped(c, o, s');
    WorkerIsTyped(c, s', i);
    hide Typed, WorkerTyped;
    s' := Act(c, o, s', i, DropRequeue);
  }

  lemma Leaves(c: Config, o: State, s: State, i: nat) returns (s': State)
    requires Reached(c, o, s) && i < |s.workers| && s.cancelled && AtRest(s.workers[i].pc)
    ensures Reached(c, o, s') && Moved(s, s', i) && s'.workers[i].pc == Exited
    ensures s'.pieces == s.pieces && s'.swarm.known == s.swarm.known
  {
    hide Reached, BusAfter;
    s' := s;
    if !s.workers[i].pc.Idle? { s' := GivesUp(c, o, s, i); }
    ReachedTyped(c, o, s');
    WorkerIsTyped(c, s', i);
    hide Typed, WorkerTyped;
    s' := Act(c, o, s', i, Exit);
  }

  /** Once cancelled, workers at rest all leave. */
  lemma {:induction false} LeaveAll(c: Config, o: State, s: State, n: nat) returns (s': State)
    requires Reached(c, o, s) && n <= |s.workers| && s.cancelled
    requires (forall i :: 0 <= i < n ==> s.workers[i].pc.Exited?) && forall i :: n <= i < |s.workers| ==> AtRest(s.workers[i].pc)
    ensures Reached(c, o, s') && AllExited(s') && s'.pieces == s.pieces && s'.main == s.main
    ensures s'.swarm.known == s.swarm.known
    decreases |s.workers| - n
  {
    hide Reached;
    if n == |s.workers| {
      s' := s;
    } else {
      var t := Leaves(c, o, s, n);
      s' := LeaveAll(c, o, t, n + 1);
    }
  }

  lemma MainMoves(c: Config, o: State, s: State, step: Step) returns (s': State)
    requires Reached(c, o, s) && (step.CloseDone? || step.SeeDone? || step.Join?) && Typed(c, s) && Enabled(c, s, step)
    ensures Reached(c, o, s') && s' == Apply(c, s, step)
  {
    hide Reached, Typed, Enabled, Apply;
    s' := Advance(c, o, s, step);
  }

  /** With every piece complete and the workers at rest, doneCh closes and the download returns success. */
  lemma WindUp(c: Config, o: State, s: State) returns (s': State)
    requires Reached(c, o, s) && !s.cancelled && LockFree(s)
    requires AllComplete(s.pieces.completed) && s.pieces.wg == 0
    requires forall i :: 0 <= i < |s.workers| ==> AtRest(s.workers[i].pc)
    ensures Reached(c, o, s') && s'.main == Returned(Success)
    ensures s'.pieces.completed == s.pieces.completed && s'.pieces.disk == s.pieces.disk
    ensures s'.swarm.known == s.swarm.known
  {
    hide Reached, Typed, AtRest, AllExited;
    InvWaiting(c, o, s);
    ReachedTyped(c, o, s);
    var t := MainMoves(c, o, s, CloseDone);
    ReachedTyped(c, o, t);
    t := MainMoves(c, o, t, SeeDone);
    t := LeaveAll(c, o, t, 0);
    ReachedTyped(c, o, t);
    s' := MainMoves(c, o, t, Join);
  }

  lemma InvWaiting(c: Config, o: State, s: State)
    requires Reached(c, o, s) && !s.cancelled
    ensures s.main.Waiting?
  {
  }

  /** Nothing queued and nobody busy: until cancellation that means that every piece is complete and counted. */
  lemma QuietIsDone(c: Config, s: State)
    requires Inv(c, s) && !s.cancelled && s.pieces.queue == []
    requires forall i :: 0 <= i < |s.workers| ==> s.workers[i].pc == Idle
    ensures AllComplete(s.pieces.completed) && s.pieces.wg == 0
  {
    hide Typed, MainSound, Exclusive, Signalled, DiskSound, CountDone, Total;
    forall p | 0 <= p < NumPieces(c) ensures s.pieces.completed[p] {
      assert Tracked(s, p);
    }
    DoneBounds(s.pieces.completed);
    TotalZero(s.workers, WgWeight());
  }

  // ----- Every start can succeed -----

  /** From every start with a worker, a connector and a known peer, and data for every piece, some run without any new
      peer and without the timer succeeds, and every piece then verifies on disk. */
  lemma SuccessFromStart(c: Config, s: State) returns (run: seq<State>)
    requires Init(c, s) && AllVerifiable(c)
    requires s.workers != [] && s.swarm.connectors != [] && s.swarm.known != {}
    ensures IsRun(c, run) && run[0] == s
    ensures var last := run[|run| - 1];
            && last.main == Returned(Success) && last.swarm.known == s.swarm.known
            && |last.pieces.completed| == NumPieces(c)
            && forall p :: 0 <= p < NumPieces(c) ==> last.pieces.completed[p] && Stored(c, last.pieces.disk, p)
  {
    StartReached(c, s);
    SoleAtStart(c, s);
    StartIsQuiet(c, s);
    hide Init, Reached, Inv, Clean, Stored, IsRun, Supplied;
    var t := DrainQueue(c, s, s, 0);
    ReachedInv(c, s, t);
    QuietIsDone(c, t);
    var last := WindUp(c, s, t);
    run := PathIsRun(c, s, last);
    StoredAll(c, t.pieces, last.pieces);
  }

  lemma StartIsQuiet(c: Config, s: State)
    requires Init(c, s) && AllVerifiable(c) && s.workers != [] && s.swarm.connectors != [] && s.swarm.known != {}
    ensures Working(c, s, 0) && forall i :: 0 <= i < |s.workers| ==> s.workers[i].pc == Idle
  {
    hide AllVerifiable;
  }

  lemma StoredAll(c: Config, d: Pieces, d': Pieces)
    requires c.t.pieceLength > 0 && AllStored(c, d) && AllComplete(d.completed)
    requires d'.completed == d.completed && d'.disk == d.disk
    ensures |d'.completed| == NumPieces(c)
    ensures forall p :: 0 <= p < NumPieces(c) ==> d'.completed[p] && Stored(c, d'.disk, p)
  {
    hide Stored;
  }
}
