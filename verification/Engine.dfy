/** The concurrent download engine as a transition system: one step per critical section, channel
    operation, atomic operation or file byte, interleaved in any order. */
module Engine {
  import opened Bytes
  import opened Layout

  const MAX_PIECE_ATTEMPTS := 12
  const MAX_PIECES_PER_SESSION := 32
  const ENDGAME_THRESHOLD := 12
  const SESSION_POOL_SIZE := 64

  /** A peer's host:port string, up to renaming. */
  type PeerKey = nat

  datatype Session = Session(peer: PeerKey, served: nat)

  /** A cancel channel made by completionBus.subscribe. `sent` counts the sends that found room. */
  datatype Channel = Channel(piece: nat, buffered: nat, sent: nat)

  /** Where a worker is in its loop, with its live locals: piece p, cancel channel ch, attempt number a. */
  datatype WorkerPC =
    | Idle                                                        // at the outer select
    | Checking(p: nat)                                            // before reading completed[p]
    | Subscribing(p: nat)
    | Attempting(p: nat, ch: nat, a: nat)                         // head of the attempt loop
    | Fetching(p: nat, ch: nat, a: nat)                           // waiting for a ready session
    | Transferring(p: nat, ch: nat, a: nat)                       // in downloadPieceFromSession
    | Writing(p: nat, ch: nat, a: nat, data: Bytes, k: nat)       // k bytes of data are on disk
    | Committing(p: nat, size: nat)                               // before taking stateMu
    | Announcing(p: nat, size: nat)                               // completed[p] set, before bus.complete
    | Signalling(p: nat, size: nat, pending: seq<nat>)
    | Releasing(p: nat, size: nat)                                // before pieceWG.Done
    | Counting(p: nat, size: nat)
    | Summing(p: nat, size: nat, current: int)
    | Injecting(p: nat, current: int)
    | Serving(p: nat)
    | Requeueing(p: nat)
    | Exited

  datatype Worker = Worker(pc: WorkerPC, sess: Option<Session>)

  datatype Connector = Resting | Dialing(peer: PeerKey) | Offering(peer: PeerKey) | Gone

  /** While the endgame goroutine sweeps it holds stateMu. */
  datatype Endgame = Off | Ticking | Sweeping(next: nat) | Stopped

  datatype Outcome = Success | FailTimeout | FailIncomplete
  datatype Main = Waiting | Joining(timedOut: bool) | Returned(outcome: Outcome)

  /** What the downloader knows about pieces: guarded by stateMu, or atomic, or a channel, or the file. */
  datatype Pieces = Pieces(
    completed: seq<bool>,
    saved: seq<bool>,                 // the resume file
    disk: Bytes,                      // the output file
    queue: seq<nat>,                  // pieceQueue
    wg: int,                          // pieceWG
    completedCount: int,
    downloadedBytes: int,
    endgame: Endgame)

  datatype Bus = Bus(
    subs: map<nat, seq<nat>>,         // completionBus.subs
    channels: seq<Channel>,           // every cancel channel ever made
    taken: map<nat, nat>)             // history: how many channels existed when complete(p) took its list

  datatype Swarm = Swarm(
    known: set<PeerKey>,              // peerPool.peers
    available: set<PeerKey>,          // peerPool.available
    ready: seq<Session>,              // readySessions
    connectors: seq<Connector>)

  datatype State = State(
    pieces: Pieces,
    bus: Bus,
    swarm: Swarm,
    workers: seq<Worker>,
    doneClosed: bool,
    cancelled: bool,                  // ctx
    main: Main)

  datatype WorkerStep =
    | Take | Check | Subscribe | Attempt | Fetch
    | Receive(data: Bytes) | TransferFail | SeeCancel
    | WriteByte | WriteFail | WriteEnd | Commit
    | Announce | Signal | WgDone | Count | Sum | Inject | Serve
    | Requeue | DropRequeue | Exit

  datatype ConnectorStep = Acquire(peer: PeerKey) | DialOk | DialFail | Offer | Quit

  datatype Step =
    | Work(i: nat, act: WorkerStep)
    | Connect(j: nat, move: ConnectorStep)
    | AddPeer(peer: PeerKey)
    | Tick | Sweep | StopEndgame
    | Save | CloseDone | SeeDone | TimeOut | Join

  // ----- Reading the state -----

  /** File.WriteAt of one byte; a write past the end extends the file with zeros. */
  function Poke(disk: Bytes, pos: nat, b: byte): (d: Bytes)
    ensures |d| == if pos < |disk| then |disk| else pos + 1
    ensures d[pos] == b
    ensures forall x :: 0 <= x < |disk| && x != pos ==> d[x] == disk[x]
  {
    if pos < |disk| then disk[pos := b] else disk + seq(pos - |disk|, _ => 0) + [b]
  }

  predicate LockFree(s: State) { !s.pieces.endgame.Sweeping? }

  /** pool.Release of the session's peer. */
  function Released(m: Swarm, peer: PeerKey): Swarm {
    if peer in m.known then m.(available := m.available + {peer}) else m
  }

  /** releaseSession. */
  function ReleasedSession(m: Swarm, sess: Option<Session>): Swarm {
    if sess.Some? then Released(m, sess.value.peer) else m
  }

  predicate NeedsSession(w: Worker) {
    w.sess.None? || w.sess.value.served >= MAX_PIECES_PER_SESSION
  }

  function Subscribers(b: Bus, p: nat): seq<nat> {
    if p in b.subs then b.subs[p] else []
  }

  /** The piece a worker is in charge of until its flag is set. */
  predicate Holds(w: Worker, p: nat) {
    && (w.pc.Checking? || w.pc.Subscribing? || w.pc.Attempting? || w.pc.Fetching? || w.pc.Transferring?
        || w.pc.Writing? || w.pc.Committing? || w.pc.Requeueing?)
    && w.pc.p == p
  }

  predicate HasChannel(pc: WorkerPC) {
    pc.Attempting? || pc.Fetching? || pc.Transferring? || pc.Writing?
  }

  predicate OnPiece(pc: WorkerPC) { !pc.Idle? && !pc.Exited? }

  /** Worker states in which the code dereferences sess. */
  predicate UsesSession(pc: WorkerPC) {
    pc.Transferring? || pc.Writing? || pc.Committing? || pc.Announcing? || pc.Signalling? || pc.Releasing?
    || pc.Counting? || pc.Summing? || pc.Injecting? || pc.Serving?
  }

  // ----- Typing: every index in range, every session used is there -----

  ghost predicate PiecesTyped(c: Config, d: Pieces) {
    && |d.completed| == NumPieces(c) && |d.saved| == NumPieces(c)
    && (forall q :: 0 <= q < |d.queue| ==> d.queue[q] < NumPieces(c))
    && |d.queue| <= 2 * NumPieces(c)
    && (d.endgame.Sweeping? ==> d.endgame.next <= NumPieces(c))
  }

  ghost predicate ListTyped(b: Bus, p: nat, list: seq<nat>) {
    forall q :: 0 <= q < |list| ==> list[q] < |b.channels| && b.channels[list[q]].piece == p
  }

  ghost predicate BusTyped(b: Bus) {
    forall p | p in b.subs :: ListTyped(b, p, b.subs[p])
  }

  ghost predicate WorkerTyped(c: Config, b: Bus, w: Worker) {
    && (OnPiece(w.pc) ==> w.pc.p < NumPieces(c))
    && (HasChannel(w.pc) ==> w.pc.ch < |b.channels| && b.channels[w.pc.ch].piece == w.pc.p)
    && (w.pc.Signalling? ==> ListTyped(b, w.pc.p, w.pc.pending))
    && (w.pc.Writing? ==> w.pc.k <= |w.pc.data|)
    && (UsesSession(w.pc) ==> w.sess.Some?)
    && (w.pc.Fetching? || w.pc.Exited? ==> w.sess.None?)
  }

  ghost predicate Typed(c: Config, s: State) {
    && Sized(c.t)
    && PiecesTyped(c, s.pieces)
    && BusTyped(s.bus)
    && forall i :: 0 <= i < |s.workers| ==> WorkerTyped(c, s.bus, s.workers[i])
  }

  // ----- Worker steps -----

  ghost predicate WorkerEnabled(c: Config, s: State, w: Worker, act: WorkerStep)
    requires Typed(c, s) && WorkerTyped(c, s.bus, w)
  {
    match act
    case Take => w.pc.Idle? && s.pieces.queue != []
    case Check => w.pc.Checking? && LockFree(s)
    case Subscribe => w.pc.Subscribing?
    case Attempt => w.pc.Attempting?
    case Fetch => w.pc.Fetching? && s.swarm.ready != []
    case Receive(data) => w.pc.Transferring? && Verified(c, w.pc.p, data)
    case TransferFail => w.pc.Transferring?
    case SeeCancel => w.pc.Transferring? && s.bus.channels[w.pc.ch].buffered > 0
    case WriteByte => w.pc.Writing? && w.pc.k < |w.pc.data|
    case WriteFail => w.pc.Writing?
    case WriteEnd => w.pc.Writing? && w.pc.k == |w.pc.data|
    case Commit => w.pc.Committing? && LockFree(s)
    case Announce => w.pc.Announcing?
    case Signal => w.pc.Signalling?
    case WgDone => w.pc.Releasing?
    case Count => w.pc.Counting?
    case Sum => w.pc.Summing?
    case Inject => w.pc.Injecting?
    case Serve => w.pc.Serving?
    case Requeue => w.pc.Requeueing? && |s.pieces.queue| < 2 * NumPieces(c)
    case DropRequeue => w.pc.Requeueing? && s.cancelled
    case Exit => s.cancelled && (w.pc.Idle? || w.pc.Fetching?)
  }

  /** Control: where the worker goes. */
  ghost function PcAfter(c: Config, s: State, w: Worker, act: WorkerStep): WorkerPC
    requires Typed(c, s) && WorkerTyped(c, s.bus, w) && WorkerEnabled(c, s, w, act)
  {
    var pc := w.pc;
    match act
    case Take => Checking(s.pieces.queue[0])
    case Check => if s.pieces.completed[pc.p] then Idle else Subscribing(pc.p)
    case Subscribe => Attempting(pc.p, |s.bus.channels|, 0)
    case Attempt =>
      if pc.a >= MAX_PIECE_ATTEMPTS then Requeueing(pc.p)
      else if NeedsSession(w) then Fetching(pc.p, pc.ch, pc.a)
      else Transferring(pc.p, pc.ch, pc.a)
    case Fetch => Transferring(pc.p, pc.ch, pc.a)
    case Receive(data) => Writing(pc.p, pc.ch, pc.a, data, 0)
    case TransferFail => Attempting(pc.p, pc.ch, pc.a + 1)
    case SeeCancel => Requeueing(pc.p)
    case WriteByte => pc.(k := pc.k + 1)
    case WriteFail => Attempting(pc.p, pc.ch, pc.a + 1)
    case WriteEnd => Committing(pc.p, |pc.data|)
    case Commit => if s.pieces.completed[pc.p] then Serving(pc.p) else Announcing(pc.p, pc.size)
    case Announce => Signalling(pc.p, pc.size, Subscribers(s.bus, pc.p))
    case Signal => if pc.pending == [] then Releasing(pc.p, pc.size) else pc.(pending := pc.pending[1..])
    case WgDone => Counting(pc.p, pc.size)
    case Count => Summing(pc.p, pc.size, s.pieces.completedCount + 1)
    case Sum => Injecting(pc.p, pc.current)
    case Inject => Serving(pc.p)
    case Serve => Idle
    case Requeue => Idle
    case DropRequeue => Idle
    case Exit => Exited
  }

  /** Effect on completed, the counters, the queue and the file. */
  ghost function PiecesAfter(c: Config, d: Pieces, pc: WorkerPC, act: WorkerStep): Pieces {
    match (act, pc)
    case (Take, _) => if d.queue == [] then d else d.(queue := d.queue[1..])
    case (WriteByte, Writing(p, _, _, data, k)) =>
      if k < |data| then d.(disk := Poke(d.disk, PieceOffset(c.t, p) + k, data[k])) else d
    case (Commit, Committing(p, _)) =>
      if p < |d.completed| && !d.completed[p] then d.(completed := d.completed[p := true]) else d
    case (WgDone, _) => d.(wg := d.wg - 1)
    case (Count, _) => d.(completedCount := d.completedCount + 1)
    case (Sum, Summing(_, size, _)) => d.(downloadedBytes := d.downloadedBytes + size)
    case (Inject, Injecting(_, current)) =>
      if NumPieces(c) - current <= ENDGAME_THRESHOLD && d.endgame.Off? then d.(endgame := Ticking) else d
    case (Requeue, Requeueing(p)) => d.(queue := d.queue + [p])
    case _ => d
  }

  /** Effect on the completion bus. */
  ghost function BusAfter(b: Bus, pc: WorkerPC, act: WorkerStep): Bus {
    match (act, pc)
    case (Subscribe, Subscribing(p)) =>
      b.(channels := b.channels + [Channel(p, 0, 0)], subs := b.subs[p := Subscribers(b, p) + [|b.channels|]])
    case (SeeCancel, Transferring(_, ch, _)) =>
      if ch < |b.channels| && b.channels[ch].buffered > 0 then
        b.(channels := b.channels[ch := b.channels[ch].(buffered := b.channels[ch].buffered - 1)])
      else b
    case (Announce, Announcing(p, _)) => b.(subs := b.subs - {p}, taken := b.taken[p := |b.channels|])
    case (Signal, Signalling(_, _, pending)) =>
      // A send on a full channel is dropped by the select's default.
      if pending != [] && pending[0] < |b.channels| && b.channels[pending[0]].buffered == 0 then
        var chan := b.channels[pending[0]];
        b.(channels := b.channels[pending[0] := chan.(buffered := 1, sent := chan.sent + 1)])
      else b
    case _ => b
  }

  /** The worker's session variable. */
  ghost function SessionAfter(m: Swarm, w: Worker, act: WorkerStep): Option<Session> {
    match act
    case Attempt => if w.pc.Attempting? && w.pc.a < MAX_PIECE_ATTEMPTS && NeedsSession(w) then None else w.sess
    case Fetch => if m.ready == [] then w.sess else Some(m.ready[0])
    case Serve => if w.sess.None? then None else Some(w.sess.value.(served := w.sess.value.served + 1))
    case TransferFail => None
    case WriteFail => None
    case Exit => None
    case _ => w.sess
  }

  /** Effect on the peer pool and the ready channel. */
  ghost function SwarmAfter(m: Swarm, w: Worker, act: WorkerStep): Swarm {
    match act
    case Attempt => if SessionAfter(m, w, act).None? then ReleasedSession(m, w.sess) else m
    case Fetch => if m.ready == [] then m else m.(ready := m.ready[1..])
    case TransferFail => ReleasedSession(m, w.sess)
    case WriteFail => ReleasedSession(m, w.sess)
    case Exit => ReleasedSession(m, w.sess)
    case _ => m
  }

  ghost function WorkerAfter(c: Config, s: State, w: Worker, act: WorkerStep): Worker
    requires Typed(c, s) && WorkerTyped(c, s.bus, w) && WorkerEnabled(c, s, w, act)
  {
    Worker(PcAfter(c, s, w, act), SessionAfter(s.swarm, w, act))
  }

  // ----- Connectors, the pool, the endgame and the main goroutine -----

  predicate ConnectorEnabled(m: Swarm, k: Connector, move: ConnectorStep, cancelled: bool) {
    match move
    case Acquire(peer) => k.Resting? && peer in m.available
    case DialOk => k.Dialing?
    case DialFail => k.Dialing?
    case Offer => k.Offering? && |m.ready| < SESSION_POOL_SIZE
    case Quit => cancelled && (k.Resting? || k.Offering?)
  }

  function ConnectorNext(m: Swarm, j: nat, move: ConnectorStep): Swarm
    requires j < |m.connectors|
  {
    var k := m.connectors[j];
    match move
    case Acquire(peer) => m.(available := m.available - {peer}, connectors := m.connectors[j := Dialing(peer)])
    case DialOk => if k.Dialing? then m.(connectors := m.connectors[j := Offering(k.peer)]) else m
    case DialFail => if k.Dialing? then Released(m, k.peer).(connectors := m.connectors[j := Resting]) else m
    case Offer =>
      if k.Offering? then m.(ready := m.ready + [Session(k.peer, 0)], connectors := m.connectors[j := Resting]) else m
    case Quit =>
      (if k.Offering? then Released(m, k.peer) else m).(connectors := m.connectors[j := Gone])
  }

  /** pool.Add. */
  function Added(m: Swarm, peer: PeerKey): Swarm {
    if peer in m.known then m else m.(known := m.known + {peer}, available := m.available + {peer})
  }

  /** One iteration of the endgame sweep: push the piece unless it is complete or the queue is full. */
  function Swept(c: Config, d: Pieces): Pieces
    requires d.endgame.Sweeping? && |d.completed| == NumPieces(c)
  {
    var p := d.endgame.next;
    if p >= NumPieces(c) then d.(endgame := Ticking)
    else if d.completed[p] || |d.queue| >= 2 * NumPieces(c) then d.(endgame := Sweeping(p + 1))
    else d.(endgame := Sweeping(p + 1), queue := d.queue + [p])
  }

  predicate AllComplete(completed: seq<bool>) { forall p :: 0 <= p < |completed| ==> completed[p] }

  predicate AllExited(s: State) { forall i :: 0 <= i < |s.workers| ==> s.workers[i].pc.Exited? }

  ghost predicate Enabled(c: Config, s: State, step: Step)
    requires Typed(c, s)
  {
    match step
    case Work(i, act) => i < |s.workers| && WorkerEnabled(c, s, s.workers[i], act)
    case Connect(j, move) =>
      j < |s.swarm.connectors| && ConnectorEnabled(s.swarm, s.swarm.connectors[j], move, s.cancelled)
    case AddPeer(_) => true
    case Tick => s.pieces.endgame.Ticking?
    case Sweep => s.pieces.endgame.Sweeping?
    case StopEndgame => s.cancelled && s.pieces.endgame.Ticking?
    case Save => LockFree(s)
    case CloseDone => s.pieces.wg == 0
    case SeeDone => s.main.Waiting? && s.doneClosed
    case TimeOut => s.main.Waiting?
    case Join => s.main.Joining? && LockFree(s) && AllExited(s)
  }

  ghost function Apply(c: Config, s: State, step: Step): State
    requires Typed(c, s) && Enabled(c, s, step)
  {
    match step
    case Work(i, act) =>
      var w := s.workers[i];
      s.(pieces := PiecesAfter(c, s.pieces, w.pc, act),
         bus := BusAfter(s.bus, w.pc, act),
         swarm := SwarmAfter(s.swarm, w, act),
         workers := s.workers[i := WorkerAfter(c, s, w, act)])
    case Connect(j, move) => s.(swarm := ConnectorNext(s.swarm, j, move))
    case AddPeer(peer) => s.(swarm := Added(s.swarm, peer))
    case Tick => s.(pieces := s.pieces.(endgame := Sweeping(0)))
    case Sweep => s.(pieces := Swept(c, s.pieces))
    case StopEndgame => s.(pieces := s.pieces.(endgame := Stopped))
    case Save => s.(pieces := s.pieces.(saved := s.pieces.completed))
    case CloseDone => s.(doneClosed := true)
    case SeeDone => s.(cancelled := true, main := Joining(false))
    case TimeOut => s.(cancelled := true, main := Joining(true))
    case Join =>
      var outcome := if s.main.timedOut then FailTimeout
                     else if AllComplete(s.pieces.completed) then Success else FailIncomplete;
      s.(pieces := s.pieces.(saved := s.pieces.completed), main := Returned(outcome))
  }

  // ----- Typing is kept -----

  ghost predicate ChannelsGrow(b: Bus, b': Bus) {
    && |b.channels| <= |b'.channels|
    && forall ch :: 0 <= ch < |b.channels| ==> b'.channels[ch].piece == b.channels[ch].piece
  }

  lemma WorkerTypingFramed(c: Config, b: Bus, b': Bus, w: Worker)
    requires WorkerTyped(c, b, w) && ChannelsGrow(b, b')
    ensures WorkerTyped(c, b', w)
  {
  }

  lemma PiecesStayTyped(c: Config, s: State, w: Worker, act: WorkerStep)
    requires Typed(c, s) && WorkerTyped(c, s.bus, w) && WorkerEnabled(c, s, w, act)
    ensures PiecesTyped(c, PiecesAfter(c, s.pieces, w.pc, act))
  {
  }

  lemma BusStaysTyped(b: Bus, pc: WorkerPC, act: WorkerStep)
    requires BusTyped(b)
    ensures BusTyped(BusAfter(b, pc, act)) && ChannelsGrow(b, BusAfter(b, pc, act))
  {
    var b' := BusAfter(b, pc, act);
    assert ChannelsGrow(b, b');
    forall p | p in b'.subs ensures ListTyped(b', p, b'.subs[p]) {
      if p in b.subs { assert ListTyped(b, p, b.subs[p]); }
    }
  }

  lemma WorkerStaysTyped(c: Config, s: State, w: Worker, act: WorkerStep)
    requires Typed(c, s) && WorkerTyped(c, s.bus, w) && WorkerEnabled(c, s, w, act)
    ensures WorkerTyped(c, BusAfter(s.bus, w.pc, act), WorkerAfter(c, s, w, act))
  {
    BusStaysTyped(s.bus, w.pc, act);
  }

  lemma StepKeepsTyping(c: Config, s: State, step: Step)
    requires Typed(c, s) && Enabled(c, s, step)
    ensures Typed(c, Apply(c, s, step))
  {
    hide WorkerTyped, PiecesAfter, BusAfter, SwarmAfter, WorkerAfter, WorkerEnabled, BusTyped, ChannelsGrow;
    if step.Work? {
      var w, s' := s.workers[step.i], Apply(c, s, step);
      PiecesStayTyped(c, s, w, step.act);
      BusStaysTyped(s.bus, w.pc, step.act);
      WorkerStaysTyped(c, s, w, step.act);
      forall j | 0 <= j < |s'.workers| && j != step.i ensures WorkerTyped(c, s'.bus, s'.workers[j]) {
        WorkerTypingFramed(c, s.bus, s'.bus, s.workers[j]);
      }
    }
  }

  // ----- Totals over the workers -----

  function Total(ws: seq<Worker>, f: Worker -> int): int {
    if ws == [] then 0 else f(ws[0]) + Total(ws[1..], f)
  }

  lemma {:induction false} TotalUpdated(ws: seq<Worker>, i: nat, w: Worker, f: Worker -> int)
    requires i < |ws|
    ensures Total(ws[i := w], f) == Total(ws, f) - f(ws[i]) + f(w)
  {
    if i == 0 {
      assert ws[0 := w][1..] == ws[1..];
    } else {
      TotalUpdated(ws[1..], i - 1, w, f);
      assert ws[i := w][1..] == ws[1..][i - 1 := w];
    }
  }

  /** A sum of non-negative weights is at least each of them. */
  lemma {:induction false} TotalAtLeast(ws: seq<Worker>, f: Worker -> int, i: nat)
    requires forall w :: f(w) >= 0
    requires i < |ws|
    ensures Total(ws, f) >= f(ws[i])
  {
    TotalNonNegative(ws[1..], f);
    if i > 0 { TotalAtLeast(ws[1..], f, i - 1); }
  }

  lemma {:induction false} TotalNonNegative(ws: seq<Worker>, f: Worker -> int)
    requires forall w :: f(w) >= 0
    ensures Total(ws, f) >= 0
  {
    if ws != [] { TotalNonNegative(ws[1..], f); }
  }

  lemma {:induction false} TotalZero(ws: seq<Worker>, f: Worker -> int)
    requires forall i :: 0 <= i < |ws| ==> f(ws[i]) == 0
    ensures Total(ws, f) == 0
  {
    if ws != [] { TotalZero(ws[1..], f); }
  }
}
