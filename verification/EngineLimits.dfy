/** The engine's limits: attempts per piece, pieces per session, ready sessions, and how late the endgame starts. */
module EngineLimits {
  import opened Bytes
  import opened Layout
  import opened Engine
  import opened EngineCount
  import opened EngineDisk
  import opened EngineRuns
  import opened Outcomes
  import opened SoleWriter

  /** A piece is tried 12 times, and a session serves 32 pieces. */
  predicate WorkerLimits(w: Worker) {
    && (HasChannel(w.pc) ==> w.pc.a <= 12 && (!w.pc.Attempting? ==> w.pc.a < 12))
    && (w.sess.Some? ==> w.sess.value.served <= 32 && (UsesSession(w.pc) ==> w.sess.value.served < 32))
  }

  predicate SwarmLimits(m: Swarm) {
    |m.ready| <= 64 && forall i :: 0 <= i < |m.ready| ==> m.ready[i].served == 0
  }

  /** The endgame starts only once at most 12 pieces are missing; a worker's count of completed pieces is never too high. */
  ghost predicate EndgameLimits(d: Pieces, ws: seq<Worker>) {
    && (!d.endgame.Off? ==> CountDone(d.completed) >= |d.completed| - 12)
    && forall i :: 0 <= i < |ws| ==> FlagFacts(d, ws[i].pc)
  }

  ghost predicate WithinLimits(c: Config, s: State) {
    && (forall i :: 0 <= i < |s.workers| ==> WorkerLimits(s.workers[i]))
    && SwarmLimits(s.swarm)
    && EndgameLimits(s.pieces, s.workers)
  }

  lemma WorkerWithin(c: Config, s: State, w: Worker, act: WorkerStep)
    requires Typed(c, s) && WorkerTyped(c, s.bus, w) && WorkerEnabled(c, s, w, act)
    requires WorkerLimits(w) && SwarmLimits(s.swarm)
    ensures WorkerLimits(WorkerAfter(c, s, w, act)) && SwarmLimits(SwarmAfter(s.swarm, w, act))
  {
  }

  lemma ConnectorWithin(m: Swarm, j: nat, move: ConnectorStep, cancelled: bool)
    requires j < |m.connectors| && ConnectorEnabled(m, m.connectors[j], move, cancelled) && SwarmLimits(m)
    ensures SwarmLimits(ConnectorNext(m, j, move))
  {
  }

  lemma FlagsWithin(c: Config, s: State, i: nat, act: WorkerStep)
    requires Typed(c, s) && Enabled(c, s, Work(i, act)) && c.t.pieceLength > 0 && Conserved(c, s)
    requires EndgameLimits(s.pieces, s.workers)
    ensures var s' := Apply(c, s, Work(i, act)); EndgameLimits(s'.pieces, s'.workers)
  {
    hide FlagFacts, WorkerTyped, PiecesAfter, PcAfter, BusAfter, SwarmAfter, SessionAfter, Conserved, CountDone;
    var s', w := Apply(c, s, Work(i, act)), s.workers[i];
    if act.Count? { CountCovered(c, s, i); }
    WorkerFlags(c, s, w, act);
    FlagsCount(s.pieces.completed, s'.pieces.completed);
    EndgameWithin(c, s, w, act);
    forall j | 0 <= j < |s'.workers| ensures FlagFacts(s'.pieces, s'.workers[j].pc) {
      if j != i { FlagsFramed(s.pieces, s'.pieces, s.workers[j].pc); }
    }
  }

  lemma EndgameWithin(c: Config, s: State, w: Worker, act: WorkerStep)
    requires Typed(c, s) && WorkerTyped(c, s.bus, w) && WorkerEnabled(c, s, w, act) && FlagFacts(s.pieces, w.pc)
    ensures var d, d' := s.pieces, PiecesAfter(c, s.pieces, w.pc, act);
            d'.endgame.Off? || !d.endgame.Off? || CountDone(d.completed) >= |d.completed| - 12
  {
    hide CountDone, Poke;
  }

  lemma LimitsStep(c: Config, s: State, step: Step)
    requires Typed(c, s) && Enabled(c, s, step) && Conserved(c, s) && WithinLimits(c, s)
    ensures WithinLimits(c, Apply(c, s, step))
  {
    hide FlagFacts, WorkerTyped, WorkerAfter, WorkerEnabled, PiecesAfter, BusAfter, SwarmAfter, ConnectorNext, Conserved,
      CountDone, WorkerLimits, SwarmLimits, BusTyped, EndgameLimits;
    if step.Work? {
      WorkerWithin(c, s, s.workers[step.i], step.act);
      FlagsWithin(c, s, step.i, step.act);
    } else if step.Connect? {
      ConnectorWithin(s.swarm, step.j, step.move, s.cancelled);
    } else {
      OtherWithin(c, s, step);
    }
  }

  lemma OtherWithin(c: Config, s: State, step: Step)
    requires Typed(c, s) && Enabled(c, s, step) && !step.Work? && !step.Connect?
    requires EndgameLimits(s.pieces, s.workers) && SwarmLimits(s.swarm)
    ensures var s' := Apply(c, s, step); EndgameLimits(s'.pieces, s'.workers) && SwarmLimits(s'.swarm)
  {
    hide WorkerTyped, CountDone, BusTyped;
  }

  /** Every state of every run is within the limits. */
  lemma {:induction false} RunsKeepLimits(c: Config, run: seq<State>, i: nat)
    requires IsRun(c, run) && i < |run|
    ensures WithinLimits(c, run[i])
  {
    hide Init, Inv, Typed, Enabled, Apply, Conserved, DiskSound, WithinLimits;
    if i == 0 {
      StartsWithin(c, run[0]);
    } else {
      RunsKeepLimits(c, run, i - 1);
      RunInv(c, run, i - 1);
      InvParts(c, run[i - 1]);
      assert Next(c, run[i - 1], run[i]);
      var step :| Enabled(c, run[i - 1], step) && run[i] == Apply(c, run[i - 1], step);
      LimitsStep(c, run[i - 1], step);
    }
  }

  lemma StartsWithin(c: Config, s: State)
    requires Init(c, s)
    ensures WithinLimits(c, s)
  {
  }

  // ----- Where the limits bite -----

  /** The head of the attempt loop: the 13th time round the piece goes back; before that the worker keeps its session
      until it has served 32 pieces. */
  lemma AttemptDecides(c: Config, s: State, w: Worker)
    requires Typed(c, s) && WorkerTyped(c, s.bus, w) && WorkerEnabled(c, s, w, Attempt)
    ensures var w' := WorkerAfter(c, s, w, Attempt);
            var spent := w.sess.None? || w.sess.value.served >= 32;
            && (w'.pc == Requeueing(w.pc.p) <==> w.pc.a >= 12)
            && (w'.pc == Fetching(w.pc.p, w.pc.ch, w.pc.a) <==> w.pc.a < 12 && spent)
            && (w'.pc == Transferring(w.pc.p, w.pc.ch, w.pc.a) <==> w.pc.a < 12 && !spent)
            && (w'.sess == if w.pc.a < 12 && spent then None else w.sess)
  {
  }

  /** A worker whose count leaves at most 12 pieces missing starts the endgame, once. */
  lemma InjectDecides(c: Config, s: State, w: Worker)
    requires Typed(c, s) && WorkerTyped(c, s.bus, w) && WorkerEnabled(c, s, w, Inject)
    ensures PiecesAfter(c, s.pieces, w.pc, Inject).endgame
            == if s.pieces.endgame == Off && NumPieces(c) - w.pc.current <= 12 then Ticking else s.pieces.endgame
  {
  }

  /** A session is handed over only while fewer than 64 are ready; a piece goes back only while the queue has room. */
  lemma RoomDecides(c: Config, s: State, w: Worker, j: nat)
    requires Typed(c, s) && WorkerTyped(c, s.bus, w) && j < |s.swarm.connectors|
    ensures Enabled(c, s, Connect(j, Offer)) <==> s.swarm.connectors[j].Offering? && |s.swarm.ready| < 64
    ensures WorkerEnabled(c, s, w, Requeue) <==> w.pc.Requeueing? && |s.pieces.queue| < 2 * |c.t.hashes|
  {
  }

  // ----- What is counted -----

  /** A worker whose transfer or write fails is left without a session, and the peer goes back to the pool. */
  lemma FailureReleases(c: Config, s: State, i: nat, act: WorkerStep)
    requires Typed(c, s) && Enabled(c, s, Work(i, act)) && (act.TransferFail? || act.WriteFail?)
    ensures var w, s' := s.workers[i], Apply(c, s, Work(i, act));
            && s'.workers[i] == Worker(Attempting(w.pc.p, w.pc.ch, w.pc.a + 1), None)
            && w.sess.Some? && (w.sess.value.peer in s.swarm.known ==> w.sess.value.peer in s'.swarm.available)
            && s.swarm.available <= s'.swarm.available && s'.pieces == s.pieces
  {
    hide Poke;
  }

  /** A connector whose dial fails, or that quits while it offers a session, gives the peer back; one that hands its
      session over looks for the next peer. */
  lemma ConnectorReleases(c: Config, s: State, j: nat, move: ConnectorStep)
    requires Typed(c, s) && Enabled(c, s, Connect(j, move))
    ensures var k, m, m' := s.swarm.connectors[j], s.swarm, Apply(c, s, Connect(j, move)).swarm;
            && m'.connectors == m.connectors[j := match move
                                                  case Acquire(peer) => Dialing(peer)
                                                  case DialOk => Offering(k.peer)
                                                  case Quit => Gone
                                                  case _ => Resting]
            && (move.DialFail? || (move.Quit? && k.Offering?) ==> k.peer in m.known ==> k.peer in m'.available)
            && m'.ready == if move.Offer? then m.ready + [Session(k.peer, 0)] else m.ready
  {
  }

  /** The steps of worker i among the first k: served pieces since it took a session, failures since it took a piece. */
  function ServedSince(steps: seq<Step>, i: nat, k: nat): nat
    requires k <= |steps|
  {
    if k == 0 then 0
    else if steps[k - 1] == Work(i, Fetch) then 0
    else ServedSince(steps, i, k - 1) + if steps[k - 1] == Work(i, Serve) then 1 else 0
  }

  function FailedSince(steps: seq<Step>, i: nat, k: nat): nat
    requires k <= |steps|
  {
    if k == 0 then 0
    else if steps[k - 1] == Work(i, Subscribe) then 0
    else
      FailedSince(steps, i, k - 1)
      + if steps[k - 1] == Work(i, TransferFail) || steps[k - 1] == Work(i, WriteFail) then 1 else 0
  }

  predicate Counts(w: Worker, served: nat, failed: nat) {
    && (w.sess.Some? ==> w.sess.value.served == served)
    && (HasChannel(w.pc) ==> w.pc.a == failed)
  }

  lemma CountsAfter(c: Config, s: State, w: Worker, act: WorkerStep, served: nat, failed: nat)
    requires Typed(c, s) && WorkerTyped(c, s.bus, w) && WorkerEnabled(c, s, w, act)
    requires SwarmLimits(s.swarm) && Counts(w, served, failed)
    ensures Counts(WorkerAfter(c, s, w, act),
                   if act == Fetch then 0 else served + if act == Serve then 1 else 0,
                   if act == Subscribe then 0 else failed + if act == TransferFail || act == WriteFail then 1 else 0)
  {
  }

  /** In every state of every run a session's count is the pieces that it has served this worker, and the attempt number
      is the failures on this piece. */
  lemma {:induction false} CountsAreExact(c: Config, run: seq<State>, steps: seq<Step>, i: nat, k: nat)
    requires IsRun(c, run) && StepsOf(c, run, steps) && k < |run| && i < |run[0].workers|
    ensures |run[k].workers| == |run[0].workers|
    ensures Counts(run[k].workers[i], ServedSince(steps, i, k), FailedSince(steps, i, k))
  {
    hide IsRun, Counts, WithinLimits, Typed, WorkerEnabled, WorkerAfter, WorkerTyped, PiecesAfter, SwarmAfter, BusAfter;
    if k == 0 {
      StartsCounting(c, run, i);
    } else {
      CountsAreExact(c, run, steps, i, k - 1);
      RunsKeepLimits(c, run, k - 1);
      LimitsOfSwarm(c, run[k - 1]);
      assert Took(c, run[k - 1], steps[k - 1], run[k]);
      CountsOneMore(c, run[k - 1], steps, i, k - 1, run[k]);
    }
  }

  lemma CountsOneMore(c: Config, s: State, steps: seq<Step>, i: nat, k: nat, s': State)
    requires k < |steps| && Took(c, s, steps[k], s') && i < |s.workers| && SwarmLimits(s.swarm)
    requires Counts(s.workers[i], ServedSince(steps, i, k), FailedSince(steps, i, k))
    ensures |s'.workers| == |s.workers|
    ensures Counts(s'.workers[i], ServedSince(steps, i, k + 1), FailedSince(steps, i, k + 1))
  {
    hide Counts, WorkerAfter, PiecesAfter, SwarmAfter, BusAfter, WorkerEnabled, WorkerTyped, SwarmLimits, BusTyped;
    if steps[k].Work? && steps[k].i == i {
      CountsAfter(c, s, s.workers[i], steps[k].act, ServedSince(steps, i, k), FailedSince(steps, i, k));
    }
  }

  lemma StartsCounting(c: Config, run: seq<State>, i: nat)
    requires IsRun(c, run) && i < |run[0].workers|
    ensures Counts(run[0].workers[i], 0, 0)
  {
  }

  lemma LimitsOfSwarm(c: Config, s: State)
    requires WithinLimits(c, s)
    ensures SwarmLimits(s.swarm)
  {
  }
}
