/** When a download can still succeed: whenever there is data for what is missing, unless the queue is full and every
    worker waits for room in it. */
module Jams {
  import opened Bytes
  import opened Layout
  import opened RarestFirst
  import opened Engine
  import opened EngineBus
  import opened EngineQueue
  import opened EngineCount
  import opened EngineSessions
  import opened EngineDisk
  import opened EngineRuns
  import opened Resume
  import opened SoleWriter
  import opened RunSteps
  import opened SuccessRuns

  /** Some continuation of the run ends in success. */
  ghost predicate CanSucceed(c: Config, s: State) {
    exists path, t: State :: IsPath(c, s, path, t) && t.main == Returned(Success)
  }

  /** Every worker wants to put its piece back, or is about to, and the queue is full. */
  predicate Jammed(c: Config, s: State) {
    |s.pieces.queue| >= 2 * NumPieces(c) && forall i :: 0 <= i < |s.workers| ==> Stuck(s.workers[i].pc)
  }

  ghost predicate MissingVerifiable(c: Config, s: State) {
    c.t.pieceLength > 0
    && forall p | 0 <= p < NumPieces(c) && !(p < |s.pieces.completed| && s.pieces.completed[p]) :: Verifiable(c, p)
  }

  /** The download goes on: nothing is cancelled, and there are connectors. */
  ghost predicate Ongoing(c: Config, s: State) {
    !s.cancelled && s.swarm.connectors != [] && AllVerifiable(c)
  }

  lemma MissingIsAll(c: Config, s: State)
    requires Inv(c, s) && c.t.pieceLength > 0
    ensures MissingVerifiable(c, s) <==> AllVerifiable(c)
  {
    hide Verifiable, NoneLost, Conserved, Exclusive, Signalled, MainSound, PrefixGenuine;
    forall p | 0 <= p < NumPieces(c) && s.pieces.completed[p] ensures Verifiable(c, p) {
      CompletedVerifiable(c, s, p);
    }
  }

  // ----- Getting going -----

  /** A worker puts its piece back if there is room. */
  lemma PutsBack(c: Config, o: State, s: State, i: nat) returns (s': State)
    requires Reached(c, o, s) && i < |s.workers| && Stuck(s.workers[i].pc) && |s.pieces.queue| < 2 * NumPieces(c)
    ensures Reached(c, o, s') && Moved(s, s', i) && s'.workers[i].pc == Idle && s'.swarm == s.swarm
    ensures s'.pieces == s.pieces.(queue := s.pieces.queue + [s.workers[i].pc.p])
  {
    hide Reached, BusAfter;
    s' := StandsBack(c, o, s, i);
    ReachedTyped(c, o, s');
    WorkerIsTyped(c, s', i);
    hide Typed, WorkerTyped;
    s' := Act(c, o, s', i, Requeue);
  }

  lemma FreeWorker(c: Config, o: State, s: State) returns (s': State, i: nat)
    requires Reached(c, o, s) && Ongoing(c, s) && !Jammed(c, s) && s.workers != []
    ensures Reached(c, o, s') && Ongoing(c, s') && i < |s'.workers| && !Stuck(s'.workers[i].pc)
  {
    hide Reached, AllVerifiable, Stuck;
    s' := s;
    if j :| 0 <= j < |s.workers| && !Stuck(s.workers[j].pc) {
      i := j;
    } else {
      i := 0;
      s' := PutsBack(c, o, s, 0);
      IdleIsFree(s'.workers[0].pc);
    }
  }

  lemma IdleIsFree(pc: WorkerPC)
    requires pc.Idle?
    ensures !Stuck(pc)
  {
  }

  /** A sweep under way comes to its end. */
  lemma {:induction false} EndSweep(c: Config, o: State, s: State) returns (s': State)
    requires Reached(c, o, s)
    ensures Reached(c, o, s') && LockFree(s') && s' == s.(pieces := s'.pieces)
    ensures s'.pieces.completed == s.pieces.completed && s'.pieces.wg == s.pieces.wg
    ensures |s'.pieces.queue| >= |s.pieces.queue|
    decreases if s.pieces.endgame.Sweeping? && s.pieces.endgame.next <= NumPieces(c)
              then NumPieces(c) + 1 - s.pieces.endgame.next else 0
  {
    hide Reached;
    s' := s;
    if !LockFree(s) {
      ReachedTyped(c, o, s);
      SweepBounded(c, s);
      hide Typed;
      var t := Advance(c, o, s, Sweep);
      s' := EndSweep(c, o, t);
    }
  }

  lemma SweepBounded(c: Config, s: State)
    requires Typed(c, s) && s.pieces.endgame.Sweeping?
    ensures s.pieces.endgame.next <= NumPieces(c) == |s.pieces.completed|
  {
  }

  /** A peer turns up. */
  lemma PeerTurnsUp(c: Config, o: State, s: State) returns (s': State)
    requires Reached(c, o, s)
    ensures Reached(c, o, s') && s' == s.(swarm := s'.swarm) && Supplied(s'.swarm)
    ensures s'.swarm.connectors == s.swarm.connectors
  {
    hide Reached, Typed;
    ReachedTyped(c, o, s);
    ReachedInv(c, o, s);
    var k := FreshPeer(s.swarm.known);
    s' := Advance(c, o, s, AddPeer(k));
    assert k in s'.swarm.available;
  }

  // ----- Everybody finishes -----

  /** Worker n finishes what it has, or puts it back for worker i to do. */
  lemma Unburden(c: Config, o: State, s: State, i: nat, n: nat) returns (s': State)
    requires Reached(c, o, s) && Open(s) && Working(c, s, i) && s.workers[i].pc == Idle && s.pieces.queue == []
    requires n < |s.workers| && n != i && NumPieces(c) > 0
    ensures Reached(c, o, s') && Working(c, s', i) && s'.workers[i].pc == Idle && s'.pieces.queue == []
    ensures |s'.workers| == |s.workers| && s'.workers[n].pc == Idle
    ensures forall j :: 0 <= j < |s.workers| && j != i && j != n ==> s'.workers[j] == s.workers[j]
  {
    hide Reached, AllVerifiable, Stuck, Supplied, AllStored, Clean;
    IdleIsFree(s.workers[i].pc);
    AllVerifiableSized(c);
    var t := PeerTurnsUp(c, o, s);
    if Stuck(s.workers[n].pc) {
      t := PutsBack(c, o, t, n);
      s' := DrainQueue(c, o, t, i);
    } else {
      s' := Settle(c, o, t, n);
      t := PeerTurnsUp(c, o, s');
      s' := t;
    }
  }

  lemma {:induction false} UnburdenAll(c: Config, o: State, s: State, i: nat, n: nat) returns (s': State)
    requires Reached(c, o, s) && Working(c, s, i) && s.workers[i].pc == Idle && s.pieces.queue == []
    requires n <= |s.workers| && NumPieces(c) > 0
    requires forall j :: 0 <= j < n ==> s.workers[j].pc == Idle
    ensures Reached(c, o, s') && Ongoing(c, s') && LockFree(s') && s'.pieces.queue == []
    ensures forall j :: 0 <= j < |s'.workers| ==> s'.workers[j].pc == Idle
    decreases |s.workers| - n
  {
    hide Reached, AllVerifiable, Stuck, PeerAtHand;
    if n == |s.workers| {
      s' := s;
    } else {
      var t := s;
      if n != i {
        ReachedInv(c, o, s);
        t := Unburden(c, o, s, i, n);
      }
      s' := UnburdenAll(c, o, t, i, n + 1);
    }
  }

  lemma Succeeds(c: Config, o: State, s: State) returns (s': State)
    requires Reached(c, o, s) && Ongoing(c, s) && !Jammed(c, s) && s.workers != [] && NumPieces(c) > 0
    ensures Reached(c, o, s') && s'.main == Returned(Success)
  {
    hide Reached, AllVerifiable, Stuck, Jammed, Supplied, Inv, AllStored, Clean;
    AllVerifiableSized(c);
    var t, i := FreeWorker(c, o, s);
    t := EndSweep(c, o, t);
    t := PeerTurnsUp(c, o, t);
    ReachedInv(c, o, t);
    t := Settle(c, o, t, i);
    t := DrainQueue(c, o, t, i);
    t := UnburdenAll(c, o, t, i, 0);
    ReachedInv(c, o, t);
    QuietIsDone(c, t);
    AllAtRest(t);
    s' := WindUp(c, o, t);
  }

  lemma AllAtRest(s: State)
    requires forall j :: 0 <= j < |s.workers| ==> s.workers[j].pc == Idle || Stuck(s.workers[j].pc)
    ensures forall j :: 0 <= j < |s.workers| ==> AtRest(s.workers[j].pc)
  {
  }

  /** With every piece complete a jam is harmless. */
  lemma JammedAndDone(c: Config, o: State, s: State) returns (s': State)
    requires Reached(c, o, s) && !s.cancelled && Jammed(c, s) && AllComplete(s.pieces.completed) && c.t.pieceLength > 0
    ensures Reached(c, o, s') && s'.main == Returned(Success)
  {
    hide Reached, Stuck, NoneLost, Exclusive, DiskSound, Signalled, Typed, MainSound, CountDone, Total;
    ReachedInv(c, o, s);
    NobodyDue(c, s);
    var t := EndSweep(c, o, s);
    AllAtRest(t);
    s' := WindUp(c, o, t);
  }

  lemma NobodyDue(c: Config, s: State)
    requires c.t.pieceLength > 0 && Conserved(c, s) && Jammed(c, s) && AllComplete(s.pieces.completed)
    ensures s.pieces.wg == 0
  {
    DoneBounds(s.pieces.completed);
    TotalZero(s.workers, WgWeight());
  }

  // ----- A jam is final -----

  /** Jammed with a piece missing, or on the way out through the timer. */
  ghost predicate Doomed(c: Config, s: State) {
    match s.main
    case Waiting => Jammed(c, s) && !AllComplete(s.pieces.completed)
    case Joining(timedOut) => timedOut
    case Returned(outcome) => outcome == FailTimeout
  }

  /** In a jam no worker moves but towards it. */
  lemma JammedWork(c: Config, s: State, w: Worker, act: WorkerStep)
    requires Typed(c, s) && WorkerTyped(c, s.bus, w) && WorkerEnabled(c, s, w, act)
    requires Stuck(w.pc) && |s.pieces.queue| >= 2 * NumPieces(c) && !s.cancelled
    ensures Stuck(PcAfter(c, s, w, act)) && PiecesAfter(c, s.pieces, w.pc, act) == s.pieces
  {
  }

  lemma DoomedStep(c: Config, s: State, step: Step)
    requires Typed(c, s) && Enabled(c, s, step) && MainSound(s) && Doomed(c, s)
    ensures Doomed(c, Apply(c, s, step))
  {
    hide WorkerTyped, WorkerEnabled, PcAfter, PiecesAfter, BusAfter, SwarmAfter, SessionAfter, BusTyped, Stuck;
    if step.Work? && s.main.Waiting? {
      JammedWork(c, s, s.workers[step.i], step.act);
    }
  }

  lemma {:induction false} StaysDoomed(c: Config, path: seq<State>, i: nat)
    requires path != [] && i < |path| && Inv(c, path[0]) && Doomed(c, path[0])
    requires forall j :: 0 <= j < |path| - 1 ==> Next(c, path[j], path[j + 1])
    ensures Inv(c, path[i]) && Doomed(c, path[i])
  {
    hide Inv, Doomed, Typed, Enabled, Apply;
    if i > 0 {
      StaysDoomed(c, path, i - 1);
      assert Next(c, path[i - 1], path[i]);
      var step :| Enabled(c, path[i - 1], step) && path[i] == Apply(c, path[i - 1], step);
      StepInv(c, path[i - 1], step);
      InvMain(c, path[i - 1]);
      DoomedStep(c, path[i - 1], step);
    }
  }

  lemma InvMain(c: Config, s: State)
    requires Inv(c, s)
    ensures MainSound(s)
  {
  }

  lemma {:induction false} PathInv(c: Config, path: seq<State>, i: nat)
    requires path != [] && i < |path| && Inv(c, path[0])
    requires forall j :: 0 <= j < |path| - 1 ==> Next(c, path[j], path[j + 1])
    ensures Inv(c, path[i])
  {
    hide Inv, Typed, Enabled, Apply;
    if i > 0 {
      PathInv(c, path, i - 1);
      assert Next(c, path[i - 1], path[i]);
      NextInv(c, path[i - 1], path[i]);
    }
  }

  lemma SuccessIsVerifiable(c: Config, t: State)
    requires Inv(c, t) && t.main == Returned(Success) && c.t.pieceLength > 0
    ensures AllVerifiable(c)
  {
    hide Verifiable, NoneLost, Conserved, Exclusive, Signalled, PrefixGenuine;
    forall p | 0 <= p < NumPieces(c) ensures Verifiable(c, p) {
      CompletedVerifiable(c, t, p);
    }
  }

  /** The exact condition: until cancellation, a download with a worker and a connector can still succeed if and only if
      every piece is complete, or there is data for the missing ones and no jam. */
  lemma CanSucceedIff(c: Config, run: seq<State>, i: nat)
    requires IsRun(c, run) && i < |run| && Sized(c.t) && !run[i].cancelled
    requires run[i].workers != [] && run[i].swarm.connectors != []
    ensures var s := run[i];
            CanSucceed(c, s) <==> AllComplete(s.pieces.completed) || (MissingVerifiable(c, s) && !Jammed(c, s))
  {
    var s := run[i];
    RunReached(c, run, i);
    RunInv(c, run, i);
    MissingIsAll(c, s);
    hide IsRun, Inv, Jammed, MissingVerifiable, Stuck, AllVerifiable;
    if AllComplete(s.pieces.completed) {
      DoneIsVerifiable(c, s);
    }
    if AllVerifiable(c) && !Jammed(c, s) {
      var t := Succeeds(c, s, s);
    } else if AllComplete(s.pieces.completed) {
      var t := JammedAndDone(c, s, s);
    }
    if CanSucceed(c, s) { SuccessIsOpen(c, s); }
  }

  lemma SuccessIsOpen(c: Config, s: State)
    requires Inv(c, s) && !s.cancelled && c.t.pieceLength > 0 && CanSucceed(c, s)
    ensures AllVerifiable(c) && (Jammed(c, s) ==> AllComplete(s.pieces.completed))
  {
    hide Inv, Jammed, AllVerifiable, Next;
    var path, t :| IsPath(c, s, path, t) && t.main == Returned(Success);
    PathInv(c, path, |path| - 1);
    SuccessIsVerifiable(c, t);
    InvMain(c, s);
    if Jammed(c, s) && !AllComplete(s.pieces.completed) { StaysDoomed(c, path, |path| - 1); }
  }

  lemma DoneIsVerifiable(c: Config, s: State)
    requires Inv(c, s) && AllComplete(s.pieces.completed) && c.t.pieceLength > 0
    ensures AllVerifiable(c)
  {
    hide Verifiable, NoneLost, Conserved, Exclusive, Signalled, MainSound, PrefixGenuine;
    forall p | 0 <= p < NumPieces(c) ensures Verifiable(c, p) {
      CompletedVerifiable(c, s, p);
    }
  }

  /** From a jam with a piece missing every run that returns at all has timed out. */
  lemma JamIsFinal(c: Config, run: seq<State>, i: nat, j: nat)
    requires IsRun(c, run) && i <= j < |run| && !run[i].cancelled
    requires Jammed(c, run[i]) && !AllComplete(run[i].pieces.completed)
    ensures run[j].main.Returned? ==> run[j].main == Returned(FailTimeout)
    ensures run[j].main.Waiting? ==> Jammed(c, run[j])
  {
    RunInv(c, run, i);
    InvMain(c, run[i]);
    var path := run[i..];
    AfterIsPath(c, run, i);
    hide IsRun, Inv, Jammed, Next, AllComplete;
    StaysDoomed(c, path, j - i);
  }

  lemma AfterIsPath(c: Config, run: seq<State>, i: nat)
    requires IsRun(c, run) && i < |run|
    ensures forall j :: 0 <= j < |run[i..]| - 1 ==> Next(c, run[i..][j], run[i..][j + 1])
  {
    hide Next, Init;
    forall j | 0 <= j < |run[i..]| - 1 ensures Next(c, run[i..][j], run[i..][j + 1]) {
      assert Next(c, run[i + j], run[i + j + 1]);
    }
  }
}
