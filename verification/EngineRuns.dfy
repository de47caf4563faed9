/** Whole runs of the download engine, from any resume file to any reachable state. */
module EngineRuns {
  import opened Bytes
  import opened Layout
  import opened RarestFirst
  import opened Engine
  import opened EngineQueue
  import opened EngineCount
  import opened EngineSessions
  import opened EngineBus
  import opened EngineDisk
  import opened Resume

  /** The initial queue: the rarest-first order without the pieces that are already complete. */
  function Incomplete(order: seq<int>, completed: seq<bool>): seq<nat>
    requires forall i :: 0 <= i < |order| ==> 0 <= order[i] < |completed|
  {
    if order == [] then []
    else (if completed[order[0]] then [] else [order[0]]) + Incomplete(order[1..], completed)
  }

  ghost predicate StartsFrom(c: Config, s: State, disk: Bytes, claimed: Option<seq<bool>>, order: seq<int>,
                             availability: seq<nat>)
    requires Sized(c.t)
  {
    && s.pieces.disk == Resized(disk, c.t.length)
    && s.pieces.completed == s.pieces.saved == Rechecked(c, s.pieces.disk, claimed)
    && |availability| == NumPieces(c) && IsOrderOf(order, availability)
    && (forall i :: 0 <= i < |order| ==> 0 <= order[i] < NumPieces(c))
    && s.pieces.queue == Incomplete(order, s.pieces.completed)
    && s.pieces.wg == NumPieces(c) - CountDone(s.pieces.completed) > 0
    && s.pieces.completedCount == CountDone(s.pieces.completed)
    && s.pieces.downloadedBytes == BytesDone(c.t, s.pieces.completed)
    && s.pieces.endgame.Off?
    && s.bus == Bus(map[], [], map[])
    && s.swarm.available == s.swarm.known && s.swarm.ready == []
    && (forall j :: 0 <= j < |s.swarm.connectors| ==> s.swarm.connectors[j] == Resting)
    && (forall i :: 0 <= i < |s.workers| ==> s.workers[i] == Worker(Idle, None))
    && !s.doneClosed && !s.cancelled && s.main.Waiting?
  }

  /** The state when the workers start; the numbers of workers and connectors are not fixed. */
  ghost predicate Init(c: Config, s: State) {
    && Sized(c.t)
    && exists disk, claimed, order, availability :: StartsFrom(c, s, disk, claimed, order, availability)
  }

  ghost predicate Inv(c: Config, s: State) {
    && Typed(c, s)
    && NoneLost(c, s)
    && Conserved(c, s)
    && MainSound(s)
    && Exclusive(s)
    && Signalled(c, s)
    && DiskSound(c, s)
  }

  ghost predicate Next(c: Config, s: State, s': State) {
    Typed(c, s) && exists step :: Enabled(c, s, step) && s' == Apply(c, s, step)
  }

  ghost predicate IsRun(c: Config, run: seq<State>) {
    && run != []
    && Init(c, run[0])
    && forall i :: 0 <= i < |run| - 1 ==> Next(c, run[i], run[i + 1])
  }

  // ----- The invariant holds at the start -----

  lemma {:induction false} IncompleteIs(order: seq<int>, completed: seq<bool>, p: nat)
    requires forall i :: 0 <= i < |order| ==> 0 <= order[i] < |completed|
    ensures |Incomplete(order, completed)| <= |order|
    ensures forall q :: 0 <= q < |Incomplete(order, completed)| ==> Incomplete(order, completed)[q] < |completed|
    ensures p < |completed| && p in order && !completed[p] ==> p in Incomplete(order, completed)
  {
    if order != [] {
      IncompleteIs(order[1..], completed, p);
    }
  }

  lemma {:induction false} NoConnectorHas(xs: seq<Connector>, k: PeerKey)
    requires forall j :: 0 <= j < |xs| ==> xs[j] == Resting
    ensures InConnectors(xs, k) == 0
  {
    if xs != [] { NoConnectorHas(xs[1..], k); }
  }

  lemma InitQueue(c: Config, s: State, disk: Bytes, claimed: Option<seq<bool>>, order: seq<int>, availability: seq<nat>)
    requires Sized(c.t) && StartsFrom(c, s, disk, claimed, order, availability)
    ensures PiecesTyped(c, s.pieces) && NoneLost(c, s)
  {
    OrderIsPermutation(order, availability);
    forall p | 0 <= p < NumPieces(c) ensures Tracked(s, p) {
      IncompleteIs(order, s.pieces.completed, p);
    }
    IncompleteIs(order, s.pieces.completed, 0);
  }

  lemma InitCounts(c: Config, s: State, disk: Bytes, claimed: Option<seq<bool>>, order: seq<int>, availability: seq<nat>)
    requires Sized(c.t) && StartsFrom(c, s, disk, claimed, order, availability)
    ensures Conserved(c, s) && Exclusive(s)
  {
    hide IsOrderOf, Rechecked, Incomplete;
    TotalZero(s.workers, WgWeight());
    TotalZero(s.workers, CountWeight());
    TotalZero(s.workers, BytesWeight());
    forall k ensures Holders(s, k) == Bit(OnLoan(s.swarm, k)) {
      TotalZero(s.workers, WorkerHas(k));
      NoConnectorHas(s.swarm.connectors, k);
    }
  }

  lemma InitDisk(c: Config, s: State, disk: Bytes, claimed: Option<seq<bool>>, order: seq<int>, availability: seq<nat>)
    requires Sized(c.t) && StartsFrom(c, s, disk, claimed, order, availability)
    ensures DiskSound(c, s)
  {
    hide IsOrderOf, Incomplete;
    forall p | 0 <= p < NumPieces(c) && s.pieces.completed[p]
      ensures PrefixGenuine(c, s.pieces.disk, p, PieceLengthAt(c.t, p))
    {
      StoredIsGenuine(c, s.pieces.disk, p);
    }
  }

  lemma StoredIsGenuine(c: Config, disk: Bytes, p: nat)
    requires c.t.pieceLength > 0 && p < NumPieces(c) && Stored(c, disk, p)
    ensures PrefixGenuine(c, disk, p, PieceLengthAt(c.t, p))
  {
    OffsetNonNegative(c.t, p);
    var data := disk[PieceOffset(c.t, p)..PieceEnd(c.t, p)];
    forall x: nat | x < PieceLengthAt(c.t, p) ensures ByteGenuine(c, disk, p, x) {
      assert data[x] == disk[PieceOffset(c.t, p) + x];
    }
  }

  lemma InitInv(c: Config, s: State)
    requires Init(c, s)
    ensures Inv(c, s)
  {
    var disk, claimed, order, availability :| StartsFrom(c, s, disk, claimed, order, availability);
    InitQueue(c, s, disk, claimed, order, availability);
    InitCounts(c, s, disk, claimed, order, availability);
    InitDisk(c, s, disk, claimed, order, availability);
    hide IsOrderOf, Incomplete, Rechecked, NoneLost, Conserved, Exclusive, DiskSound, PiecesTyped;
    assert ListsSound(s.bus) by { assert forall p :: Subscribers(s.bus, p) == []; }
    assert Signalled(c, s);
  }

  // ----- Every step keeps it -----

  lemma StepInv(c: Config, s: State, step: Step)
    requires Inv(c, s) && Enabled(c, s, step)
    ensures Inv(c, Apply(c, s, step))
  {
    hide Typed, NoneLost, Conserved, MainSound, Exclusive, Signalled, DiskSound, Enabled, Apply;
    StepKeepsTyping(c, s, step);
    NoneLostStep(c, s, step);
    ConservedStep(c, s, step);
    MainSoundStep(c, s, step);
    ExclusiveStep(c, s, step);
    SignalledStep(c, s, step);
    DiskSoundStep(c, s, step);
  }

  /** Every state of every run, under every interleaving, satisfies the invariant. */
  lemma {:induction false} RunInv(c: Config, run: seq<State>, i: nat)
    requires IsRun(c, run) && i < |run|
    ensures Inv(c, run[i])
  {
    hide Init, Inv;
    if i == 0 {
      InitInv(c, run[0]);
    } else {
      RunInv(c, run, i - 1);
      assert Next(c, run[i - 1], run[i]);
      NextInv(c, run[i - 1], run[i]);
    }
  }

  lemma NextInv(c: Config, s: State, s': State)
    requires Inv(c, s) && Next(c, s, s')
    ensures Inv(c, s')
  {
    var step :| Enabled(c, s, step) && s' == Apply(c, s, step);
    StepInv(c, s, step);
  }

  // ----- What every run guarantees -----

  /** Integrity: in every reachable state a completed piece verifies on disk, and so does every piece the
      resume file names. */
  lemma CompletedPiecesVerify(c: Config, run: seq<State>, i: nat, p: nat)
    requires IsRun(c, run) && i < |run| && p < NumPieces(c) && c.t.pieceLength > 0 && TearSafe(c)
    ensures Inv(c, run[i])
    ensures run[i].pieces.completed[p] || run[i].pieces.saved[p] ==> Stored(c, run[i].pieces.disk, p)
  {
    RunInv(c, run, i);
    if run[i].pieces.completed[p] || run[i].pieces.saved[p] {
      CompletedIsStored(c, run[i], p);
    }
  }

  /** The download never ends with the "incomplete" failure, and success means that every piece verifies. */
  lemma SuccessMeansVerified(c: Config, run: seq<State>, i: nat)
    requires IsRun(c, run) && i < |run| && c.t.pieceLength > 0 && TearSafe(c)
    ensures run[i].main != Returned(FailIncomplete)
    ensures run[i].main == Returned(Success) ==> forall p :: 0 <= p < NumPieces(c) ==> Stored(c, run[i].pieces.disk, p)
  {
    RunInv(c, run, i);
    if run[i].main == Returned(Success) {
      forall p | 0 <= p < NumPieces(c) ensures Stored(c, run[i].pieces.disk, p) {
        CompletedIsStored(c, run[i], p);
      }
    }
  }

  /** Until cancellation no incomplete piece is out of both the queue and the workers' hands. */
  lemma NoPieceLost(c: Config, run: seq<State>, i: nat, p: nat)
    requires IsRun(c, run) && i < |run| && p < NumPieces(c) && !run[i].cancelled
    ensures Inv(c, run[i])
    ensures run[i].pieces.completed[p] || p in run[i].pieces.queue || HeldBySome(run[i], p)
    ensures |run[i].pieces.queue| <= 2 * NumPieces(c)
  {
    RunInv(c, run, i);
    assert Tracked(run[i], p);
  }

  /** Conservation in every reachable state: the WaitGroup counts the incomplete pieces and the workers still to
      call Done, and zero means that all pieces are complete; once the workers are gone the counters are exact. */
  lemma CountersAreConserved(c: Config, run: seq<State>, i: nat)
    requires IsRun(c, run) && i < |run| && c.t.pieceLength > 0
    ensures var s := run[i]; var d := s.pieces;
            && |d.completed| == NumPieces(c)
            && d.wg == NumPieces(c) - CountDone(d.completed) + Total(s.workers, WgWeight()) && d.wg >= 0
            && (d.wg == 0 ==> AllComplete(d.completed))
            && (AllExited(s) ==> d.completedCount == CountDone(d.completed)
                                 && d.downloadedBytes == BytesDone(c.t, d.completed))
  {
    hide IsRun, Typed, Exclusive, Signalled, DiskSound, MainSound;
    RunInv(c, run, i);
    WaitGroupNeverNegative(c, run[i]);
    if AllExited(run[i]) { CountersExactAtExit(c, run[i]); }
  }

  /** In every reachable state a worker that finds a cancel signal waiting is fetching a piece that is complete. */
  lemma CancelMeansComplete(c: Config, run: seq<State>, i: nat, j: nat)
    requires IsRun(c, run) && i < |run| && j < |run[i].workers| && run[i].workers[j].pc.Transferring?
    ensures Inv(c, run[i])
    ensures run[i].bus.channels[run[i].workers[j].pc.ch].buffered > 0 ==> run[i].pieces.completed[run[i].workers[j].pc.p]
  {
    hide IsRun, NoneLost, Conserved, Exclusive, DiskSound, MainSound, BusTyped, PiecesTyped;
    RunInv(c, run, i);
    assert WorkerTyped(c, run[i].bus, run[i].workers[j]);
    if run[i].bus.channels[run[i].workers[j].pc.ch].buffered > 0 {
      CancelOnlyWhenComplete(c, run[i], j);
    }
  }

  /** In every reachable state each peer has one holder, a connector, ready session or worker, exactly while the
      pool has it on loan, and no holder otherwise. */
  lemma OneSessionPerPeer(c: Config, run: seq<State>, i: nat, k: PeerKey)
    requires IsRun(c, run) && i < |run|
    ensures Holders(run[i], k) == Bit(OnLoan(run[i].swarm, k))
    ensures Alone(run[i], k)
  {
    hide IsRun, NoneLost, Conserved, Signalled, DiskSound, MainSound, Typed, Holders, Alone;
    RunInv(c, run, i);
    SessionsDistinct(run[i], k);
  }

  lemma StepKeepsFlags(c: Config, s: State, step: Step, p: nat)
    requires Typed(c, s) && Enabled(c, s, step) && p < NumPieces(c) && s.pieces.completed[p]
    ensures |Apply(c, s, step).pieces.completed| == NumPieces(c) && Apply(c, s, step).pieces.completed[p]
  {
    hide WorkerTyped, PiecesAfter, BusAfter, SwarmAfter, WorkerAfter, WorkerEnabled, BusTyped;
    if step.Work? { WorkerKeepsTrack(c, s, s.workers[step.i], step.act, p); }
  }

  /** Completion is final. */
  lemma {:induction false} CompletionIsFinal(c: Config, run: seq<State>, i: nat, j: nat, p: nat)
    requires IsRun(c, run) && i <= j < |run| && p < NumPieces(c)
    requires p < |run[i].pieces.completed| && run[i].pieces.completed[p]
    ensures p < |run[j].pieces.completed| && run[j].pieces.completed[p]
    decreases j - i
  {
    hide Init, Typed, Enabled, Apply;
    if i < j {
      CompletionIsFinal(c, run, i, j - 1, p);
      assert Next(c, run[j - 1], run[j]);
      var step :| Enabled(c, run[j - 1], step) && run[j] == Apply(c, run[j - 1], step);
      StepKeepsFlags(c, run[j - 1], step, p);
    }
  }

  // ----- The resume file -----

  /** Saving writes the flags as they are and touches nothing else. */
  lemma SaveStoresFlags(c: Config, s: State)
    requires Typed(c, s) && Enabled(c, s, Save)
    ensures var s' := Apply(c, s, Save);
            s'.pieces == s.pieces.(saved := s.pieces.completed)
            && s' == s.(pieces := s'.pieces)
  {
  }

  /** Nobody is left to set a flag once the download has returned. */
  ghost predicate SavedAtReturn(s: State) {
    s.main.Returned? ==> AllExited(s) && s.pieces.saved == s.pieces.completed
  }

  lemma SavedAtReturnStep(c: Config, s: State, step: Step)
    requires Typed(c, s) && Enabled(c, s, step) && SavedAtReturn(s)
    ensures SavedAtReturn(Apply(c, s, step))
  {
    hide WorkerTyped, PiecesAfter, BusAfter, SwarmAfter, SessionAfter, PcAfter, BusTyped;
  }

  /** Whenever the download has returned, however it ended, the resume file holds the final flags. */
  lemma {:induction false} ReturnedIsSaved(c: Config, run: seq<State>, i: nat)
    requires IsRun(c, run) && i < |run|
    ensures run[i].main.Returned? ==> run[i].pieces.saved == run[i].pieces.completed
    ensures SavedAtReturn(run[i])
  {
    hide Typed, Enabled, Apply, SavedAtReturn;
    if i == 0 {
      NotReturnedYet(c, run[0]);
    } else {
      ReturnedIsSaved(c, run, i - 1);
      assert Next(c, run[i - 1], run[i]);
      var step :| Enabled(c, run[i - 1], step) && run[i] == Apply(c, run[i - 1], step);
      SavedAtReturnStep(c, run[i - 1], step);
    }
    SavedMeans(run[i]);
  }

  lemma NotReturnedYet(c: Config, s: State)
    requires Init(c, s)
    ensures SavedAtReturn(s)
  {
  }

  lemma SavedMeans(s: State)
    requires SavedAtReturn(s)
    ensures s.main.Returned? ==> s.pieces.saved == s.pieces.completed
  {
  }
}
