/** Conservation: the WaitGroup, the completion counter and the byte counter against the completed flags. */
module EngineCount {
  import opened Bytes
  import opened Layout
  import opened Engine

  function CountDone(completed: seq<bool>): nat {
    if completed == [] then 0
    else CountDone(completed[..|completed| - 1]) + (if completed[|completed| - 1] then 1 else 0)
  }

  /** The payload bytes of the completed pieces among the first |completed|. */
  function BytesDone(t: Torrent, completed: seq<bool>): int
    requires t.pieceLength > 0
  {
    if completed == [] then 0
    else
      var p := |completed| - 1;
      BytesDone(t, completed[..p]) + (if completed[p] then PieceLengthAt(t, p) else 0)
  }

  lemma {:induction false} DoneAfterFlag(t: Torrent, completed: seq<bool>, p: nat)
    requires t.pieceLength > 0 && p < |completed| && !completed[p]
    ensures CountDone(completed[p := true]) == CountDone(completed) + 1
    ensures BytesDone(t, completed[p := true]) == BytesDone(t, completed) + PieceLengthAt(t, p)
  {
    var last := |completed| - 1;
    if p == last {
      assert completed[p := true][..last] == completed[..last];
    } else {
      DoneAfterFlag(t, completed[..last], p);
      assert completed[p := true][..last] == completed[..last][p := true];
    }
  }

  lemma {:induction false} DoneBounds(completed: seq<bool>)
    ensures CountDone(completed) <= |completed|
    ensures CountDone(completed) == |completed| <==> AllComplete(completed)
  {
    if completed != [] {
      var last := |completed| - 1;
      DoneBounds(completed[..last]);
      assert AllComplete(completed) <==> AllComplete(completed[..last]) && completed[last] by {
        assert AllComplete(completed[..last]) ==> forall p :: 0 <= p < last ==> completed[p] == completed[..last][p];
        assert AllComplete(completed) ==> forall p :: 0 <= p < last ==> completed[..last][p] == completed[p];
      }
    }
  }

  // Flag set, pieceWG.Done still to come; then the two atomic additions.
  predicate WgDue(pc: WorkerPC) { pc.Announcing? || pc.Signalling? || pc.Releasing? }
  predicate CountDue(pc: WorkerPC) { WgDue(pc) || pc.Counting? }
  predicate BytesDue(pc: WorkerPC) { CountDue(pc) || pc.Summing? }

  function WgWeight(): Worker -> int { (w: Worker) => if WgDue(w.pc) then 1 else 0 }
  function CountWeight(): Worker -> int { (w: Worker) => if CountDue(w.pc) then 1 else 0 }
  function BytesWeight(): Worker -> int { (w: Worker) => if BytesDue(w.pc) then w.pc.size else 0 }

  /** Sizes carried by workers are those of their pieces. */
  ghost predicate Sound(c: Config, pc: WorkerPC)
    requires c.t.pieceLength > 0
  {
    && (pc.Writing? ==> |pc.data| == PieceLengthAt(c.t, pc.p))
    && (pc.Committing? || BytesDue(pc) ==> pc.size == PieceLengthAt(c.t, pc.p))
  }

  ghost predicate Conserved(c: Config, s: State)
    requires c.t.pieceLength > 0
  {
    && (forall i :: 0 <= i < |s.workers| ==> Sound(c, s.workers[i].pc))
    && s.pieces.wg == |s.pieces.completed| - CountDone(s.pieces.completed) + Total(s.workers, WgWeight())
    && s.pieces.completedCount + Total(s.workers, CountWeight()) == CountDone(s.pieces.completed)
    && s.pieces.downloadedBytes + Total(s.workers, BytesWeight()) == BytesDone(c.t, s.pieces.completed)
  }

  /** A worker step moves each counter and the worker's own weight by amounts that cancel out. */
  lemma WorkerBalances(c: Config, s: State, w: Worker, act: WorkerStep)
    requires Typed(c, s) && WorkerTyped(c, s.bus, w) && WorkerEnabled(c, s, w, act) && Sound(c, w.pc)
    ensures var d, d', w' := s.pieces, PiecesAfter(c, s.pieces, w.pc, act), WorkerAfter(c, s, w, act);
            && Sound(c, w'.pc)
            && |d'.completed| == |d.completed|
            && d'.wg - WgWeight()(w') + CountDone(d'.completed) == d.wg - WgWeight()(w) + CountDone(d.completed)
            && d'.completedCount + CountWeight()(w') - CountDone(d'.completed)
               == d.completedCount + CountWeight()(w) - CountDone(d.completed)
            && d'.downloadedBytes + BytesWeight()(w') - BytesDone(c.t, d'.completed)
               == d.downloadedBytes + BytesWeight()(w) - BytesDone(c.t, d.completed)
  {
    hide CountDone, BytesDone, SessionAfter;
    if act.Commit? && !s.pieces.completed[w.pc.p] {
      DoneAfterFlag(c.t, s.pieces.completed, w.pc.p);
    }
  }

  lemma ConservedStep(c: Config, s: State, step: Step)
    requires Typed(c, s) && Enabled(c, s, step) && Conserved(c, s)
    ensures Conserved(c, Apply(c, s, step))
  {
    hide WorkerTyped, PiecesAfter, BusAfter, SwarmAfter, WorkerAfter, WorkerEnabled, Sound, CountDone, BytesDone,
      WgWeight, CountWeight, BytesWeight;
    if step.Work? {
      var s' := Apply(c, s, step);
      var w, w' := s.workers[step.i], s'.workers[step.i];
      WorkerBalances(c, s, w, step.act);
      TotalUpdated(s.workers, step.i, w', WgWeight());
      TotalUpdated(s.workers, step.i, w', CountWeight());
      TotalUpdated(s.workers, step.i, w', BytesWeight());
    }
  }

  /** pieceWG never goes below the number of incomplete pieces, so never below zero. */
  lemma WaitGroupNeverNegative(c: Config, s: State)
    requires c.t.pieceLength > 0 && Conserved(c, s)
    ensures s.pieces.wg >= |s.pieces.completed| - CountDone(s.pieces.completed) >= 0
    ensures s.pieces.wg == 0 ==> AllComplete(s.pieces.completed)
  {
    TotalNonNegative(s.workers, WgWeight());
    DoneBounds(s.pieces.completed);
  }

  /** Before its Done, a worker's share is still in the counter, so Done never takes it below zero. */
  lemma DoneIsCovered(c: Config, s: State, i: nat)
    requires c.t.pieceLength > 0 && Conserved(c, s) && i < |s.workers| && WgDue(s.workers[i].pc)
    ensures s.pieces.wg >= 1
  {
    TotalAtLeast(s.workers, WgWeight(), i);
    DoneBounds(s.pieces.completed);
  }

  /** Once every worker has returned the counters are exact. */
  lemma CountersExactAtExit(c: Config, s: State)
    requires c.t.pieceLength > 0 && Conserved(c, s) && AllExited(s)
    ensures s.pieces.completedCount == CountDone(s.pieces.completed)
    ensures s.pieces.downloadedBytes == BytesDone(c.t, s.pieces.completed)
    ensures s.pieces.wg == |s.pieces.completed| - CountDone(s.pieces.completed)
  {
    TotalZero(s.workers, WgWeight());
    TotalZero(s.workers, CountWeight());
    TotalZero(s.workers, BytesWeight());
  }

  // ----- The main goroutine -----

  /** doneCh closes, and the download reports success, only when every piece is complete. */
  ghost predicate MainSound(s: State) {
    && (s.doneClosed ==> AllComplete(s.pieces.completed))
    && (s.main == Joining(false) ==> s.doneClosed)
    && (s.main == Returned(Success) ==> s.doneClosed)
    && s.main != Returned(FailIncomplete)
    && (s.cancelled <==> !s.main.Waiting?)
  }

  lemma FlagsAreFinal(c: Config, s: State, w: Worker, act: WorkerStep)
    requires Typed(c, s)
    ensures var d' := PiecesAfter(c, s.pieces, w.pc, act);
            && |d'.completed| == |s.pieces.completed|
            && forall p :: 0 <= p < |d'.completed| && s.pieces.completed[p] ==> d'.completed[p]
  {
  }

  lemma MainSoundStep(c: Config, s: State, step: Step)
    requires Typed(c, s) && Enabled(c, s, step) && Conserved(c, s) && MainSound(s)
    ensures MainSound(Apply(c, s, step))
  {
    hide WorkerTyped, PiecesAfter, BusAfter, SwarmAfter, WorkerAfter, WorkerEnabled, Conserved;
    if step.Work? {
      FlagsAreFinal(c, s, s.workers[step.i], step.act);
    } else if step.CloseDone? {
      WaitGroupNeverNegative(c, s);
    }
  }
}
