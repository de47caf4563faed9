/** No piece is lost: until cancellation every incomplete piece is queued or in some worker's hands. */
module EngineQueue {
  import opened Bytes
  import opened Layout
  import opened Engine

  ghost predicate HeldBySome(s: State, p: nat) {
    exists i :: 0 <= i < |s.workers| && Holds(s.workers[i], p)
  }

  ghost predicate Tracked(s: State, p: nat)
    requires p < |s.pieces.completed|
  {
    s.pieces.completed[p] || p in s.pieces.queue || HeldBySome(s, p)
  }

  ghost predicate NoneLost(c: Config, s: State) {
    && |s.pieces.completed| == NumPieces(c)
    && (!s.cancelled ==> forall p :: 0 <= p < NumPieces(c) ==> Tracked(s, p))
  }

  /** A worker never drops the piece it holds while the run is not cancelled, and completion is final. */
  lemma WorkerKeepsTrack(c: Config, s: State, w: Worker, act: WorkerStep, p: nat)
    requires Typed(c, s) && WorkerTyped(c, s.bus, w) && WorkerEnabled(c, s, w, act) && p < NumPieces(c)
    ensures var d, d', w' := s.pieces, PiecesAfter(c, s.pieces, w.pc, act), WorkerAfter(c, s, w, act);
            && |d'.completed| == |d.completed|
            && (d.completed[p] ==> d'.completed[p])
            && (p in d.queue ==> p in d'.queue || Holds(w', p))
            && (Holds(w, p) && !s.cancelled ==> d'.completed[p] || p in d'.queue || Holds(w', p))
  {
    hide SessionAfter;
    var d, d' := s.pieces, PiecesAfter(c, s.pieces, w.pc, act);
    if act.Take? {
      assert d.queue == [d.queue[0]] + d'.queue;
    }
  }

  lemma NoneLostStep(c: Config, s: State, step: Step)
    requires Typed(c, s) && Enabled(c, s, step) && NoneLost(c, s)
    ensures NoneLost(c, Apply(c, s, step))
  {
    hide WorkerTyped, PiecesAfter, BusAfter, SwarmAfter, WorkerAfter, WorkerEnabled, Holds;
    var s' := Apply(c, s, step);
    if step.Work? {
      var i, w, w' := step.i, s.workers[step.i], s'.workers[step.i];
      PiecesStayTyped(c, s, w, step.act);
      forall p | 0 <= p < NumPieces(c) && !s'.cancelled ensures Tracked(s', p) {
        WorkerKeepsTrack(c, s, w, step.act, p);
        assert Tracked(s, p);
        if HeldBySome(s, p) && !Holds(w, p) {
          var j :| 0 <= j < |s.workers| && Holds(s.workers[j], p);
          assert Holds(s'.workers[j], p);
        }
        assert Holds(w', p) ==> HeldBySome(s', p);
      }
    } else {
      forall p | 0 <= p < NumPieces(c) && !s'.cancelled ensures Tracked(s', p) {
        assert Tracked(s, p);
        assert HeldBySome(s, p) ==> HeldBySome(s', p);
      }
    }
  }
}
