/** Building runs of the engine one step at a time: what single steps of one worker lead to. */
module RunSteps {
  import opened Bytes
  import opened Layout
  import opened Engine
  import opened EngineCount
  import opened EngineDisk
  import opened EngineRuns
  import opened Resume
  import opened SoleWriter

  // ----- Extending runs -----

  ghost predicate IsPath(c: Config, o: State, path: seq<State>, s: State) {
    && path != [] && path[0] == o && path[|path| - 1] == s
    && forall i :: 0 <= i < |path| - 1 ==> Next(c, path[i], path[i + 1])
  }

  /** Nobody leaves before the download is cancelled. */
  ghost predicate Open(s: State) {
    !s.cancelled ==>
      && (forall j :: 0 <= j < |s.swarm.connectors| ==> !s.swarm.connectors[j].Gone?)
      && (forall i :: 0 <= i < |s.workers| ==> !s.workers[i].pc.Exited?)
  }

  /** s satisfies the engine's invariant and can be reached from o. */
  ghost predicate Reached(c: Config, o: State, s: State) {
    Inv(c, s) && Open(s) && exists path :: IsPath(c, o, path, s)
  }

  lemma StepOpen(c: Config, s: State, step: Step)
    requires Typed(c, s) && Enabled(c, s, step) && Open(s)
    ensures Open(Apply(c, s, step))
  {
    hide WorkerTyped, PiecesAfter, BusAfter, SessionAfter, BusTyped;
  }

  lemma {:induction false} RunOpen(c: Config, run: seq<State>, i: nat)
    requires IsRun(c, run) && i < |run|
    ensures Open(run[i])
  {
    hide Typed, Enabled, Apply, Open;
    if i == 0 {
      InitOpen(c, run[0]);
    } else {
      RunOpen(c, run, i - 1);
      assert Next(c, run[i - 1], run[i]);
      var step :| Enabled(c, run[i - 1], step) && run[i] == Apply(c, run[i - 1], step);
      StepOpen(c, run[i - 1], step);
    }
  }

  lemma InitOpen(c: Config, s: State)
    requires Init(c, s)
    ensures Open(s)
  {
  }

  /** Any state of any run is a place to go on from. */
  lemma RunReached(c: Config, run: seq<State>, i: nat)
    requires IsRun(c, run) && i < |run|
    ensures Reached(c, run[i], run[i])
  {
    RunInv(c, run, i);
    RunOpen(c, run, i);
    assert IsPath(c, run[i], [run[i]], run[i]);
  }

  lemma StartReached(c: Config, s: State)
    requires Init(c, s)
    ensures Reached(c, s, s)
  {
    assert IsRun(c, [s]);
    RunReached(c, [s], 0);
  }

  lemma PathIsRun(c: Config, o: State, s: State) returns (run: seq<State>)
    requires Init(c, o) && Reached(c, o, s)
    ensures IsRun(c, run) && run[0] == o && run[|run| - 1] == s
  {
    run :| IsPath(c, o, run, s);
  }

  lemma Advance(c: Config, o: State, s: State, step: Step) returns (s': State)
    requires Reached(c, o, s) && Typed(c, s) && Enabled(c, s, step)
    ensures Reached(c, o, s') && s' == Apply(c, s, step)
  {
    hide Inv, Open, Typed, Enabled, Apply;
    s' := Apply(c, s, step);
    StepInv(c, s, step);
    StepOpen(c, s, step);
    var path :| IsPath(c, o, path, s);
    var path' := path + [s'];
    forall i | 0 <= i < |path'| - 1 ensures Next(c, path'[i], path'[i + 1]) {
      if i < |path| - 1 { assert Next(c, path[i], path[i + 1]); }
    }
    assert IsPath(c, o, path', s');
  }

  lemma ReachedTyped(c: Config, o: State, s: State)
    requires Reached(c, o, s)
    ensures Typed(c, s)
  {
  }

  lemma ReachedInv(c: Config, o: State, s: State)
    requires Reached(c, o, s)
    ensures Inv(c, s) && Open(s)
  {
  }

  lemma WorkerIsTyped(c: Config, s: State, i: nat)
    requires Typed(c, s) && i < |s.workers|
    ensures WorkerTyped(c, s.bus, s.workers[i])
  {
  }

  /** Only worker i has moved, and the main goroutine has not. */
  ghost predicate Moved(s: State, s': State, i: nat) {
    && |s'.workers| == |s.workers| && i < |s.workers|
    && (forall j :: 0 <= j < |s.workers| && j != i ==> s'.workers[j] == s.workers[j])
    && s'.doneClosed == s.doneClosed && s'.cancelled == s.cancelled && s'.main == s.main
  }

  lemma Act(c: Config, o: State, s: State, i: nat, act: WorkerStep) returns (s': State)
    requires Reached(c, o, s) && i < |s.workers| && Typed(c, s) && WorkerTyped(c, s.bus, s.workers[i])
    requires WorkerEnabled(c, s, s.workers[i], act)
    ensures Reached(c, o, s') && Moved(s, s', i)
    ensures s'.workers[i] == Worker(PcAfter(c, s, s.workers[i], act), SessionAfter(s.swarm, s.workers[i], act))
    ensures s'.pieces == PiecesAfter(c, s.pieces, s.workers[i].pc, act)
    ensures s'.bus == BusAfter(s.bus, s.workers[i].pc, act)
    ensures s'.swarm == SwarmAfter(s.swarm, s.workers[i], act)
    ensures Typed(c, s') && WorkerTyped(c, s'.bus, s'.workers[i])
  {
    hide Typed, WorkerTyped, WorkerEnabled, PcAfter, SessionAfter, PiecesAfter, BusAfter, SwarmAfter, Reached;
    s' := Advance(c, o, s, Work(i, act));
    ReachedTyped(c, o, s');
    WorkerIsTyped(c, s', i);
  }

  // ----- A worker takes a piece -----

  lemma TakeHead(c: Config, o: State, s: State, i: nat) returns (s': State)
    requires Reached(c, o, s) && i < |s.workers| && s.workers[i].pc == Idle && s.pieces.queue != []
    ensures Reached(c, o, s') && Moved(s, s', i) && s'.swarm == s.swarm
    ensures s'.workers[i] == Worker(Checking(s.pieces.queue[0]), s.workers[i].sess)
    ensures s'.pieces == s.pieces.(queue := s.pieces.queue[1..])
  {
    hide Reached, BusAfter, Subscribers;
    ReachedTyped(c, o, s);
    WorkerIsTyped(c, s, i);
    hide Typed, WorkerTyped;
    s' := Act(c, o, s, i, Take);
  }

  lemma Claim(c: Config, o: State, s: State, i: nat, p: nat) returns (s': State)
    requires Reached(c, o, s) && i < |s.workers| && s.workers[i].pc == Checking(p) && LockFree(s)
    requires p < |s.pieces.completed| && !s.pieces.completed[p]
    ensures Reached(c, o, s') && Moved(s, s', i) && s'.swarm == s.swarm && s'.pieces == s.pieces
    ensures s'.workers[i].pc.Attempting? && s'.workers[i].pc.p == p && s'.workers[i].pc.a == 0
    ensures s'.workers[i].sess == s.workers[i].sess
  {
    hide Reached, BusAfter, Subscribers;
    ReachedTyped(c, o, s);
    WorkerIsTyped(c, s, i);
    hide Typed, WorkerTyped;
    var t := Act(c, o, s, i, Check);
    s' := Act(c, o, t, i, Subscribe);
  }

  lemma NoBus(b: Bus, pc: WorkerPC, act: WorkerStep)
    requires !act.Subscribe? && !act.SeeCancel? && !act.Announce? && !act.Signal?
    ensures BusAfter(b, pc, act) == b
  {
  }

  // ----- A worker writes -----

  /** disk after the first m bytes of data have been written at off. */
  function Written(disk: Bytes, off: nat, data: Bytes, m: nat): Bytes
    requires m <= |data|
  {
    if m == 0 then disk else Poke(Written(disk, off, data, m - 1), off + m - 1, data[m - 1])
  }

  /** The bytes written are there, and what lies behind them is as before. */
  lemma {:induction false} WrittenBytes(disk: Bytes, off: nat, data: Bytes, m: nat, pos: nat, v: byte)
    requires m <= |data|
    requires if off <= pos < off + m then v == data[pos - off] else ByteAt(disk, pos, v)
    ensures ByteAt(Written(disk, off, data, m), pos, v)
  {
    if m > 0 && pos != off + m - 1 { WrittenBytes(disk, off, data, m - 1, pos, v); }
  }

  lemma {:induction false} WriteSome(c: Config, o: State, s: State, i: nat, data: Bytes, m: nat) returns (s': State)
    requires Reached(c, o, s) && i < |s.workers| && s.workers[i].pc.Transferring? && c.t.pieceLength > 0
    requires s.workers[i].pc.p < NumPieces(c) && Verified(c, s.workers[i].pc.p, data) && m <= |data|
    ensures Reached(c, o, s') && Moved(s, s', i) && s'.swarm == s.swarm
    ensures PieceOffset(c.t, s.workers[i].pc.p) >= 0
    ensures s'.pieces == s.pieces.(disk := Written(s.pieces.disk, PieceOffset(c.t, s.workers[i].pc.p), data, m))
    ensures var pc, pc' := s.workers[i].pc, s'.workers[i].pc; pc' == Writing(pc.p, pc.ch, pc.a, data, m)
    decreases m
  {
    hide Reached, BusAfter, PieceOffset, Poke;
    OffsetNonNegative(c.t, s.workers[i].pc.p);
    if m == 0 {
      ReachedTyped(c, o, s);
      WorkerIsTyped(c, s, i);
      hide Typed, WorkerTyped;
      s' := Act(c, o, s, i, Receive(data));
    } else {
      var t := WriteSome(c, o, s, i, data, m - 1);
      ReachedTyped(c, o, t);
      WorkerIsTyped(c, t, i);
      hide Typed, WorkerTyped;
      s' := Act(c, o, t, i, WriteByte);
    }
  }

  // ----- A worker finishes a piece -----

  lemma Commits(c: Config, o: State, s: State, i: nat, p: nat) returns (s': State)
    requires Reached(c, o, s) && i < |s.workers| && s.workers[i].pc.Committing? && s.workers[i].pc.p == p && LockFree(s)
    requires p < |s.pieces.completed| && !s.pieces.completed[p]
    ensures Reached(c, o, s') && Moved(s, s', i) && s'.swarm == s.swarm
    ensures s'.pieces == s.pieces.(completed := s.pieces.completed[p := true])
    ensures s'.workers[i].pc == Announcing(p, s.workers[i].pc.size) && s'.workers[i].sess == s.workers[i].sess
  {
    hide Reached, BusAfter;
    ReachedTyped(c, o, s);
    WorkerIsTyped(c, s, i);
    hide Typed, WorkerTyped;
    s' := Act(c, o, s, i, Commit);
  }

  lemma EndWrite(c: Config, o: State, s: State, i: nat) returns (s': State)
    requires Reached(c, o, s) && i < |s.workers| && s.workers[i].pc.Writing? && s.workers[i].pc.k == |s.workers[i].pc.data|
    ensures Reached(c, o, s') && Moved(s, s', i) && s'.swarm == s.swarm && s'.pieces == s.pieces
    ensures s'.workers[i].pc == Committing(s.workers[i].pc.p, |s.workers[i].pc.data|)
    ensures s'.workers[i].sess == s.workers[i].sess
  {
    hide Reached, BusAfter;
    ReachedTyped(c, o, s);
    WorkerIsTyped(c, s, i);
    hide Typed, WorkerTyped;
    s' := Act(c, o, s, i, WriteEnd);
  }

  lemma {:induction false} Signals(c: Config, o: State, s: State, i: nat) returns (s': State)
    requires Reached(c, o, s) && i < |s.workers| && s.workers[i].pc.Signalling?
    ensures Reached(c, o, s') && Moved(s, s', i) && s'.swarm == s.swarm && s'.pieces == s.pieces
    ensures s'.workers[i] == Worker(Releasing(s.workers[i].pc.p, s.workers[i].pc.size), s.workers[i].sess)
    decreases |s.workers[i].pc.pending|
  {
    hide Reached, BusAfter;
    ReachedTyped(c, o, s);
    WorkerIsTyped(c, s, i);
    hide Typed, WorkerTyped;
    s' := Act(c, o, s, i, Signal);
    if s.workers[i].pc.pending != [] { s' := Signals(c, o, s', i); }
  }

  lemma Announces(c: Config, o: State, s: State, i: nat) returns (s': State)
    requires Reached(c, o, s) && i < |s.workers| && s.workers[i].pc.Announcing?
    ensures Reached(c, o, s') && Moved(s, s', i) && s'.swarm == s.swarm
    ensures s'.workers[i] == Worker(Counting(s.workers[i].pc.p, s.workers[i].pc.size), s.workers[i].sess)
    ensures s'.pieces == s.pieces.(wg := s.pieces.wg - 1)
  {
    hide Reached, BusAfter, Subscribers;
    ReachedTyped(c, o, s);
    WorkerIsTyped(c, s, i);
    hide Typed, WorkerTyped;
    var t := Act(c, o, s, i, Announce);
    var u := Signals(c, o, t, i);
    ReachedTyped(c, o, u);
    WorkerIsTyped(c, u, i);
    s' := Act(c, o, u, i, WgDone);
  }

  /** The endgame after a worker has seen that n - count pieces are missing. */
  function Started(c: Config, e: Endgame, count: int): Endgame {
    if NumPieces(c) - count <= ENDGAME_THRESHOLD && e.Off? then Ticking else e
  }

  lemma CountsUp(c: Config, o: State, s: State, i: nat) returns (s': State)
    requires Reached(c, o, s) && i < |s.workers| && s.workers[i].pc.Counting?
    ensures Reached(c, o, s') && Moved(s, s', i) && s'.swarm == s.swarm && s'.workers[i].sess == s.workers[i].sess
    ensures s'.workers[i].pc == Injecting(s.workers[i].pc.p, s.pieces.completedCount + 1)
    ensures s'.pieces == s.pieces.(completedCount := s.pieces.completedCount + 1,
                                   downloadedBytes := s.pieces.downloadedBytes + s.workers[i].pc.size)
  {
    hide Reached, BusAfter;
    ReachedTyped(c, o, s);
    WorkerIsTyped(c, s, i);
    hide Typed, WorkerTyped;
    var t := Act(c, o, s, i, Count);
    s' := Act(c, o, t, i, Sum);
  }

  lemma Counts(c: Config, o: State, s: State, i: nat) returns (s': State)
    requires Reached(c, o, s) && i < |s.workers| && s.workers[i].pc.Counting?
    ensures Reached(c, o, s') && Moved(s, s', i) && s'.swarm == s.swarm && s'.workers[i].pc == Idle
    ensures s'.pieces == s.pieces.(completedCount := s.pieces.completedCount + 1,
                                   downloadedBytes := s.pieces.downloadedBytes + s.workers[i].pc.size,
                                   endgame := Started(c, s.pieces.endgame, s.pieces.completedCount + 1))
  {
    hide Reached, BusAfter;
    var t := CountsUp(c, o, s, i);
    ReachedTyped(c, o, t);
    WorkerIsTyped(c, t, i);
    hide Typed, WorkerTyped;
    t := Act(c, o, t, i, Inject);
    s' := Act(c, o, t, i, Serve);
  }

  // ----- A peer turns up -----

  lemma {:induction false} FreshPeer(known: set<PeerKey>) returns (k: PeerKey)
    ensures forall x | x in known :: x < k
    decreases |known|
  {
    k := 0;
    if x :| x in known {
      var rest := FreshPeer(known - {x});
      k := if x < rest then rest else x + 1;
      assert forall y | y in known :: y == x || y in known - {x};
    }
  }
}
