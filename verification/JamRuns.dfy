/** Runs into a jam: on every torrent of two or more pieces, with any number of workers and connectors, peers that keep
    failing bring the endgame to a standstill. */
module JamRuns {
  import opened Bytes
  import opened Layout
  import opened Engine
  import opened EngineCount
  import opened EngineDisk
  import opened EngineRuns
  import opened Resume
  import opened RunSteps
  import opened SoleWriter
  import opened SuccessRuns
  import opened Jams
  import opened TornRuns

  /** The endgame ticks, all pieces but p are complete, and nothing is cancelled. */
  ghost predicate LastPiece(c: Config, s: State, p: nat) {
    && Calm(s) && !s.cancelled && s.pieces.endgame == Ticking
    && p < NumPieces(c) == |s.pieces.completed| && forall r :: 0 <= r < NumPieces(c) ==> (s.pieces.completed[r] <==> r != p)
  }

  // ----- Filling the queue -----

  lemma PushOne(c: Config, o: State, s: State, r: nat) returns (s': State)
    requires Reached(c, o, s) && r <= NumPieces(c) == |s.pieces.completed| && s.pieces.endgame == Sweeping(r)
    ensures Reached(c, o, s')
    ensures r == NumPieces(c) ==> s' == s.(pieces := s.pieces.(endgame := Ticking))
    ensures r < NumPieces(c) ==>
              var q := s.pieces.queue;
              s' == s.(pieces := s.pieces.(endgame := Sweeping(r + 1),
                                           queue := if s.pieces.completed[r] || |q| >= 2 * NumPieces(c) then q else q + [r]))
  {
    hide Reached, Typed;
    ReachedTyped(c, o, s);
    s' := Advance(c, o, s, Sweep);
  }

  lemma {:induction false} PushOn(c: Config, o: State, s: State, p: nat, r: nat) returns (s': State)
    requires Reached(c, o, s) && r <= NumPieces(c) == |s.pieces.completed| && s.pieces.endgame == Sweeping(r)
    requires p < NumPieces(c) && forall r :: 0 <= r < NumPieces(c) ==> (s.pieces.completed[r] <==> r != p)
    requires |s.pieces.queue| < 2 * NumPieces(c) || p < r
    ensures Reached(c, o, s')
    ensures s' == s.(pieces := s.pieces.(endgame := Ticking, queue := s.pieces.queue + if r <= p then [p] else []))
    decreases NumPieces(c) - r
  {
    hide Reached;
    var t := PushOne(c, o, s, r);
    if r == NumPieces(c) {
      s' := t;
      assert s.pieces.queue + [] == s.pieces.queue;
    } else {
      s' := PushOn(c, o, t, p, r + 1);
      assert r == p ==> t.pieces.queue + [] == s.pieces.queue + [p];
    }
  }

  /** One sweep queues the last piece once more. */
  lemma Push(c: Config, o: State, s: State, p: nat) returns (s': State)
    requires Reached(c, o, s) && LastPiece(c, s, p) && |s.pieces.queue| < 2 * NumPieces(c)
    ensures Reached(c, o, s') && LastPiece(c, s', p)
    ensures s' == s.(pieces := s.pieces.(queue := s.pieces.queue + [p]))
  {
    hide Reached, Typed;
    ReachedTyped(c, o, s);
    var t := Advance(c, o, s, Tick);
    s' := PushOn(c, o, t, p, 0);
  }

  lemma {:induction false} FillUp(c: Config, o: State, s: State, p: nat) returns (s': State)
    requires Reached(c, o, s) && LastPiece(c, s, p) && |s.pieces.queue| <= 2 * NumPieces(c)
    ensures Reached(c, o, s') && LastPiece(c, s', p) && |s'.pieces.queue| == 2 * NumPieces(c)
    ensures s'.workers == s.workers
    decreases 2 * NumPieces(c) - |s.pieces.queue|
  {
    hide Reached, LastPiece;
    if |s.pieces.queue| == 2 * NumPieces(c) {
      s' := s;
    } else {
      var t := Push(c, o, s, p);
      s' := FillUp(c, o, t, p);
    }
  }

  // ----- A copy for everybody -----

  predicate Trying(pc: WorkerPC) { pc.Attempting? }

  lemma Grab(c: Config, o: State, s: State, p: nat, i: nat) returns (s': State)
    requires Reached(c, o, s) && LastPiece(c, s, p) && s.pieces.queue == []
    requires i < |s.workers| && s.workers[i].pc == Idle
    ensures Reached(c, o, s') && LastPiece(c, s', p) && Moved(s, s', i) && s'.pieces.queue == []
    ensures Trying(s'.workers[i].pc)
  {
    hide Reached;
    var t := Push(c, o, s, p);
    t := TakeHead(c, o, t, i);
    s' := Claim(c, o, t, i, p);
  }

  lemma {:induction false} GrabAll(c: Config, o: State, s: State, p: nat, n: nat) returns (s': State)
    requires Reached(c, o, s) && LastPiece(c, s, p) && s.pieces.queue == [] && n <= |s.workers|
    requires forall i :: 0 <= i < n ==> Trying(s.workers[i].pc)
    requires forall i :: n <= i < |s.workers| ==> s.workers[i].pc == Idle || Trying(s.workers[i].pc)
    ensures Reached(c, o, s') && LastPiece(c, s', p) && s'.pieces.queue == []
    ensures forall i :: 0 <= i < |s'.workers| ==> Trying(s'.workers[i].pc)
    ensures |s'.workers| == |s.workers|
    decreases |s.workers| - n
  {
    hide Reached, LastPiece;
    if n == |s.workers| {
      s' := s;
    } else {
      var t := s;
      if !Trying(s.workers[n].pc) { t := Grab(c, o, s, p, n); }
      s' := GrabAll(c, o, t, p, n + 1);
    }
  }

  // ----- Failing -----

  /** The session fails, and with it the attempt. */
  lemma FailsOnce(c: Config, o: State, s: State, i: nat) returns (s': State)
    requires Reached(c, o, s) && Calm(s) && i < |s.workers|
    requires s.workers[i].pc.Attempting? && s.workers[i].pc.a < MAX_PIECE_ATTEMPTS
    ensures Reached(c, o, s') && Calm(s') && Moved(s, s', i) && s'.pieces == s.pieces
    ensures var pc, pc' := s.workers[i].pc, s'.workers[i].pc; pc' == Attempting(pc.p, pc.ch, pc.a + 1)
  {
    hide Reached, BusAfter;
    var t := GetSession(c, o, s, i);
    ReachedTyped(c, o, t);
    WorkerIsTyped(c, t, i);
    hide Typed, WorkerTyped;
    s' := Act(c, o, t, i, TransferFail);
  }

  lemma {:induction false} Exhausts(c: Config, o: State, s: State, i: nat) returns (s': State)
    requires Reached(c, o, s) && Calm(s) && i < |s.workers| && Trying(s.workers[i].pc)
    ensures Reached(c, o, s') && Calm(s') && Moved(s, s', i) && s'.pieces == s.pieces && Stuck(s'.workers[i].pc)
    decreases MAX_PIECE_ATTEMPTS - s.workers[i].pc.a
  {
    hide Reached, Calm;
    if s.workers[i].pc.a >= MAX_PIECE_ATTEMPTS {
      s' := s;
    } else {
      var t := FailsOnce(c, o, s, i);
      s' := Exhausts(c, o, t, i);
    }
  }

  lemma {:induction false} ExhaustAll(c: Config, o: State, s: State, n: nat) returns (s': State)
    requires Reached(c, o, s) && Calm(s) && n <= |s.workers|
    requires forall i :: 0 <= i < n ==> Stuck(s.workers[i].pc)
    requires forall i :: n <= i < |s.workers| ==> Trying(s.workers[i].pc)
    ensures Reached(c, o, s') && s'.pieces == s.pieces && s'.cancelled == s.cancelled && |s'.workers| == |s.workers|
    ensures forall i :: 0 <= i < |s'.workers| ==> Stuck(s'.workers[i].pc)
    decreases |s.workers| - n
  {
    hide Reached, Calm, Stuck;
    if n == |s.workers| {
      s' := s;
    } else {
      var t := Exhausts(c, o, s, n);
      s' := ExhaustAll(c, o, t, n + 1);
    }
  }

  // ----- The jam -----

  /** The run has so many workers and connectors, and is jammed in its last state with a piece missing. */
  ghost predicate JamsAtLast(c: Config, workers: nat, connectors: nat, run: seq<State>) {
    && IsRun(c, run) && |run[0].workers| == workers && |run[0].swarm.connectors| == connectors
    && var s := run[|run| - 1];
       !s.cancelled && Jammed(c, s) && !AllComplete(s.pieces.completed)
  }

  /** Worker 0 downloads every piece but the last. */
  lemma {:induction false} AllButLast(c: Config, o: State, s: State, i: nat) returns (s': State)
    requires Reached(c, o, s) && Calm(s) && Sized(c.t) && AllVerifiable(c) && i < NumPieces(c) && !s.cancelled
    requires s.workers != [] && forall j :: 0 <= j < |s.workers| ==> s.workers[j].pc == Idle
    requires DoneBefore(c, s.pieces, NumPieces(c) - 1, i) && Counted(c, s.pieces)
    requires s.pieces.queue == Range(i, NumPieces(c))
    ensures Reached(c, o, s') && Calm(s') && !s'.cancelled
    ensures s'.workers != [] && forall j :: 0 <= j < |s'.workers| ==> s'.workers[j].pc == Idle
    ensures DoneBefore(c, s'.pieces, NumPieces(c) - 1, NumPieces(c)) && Counted(c, s'.pieces)
    ensures s'.pieces.queue == [NumPieces(c) - 1]
    decreases NumPieces(c) - i
  {
    hide Reached, Verifiable, Counted, CountDone, Started, AllVerifiable;
    if i == NumPieces(c) - 1 {
      s' := s;
    } else {
      assert s.pieces.queue[0] == i && s.pieces.queue[1..] == Range(i + 1, NumPieces(c));
      EachVerifiable(c, i);
      var t := TakeHead(c, o, s, 0);
      t := Claim(c, o, t, 0, i);
      t := Completes(c, o, t, 0, i);
      CountedAfter(c, s.pieces, t.pieces, i);
      s' := AllButLast(c, o, t, i + 1);
    }
  }

  lemma JamRun(c: Config, workers: nat, connectors: nat) returns (run: seq<State>)
    requires Sized(c.t) && AllVerifiable(c) && NumPieces(c) >= 2 && workers > 0 && connectors > 0
    ensures JamsAtLast(c, workers, connectors, run)
  {
    hide IsRun, Typed, Verifiable, Reached, AllVerifiable, NoDuplicates, Counted, LastPiece;
    var o, p := Fresh(c, workers, connectors), NumPieces(c) - 1;
    FreshStarts(c, workers, connectors);
    StartReached(c, o);
    NothingCounted(c, o.pieces);
    var s := AllButLast(c, o, o, 0);
    EndgameComes(c);
    EachVerifiable(c, p);
    EndgameOn(c, s.pieces, p);
    AllButOne(c, s, p);
    s := TakeHead(c, o, s, 0);
    s := Claim(c, o, s, 0, p);
    AllButOne(c, s, p);
    s := GrabAll(c, o, s, p, 1);
    s := FillUp(c, o, s, p);
    LastPieceMeans(c, s, p);
    s := ExhaustAll(c, o, s, 0);
    run := PathIsRun(c, o, s);
  }

  lemma EachVerifiable(c: Config, p: nat)
    requires AllVerifiable(c) && p < NumPieces(c)
    ensures Verifiable(c, p)
  {
  }

  lemma AllButOne(c: Config, s: State, p: nat)
    requires AllVerifiable(c) && p < NumPieces(c) && DoneBefore(c, s.pieces, p, NumPieces(c))
    requires Calm(s) && !s.cancelled && s.pieces.endgame == Ticking
    ensures LastPiece(c, s, p)
  {
    hide Verifiable;
  }

  lemma LastPieceMeans(c: Config, s: State, p: nat)
    requires LastPiece(c, s, p)
    ensures Calm(s) && !s.cancelled && !AllComplete(s.pieces.completed)
  {
    assert !s.pieces.completed[p];
  }

  /** With data for every piece the endgame can duplicate pieces as soon as there are two. */
  lemma EndgameComes(c: Config)
    requires Sized(c.t) && AllVerifiable(c)
    ensures NoDuplicates(c) <==> NumPieces(c) < 2
  {
    hide Verifiable;
    DoneBounds(Goal(c));
    assert forall p :: 0 <= p < NumPieces(c) ==> Goal(c)[p];
  }

  /** A torrent of one piece is never queued twice. */
  lemma OnePieceNeverJams(c: Config, run: seq<State>)
    requires Sized(c.t) && AllVerifiable(c) && NumPieces(c) == 1 && IsRun(c, run)
    ensures !Jammed(c, run[|run| - 1])
  {
    hide Init, Next, Verifiable, NoDuplicates, Inv, Stuck, Holds, Total;
    var s := run[|run| - 1];
    RunInv(c, run, |run| - 1);
    QueueTyped(c, s);
    if |s.pieces.queue| >= 2 { Twice(s.pieces.queue); }
    EndgameComes(c);
    SoleInRuns(c, run, |run| - 1);
    assert Copies(s, 0) + DoneBit(s.pieces, 0) <= 1;
    hide HoldWeight;
    TotalNonNegative(s.workers, HoldWeight(0));
  }

  lemma Twice(q: seq<nat>)
    requires |q| >= 2 && forall i :: 0 <= i < |q| ==> q[i] < 1
    ensures multiset(q)[0] >= 2
  {
    assert q == [0, 0] + q[2..];
  }

  lemma QueueTyped(c: Config, s: State)
    requires Inv(c, s)
    ensures forall q :: 0 <= q < |s.pieces.queue| ==> s.pieces.queue[q] < NumPieces(c)
  {
  }

  /** With any number of workers and connectors, a jam with a piece missing can come about on exactly the torrents of two
      or more pieces. */
  lemma JamIff(c: Config, workers: nat, connectors: nat)
    requires Sized(c.t) && AllVerifiable(c) && workers > 0 && connectors > 0
    ensures (exists run :: JamsAtLast(c, workers, connectors, run)) <==> |c.t.hashes| >= 2
  {
    hide IsRun, AllVerifiable, Jammed;
    if NumPieces(c) >= 2 {
      var run := JamRun(c, workers, connectors);
    } else {
      forall run: seq<State> ensures !JamsAtLast(c, workers, connectors, run) {
        if IsRun(c, run) { OnePieceNeverJams(c, run); }
      }
    }
  }
}
