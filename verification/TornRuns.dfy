/** Runs in which endgame duplicates tear a piece: for every hash that is not tear safe, and every torrent on which
    the endgame can duplicate pieces at all, some run leaves a completed piece that does not verify. */
module TornRuns {
  import opened Bytes
  import opened Layout
  import opened RarestFirst
  import opened Engine
  import opened EngineCount
  import opened EngineDisk
  import opened EngineRuns
  import opened Resume
  import opened RunSteps
  import opened SoleWriter

  /** No session is ready or under way, and nobody holds stateMu. */
  predicate Calm(s: State) {
    s.swarm.ready == [] && Rested(s.swarm) && LockFree(s)
  }

  predicate Rested(m: Swarm) {
    m.connectors != [] && forall j :: 0 <= j < |m.connectors| ==> m.connectors[j] == Resting
  }

  // ----- A worker gets a session -----

  /** A new peer appears and a connector reaches it. */
  lemma Dial(c: Config, o: State, s: State) returns (s': State)
    requires Reached(c, o, s) && Calm(s)
    ensures Reached(c, o, s') && s' == s.(swarm := s'.swarm)
    ensures |s'.swarm.ready| == 1 && Rested(s'.swarm)
  {
    hide Reached, Typed, WorkerEnabled, WorkerTyped;
    var k := FreshPeer(s.swarm.known);
    ReachedTyped(c, o, s);
    var t := Advance(c, o, s, AddPeer(k));
    ReachedTyped(c, o, t);
    t := Advance(c, o, t, Connect(0, Acquire(k)));
    ReachedTyped(c, o, t);
    t := Advance(c, o, t, Connect(0, DialOk));
    ReachedTyped(c, o, t);
    s' := Advance(c, o, t, Connect(0, Offer));
  }

  lemma GetSession(c: Config, o: State, s: State, i: nat) returns (s': State)
    requires Reached(c, o, s) && Calm(s) && i < |s.workers|
    requires s.workers[i].pc.Attempting? && s.workers[i].pc.a < MAX_PIECE_ATTEMPTS
    ensures Reached(c, o, s') && Calm(s') && Moved(s, s', i) && s'.pieces == s.pieces
    ensures var pc, pc' := s.workers[i].pc, s'.workers[i].pc; pc' == Transferring(pc.p, pc.ch, pc.a)
  {
    hide Reached, BusAfter;
    ReachedTyped(c, o, s);
    WorkerIsTyped(c, s, i);
    hide Typed, WorkerTyped;
    s' := Act(c, o, s, i, Attempt);
    if s'.workers[i].pc.Fetching? { s' := DialAndFetch(c, o, s', i); }
  }

  lemma DialAndFetch(c: Config, o: State, s: State, i: nat) returns (s': State)
    requires Reached(c, o, s) && Calm(s) && i < |s.workers| && s.workers[i].pc.Fetching?
    ensures Reached(c, o, s') && Calm(s') && Moved(s, s', i) && s'.pieces == s.pieces
    ensures var pc, pc' := s.workers[i].pc, s'.workers[i].pc; pc' == Transferring(pc.p, pc.ch, pc.a)
  {
    hide Reached, BusAfter;
    var t := Dial(c, o, s);
    ReachedTyped(c, o, t);
    WorkerIsTyped(c, t, i);
    hide Typed, WorkerTyped;
    s' := Act(c, o, t, i, Fetch);
  }

  /** A worker in charge of piece p downloads and commits it. */
  lemma Completes(c: Config, o: State, s: State, i: nat, p: nat) returns (s': State)
    requires Reached(c, o, s) && Calm(s) && i < |s.workers|
    requires s.workers[i].pc.Attempting? && s.workers[i].pc.p == p && s.workers[i].pc.a == 0
    requires c.t.pieceLength > 0 && p < NumPieces(c) == |s.pieces.completed| && !s.pieces.completed[p] && Verifiable(c, p)
    ensures Reached(c, o, s') && Calm(s') && Moved(s, s', i) && s'.workers[i].pc == Idle
    ensures var d, d' := s.pieces, s'.pieces;
            && d'.completed == d.completed[p := true] && d'.queue == d.queue
            && d'.completedCount == d.completedCount + 1
            && d'.endgame == Started(c, d.endgame, d.completedCount + 1)
  {
    hide Reached, Verified, PieceOffset, Written;
    var data :| Verified(c, p, data);
    var t := GetSession(c, o, s, i);
    t := WriteSome(c, o, t, i, data, |data|);
    t := EndWrite(c, o, t, i);
    t := Commits(c, o, t, i, p);
    t := Announces(c, o, t, i);
    s' := Counts(c, o, t, i);
  }

  // ----- One sweep of the endgame -----

  /** The workers from b on have never done anything. */
  ghost predicate Unused(s: State, b: nat) {
    forall j :: b <= j < |s.workers| ==> s.workers[j] == Worker(Idle, None)
  }

  /** Workers outside [b, e) are as before. */
  ghost predicate Same(s: State, s': State, b: nat, e: nat) {
    && |s'.workers| == |s.workers|
    && forall j :: 0 <= j < |s.workers| && !(b <= j < e) ==> s'.workers[j] == s.workers[j]
  }

  /** From piece r on: each incomplete piece is queued and taken at once by the worker set aside for it. */
  lemma {:induction false} SweepOn(c: Config, o: State, s: State, b: nat, p: nat, r: nat) returns (s': State)
    requires Reached(c, o, s) && s.swarm.ready == [] && Rested(s.swarm)
    requires r <= NumPieces(c) == |s.pieces.completed| && s.pieces.endgame == Sweeping(r) && s.pieces.queue == []
    requires b + NumPieces(c) <= |s.workers| && Unused(s, b + r)
    requires p < NumPieces(c) && !s.pieces.completed[p]
    requires p < r ==> s.workers[b + p] == Worker(Checking(p), None)
    ensures Reached(c, o, s') && Calm(s') && Same(s, s', b + r, b + NumPieces(c))
    ensures s'.pieces == s.pieces.(endgame := Ticking) && s'.swarm == s.swarm
    ensures s'.workers[b + p] == Worker(Checking(p), None)
    decreases NumPieces(c) - r
  {
    hide Reached, Typed, Moved;
    var t := SweepsOne(c, o, s, r);
    if r == NumPieces(c) {
      s' := t;
    } else {
      if !s.pieces.completed[r] {
        t := TakesNew(c, o, t, b + r, r);
      }
      s' := SweepOn(c, o, t, b, p, r + 1);
    }
  }

  lemma SweepsOne(c: Config, o: State, s: State, r: nat) returns (s': State)
    requires Reached(c, o, s) && r <= NumPieces(c) == |s.pieces.completed|
    requires s.pieces.endgame == Sweeping(r) && s.pieces.queue == []
    ensures Reached(c, o, s') && s' == s.(pieces := s'.pieces)
    ensures r == NumPieces(c) ==> s'.pieces == s.pieces.(endgame := Ticking)
    ensures r < NumPieces(c) ==>
              s'.pieces == s.pieces.(endgame := Sweeping(r + 1), queue := if s.pieces.completed[r] then [] else [r])
  {
    hide Reached, Typed;
    ReachedTyped(c, o, s);
    s' := Advance(c, o, s, Sweep);
  }

  lemma TakesNew(c: Config, o: State, s: State, i: nat, r: nat) returns (s': State)
    requires Reached(c, o, s) && i < |s.workers| && s.workers[i] == Worker(Idle, None) && s.pieces.queue == [r]
    ensures Reached(c, o, s') && Moved(s, s', i) && s'.swarm == s.swarm && s'.pieces == s.pieces.(queue := [])
    ensures |s'.workers| == |s.workers| && s'.workers[i] == Worker(Checking(r), None)
    ensures forall j :: 0 <= j < |s.workers| && j != i ==> s'.workers[j] == s.workers[j]
  {
    hide Reached;
    s' := TakeHead(c, o, s, i);
  }

  /** A sweep hands the incomplete piece p once more, to worker b + p. */
  lemma Duplicate(c: Config, o: State, s: State, b: nat, p: nat) returns (s': State)
    requires Reached(c, o, s) && Calm(s) && s.pieces.endgame == Ticking && s.pieces.queue == []
    requires p < NumPieces(c) == |s.pieces.completed| && !s.pieces.completed[p]
    requires b + NumPieces(c) <= |s.workers| && Unused(s, b)
    ensures Reached(c, o, s') && Calm(s') && Same(s, s', b, b + NumPieces(c)) && s'.pieces == s.pieces
    ensures s'.workers[b + p].pc.Attempting?
    ensures s'.workers[b + p].pc.p == p && s'.workers[b + p].pc.a == 0
  {
    hide Reached, Typed;
    ReachedTyped(c, o, s);
    var t := Advance(c, o, s, Tick);
    t := SweepOn(c, o, t, b, p, 0);
    s' := Claim(c, o, t, b + p, p);
  }

  // ----- The start -----

  function Range(i: nat, n: nat): (q: seq<nat>)
    requires i <= n
    ensures |q| == n - i
  {
    seq(n - i, j requires 0 <= j < n - i => i + j)
  }

  /** Nothing on disk is trusted, no peer has told what it has, and there are as many workers as wanted. */
  function Fresh(c: Config, workers: nat, connectors: nat): State {
    var n := NumPieces(c);
    var none := seq(n, _ => false);
    State(Pieces(none, none, Zeros(c.t.length), Range(0, n), n, 0, 0, Off),
          Bus(map[], [], map[]), Swarm({}, {}, [], seq(connectors, _ => Resting)), seq(workers, _ => Worker(Idle, None)), false, false, Waiting)
  }

  lemma {:induction false} NoneDone(t: Torrent, completed: seq<bool>)
    requires t.pieceLength > 0 && forall p :: 0 <= p < |completed| ==> !completed[p]
    ensures CountDone(completed) == 0 && BytesDone(t, completed) == 0
  {
    if completed != [] { NoneDone(t, completed[..|completed| - 1]); }
  }

  lemma {:induction false} AllQueued(order: seq<int>, completed: seq<bool>)
    requires forall i :: 0 <= i < |order| ==> 0 <= order[i] < |completed|
    requires forall p :: 0 <= p < |completed| ==> !completed[p]
    ensures Incomplete(order, completed) == order
  {
    if order != [] { AllQueued(order[1..], completed); }
  }

  lemma FreshQueue(c: Config, workers: nat, connectors: nat)
    ensures var d := Fresh(c, workers, connectors).pieces;
            && (forall i :: 0 <= i < |Indices(NumPieces(c))| ==> 0 <= Indices(NumPieces(c))[i] < |d.completed|)
            && d.queue == Incomplete(Indices(NumPieces(c)), d.completed)
            && IsOrderOf(Indices(NumPieces(c)), seq(NumPieces(c), _ => 0))
  {
    AllQueued(Indices(NumPieces(c)), Fresh(c, workers, connectors).pieces.completed);
  }

  lemma FreshDisk(c: Config, workers: nat, connectors: nat)
    requires Sized(c.t)
    ensures var d := Fresh(c, workers, connectors).pieces;
            && d.disk == Resized(d.disk, c.t.length) && d.completed == Rechecked(c, d.disk, None)
            && CountDone(d.completed) == 0 && BytesDone(c.t, d.completed) == 0
  {
    hide Stored, CountDone, BytesDone;
    NoneDone(c.t, Fresh(c, workers, connectors).pieces.completed);
  }

  lemma FreshStarts(c: Config, workers: nat, connectors: nat)
    requires Sized(c.t)
    ensures Init(c, Fresh(c, workers, connectors))
  {
    var s, n := Fresh(c, workers, connectors), NumPieces(c);
    FreshQueue(c, workers, connectors);
    FreshDisk(c, workers, connectors);
    hide CountDone, BytesDone, Incomplete, Inv, Stored, IsOrderOf, Rechecked, Resized, Typed;
    assert StartsFrom(c, s, s.pieces.disk, None, Indices(n), seq(n, _ => 0));
  }

  // ----- Every piece in some worker's hands -----

  /** Worker r is about to fetch piece r. */
  ghost predicate InHand(s: State, r: nat) {
    && r < |s.workers|
    && s.workers[r].pc.Attempting? && s.workers[r].pc.p == r && s.workers[r].pc.a == 0
  }

  lemma {:induction false} TakeAll(c: Config, o: State, s: State, i: nat) returns (s': State)
    requires Reached(c, o, s) && Calm(s) && i <= NumPieces(c) == |s.pieces.completed| && NumPieces(c) <= |s.workers|
    requires s.pieces.queue == Range(i, NumPieces(c)) && forall p :: 0 <= p < NumPieces(c) ==> !s.pieces.completed[p]
    requires (forall r :: 0 <= r < i ==> InHand(s, r)) && Unused(s, i)
    ensures Reached(c, o, s') && Calm(s') && s'.pieces == s.pieces.(queue := []) && |s'.workers| == |s.workers|
    ensures (forall r :: 0 <= r < NumPieces(c) ==> InHand(s', r)) && Unused(s', NumPieces(c))
    decreases NumPieces(c) - i
  {
    hide Reached;
    if i == NumPieces(c) {
      s' := s;
    } else {
      assert s.pieces.queue[0] == i && s.pieces.queue[1..] == Range(i + 1, NumPieces(c));
      var t := TakeHead(c, o, s, i);
      t := Claim(c, o, t, i, i);
      forall r | 0 <= r < i ensures InHand(t, r) {
        assert InHand(s, r);
      }
      s' := TakeAll(c, o, t, i + 1);
    }
  }

  // ----- Everything but piece p completed -----

  /** Of the first i pieces those that can be completed are, except p. */
  ghost predicate DoneBefore(c: Config, d: Pieces, p: nat, i: nat)
    requires c.t.pieceLength > 0
  {
    && |d.completed| == NumPieces(c)
    && forall r | 0 <= r < NumPieces(c) :: d.completed[r] <==> r < i && r != p && Verifiable(c, r)
  }

  ghost predicate Counted(c: Config, d: Pieces) {
    && d.completedCount == CountDone(d.completed)
    && (d.endgame.Off? || d.endgame.Ticking?)
    && (d.completedCount > 0 && NumPieces(c) - d.completedCount <= ENDGAME_THRESHOLD ==> d.endgame == Ticking)
  }

  lemma CountedAfter(c: Config, d: Pieces, d': Pieces, r: nat)
    requires c.t.pieceLength > 0 && r < |d.completed| && !d.completed[r] && Counted(c, d)
    requires d'.completed == d.completed[r := true] && d'.completedCount == d.completedCount + 1
    requires d'.endgame == Started(c, d.endgame, d.completedCount + 1)
    ensures Counted(c, d')
  {
    DoneAfterFlag(c.t, d.completed, r);
  }

  lemma {:induction false} CompleteOthers(c: Config, o: State, s: State, p: nat, i: nat) returns (s': State)
    requires Reached(c, o, s) && Calm(s) && Sized(c.t) && p < NumPieces(c) && i <= NumPieces(c) <= |s.workers|
    requires DoneBefore(c, s.pieces, p, i) && Counted(c, s.pieces) && s.pieces.queue == []
    requires (forall r :: 0 <= r < NumPieces(c) && (r >= i || r == p) ==> InHand(s, r)) && Unused(s, NumPieces(c))
    ensures Reached(c, o, s') && Calm(s') && |s'.workers| == |s.workers| && s'.pieces.queue == []
    ensures DoneBefore(c, s'.pieces, p, NumPieces(c)) && Counted(c, s'.pieces)
    ensures InHand(s', p) && Unused(s', NumPieces(c))
    decreases NumPieces(c) - i
  {
    hide Reached, Verifiable, Counted, CountDone, Started;
    if i == NumPieces(c) {
      s' := s;
    } else if i != p && Verifiable(c, i) {
      assert InHand(s, i);
      var t := Completes(c, o, s, i, i);
      CountedAfter(c, s.pieces, t.pieces, i);
      forall r | 0 <= r < NumPieces(c) && (r >= i + 1 || r == p) ensures InHand(t, r) {
        assert InHand(s, r);
      }
      s' := CompleteOthers(c, o, t, p, i + 1);
    } else {
      s' := CompleteOthers(c, o, s, p, i + 1);
    }
  }

  /** With at least two pieces to complete and few enough others, completing all but p has started the endgame. */
  lemma EndgameOn(c: Config, d: Pieces, p: nat)
    requires Sized(c.t) && p < NumPieces(c) && Verifiable(c, p) && !NoDuplicates(c)
    requires DoneBefore(c, d, p, NumPieces(c)) && Counted(c, d)
    ensures d.endgame == Ticking
  {
    hide Verifiable;
    var goal := Goal(c);
    assert goal[p := false] == d.completed;
    DoneAfterFlag(c.t, d.completed, p);
    assert d.completed[p := true] == goal;
  }

  // ----- Tearing -----

  /** On disk, the bytes of piece p from number x on are those of mix. */
  ghost predicate Overlaid(c: Config, disk: Bytes, p: nat, mix: Bytes, x: nat) {
    forall y: nat :: x <= y < |mix| ==> ByteAt(disk, PieceOffset(c.t, p) + y, mix[y])
  }

  /** Piece p is complete as soon as worker p commits, the endgame is on, and its workers from b on are free. */
  ghost predicate Poised(c: Config, s: State, p: nat, b: nat) {
    && Calm(s) && s.pieces.endgame == Ticking && s.pieces.queue == []
    && p < NumPieces(c) == |s.pieces.completed| && !s.pieces.completed[p]
    && p < b <= |s.workers| && Unused(s, b)
    && s.workers[p].pc.Committing? && s.workers[p].pc.p == p
  }

  lemma OverlaidAfter(c: Config, disk: Bytes, p: nat, mix: Bytes, data: Bytes, x: nat)
    requires PieceOffset(c.t, p) >= 0 && x < |mix| == |data| && data[x] == mix[x]
    requires Overlaid(c, disk, p, mix, x + 1)
    ensures Overlaid(c, Written(disk, PieceOffset(c.t, p), data, x + 1), p, mix, x)
  {
    hide PieceOffset, ByteAt, Written;
    var off := PieceOffset(c.t, p);
    forall y: nat | x <= y < |mix| ensures ByteAt(Written(disk, off, data, x + 1), off + y, mix[y]) {
      assert x + 1 <= y ==> ByteAt(disk, off + y, mix[y]);
      WrittenBytes(disk, off, data, x + 1, off + y, mix[y]);
    }
  }

  /** mix has each of its bytes from data that verifies for piece p. */
  ghost predicate IsMix(c: Config, p: nat, mix: Bytes) {
    && c.t.pieceLength > 0 && p < NumPieces(c) && |mix| == PieceLengthAt(c.t, p)
    && forall y: nat :: y < |mix| ==> Genuine(c, p, y, mix[y])
  }

  /** x rounds of n workers. */
  function Rounds(n: nat, x: nat): nat { if x == 0 then 0 else n + Rounds(n, x - 1) }

  /** Duplicates write their first x bytes, then x - 1, and so on, each with the data that has the last of them right. */
  lemma {:induction false} Overlay(c: Config, o: State, s: State, p: nat, mix: Bytes, x: nat, b: nat) returns (s': State)
    requires Reached(c, o, s) && Sized(c.t) && Poised(c, s, p, b) && |s.workers| - b >= Rounds(NumPieces(c), x)
    requires IsMix(c, p, mix) && x <= |mix| && Overlaid(c, s.pieces.disk, p, mix, x)
    ensures Reached(c, o, s') && Calm(s') && p < |s'.workers| && s'.workers[p] == s.workers[p]
    ensures s'.pieces.completed == s.pieces.completed && Overlaid(c, s'.pieces.disk, p, mix, 0)
    decreases x
  {
    hide Reached, PieceOffset, Written, IsMix, Overlaid, PieceLengthAt, Verified;
    if x == 0 {
      s' := s;
    } else {
      var data := Owner(c, p, mix, x - 1);
      var t := Duplicate(c, o, s, b, p);
      t := GetSession(c, o, t, b + p);
      t := WriteSome(c, o, t, b + p, data, x);
      OverlaidAfter(c, s.pieces.disk, p, mix, data, x - 1);
      s' := Overlay(c, o, t, p, mix, x - 1, b + NumPieces(c));
    }
  }

  lemma Owner(c: Config, p: nat, mix: Bytes, x: nat) returns (data: Bytes)
    requires IsMix(c, p, mix) && x < |mix|
    ensures Verified(c, p, data) && |data| == |mix| && data[x] == mix[x]
  {
    assert Genuine(c, p, x, mix[x]);
    data :| Verified(c, p, data) && x < |data| && data[x] == mix[x];
  }

  lemma StoredMix(c: Config, disk: Bytes, p: nat, mix: Bytes)
    requires IsMix(c, p, mix) && Overlaid(c, disk, p, mix, 0) && Stored(c, disk, p)
    ensures Verified(c, p, mix)
  {
    hide Genuine;
    OffsetNonNegative(c.t, p);
    var from, to := PieceOffset(c.t, p), PieceEnd(c.t, p);
    forall x | 0 <= x < |mix| ensures disk[from..to][x] == mix[x] {
      assert ByteAt(disk, from + x, mix[x]);
    }
    assert disk[from..to] == mix;
  }

  /** Worker p has written all of data and stands before its commit. */
  lemma Prepare(c: Config, o: State, s: State, p: nat) returns (s': State)
    requires Reached(c, o, s) && Calm(s) && Sized(c.t) && p < NumPieces(c) <= |s.workers| && Verifiable(c, p)
    requires InHand(s, p) && Unused(s, NumPieces(c)) && s.pieces.queue == []
    requires |s.pieces.completed| == NumPieces(c) && !s.pieces.completed[p] && s.pieces.endgame == Ticking
    ensures Reached(c, o, s') && |s'.workers| == |s.workers| && Poised(c, s', p, NumPieces(c))
  {
    hide Reached, Written, PieceOffset, Verified;
    var data :| Verified(c, p, data);
    var t := GetSession(c, o, s, p);
    t := WriteSome(c, o, t, p, data, |data|);
    s' := EndWrite(c, o, t, p);
  }

  /** Where duplicates can arise, any mix of genuine bytes that does not verify ends up under a completed piece. */
  lemma TornRun(c: Config, p: nat, mix: Bytes) returns (run: seq<State>)
    requires Sized(c.t) && !NoDuplicates(c) && IsMix(c, p, mix) && p < NumPieces(c) && !Verified(c, p, mix)
    ensures IsRun(c, run)
    ensures var d := run[|run| - 1].pieces; p < |d.completed| && d.completed[p] && !Stored(c, d.disk, p)
  {
    hide IsRun, Typed, Verified, IsMix, NoDuplicates, Verifiable, Overlaid, PieceLengthAt, Stored, Counted, Rounds;
    var n := NumPieces(c);
    MixVerifiable(c, p, mix);
    var o := Fresh(c, n + Rounds(n, |mix|), 1);
    FreshStarts(c, n + Rounds(n, |mix|), 1);
    StartReached(c, o);
    var s := o;
    s := TakeAll(c, o, s, 0);
    NothingCounted(c, s.pieces);
    s := CompleteOthers(c, o, s, p, 0);
    EndgameOn(c, s.pieces, p);
    s := Prepare(c, o, s, p);
    NothingOverlaid(c, s.pieces.disk, p, mix);
    s := Overlay(c, o, s, p, mix, |mix|, n);
    var disk := s.pieces.disk;
    s := Commits(c, o, s, p, p);
    run := PathIsRun(c, o, s);
    if Stored(c, disk, p) { StoredMix(c, disk, p, mix); }
  }

  lemma MixVerifiable(c: Config, p: nat, mix: Bytes)
    requires IsMix(c, p, mix)
    ensures Verifiable(c, p)
  {
    assert Genuine(c, p, 0, mix[0]);
  }

  lemma NothingCounted(c: Config, d: Pieces)
    requires c.t.pieceLength > 0 && (forall r :: 0 <= r < |d.completed| ==> !d.completed[r])
    requires d.completedCount == 0 && d.endgame == Off
    ensures Counted(c, d)
  {
    NoneDone(c.t, d.completed);
  }

  lemma NothingOverlaid(c: Config, disk: Bytes, p: nat, mix: Bytes)
    ensures Overlaid(c, disk, p, mix, |mix|)
  {
  }
}
