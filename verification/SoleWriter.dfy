/** Torrents on which the endgame never duplicates a piece that can be completed: then every piece has at most one
    writer, and its bytes on disk verify whatever the hash. */
module SoleWriter {
  import opened Bytes
  import opened Layout
  import opened RarestFirst
  import opened Engine
  import opened EngineCount
  import opened EngineDisk
  import opened EngineRuns
  import opened Resume

  /** Some data verifies for piece p. */
  ghost predicate Verifiable(c: Config, p: nat)
    requires c.t.pieceLength > 0 && p < NumPieces(c)
  {
    exists data :: Verified(c, p, data)
  }

  ghost function Goal(c: Config): seq<bool>
    requires c.t.pieceLength > 0
  {
    seq(NumPieces(c), p requires 0 <= p < NumPieces(c) => Verifiable(c, p))
  }

  /** How many pieces can be completed at all. */
  ghost function Verifiables(c: Config): nat
    requires c.t.pieceLength > 0
  {
    CountDone(Goal(c))
  }

  /** The endgame starts only once nothing that can be completed is left. */
  ghost predicate NoDuplicates(c: Config)
    requires c.t.pieceLength > 0
  {
    Verifiables(c) < 2 || NumPieces(c) - Verifiables(c) >= ENDGAME_THRESHOLD
  }

  // ----- Counting flags -----

  lemma {:induction false} FlagsCount(a: seq<bool>, b: seq<bool>)
    requires |a| == |b| && forall p :: 0 <= p < |a| && a[p] ==> b[p]
    ensures CountDone(a) <= CountDone(b)
    ensures CountDone(a) == CountDone(b) ==> a == b
  {
    if a != [] {
      var n := |a| - 1;
      FlagsCount(a[..n], b[..n]);
      assert a == a[..n] + [a[n]] && b == b[..n] + [b[n]];
    }
  }

  lemma {:induction false} SomeCount(a: seq<bool>, p: nat)
    requires p < |a| && a[p]
    ensures CountDone(a) >= 1
  {
    var n := |a| - 1;
    if p < n { SomeCount(a[..n], p); }
  }

  // ----- One copy of each piece -----

  function HoldWeight(p: nat): Worker -> int {
    (w: Worker) => if Holds(w, p) then 1 else 0
  }

  /** How often piece p is queued or in a worker's hands. */
  function Copies(s: State, p: nat): int {
    multiset(s.pieces.queue)[p] + Total(s.workers, HoldWeight(p))
  }

  function DoneBit(d: Pieces, p: nat): int {
    if p < |d.completed| && d.completed[p] then 1 else 0
  }

  ghost predicate SingleCopies(c: Config, s: State)
    requires c.t.pieceLength > 0
  {
    forall p | 0 <= p < NumPieces(c) && Verifiable(c, p) :: Copies(s, p) + DoneBit(s.pieces, p) <= 1
  }

  predicate Past(pc: WorkerPC) { BytesDue(pc) || pc.Injecting? }

  predicate ByteAt(disk: Bytes, pos: int, b: byte) { 0 <= pos < |disk| && disk[pos] == b }

  /** The first k bytes of data are on disk. */
  ghost predicate OnDisk(disk: Bytes, off: int, data: Bytes, k: nat) {
    k <= |data| && forall x: nat :: x < k ==> ByteAt(disk, off + x, data[x])
  }

  ghost predicate FlagFacts(d: Pieces, pc: WorkerPC) {
    && (Past(pc) ==> pc.p < |d.completed| && d.completed[pc.p])
    && (pc.Summing? || pc.Injecting? ==> pc.current <= CountDone(d.completed))
  }

  ghost predicate DiskFacts(c: Config, disk: Bytes, pc: WorkerPC)
    requires c.t.pieceLength > 0
  {
    && (pc.Writing? ==>
          pc.p < NumPieces(c) && Verified(c, pc.p, pc.data) && OnDisk(disk, PieceOffset(c.t, pc.p), pc.data, pc.k))
    && (pc.Committing? ==> pc.p < NumPieces(c) && Stored(c, disk, pc.p))
  }

  ghost predicate Finished(c: Config, d: Pieces)
    requires c.t.pieceLength > 0
  {
    |d.completed| == NumPieces(c) && forall p | 0 <= p < NumPieces(c) && Verifiable(c, p) :: d.completed[p]
  }

  ghost predicate AllStored(c: Config, d: Pieces)
    requires c.t.pieceLength > 0
  {
    |d.completed| == NumPieces(c) && forall p | 0 <= p < NumPieces(c) && d.completed[p] :: Stored(c, d.disk, p)
  }

  ghost predicate Sole(c: Config, s: State)
    requires c.t.pieceLength > 0
  {
    && SingleCopies(c, s)
    && (s.pieces.endgame.Off? || Finished(c, s.pieces))
    && (forall i :: 0 <= i < |s.workers| ==> FlagFacts(s.pieces, s.workers[i].pc))
    && (forall i :: 0 <= i < |s.workers| ==> DiskFacts(c, s.pieces.disk, s.workers[i].pc))
    && AllStored(c, s.pieces)
  }

  // ----- Copies never grow -----

  lemma HeadCount(q: seq<nat>, p: nat)
    requires q != []
    ensures multiset(q)[p] == multiset(q[1..])[p] + if q[0] == p then 1 else 0
  {
    assert q == [q[0]] + q[1..];
  }

  /** A worker gets hold of a piece only by taking it off the queue. */
  lemma HoldsAfter(c: Config, s: State, w: Worker, act: WorkerStep, p: nat)
    requires Typed(c, s) && WorkerTyped(c, s.bus, w) && WorkerEnabled(c, s, w, act) && p < NumPieces(c)
    ensures var w' := Worker(PcAfter(c, s, w, act), SessionAfter(s.swarm, w, act));
            && (act.Take? ==> s.pieces.queue != [] && !Holds(w, p) && Holds(w', p) == (s.pieces.queue[0] == p))
            && (act.Requeue? ==> Holds(w, p) == (w.pc.p == p) && !Holds(w', p))
            && (act.Commit? ==> Holds(w, p) == (w.pc.p == p) && !Holds(w', p))
            && (!act.Take? && Holds(w', p) ==> Holds(w, p))
  {
    hide SessionAfter, Subscribers;
  }

  lemma QueueAfter(c: Config, s: State, w: Worker, act: WorkerStep, p: nat)
    requires Typed(c, s) && WorkerTyped(c, s.bus, w) && WorkerEnabled(c, s, w, act) && p < NumPieces(c)
    ensures var d, d' := s.pieces, PiecesAfter(c, s.pieces, w.pc, act);
            && (act.Take? ==> d.queue != [] && d'.queue == d.queue[1..] && d'.completed == d.completed)
            && (act.Requeue? ==> d'.queue == d.queue + [w.pc.p] && d'.completed == d.completed)
            && (act.Commit? ==> d'.queue == d.queue && (p == w.pc.p || DoneBit(d', p) == DoneBit(d, p)))
            && (!act.Take? && !act.Requeue? && !act.Commit? ==> d'.queue == d.queue && d'.completed == d.completed)
  {
    hide Poke;
  }

  lemma WorkerCopies(c: Config, s: State, w: Worker, act: WorkerStep, p: nat)
    requires Typed(c, s) && WorkerTyped(c, s.bus, w) && WorkerEnabled(c, s, w, act) && p < NumPieces(c)
    ensures var d, d', w' := s.pieces, PiecesAfter(c, s.pieces, w.pc, act), WorkerAfter(c, s, w, act);
            multiset(d'.queue)[p] + HoldWeight(p)(w') + DoneBit(d', p)
            <= multiset(d.queue)[p] + HoldWeight(p)(w) + DoneBit(d, p)
  {
    hide Typed, WorkerTyped, WorkerEnabled, PcAfter, SessionAfter, PiecesAfter, Holds;
    HoldsAfter(c, s, w, act, p);
    QueueAfter(c, s, w, act, p);
    if act.Take? { HeadCount(s.pieces.queue, p); }
  }

  lemma WorkCopies(c: Config, s: State, i: nat, act: WorkerStep)
    requires Typed(c, s) && Enabled(c, s, Work(i, act)) && SingleCopies(c, s)
    ensures SingleCopies(c, Apply(c, s, Work(i, act)))
  {
    hide WorkerTyped, WorkerEnabled, WorkerAfter, PiecesAfter, BusAfter, SwarmAfter, HoldWeight, DoneBit, Verifiable;
    var s' := Apply(c, s, Work(i, act));
    forall p | 0 <= p < NumPieces(c) && Verifiable(c, p) ensures Copies(s', p) + DoneBit(s'.pieces, p) <= 1 {
      assert Copies(s, p) + DoneBit(s.pieces, p) <= 1;
      WorkerCopies(c, s, s.workers[i], act, p);
      TotalUpdated(s.workers, i, s'.workers[i], HoldWeight(p));
    }
  }

  lemma OtherCopies(c: Config, s: State, step: Step)
    requires Typed(c, s) && Enabled(c, s, step) && !step.Work? && SingleCopies(c, s)
    requires s.pieces.endgame.Off? || Finished(c, s.pieces)
    ensures var s' := Apply(c, s, step);
            && SingleCopies(c, s') && (s'.pieces.endgame.Off? || Finished(c, s'.pieces))
            && s'.workers == s.workers && s'.pieces.disk == s.pieces.disk && s'.pieces.completed == s.pieces.completed
  {
    hide WorkerTyped, WorkerEnabled, WorkerAfter, PiecesAfter, BusAfter, SwarmAfter, HoldWeight, Verifiable;
    var s' := Apply(c, s, step);
    forall p | 0 <= p < NumPieces(c) && Verifiable(c, p) ensures Copies(s', p) + DoneBit(s'.pieces, p) <= 1 {
      assert Copies(s, p) + DoneBit(s.pieces, p) <= 1;
    }
  }

  // ----- The flags and the endgame -----

  lemma WorkerFlags(c: Config, s: State, w: Worker, act: WorkerStep)
    requires Typed(c, s) && WorkerTyped(c, s.bus, w) && WorkerEnabled(c, s, w, act) && FlagFacts(s.pieces, w.pc)
    requires act.Count? ==> s.pieces.completedCount + 1 <= CountDone(s.pieces.completed)
    ensures var d' := PiecesAfter(c, s.pieces, w.pc, act);
            && |d'.completed| == |s.pieces.completed|
            && (forall p :: 0 <= p < |d'.completed| && s.pieces.completed[p] ==> d'.completed[p])
            && FlagFacts(d', PcAfter(c, s, w, act))
  {
    hide SessionAfter, CountDone;
  }

  lemma FlagsFramed(d: Pieces, d': Pieces, pc: WorkerPC)
    requires FlagFacts(d, pc) && |d'.completed| == |d.completed|
    requires forall p :: 0 <= p < |d.completed| && d.completed[p] ==> d'.completed[p]
    ensures FlagFacts(d', pc)
  {
    FlagsCount(d.completed, d'.completed);
  }

  lemma CountCovered(c: Config, s: State, i: nat)
    requires c.t.pieceLength > 0 && Conserved(c, s) && i < |s.workers| && s.workers[i].pc.Counting?
    ensures s.pieces.completedCount + 1 <= CountDone(s.pieces.completed)
  {
    TotalAtLeast(s.workers, CountWeight(), i);
  }

  lemma CompletedVerifiable(c: Config, s: State, p: nat)
    requires c.t.pieceLength > 0 && DiskSound(c, s) && p < NumPieces(c) && s.pieces.completed[p]
    ensures Verifiable(c, p)
  {
    assert ByteGenuine(c, s.pieces.disk, p, 0);
  }

  /** The worker that starts the endgame sees that nothing completable is missing. */
  lemma EndgameIsLate(c: Config, s: State, pc: WorkerPC)
    requires Sized(c.t) && NoDuplicates(c) && DiskSound(c, s) && FlagFacts(s.pieces, pc) && pc.Injecting?
    requires NumPieces(c) - pc.current <= ENDGAME_THRESHOLD
    ensures Finished(c, s.pieces)
  {
    hide CountDone, Verifiable, PrefixGenuine, Verified, Stored;
    var a, b := s.pieces.completed, Goal(c);
    forall p | 0 <= p < |a| && a[p] ensures b[p] {
      CompletedVerifiable(c, s, p);
    }
    FlagsCount(a, b);
    SomeCount(a, pc.p);
    assert a == b;
  }

  lemma EndgameAfter(c: Config, s: State, i: nat, act: WorkerStep)
    requires Typed(c, s) && Enabled(c, s, Work(i, act)) && Sole(c, s) && NoDuplicates(c) && DiskSound(c, s)
    ensures var d' := Apply(c, s, Work(i, act)).pieces; d'.endgame.Off? || Finished(c, d')
  {
    hide SingleCopies, DiskFacts, AllStored, SessionAfter, SwarmAfter, BusAfter, Verifiable, NoDuplicates, DiskSound;
    var w := s.workers[i];
    assert FlagFacts(s.pieces, w.pc);
    if act.Inject? && NumPieces(c) - w.pc.current <= ENDGAME_THRESHOLD {
      EndgameIsLate(c, s, w.pc);
    }
  }

  // ----- The bytes on disk -----

  lemma {:induction false} TwoHolders(ws: seq<Worker>, i: nat, j: nat, p: nat)
    requires i < j < |ws| && Holds(ws[i], p) && Holds(ws[j], p)
    ensures Total(ws, HoldWeight(p)) >= 2
  {
    if i == 0 {
      TotalAtLeast(ws[1..], HoldWeight(p), j - 1);
    } else {
      TwoHolders(ws[1..], i - 1, j - 1, p);
    }
  }

  /** Whoever holds a piece that can be completed is alone with it, and it is not complete. */
  lemma HolderIsAlone(c: Config, s: State, i: nat, p: nat)
    requires c.t.pieceLength > 0 && SingleCopies(c, s) && |s.pieces.completed| == NumPieces(c)
    requires i < |s.workers| && p < NumPieces(c) && Verifiable(c, p) && Holds(s.workers[i], p)
    ensures !s.pieces.completed[p]
    ensures forall j :: 0 <= j < |s.workers| && j != i ==> !Holds(s.workers[j], p)
  {
    hide Verifiable, Holds;
    assert Copies(s, p) + DoneBit(s.pieces, p) <= 1;
    TotalAtLeast(s.workers, HoldWeight(p), i);
    forall j | 0 <= j < |s.workers| && j != i ensures !Holds(s.workers[j], p) {
      if Holds(s.workers[j], p) {
        if i < j { TwoHolders(s.workers, i, j, p); } else { TwoHolders(s.workers, j, i, p); }
      }
    }
  }

  lemma PokeApart(c: Config, disk: Bytes, p: nat, k: nat, b: byte, r: nat, x: nat, v: byte)
    requires c.t.pieceLength > 0 && p < NumPieces(c) && r < NumPieces(c) && p != r
    requires k < PieceLengthAt(c.t, p) && x < PieceLengthAt(c.t, r) && 0 <= PieceOffset(c.t, p)
    requires ByteAt(disk, PieceOffset(c.t, r) + x, v)
    ensures ByteAt(Poke(disk, PieceOffset(c.t, p) + k, b), PieceOffset(c.t, r) + x, v)
  {
    if PieceOffset(c.t, p) + k == PieceOffset(c.t, r) + x {
      PiecesDisjoint(c.t, p, r, PieceOffset(c.t, p) + k);
    }
  }

  lemma PokeKeepsOnDisk(c: Config, disk: Bytes, p: nat, k: nat, b: byte, r: nat, data: Bytes, n: nat)
    requires c.t.pieceLength > 0 && p < NumPieces(c) && r < NumPieces(c) && p != r
    requires k < PieceLengthAt(c.t, p) && n <= PieceLengthAt(c.t, r) && 0 <= PieceOffset(c.t, p)
    requires OnDisk(disk, PieceOffset(c.t, r), data, n)
    ensures OnDisk(Poke(disk, PieceOffset(c.t, p) + k, b), PieceOffset(c.t, r), data, n)
  {
    hide ByteAt, PieceOffset, PieceLengthAt;
    forall x: nat | x < n ensures ByteAt(Poke(disk, PieceOffset(c.t, p) + k, b), PieceOffset(c.t, r) + x, data[x]) {
      PokeApart(c, disk, p, k, b, r, x, data[x]);
    }
  }

  lemma WholeIsStored(c: Config, disk: Bytes, p: nat, data: Bytes)
    requires c.t.pieceLength > 0 && p < NumPieces(c) && Verified(c, p, data)
    requires OnDisk(disk, PieceOffset(c.t, p), data, |data|)
    ensures Stored(c, disk, p)
  {
    OffsetNonNegative(c.t, p);
    var from := PieceOffset(c.t, p);
    assert ByteAt(disk, from + (|data| - 1), data[|data| - 1]);
    forall x | 0 <= x < |data| ensures disk[from..from + |data|][x] == data[x] {
      assert ByteAt(disk, from + x, data[x]);
    }
    assert disk[from..from + |data|] == data;
  }

  lemma StoredIsOnDisk(c: Config, disk: Bytes, p: nat) returns (data: Bytes)
    requires c.t.pieceLength > 0 && p < NumPieces(c) && Stored(c, disk, p)
    ensures Verified(c, p, data) && OnDisk(disk, PieceOffset(c.t, p), data, |data|)
  {
    OffsetNonNegative(c.t, p);
    data := disk[PieceOffset(c.t, p)..PieceEnd(c.t, p)];
  }

  lemma PokeKeepsStored(c: Config, disk: Bytes, p: nat, k: nat, b: byte, r: nat)
    requires c.t.pieceLength > 0 && p < NumPieces(c) && r < NumPieces(c) && p != r && k < PieceLengthAt(c.t, p)
    requires 0 <= PieceOffset(c.t, p) && Stored(c, disk, r)
    ensures Stored(c, Poke(disk, PieceOffset(c.t, p) + k, b), r)
  {
    var data := StoredIsOnDisk(c, disk, r);
    PokeKeepsOnDisk(c, disk, p, k, b, r, data, |data|);
    WholeIsStored(c, Poke(disk, PieceOffset(c.t, p) + k, b), r, data);
  }

  lemma PokeKeepsWorker(c: Config, disk: Bytes, p: nat, k: nat, b: byte, w: Worker)
    requires c.t.pieceLength > 0 && p < NumPieces(c) && k < PieceLengthAt(c.t, p) && 0 <= PieceOffset(c.t, p)
    requires DiskFacts(c, disk, w.pc) && !Holds(w, p)
    ensures DiskFacts(c, Poke(disk, PieceOffset(c.t, p) + k, b), w.pc)
  {
    hide OnDisk, Stored, PieceOffset;
    if w.pc.Committing? {
      PokeKeepsStored(c, disk, p, k, b, w.pc.p);
    } else if w.pc.Writing? {
      OnDiskBound(disk, PieceOffset(c.t, w.pc.p), w.pc.data, w.pc.k);
      PokeKeepsOnDisk(c, disk, p, k, b, w.pc.p, w.pc.data, w.pc.k);
    }
  }

  lemma OnDiskBound(disk: Bytes, off: int, data: Bytes, k: nat)
    requires OnDisk(disk, off, data, k)
    ensures k <= |data|
  {
  }

  lemma PokeExtends(disk: Bytes, off: nat, data: Bytes, k: nat)
    requires OnDisk(disk, off, data, k) && k < |data|
    ensures OnDisk(Poke(disk, off + k, data[k]), off, data, k + 1)
  {
    forall x: nat | x < k + 1 ensures ByteAt(Poke(disk, off + k, data[k]), off + x, data[x]) {
      assert x < k ==> ByteAt(disk, off + x, data[x]);
    }
  }

  lemma WriteByteDisk(c: Config, s: State, i: nat)
    requires Typed(c, s) && Enabled(c, s, Work(i, WriteByte)) && Sole(c, s)
    ensures var s' := Apply(c, s, Work(i, WriteByte));
            && (forall j :: 0 <= j < |s'.workers| ==> DiskFacts(c, s'.pieces.disk, s'.workers[j].pc))
            && AllStored(c, s'.pieces)
  {
    hide SingleCopies, Finished, FlagFacts, WorkerTyped, Verified, Stored, PieceOffset, PieceLengthAt, OnDisk, BusAfter,
      SwarmAfter, SessionAfter, Verifiable;
    var s', w := Apply(c, s, Work(i, WriteByte)), s.workers[i];
    assert DiskFacts(c, s.pieces.disk, w.pc);
    var p, data, k := w.pc.p, w.pc.data, w.pc.k;
    LengthOf(c, p, data);
    OffsetNonNegative(c.t, p);
    HolderIsAlone(c, s, i, p);
    PokeExtends(s.pieces.disk, PieceOffset(c.t, p), data, k);
    forall r | 0 <= r < NumPieces(c) && s'.pieces.completed[r] ensures Stored(c, s'.pieces.disk, r) {
      PokeKeepsStored(c, s.pieces.disk, p, k, data[k], r);
    }
    forall j | 0 <= j < |s'.workers| ensures DiskFacts(c, s'.pieces.disk, s'.workers[j].pc) {
      if j != i { PokeKeepsWorker(c, s.pieces.disk, p, k, data[k], s.workers[j]); }
    }
  }

  lemma LengthOf(c: Config, p: nat, data: Bytes)
    requires c.t.pieceLength > 0 && p < NumPieces(c) && Verified(c, p, data)
    ensures |data| == PieceLengthAt(c.t, p) && Verifiable(c, p)
  {
  }

  lemma OtherWorkDisk(c: Config, s: State, w: Worker, act: WorkerStep)
    requires Typed(c, s) && WorkerTyped(c, s.bus, w) && WorkerEnabled(c, s, w, act) && !act.WriteByte?
    requires DiskFacts(c, s.pieces.disk, w.pc) && AllStored(c, s.pieces)
    ensures var d' := PiecesAfter(c, s.pieces, w.pc, act);
            d'.disk == s.pieces.disk && DiskFacts(c, d'.disk, PcAfter(c, s, w, act)) && AllStored(c, d')
  {
    hide SessionAfter, Verified, Stored, PieceOffset;
    if act.WriteEnd? { WholeIsStored(c, s.pieces.disk, w.pc.p, w.pc.data); }
  }

  lemma WorkDisk(c: Config, s: State, i: nat, act: WorkerStep)
    requires Typed(c, s) && Enabled(c, s, Work(i, act)) && Sole(c, s)
    ensures var s' := Apply(c, s, Work(i, act));
            && (forall j :: 0 <= j < |s'.workers| ==> DiskFacts(c, s'.pieces.disk, s'.workers[j].pc))
            && AllStored(c, s'.pieces)
  {
    hide SingleCopies, Finished, FlagFacts, WorkerTyped, WorkerEnabled, DiskFacts, AllStored, PiecesAfter, PcAfter, BusAfter,
      SwarmAfter, SessionAfter;
    if act.WriteByte? {
      WriteByteDisk(c, s, i);
    } else {
      OtherWorkDisk(c, s, s.workers[i], act);
    }
  }

  lemma WorkFlags(c: Config, s: State, i: nat, act: WorkerStep)
    requires Typed(c, s) && Enabled(c, s, Work(i, act)) && Sole(c, s) && Conserved(c, s)
    ensures var s' := Apply(c, s, Work(i, act));
            forall j :: 0 <= j < |s'.workers| ==> FlagFacts(s'.pieces, s'.workers[j].pc)
  {
    hide SingleCopies, Finished, FlagFacts, WorkerTyped, DiskFacts, AllStored, PiecesAfter, PcAfter, BusAfter, SwarmAfter,
      SessionAfter, Conserved;
    var s' := Apply(c, s, Work(i, act));
    if act.Count? { CountCovered(c, s, i); }
    WorkerFlags(c, s, s.workers[i], act);
    forall j | 0 <= j < |s'.workers| ensures FlagFacts(s'.pieces, s'.workers[j].pc) {
      if j != i { FlagsFramed(s.pieces, s'.pieces, s.workers[j].pc); }
    }
  }

  lemma SoleStep(c: Config, s: State, step: Step)
    requires c.t.pieceLength > 0 && Typed(c, s) && Conserved(c, s) && DiskSound(c, s)
    requires Enabled(c, s, step) && Sole(c, s) && NoDuplicates(c)
    ensures Sole(c, Apply(c, s, step))
  {
    hide SingleCopies, Finished, FlagFacts, WorkerTyped, DiskFacts, AllStored, NoDuplicates, Enabled, Apply,
      Conserved, DiskSound, Typed;
    if step.Work? {
      WorkCopies(c, s, step.i, step.act);
      EndgameAfter(c, s, step.i, step.act);
      WorkFlags(c, s, step.i, step.act);
      WorkDisk(c, s, step.i, step.act);
    } else {
      OtherCopies(c, s, step);
      SameFlags(c, s, Apply(c, s, step));
    }
  }

  lemma SameFlags(c: Config, s: State, s': State)
    requires c.t.pieceLength > 0 && s'.workers == s.workers
    requires s'.pieces.disk == s.pieces.disk && s'.pieces.completed == s.pieces.completed
    ensures AllStored(c, s.pieces) ==> AllStored(c, s'.pieces)
    ensures (forall i :: 0 <= i < |s.workers| ==> FlagFacts(s.pieces, s.workers[i].pc)) ==>
              forall i :: 0 <= i < |s'.workers| ==> FlagFacts(s'.pieces, s'.workers[i].pc)
  {
  }

  // ----- Runs -----

  lemma {:induction false} IncompleteCount(order: seq<int>, completed: seq<bool>, p: nat)
    requires forall i :: 0 <= i < |order| ==> 0 <= order[i] < |completed|
    requires p < |completed|
    ensures multiset(Incomplete(order, completed))[p] == if completed[p] then 0 else multiset(order)[p]
  {
    if order != [] {
      IncompleteCount(order[1..], completed, p);
      assert order == [order[0]] + order[1..];
    }
  }

  lemma StartCopies(c: Config, s: State, order: seq<int>, p: nat)
    requires p < NumPieces(c) == |s.pieces.completed|
    requires multiset(order) == multiset(Indices(NumPieces(c)))
    requires forall i :: 0 <= i < |order| ==> 0 <= order[i] < NumPieces(c)
    requires s.pieces.queue == Incomplete(order, s.pieces.completed)
    requires forall i :: 0 <= i < |s.workers| ==> s.workers[i] == Worker(Idle, None)
    ensures Copies(s, p) + DoneBit(s.pieces, p) <= 1
  {
    IncompleteCount(order, s.pieces.completed, p);
    IndicesOnce(NumPieces(c), p);
    IdleHoldsNothing(s.workers, p);
  }

  lemma SoleAtStart(c: Config, s: State)
    requires Init(c, s)
    ensures Sole(c, s)
  {
    var disk, claimed, order, availability :| StartsFrom(c, s, disk, claimed, order, availability);
    hide Init, Verifiable, Before, Resized, CountDone, BytesDone, Stored, Holds, Copies, Incomplete, Indices;
    forall p | 0 <= p < NumPieces(c) && Verifiable(c, p) ensures Copies(s, p) + DoneBit(s.pieces, p) <= 1 {
      StartCopies(c, s, order, p);
    }
    assert AllStored(c, s.pieces);
  }

  lemma IdleHoldsNothing(ws: seq<Worker>, p: nat)
    requires forall i :: 0 <= i < |ws| ==> ws[i] == Worker(Idle, None)
    ensures Total(ws, HoldWeight(p)) == 0
  {
    TotalZero(ws, HoldWeight(p));
  }

  lemma InvParts(c: Config, s: State)
    requires Inv(c, s)
    ensures Typed(c, s) && Conserved(c, s) && DiskSound(c, s)
  {
  }

  /** Every state of every run has one writer at most for each piece, and verifying completed pieces. */
  lemma {:induction false} SoleInRuns(c: Config, run: seq<State>, i: nat)
    requires IsRun(c, run) && i < |run| && c.t.pieceLength > 0 && NoDuplicates(c)
    ensures Sole(c, run[i])
  {
    hide Init, Inv, Sole, NoDuplicates, Typed, Enabled, Apply, Conserved, DiskSound;
    if i == 0 {
      SoleAtStart(c, run[0]);
    } else {
      SoleInRuns(c, run, i - 1);
      RunInv(c, run, i - 1);
      InvParts(c, run[i - 1]);
      assert Next(c, run[i - 1], run[i]);
      var step :| Enabled(c, run[i - 1], step) && run[i] == Apply(c, run[i - 1], step);
      SoleStep(c, run[i - 1], step);
    }
  }
}
