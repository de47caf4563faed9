/** Disk integrity: a completed piece's bytes on disk verify, in spite of duplicate and torn writes. */
module EngineDisk {
  import opened Bytes
  import opened Layout
  import opened Engine
  import opened Resume

  /** Byte x of piece p may be b: some data that verifies for p has it. */
  ghost predicate Genuine(c: Config, p: nat, x: nat, b: byte)
    requires c.t.pieceLength > 0 && p < NumPieces(c)
  {
    exists data :: Verified(c, p, data) && x < |data| && data[x] == b
  }

  /** Byte x of piece p is on disk and genuine. */
  ghost predicate ByteGenuine(c: Config, disk: Bytes, p: nat, x: nat)
    requires c.t.pieceLength > 0 && p < NumPieces(c)
  {
    var pos := PieceOffset(c.t, p) + x;
    0 <= pos < |disk| && Genuine(c, p, x, disk[pos])
  }

  ghost predicate PrefixGenuine(c: Config, disk: Bytes, p: nat, n: nat)
    requires c.t.pieceLength > 0 && p < NumPieces(c)
  {
    forall x: nat :: x < n ==> ByteGenuine(c, disk, p, x)
  }

  ghost predicate WorkerOnDisk(c: Config, disk: Bytes, pc: WorkerPC)
    requires c.t.pieceLength > 0
  {
    && (pc.Writing? ==>
          pc.p < NumPieces(c) && Verified(c, pc.p, pc.data) && pc.k <= |pc.data| && PrefixGenuine(c, disk, pc.p, pc.k))
    && (pc.Committing? ==> pc.p < NumPieces(c) && PrefixGenuine(c, disk, pc.p, PieceLengthAt(c.t, pc.p)))
  }

  ghost predicate DiskSound(c: Config, s: State)
    requires c.t.pieceLength > 0
  {
    && |s.pieces.completed| == |s.pieces.saved| == NumPieces(c)
    && (forall p :: 0 <= p < NumPieces(c) && s.pieces.completed[p] ==>
          PrefixGenuine(c, s.pieces.disk, p, PieceLengthAt(c.t, p)))
    && (forall p :: 0 <= p < NumPieces(c) && s.pieces.saved[p] ==> s.pieces.completed[p])
    && (forall i :: 0 <= i < |s.workers| ==> WorkerOnDisk(c, s.pieces.disk, s.workers[i].pc))
  }

  /** Writing one genuine byte of piece p leaves every genuine byte genuine: other pieces do not contain the
      position, and the byte itself is genuine. */
  lemma PokeKeepsByte(c: Config, disk: Bytes, p: nat, data: Bytes, k: nat, q: nat, x: nat)
    requires c.t.pieceLength > 0 && p < NumPieces(c) && q < NumPieces(c)
    requires Verified(c, p, data) && k < |data| && x < PieceLengthAt(c.t, q) && PieceOffset(c.t, p) >= 0
    requires ByteGenuine(c, disk, q, x) || (q == p && x == k)
    ensures ByteGenuine(c, Poke(disk, PieceOffset(c.t, p) + k, data[k]), q, x)
  {
    var pos := PieceOffset(c.t, p) + k;
    if PieceOffset(c.t, q) + x == pos {
      assert InPiece(c.t, p, pos) && InPiece(c.t, q, pos);
      PiecesDisjoint(c.t, p, q, pos);
      assert Genuine(c, p, k, data[k]);
    }
  }

  lemma PokeKeeps(c: Config, disk: Bytes, p: nat, data: Bytes, k: nat, q: nat, n: nat)
    requires c.t.pieceLength > 0 && p < NumPieces(c) && q < NumPieces(c)
    requires Verified(c, p, data) && k < |data| && n <= PieceLengthAt(c.t, q) && PieceOffset(c.t, p) >= 0
    requires forall x: nat :: x < n ==> ByteGenuine(c, disk, q, x) || (q == p && x == k)
    ensures PrefixGenuine(c, Poke(disk, PieceOffset(c.t, p) + k, data[k]), q, n)
  {
    hide Verified, PieceOffset, ByteGenuine;
    var after := Poke(disk, PieceOffset(c.t, p) + k, data[k]);
    forall x: nat | x < n ensures ByteGenuine(c, after, q, x) {
      PokeKeepsByte(c, disk, p, data, k, q, x);
    }
  }

  lemma WorkerOnDiskFramed(c: Config, disk: Bytes, p: nat, data: Bytes, k: nat, pc: WorkerPC)
    requires c.t.pieceLength > 0 && p < NumPieces(c) && Verified(c, p, data) && k < |data| && PieceOffset(c.t, p) >= 0
    requires WorkerOnDisk(c, disk, pc)
    ensures WorkerOnDisk(c, Poke(disk, PieceOffset(c.t, p) + k, data[k]), pc)
  {
    if pc.Writing? {
      PokeKeeps(c, disk, p, data, k, pc.p, pc.k);
    } else if pc.Committing? {
      PokeKeeps(c, disk, p, data, k, pc.p, PieceLengthAt(c.t, pc.p));
    }
  }

  lemma WriteByteSound(c: Config, s: State, i: nat)
    requires Typed(c, s) && Enabled(c, s, Work(i, WriteByte)) && DiskSound(c, s)
    ensures DiskSound(c, Apply(c, s, Work(i, WriteByte)))
  {
    var s' := Apply(c, s, Work(i, WriteByte));
    var pc, disk := s.workers[i].pc, s.pieces.disk;
    assert WorkerOnDisk(c, disk, pc);
    NextOffset(c.t, pc.p);
    PokeKeeps(c, disk, pc.p, pc.data, pc.k, pc.p, pc.k + 1);
    hide ByteGenuine, Verified, PieceOffset, WorkerTyped;
    forall p | 0 <= p < NumPieces(c) && s.pieces.completed[p]
      ensures PrefixGenuine(c, s'.pieces.disk, p, PieceLengthAt(c.t, p))
    {
      PokeKeeps(c, disk, pc.p, pc.data, pc.k, p, PieceLengthAt(c.t, p));
    }
    forall j | 0 <= j < |s'.workers| ensures WorkerOnDisk(c, s'.pieces.disk, s'.workers[j].pc) {
      if j != i { WorkerOnDiskFramed(c, disk, pc.p, pc.data, pc.k, s.workers[j].pc); }
    }
  }

  /** Every other step leaves the file alone; a flag is set only after the whole piece has been written. */
  lemma OtherStepFacts(c: Config, s: State, w: Worker, act: WorkerStep)
    requires Typed(c, s) && WorkerTyped(c, s.bus, w) && WorkerEnabled(c, s, w, act) && !act.WriteByte?
    requires WorkerOnDisk(c, s.pieces.disk, w.pc)
    ensures var d, d' := s.pieces, PiecesAfter(c, s.pieces, w.pc, act);
            && d'.disk == d.disk && d'.saved == d.saved && |d'.completed| == |d.completed|
            && WorkerOnDisk(c, d'.disk, PcAfter(c, s, w, act))
            && forall p :: 0 <= p < |d.completed| && d'.completed[p] != d.completed[p] ==>
                 d'.completed[p] && PrefixGenuine(c, d.disk, p, PieceLengthAt(c.t, p))
  {
    hide SessionAfter;
  }

  lemma DiskSoundStep(c: Config, s: State, step: Step)
    requires Typed(c, s) && Enabled(c, s, step) && DiskSound(c, s)
    ensures DiskSound(c, Apply(c, s, step))
  {
    if step.Work? && step.act.WriteByte? {
      WriteByteSound(c, s, step.i);
    } else if step.Work? {
      hide WorkerTyped, PiecesAfter, BusAfter, SwarmAfter, PcAfter, SessionAfter, WorkerEnabled, PrefixGenuine, WorkerOnDisk;
      OtherStepFacts(c, s, s.workers[step.i], step.act);
    } else {
      hide WorkerTyped, PiecesAfter, BusAfter, SwarmAfter, WorkerAfter, WorkerEnabled, PrefixGenuine, WorkerOnDisk;
    }
  }

  // ----- From genuine bytes to verified pieces -----

  ghost predicate CollisionFree(c: Config)
    requires c.t.pieceLength > 0
  {
    forall p, a, b | 0 <= p < NumPieces(c) && Verified(c, p, a) && Verified(c, p, b) :: a == b
  }

  /** What torn duplicate writes need of the hash: mixing genuine bytes gives data that verifies. */
  ghost predicate TearSafe(c: Config)
    requires c.t.pieceLength > 0
  {
    forall p, data | 0 <= p < NumPieces(c) && |data| == PieceLengthAt(c.t, p)
                     && (forall x :: 0 <= x < |data| ==> Genuine(c, p, x, data[x])) :: Verified(c, p, data)
  }

  lemma CollisionFreeIsTearSafe(c: Config)
    requires c.t.pieceLength > 0 && CollisionFree(c)
    ensures TearSafe(c)
  {
    forall p, data | 0 <= p < NumPieces(c) && |data| == PieceLengthAt(c.t, p)
                     && (forall x :: 0 <= x < |data| ==> Genuine(c, p, x, data[x])) ensures Verified(c, p, data)
    {
      var d0 :| Verified(c, p, d0) && 0 < |d0| && d0[0] == data[0];
      forall x | 0 <= x < |data| ensures data[x] == d0[x] {
        var d :| Verified(c, p, d) && x < |d| && d[x] == data[x];
        assert d == d0;
      }
      assert data == d0;
    }
  }

  /** The flags tell the truth about the disk. */
  lemma CompletedIsStored(c: Config, s: State, p: nat)
    requires c.t.pieceLength > 0 && DiskSound(c, s) && TearSafe(c)
    requires p < NumPieces(c) && s.pieces.completed[p]
    ensures Stored(c, s.pieces.disk, p)
  {
    OffsetNonNegative(c.t, p);
    var from, to := PieceOffset(c.t, p), PieceEnd(c.t, p);
    var disk := s.pieces.disk;
    assert ByteGenuine(c, disk, p, to - from - 1);
    var data := disk[from..to];
    forall x | 0 <= x < |data| ensures Genuine(c, p, x, data[x]) {
      assert ByteGenuine(c, disk, p, x);
    }
  }
}
