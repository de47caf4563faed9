/** What happens before the workers start: the output file is sized, claimed pieces are re-verified from
    disk, and the counters are primed. */
module Resume {
  import opened Bytes
  import opened Layout
  import opened Engine
  import opened EngineCount

  function Resized(disk: Bytes, n: nat): (d: Bytes)
    ensures |d| == n
  {
    if |disk| >= n then disk[..n] else disk + seq(n - |disk|, _ => 0)
  }

  /** Piece p's range is on disk and hashes to its entry; a range past the end of the file cannot be read. */
  predicate Stored(c: Config, disk: Bytes, p: nat)
    requires c.t.pieceLength > 0 && p < NumPieces(c)
  {
    OffsetNonNegative(c.t, p);
    PieceEnd(c.t, p) <= |disk| && Verified(c, p, disk[PieceOffset(c.t, p)..PieceEnd(c.t, p)])
  }

  lemma OffsetNonNegative(t: Torrent, p: nat)
    requires t.pieceLength > 0
    ensures 0 <= PieceOffset(t, p) < PieceEnd(t, p)
  {
    NextOffset(t, p);
  }

  /** The flags the resume file claims; one of the wrong length claims nothing. */
  function Claims(c: Config, claimed: Option<seq<bool>>, p: nat): bool
    requires p < NumPieces(c)
  {
    claimed.Some? && |claimed.value| == NumPieces(c) && claimed.value[p]
  }

  function Rechecked(c: Config, disk: Bytes, claimed: Option<seq<bool>>): (r: seq<bool>)
    requires c.t.pieceLength > 0
    ensures |r| == NumPieces(c)
    ensures forall p :: 0 <= p < |r| ==> r[p] == (Claims(c, claimed, p) && Stored(c, disk, p))
  {
    seq(NumPieces(c), p requires 0 <= p < NumPieces(c) => Claims(c, claimed, p) && Stored(c, disk, p))
  }

  /** The output file and the resume file. */
  class Output {
    var disk: Bytes
    var saved: seq<bool>

    /** prepareOutputAndState; claimed is what the resume file holds, None when it cannot be read. */
    method Prepare(c: Config, claimed: Option<seq<bool>>) returns (completed: seq<bool>, remaining: int)
      requires Sized(c.t)
      modifies this
      ensures disk == Resized(old(disk), c.t.length)
      ensures completed == Rechecked(c, disk, claimed) && saved == completed
      ensures forall k: nat :: k < |disk| ==> disk[k] == if k < |old(disk)| then old(disk)[k] else 0
      ensures forall p: nat :: p < NumPieces(c) ==>
                (completed[p] <==> claimed.Some? && |claimed.value| == NumPieces(c) && claimed.value[p] && Stored(c, disk, p))
      ensures remaining == NumPieces(c) - CountDone(completed)
    {
      hide Stored, Rechecked;
      var n := NumPieces(c);
      var flags := new bool[n](_ => false);
      if claimed.Some? && |claimed.value| == n {
        forall p | 0 <= p < n { flags[p] := claimed.value[p]; }
      }
      disk := Resized(disk, c.t.length);
      remaining := n;
      for i := 0 to n
        invariant disk == Resized(old(disk), c.t.length)
        invariant forall p :: 0 <= p < i ==> flags[p] == (Claims(c, claimed, p) && Stored(c, disk, p))
        invariant forall p :: i <= p < n ==> flags[p] == Claims(c, claimed, p)
        invariant remaining == n - CountDone(flags[..i])
      {
        assert flags[..i + 1] == flags[..i] + [flags[i]];
        if !flags[i] {
          continue;
        }
        if !Stored(c, disk, i) {
          flags[i] := false;
          assert flags[..i + 1] == flags[..i] + [false];
          continue;
        }
        remaining := remaining - 1;
      }
      completed := flags[..];
      assert completed == Rechecked(c, disk, claimed);
      assert flags[..n] == completed;
      saved := completed;
    }
  }

  /** The two loops that prime completedCount and downloadedBytes. */
  method PrimeCounters(c: Config, completed: seq<bool>) returns (count: int, bytes: int)
    requires Sized(c.t) && |completed| == NumPieces(c)
    ensures count == CountDone(completed) && bytes == BytesDone(c.t, completed)
  {
    count, bytes := 0, 0;
    for i := 0 to |completed|
      invariant count == CountDone(completed[..i])
    {
      assert completed[..i + 1][..i] == completed[..i];
      if completed[i] { count := count + 1; }
    }
    for i := 0 to |completed|
      invariant bytes == BytesDone(c.t, completed[..i])
    {
      assert completed[..i + 1][..i] == completed[..i];
      if completed[i] { bytes := bytes + PieceLengthAt(c.t, i); }
    }
    assert completed[..|completed|] == completed;
  }
}
