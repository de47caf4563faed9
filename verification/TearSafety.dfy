/** Exactly when every run keeps completed pieces verified on disk. */
module TearSafety {
  import opened Bytes
  import opened Layout
  import opened Engine
  import opened EngineCount
  import opened EngineDisk
  import opened EngineRuns
  import opened Resume
  import opened SoleWriter
  import opened TornRuns

  /** In every state of every run each completed piece verifies on disk. */
  ghost predicate RunsVerify(c: Config)
    requires c.t.pieceLength > 0
  {
    forall run: seq<State>, i :: IsRun(c, run) && 0 <= i < |run| ==> AllStored(c, run[i].pieces)
  }

  /** All runs keep completed pieces verified exactly if mixing verifying data gives verifying data, or the endgame
      cannot duplicate a piece that can be completed. */
  lemma TearSafetyIsExact(c: Config)
    requires Sized(c.t)
    ensures RunsVerify(c) <==> TearSafe(c) || NoDuplicates(c)
  {
    hide IsRun, Stored, Verified, Genuine, NoDuplicates, Inv;
    if TearSafe(c) || NoDuplicates(c) {
      forall run: seq<State>, i | IsRun(c, run) && 0 <= i < |run| ensures AllStored(c, run[i].pieces) {
        RunVerifies(c, run, i);
      }
    }
    if RunsVerify(c) && !NoDuplicates(c) {
      forall p, data | 0 <= p < NumPieces(c) && |data| == PieceLengthAt(c.t, p)
                       && (forall x :: 0 <= x < |data| ==> Genuine(c, p, x, data[x]))
        ensures Verified(c, p, data)
      {
        assert IsMix(c, p, data);
        MixVerifies(c, p, data);
      }
    }
  }

  lemma RunVerifies(c: Config, run: seq<State>, i: nat)
    requires Sized(c.t) && IsRun(c, run) && i < |run| && (TearSafe(c) || NoDuplicates(c))
    ensures AllStored(c, run[i].pieces)
  {
    hide IsRun, Stored, TearSafe, NoDuplicates, Inv;
    if TearSafe(c) {
      RunInv(c, run, i);
      FlagCount(c, run[i]);
      forall p | 0 <= p < NumPieces(c) && run[i].pieces.completed[p] ensures Stored(c, run[i].pieces.disk, p) {
        CompletedPiecesVerify(c, run, i, p);
      }
    } else {
      SoleInRuns(c, run, i);
    }
  }

  lemma MixVerifies(c: Config, p: nat, mix: Bytes)
    requires Sized(c.t) && RunsVerify(c) && !NoDuplicates(c) && p < NumPieces(c) && IsMix(c, p, mix)
    ensures Verified(c, p, mix)
  {
    hide IsRun, Stored, Verified, IsMix, NoDuplicates, Inv;
    if !Verified(c, p, mix) {
      var run := TornRun(c, p, mix);
      RunNotEmpty(c, run);
    }
  }

  lemma RunNotEmpty(c: Config, run: seq<State>)
    requires IsRun(c, run)
    ensures |run| > 0
  {
  }

  lemma FlagCount(c: Config, s: State)
    requires Inv(c, s)
    ensures |s.pieces.completed| == NumPieces(c)
  {
  }

  /** For a torrent whose pieces can all be completed, as the one it was made from can: a single piece needs nothing
      of the hash, and two or more need tear safety and no more. */
  lemma OrdinaryTorrents(c: Config)
    requires Sized(c.t) && forall p :: 0 <= p < NumPieces(c) ==> Verifiable(c, p)
    ensures NumPieces(c) == 1 ==> RunsVerify(c)
    ensures NumPieces(c) >= 2 ==> (RunsVerify(c) <==> TearSafe(c))
  {
    hide TearSafe, RunsVerify, Verifiable;
    AllVerifiable(c);
    TearSafetyIsExact(c);
  }

  lemma AllVerifiable(c: Config)
    requires c.t.pieceLength > 0 && forall p :: 0 <= p < NumPieces(c) ==> Verifiable(c, p)
    ensures Verifiables(c) == NumPieces(c)
  {
    hide Verifiable;
    assert AllComplete(Goal(c));
    DoneBounds(Goal(c));
  }

  // ----- A torrent that is torn -----

  /** [0, 0] and [1, 1] collide on the hash of piece 0. */
  function CollidingHash(b: Bytes): Bytes {
    if b == [0, 0] || b == [1, 1] then [0] else if b == [2, 2] then [1] else [9]
  }

  const TWO_PIECES := Config(Torrent(4, 2, [[0], [1]], []), CollidingHash)

  lemma PieceFacts()
    ensures Sized(TWO_PIECES.t) && NumPieces(TWO_PIECES) == 2
    ensures PieceLengthAt(TWO_PIECES.t, 0) == 2 && PieceLengthAt(TWO_PIECES.t, 1) == 2
    ensures Verified(TWO_PIECES, 0, [0, 0]) && Verified(TWO_PIECES, 0, [1, 1]) && Verified(TWO_PIECES, 1, [2, 2])
    ensures !Verified(TWO_PIECES, 0, [1, 0])
  {
    assert [1, 0][0] == 1 && [1, 0][1] == 0;
    assert [2, 2][0] == 2;
    assert [1, 0] != [0, 0] && [1, 0] != [1, 1] && [1, 0] != [2, 2] && [2, 2] != [0, 0] && [2, 2] != [1, 1];
  }

  /** A colliding hash and two pieces: a run ends with piece 0 complete and its bytes unverified. */
  lemma TornWithoutTearSafety() returns (run: seq<State>)
    ensures IsRun(TWO_PIECES, run)
    ensures var d := run[|run| - 1].pieces;
            NumPieces(TWO_PIECES) == 2 && 0 < |d.completed| && d.completed[0] && !Stored(TWO_PIECES, d.disk, 0)
    ensures !TearSafe(TWO_PIECES) && !CollisionFree(TWO_PIECES)
  {
    hide IsRun, Stored, Verified, PieceLengthAt;
    PieceFacts();
    var mix: Bytes := [1, 0];
    assert Genuine(TWO_PIECES, 0, 0, mix[0]) by { assert [1, 1][0] == 1; }
    assert Genuine(TWO_PIECES, 0, 1, mix[1]) by { assert [0, 0][1] == 0; }
    assert [0, 0] != [1, 1];
    forall p | 0 <= p < NumPieces(TWO_PIECES) ensures Verifiable(TWO_PIECES, p) {
      assert p == 0 || p == 1;
    }
    AllVerifiable(TWO_PIECES);
    run := TornRun(TWO_PIECES, 0, mix);
  }
}
