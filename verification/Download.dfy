/** The download from start to finished files: starting the engine, what success leaves on disk, and
    restarting after an interruption. */
module Download {
  import opened Bitfield
  import opened Bytes
  import opened Layout
  import opened Files
  import opened FileLaws
  import opened RarestFirst
  import opened Engine
  import opened EngineCount
  import opened EngineDisk
  import opened EngineRuns
  import opened Resume

  const NUM_WORKERS := 24
  const NUM_CONNECTORS := 48

  lemma {:induction false} IncompleteAppend(order: seq<int>, completed: seq<bool>, p: int)
    requires forall i :: 0 <= i < |order| ==> 0 <= order[i] < |completed|
    requires 0 <= p < |completed|
    ensures Incomplete(order + [p], completed)
            == Incomplete(order, completed) + (if completed[p] then [] else [p])
  {
    if order == [] {
      assert [p][1..] == [];
    } else {
      IncompleteAppend(order[1..], completed, p);
      assert (order + [p])[1..] == order[1..] + [p];
    }
  }

  /** The queue has the missing pieces of the order and keeps them in order. */
  lemma {:induction false} IncompleteKeepsOrder(order: seq<int>, completed: seq<bool>, availability: seq<nat>)
    requires forall i :: 0 <= i < |order| ==> 0 <= order[i] < |completed|
    requires forall i, j :: 0 <= i < j < |order| ==> Before(availability, order[i], order[j])
    ensures var q := Incomplete(order, completed);
            && (forall p: nat :: p in q <==> p in order && !completed[p])
            && forall i, j :: 0 <= i < j < |q| ==> Before(availability, q[i], q[j])
  {
    hide Before;
    if order != [] {
      var rest := Incomplete(order[1..], completed);
      IncompleteKeepsOrder(order[1..], completed, availability);
      forall j | 0 <= j < |rest| ensures Before(availability, order[0], rest[j]) {
        assert rest[j] in rest && rest[j] in order[1..];
        var k :| 0 <= k < |order[1..]| && order[1..][k] == rest[j];
        assert Before(availability, order[0], order[k + 1]);
      }
    }
  }

  /** How many of the first 24 probed peers have piece p. */
  function Seen(probes: seq<Probe>, p: nat): nat {
    |set i | 0 <= i < |probes| && i < 24 && probes[i].Some? && HasPiece(probes[i].value, p)|
  }

  /** The missing pieces, those seen rarely before those seen often, those not seen last, equals by index. */
  ghost predicate RarestQueue(queue: seq<nat>, completed: seq<bool>, probes: seq<Probe>) {
    && (forall p: nat :: p in queue <==> p < |completed| && !completed[p])
    && forall i, j :: 0 <= i < j < |queue| ==>
         var x, y := Seen(probes, queue[i]), Seen(probes, queue[j]);
         (y > 0 ==> 0 < x <= y) && (x == y ==> queue[i] < queue[j])
  }

  lemma SeenIsCounted(probes: seq<Probe>, p: nat)
    ensures Seen(probes, p) == CountHolders(probes[..if |probes| > 24 then 24 else |probes|], p)
  {
    hide HasPiece;
    var some := probes[..if |probes| > 24 then 24 else |probes|];
    CountsHolders(some, p);
    assert (set i | 0 <= i < |some| && some[i].Some? && HasPiece(some[i].value, p))
           == set i | 0 <= i < |probes| && i < 24 && probes[i].Some? && HasPiece(probes[i].value, p);
  }

  lemma QueueIsRarestFirst(order: seq<int>, completed: seq<bool>, availability: seq<nat>, probes: seq<Probe>)
    requires IsOrderOf(order, availability) && |availability| == |completed|
    requires forall i :: 0 <= i < |order| ==> 0 <= order[i] < |completed|
    requires forall p: nat :: p < |availability| ==> availability[p] == Seen(probes, p)
    ensures RarestQueue(Incomplete(order, completed), completed, probes)
  {
    hide Seen, Incomplete;
    OrderIsPermutation(order, availability);
    IncompleteKeepsOrder(order, completed, availability);
    var q := Incomplete(order, completed);
    forall i, j | 0 <= i < j < |q|
      ensures var x, y := Seen(probes, q[i]), Seen(probes, q[j]);
              (y > 0 ==> 0 < x <= y) && (x == y ==> q[i] < q[j])
    {
      assert q[i] in q && q[j] in q;
      assert Before(availability, q[i], q[j]);
    }
  }

  /** The loop that queues the pieces still missing. */
  method FillQueue(order: seq<int>, completed: seq<bool>) returns (queue: seq<nat>)
    requires forall i :: 0 <= i < |order| ==> 0 <= order[i] < |completed|
    ensures queue == Incomplete(order, completed)
  {
    queue := [];
    for i := 0 to |order|
      invariant queue == Incomplete(order[..i], completed)
    {
      IncompleteAppend(order[..i], completed, order[i]);
      assert order[..i + 1] == order[..i] + [order[i]];
      if !completed[order[i]] {
        queue := queue + [order[i]];
      }
    }
    assert order[..|order|] == order;
  }

  lemma OrderInRange(order: seq<int>, availability: seq<nat>)
    requires IsOrderOf(order, availability)
    ensures forall i :: 0 <= i < |order| ==> 0 <= order[i] < |availability|
  {
    OrderIsPermutation(order, availability);
    assert forall i :: 0 <= i < |order| ==> order[i] in order;
  }

  /** The first half of DownloadTorrentWithOptions: prepare the files, prime the counters, queue the pieces in
      rarest-first order. With nothing left to download no engine is started. */
  method Start(c: Config, out: Output, claimed: Option<seq<bool>>, probes: seq<Probe>, peers: set<PeerKey>)
    returns (s: Option<State>)
    requires Sized(c.t)
    modifies out
    ensures out.disk == Resized(old(out.disk), c.t.length) && out.saved == Rechecked(c, out.disk, claimed)
    ensures s.None? <==> AllComplete(out.saved)
    ensures s.Some? ==>
              && Init(c, s.value)
              && s.value.pieces.disk == out.disk && s.value.pieces.completed == out.saved
              && s.value.swarm.known == peers
              && RarestQueue(s.value.pieces.queue, out.saved, probes)
              && |s.value.workers| == 24 && |s.value.swarm.connectors| == 48
  {
    hide IsOrderOf, Rechecked, Resized, Incomplete, CountDone, BytesDone, AllComplete, CountHolders, Init, Seen, RarestQueue;
    var completed, remaining := out.Prepare(c, claimed);
    DoneBounds(completed);
    if remaining == 0 {
      return None;
    }
    var count, bytes := PrimeCounters(c, completed);
    var order := BuildOrder(NumPieces(c), probes);
    ghost var some := probes[..if |probes| > 24 then 24 else |probes|];
    ghost var availability: seq<nat> := seq(NumPieces(c), i requires 0 <= i => CountHolders(some, i));
    OrderInRange(order, availability);
    forall p: nat { SeenIsCounted(probes, p); }
    QueueIsRarestFirst(order, completed, availability, probes);
    var queue := FillQueue(order, completed);
    var state := State(
      Pieces(completed, completed, out.disk, queue, remaining, count, bytes, Off),
      Bus(map[], [], map[]),
      Swarm(peers, peers, [], seq(NUM_CONNECTORS, _ => Resting)),
      seq(NUM_WORKERS, _ => Worker(Idle, None)),
      false, false, Waiting);
    StartIsInit(c, state, old(out.disk), claimed, order, availability);
    return Some(state);
  }

  lemma StartIsInit(c: Config, s: State, disk: Bytes, claimed: Option<seq<bool>>, order: seq<int>, availability: seq<nat>)
    requires Sized(c.t) && StartsFrom(c, s, disk, claimed, order, availability)
    ensures Init(c, s)
  {
  }

  // ----- Success -----

  /** The payload the torrent was made from. */
  ghost predicate IsOriginal(c: Config, payload: Bytes)
    requires Sized(c.t)
  {
    && |payload| == c.t.length
    && forall p :: 0 <= p < NumPieces(c) ==> Stored(c, payload, p)
  }

  lemma PieceByteInRange(t: Torrent, b: nat)
    requires Sized(t) && Tiles(t) && b < t.length
    ensures var p := b / t.pieceLength;
            0 <= p < |t.hashes| && 0 <= PieceOffset(t, p) <= b < PieceEnd(t, p)
  {
    assert Covered(t, b);
    CoveredIff(t, b);
    PiecesCover(t, b);
    NextOffset(t, b / t.pieceLength);
  }

  lemma ByteDetermined(c: Config, disk: Bytes, payload: Bytes, b: nat)
    requires Sized(c.t) && Tiles(c.t) && CollisionFree(c) && IsOriginal(c, payload) && b < c.t.length
    requires forall p :: 0 <= p < NumPieces(c) ==> Stored(c, disk, p)
    ensures b < |disk| && disk[b] == payload[b]
  {
    PieceByteInRange(c.t, b);
    hide Tiles;
    var p := b / c.t.pieceLength;
    assert Stored(c, disk, p) && Stored(c, payload, p);
    var from, to := PieceOffset(c.t, p), PieceEnd(c.t, p);
    assert disk[from..to] == payload[from..to];
    assert disk[from..to][b - from] == disk[b];
  }

  /** Two files on which every piece verifies agree on the whole payload. */
  lemma StoredDetermines(c: Config, disk: Bytes, payload: Bytes)
    requires Sized(c.t) && Tiles(c.t) && CollisionFree(c) && IsOriginal(c, payload)
    requires forall p :: 0 <= p < NumPieces(c) ==> Stored(c, disk, p)
    ensures |disk| >= c.t.length && disk[..c.t.length] == payload
  {
    if c.t.length > 0 { ByteDetermined(c, disk, payload, c.t.length - 1); }
    hide Tiles, CollisionFree, Stored;
    forall b: nat | b < c.t.length ensures disk[b] == payload[b] {
      ByteDetermined(c, disk, payload, b);
    }
  }

  /** When the engine reports success, under any interleaving and with any peers, the output file is the
      original payload. */
  lemma SuccessIsOriginal(c: Config, run: seq<State>, i: nat, payload: Bytes)
    requires IsRun(c, run) && i < |run| && run[i].main == Returned(Success)
    requires Sized(c.t) && Tiles(c.t) && CollisionFree(c) && IsOriginal(c, payload)
    ensures var disk := run[i].pieces.disk; |disk| >= c.t.length && disk[..c.t.length] == payload
  {
    hide Tiles, IsRun, CollisionFree, IsOriginal;
    CollisionFreeIsTearSafe(c);
    SuccessMeansVerified(c, run, i);
    StoredDetermines(c, run[i].pieces.disk, payload);
  }

  /** ... and for a torrent of several files the finished directory t, whose payload file is the output file, holds
      that payload in order, provided that the destinations fit and keep off the client's own files. */
  lemma SuccessMaterializes(c: Config, run: seq<State>, i: nat, payload: Bytes, t: Tree, line: Bytes)
    requires IsRun(c, run) && i < |run| && run[i].main == Returned(Success)
    requires Sized(c.t) && Tiles(c.t) && CollisionFree(c) && IsOriginal(c, payload)
    requires NoNegative(c.t.files) && PrefixSum(c.t.files, |c.t.files|) == c.t.length
    requires PAYLOAD in t.files && t.files[PAYLOAD] == run[i].pieces.disk && (line != [] ==> LOG in t.files)
    requires var dst := Destinations(c.t.files);
             Unobstructed(t, dst) && Spared(c.t.files, dst) && Unreserved(dst, line) && Distinct(dst)
    ensures var (v, r) := Finished(t, c.t.files, line);
            var dst := Destinations(c.t.files);
            r == Written && (forall k :: 0 <= k < |dst| ==> dst[k] in v.files) && Outputs(v.files, dst, |dst|) == payload
  {
    hide Tiles, IsRun, CollisionFree, Finished, Destinations, Unobstructed, Spared, Unreserved, Distinct;
    SuccessIsOriginal(c, run, i, payload);
    OutputsJoin(t, c.t.files, line);
  }

  // ----- Interruption -----

  lemma ResizedKeepsPieces(c: Config, disk: Bytes, p: nat)
    requires Sized(c.t) && Tiles(c.t) && p < NumPieces(c) && Stored(c, disk, p)
    ensures Stored(c, Resized(disk, c.t.length), p)
  {
    OffsetNonNegative(c.t, p);
    var from, to := PieceOffset(c.t, p), PieceEnd(c.t, p);
    assert InPiece(c.t, p, to - 1);
    assert Covered(c.t, to - 1);
    assert to <= c.t.length;
    assert Resized(disk, c.t.length)[from..to] == disk[from..to];
  }

  /** Interrupted at any moment, with the files as they are then, a new start finds complete exactly the pieces
      the resume file names: no claim is refused and nothing else is trusted. */
  lemma RestartKeepsSaved(c: Config, run: seq<State>, i: nat)
    requires IsRun(c, run) && i < |run| && Sized(c.t) && Tiles(c.t) && TearSafe(c)
    ensures var d := run[i].pieces;
            Rechecked(c, Resized(d.disk, c.t.length), Some(d.saved)) == d.saved
  {
    hide Tiles, IsRun, TearSafe, Stored;
    var d := run[i].pieces;
    RunInv(c, run, i);
    forall p | 0 <= p < NumPieces(c) && d.saved[p] ensures Stored(c, Resized(d.disk, c.t.length), p) {
      CompletedPiecesVerify(c, run, i, p);
      ResizedKeepsPieces(c, d.disk, p);
    }
  }
}
