/** How a torrent's payload is cut into pieces and into files. */
module Layout {
  import opened Bytes

  datatype FileInfo = FileInfo(length: int, path: seq<string>)

  datatype Torrent = Torrent(length: nat, pieceLength: nat, hashes: seq<Bytes>, files: seq<FileInfo>)

  /** SHA-1 is any function; its collision-freeness is a hypothesis where it is needed. */
  datatype Config = Config(t: Torrent, sha1: Bytes -> Bytes)

  /** The torrents the downloader works on: at least one piece, and pieces that are not empty. */
  predicate Sized(t: Torrent) {
    t.pieceLength > 0 && |t.hashes| > 0
  }

  function PieceLengthAt(t: Torrent, i: int): (len: int)
    requires t.pieceLength > 0
    ensures 0 < len <= t.pieceLength
  {
    if i == |t.hashes| - 1 && t.length % t.pieceLength > 0 then t.length % t.pieceLength
    else t.pieceLength
  }

  function PieceOffset(t: Torrent, i: int): int { i * t.pieceLength }

  function PieceEnd(t: Torrent, i: int): int
    requires t.pieceLength > 0
  {
    PieceOffset(t, i) + PieceLengthAt(t, i)
  }

  predicate InPiece(t: Torrent, i: int, b: int)
    requires t.pieceLength > 0
  {
    0 <= i < |t.hashes| && PieceOffset(t, i) <= b < PieceEnd(t, i)
  }

  function CeilDiv(a: nat, b: nat): nat
    requires b > 0
  {
    (a + b - 1) / b
  }

  lemma {:induction false} OffsetsIncrease(t: Torrent, i: nat, j: nat)
    requires t.pieceLength > 0 && i < j
    ensures 0 <= PieceOffset(t, i) <= PieceOffset(t, i) + t.pieceLength <= PieceOffset(t, j)
    ensures PieceOffset(t, i + 1) == PieceOffset(t, i) + t.pieceLength
  {
    NextOffset(t, i);
    if j > i + 1 {
      OffsetsIncrease(t, i, j - 1);
      NextOffset(t, j - 1);
    }
  }

  lemma NextOffset(t: Torrent, i: nat)
    ensures PieceOffset(t, i + 1) == PieceOffset(t, i) + t.pieceLength
    ensures PieceOffset(t, i) >= 0
  {
  }

  /** Different pieces never share a byte, whatever the piece count. */
  lemma PiecesDisjoint(t: Torrent, i: nat, j: nat, b: int)
    requires t.pieceLength > 0 && i < |t.hashes| && j < |t.hashes|
    requires InPiece(t, i, b) && InPiece(t, j, b)
    ensures i == j
  {
    if i < j {
      OffsetsIncrease(t, i, j);
    } else if j < i {
      OffsetsIncrease(t, j, i);
    }
  }

  /** Every byte before the end of the last piece is in a piece. */
  lemma PiecesCover(t: Torrent, b: nat)
    requires Sized(t) && b < PieceEnd(t, |t.hashes| - 1)
    ensures InPiece(t, b / t.pieceLength, b)
  {
    var p, i, n := t.pieceLength, b / t.pieceLength, |t.hashes|;
    assert b == p * i + b % p;
    assert i * p <= b < i * p + p;
    if i >= n {
      OffsetsIncrease(t, n - 1, i);
      assert false;
    }
  }

  ghost predicate Covered(t: Torrent, b: int)
    requires t.pieceLength > 0
  {
    exists i :: InPiece(t, i, b)
  }

  ghost predicate Tiles(t: Torrent)
    requires t.pieceLength > 0
  {
    forall b :: 0 <= b < t.length <==> Covered(t, b)
  }

  lemma EndsAtLengthIff(t: Torrent)
    requires Sized(t)
    ensures PieceEnd(t, |t.hashes| - 1) == t.length <==> |t.hashes| == CeilDiv(t.length, t.pieceLength)
  {
    var p, n, q, r := t.pieceLength, |t.hashes|, t.length / t.pieceLength, t.length % t.pieceLength;
    assert t.length == p * q + r;
    assert CeilDiv(t.length, p) == if r > 0 then q + 1 else q by {
      if r > 0 {
        DivUnique(t.length + p - 1, p, q + 1, r - 1);
      } else {
        DivUnique(t.length + p - 1, p, q, p - 1);
      }
    }
    var m := if r > 0 then n - 1 else n;
    assert PieceEnd(t, n - 1) == m * p + r by {
      assert n * p == (n - 1) * p + p;
    }
    assert m * p == q * p <==> m == q by {
      if m < q {
        assert (q - m) * p > 0;
      } else if q < m {
        assert (m - q) * p > 0;
      }
    }
  }

  lemma DivUnique(a: int, p: int, q: int, r: int)
    requires p > 0 && 0 <= r < p && a == p * q + r
    ensures a / p == q
  {
    var k := a / p - q;
    assert a == p * (a / p) + a % p;
    assert p * k == p * (a / p) - p * q == r - a % p;
    assert k >= 1 ==> p * k >= p;
    assert k <= -1 ==> p * k <= -p;
  }

  /** The piece ranges tile the payload exactly when the hash list has one entry per started piece. */
  lemma TilesIff(t: Torrent)
    requires Sized(t)
    ensures Tiles(t) <==> |t.hashes| == CeilDiv(t.length, t.pieceLength)
  {
    var end := PieceEnd(t, |t.hashes| - 1);
    OffsetsIncrease(t, |t.hashes| - 1, |t.hashes|);
    forall b ensures Covered(t, b) <==> 0 <= b < end {
      CoveredIff(t, b);
    }
    assert Covered(t, end - 1) && !Covered(t, end);
    hide CeilDiv, Covered, PieceEnd;
    EndsAtLengthIff(t);
  }

  lemma CoveredIff(t: Torrent, b: int)
    requires Sized(t)
    ensures Covered(t, b) <==> 0 <= b < PieceEnd(t, |t.hashes| - 1)
  {
    if 0 <= b < PieceEnd(t, |t.hashes| - 1) { PiecesCover(t, b); }
    if i :| InPiece(t, i, b) { BelowEnd(t, i, b); }
  }

  lemma BelowEnd(t: Torrent, i: int, b: int)
    requires Sized(t) && InPiece(t, i, b)
    ensures 0 <= b < PieceEnd(t, |t.hashes| - 1)
  {
    if i < |t.hashes| - 1 {
      OffsetsIncrease(t, i, |t.hashes| - 1);
    }
    OffsetsIncrease(t, i, i + 1);
  }

  function NumPieces(c: Config): nat { |c.t.hashes| }

  /** Data of the right length that hashes to the piece's entry: what downloadPieceFromSession returns. */
  predicate Verified(c: Config, p: nat, data: Bytes)
    requires c.t.pieceLength > 0 && p < NumPieces(c)
  {
    |data| == PieceLengthAt(c.t, p) && c.sha1(data) == c.t.hashes[p]
  }
}
