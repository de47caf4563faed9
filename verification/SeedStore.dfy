/** Local piece data served to inbound peers. */
module SeedStores {
  import opened Bytes
  import opened Layout
  import opened Wire

  /** Opened once, then only read. */
  datatype SeedStore = SeedStore(t: Torrent, file: Bytes, completed: seq<bool>)

  predicate Has(s: SeedStore, index: int) {
    0 <= index < |s.completed| && s.completed[index]
  }

  /** SeedStore.ReadPiece; None stands for each of its errors. */
  function ReadPiece(s: SeedStore, index: int, begin: int, length: int): Option<Bytes>
    requires s.t.pieceLength > 0
  {
    if !Has(s, index) then None
    else if begin < 0 || length <= 0 || begin + length > PieceLengthAt(s.t, index) then None
    else
      var off := PieceOffset(s.t, index) + begin;
      if 0 <= off && off + length <= |s.file| then Some(s.file[off..off + length]) else None
  }

  /** What the listener answers to a Request from an unchoked peer; None means that it ignores the message. */
  function Answer(s: SeedStore, m: Message): Option<Message>
    requires s.t.pieceLength > 0
  {
    if m.id != MSG_REQUEST then None
    else
      match ParseRequestMessage(m.payload)
      case None => None
      case Some((index, begin, length)) =>
        match ReadPiece(s, index, begin, length)
        case None => None
        case Some(block) => Some(PieceMessage(index, begin, block))
  }

  /** The stored bytes of a piece. */
  function PieceBytes(s: SeedStore, p: nat): Bytes
    requires s.t.pieceLength > 0
    requires 0 <= PieceOffset(s.t, p) && PieceEnd(s.t, p) <= |s.file|
  {
    s.file[PieceOffset(s.t, p)..PieceEnd(s.t, p)]
  }

  /** Exactly the non-empty ranges inside a held piece are served, and with the stored bytes. */
  lemma ReadPieceIff(s: SeedStore, p: nat, begin: int, length: int)
    requires s.t.pieceLength > 0 && 0 <= PieceOffset(s.t, p) && PieceEnd(s.t, p) <= |s.file|
    ensures ReadPiece(s, p, begin, length).Some?
            <==> Has(s, p) && 0 <= begin < begin + length <= PieceLengthAt(s.t, p)
    ensures ReadPiece(s, p, begin, length).Some? ==>
              ReadPiece(s, p, begin, length).value == PieceBytes(s, p)[begin..begin + length]
  {
  }
}
