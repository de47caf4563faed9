# A verified model of the torrent client

This project models the parts of the client whose correctness is not visible from reading one function: the
concurrent download engine, the pipelined block transfer, the bencode decoder and the metadata exchange built on it,
tit-for-tat choking, the serving side of an inbound connection, and the DHT lookup.

- **The download engine** (`Engine*.dfy`, `Resume.dfy`, `Download.dfy`) is a transition system. A worker or connector
  has a program counter and its live locals; one step is one critical section, channel operation, atomic operation or
  byte written to the output file, and steps of different goroutines interleave in any order. `Init` allows any resume
  file, any output file, any peers and any number of workers and connectors; `Download.Start` is the program's own
  start-up and establishes it. `EngineRuns` proves one invariant over all runs and draws the conclusions; `Download`
  carries them on to the files the user gets, and to a restart after an interruption.
- **What the hash must satisfy** (`SoleWriter.dfy`, `TornRuns.dfy`, `TearSafety.dfy`). That a completed piece verifies on
  disk is not true of every hash: two workers may write different data for a piece, both verified, over each other.
  `TearSafety.TearSafetyIsExact` says exactly when all runs have the property: when the hash is tear safe (mixing bytes
  of data that verifies for a piece gives data that verifies; collision-freeness implies it), or when the endgame cannot
  duplicate a piece that can be completed. For an ordinary torrent the second means that it has one piece.
- **How a download ends** (`Outcomes.dfy`, `RunSteps.dfy`, `SuccessRuns.dfy`, `Jams.dfy`, `JamRuns.dfy`). Read off the steps
  a run took, the timeout failure means that the timer fired while the main goroutine waited, and success that it did
  not. Every start with data for each piece has a run that succeeds. From a reachable state some continuation succeeds
  exactly if every piece is complete, or there is data for the missing ones and the workers are not jammed. A jam is
  possible in the source: the endgame keeps filling the piece queue (internal/downloader/downloader.go:480-490), from
  which only the workers take, and a worker whose attempts failed, or whose piece another completed, waits for room in it
  (internal/downloader/downloader.go:660-664). Once the queue is full and every worker waits, none ever takes a piece
  again, and with a piece missing only the timer ends the download. `JamRuns.JamIff` shows that this can happen on exactly
  the torrents of two or more pieces.
- **The engine's limits** (`EngineLimits.dfy`): attempts per piece, pieces per session, ready sessions, when the endgame
  may start, and that the counters behind them count what they should.
- **The block transfer** (`Transfer.dfy`, `PeerSession.dfy`) is the loop of `downloadPieceFromSession` over a map of
  outstanding requests, a cursor, a counter and a buffer. The class method runs it in place and equals the function
  `Transfer.Fetch` of the session state and the events; the properties are proved of that function, for every stream.
  `TransferCauses.dfy` reads off the list of events alone, counting blocks, which event decides a transfer and what
  has been asked for, received and learnt by then; with it the result of every transfer is determined.
  `ServeFetch.dfy` composes it with the listener and a seed store over FIFO channels.
- **Bencode** (`Bencode.dfy`, `BencodeLaws.dfy`), the **info dictionary** (`InfoDict.dfy`) and the **metadata
  exchange** (`Metadata.dfy`): the methods have the cursor loops of the source and equal recursive functions; the laws
  relate those to each other and to a canonical encoder written from the bencoding section of BEP 3.
- **Choking** (`Choke.dfy`), the **inbound connection** (`Listener.dfy`), the **DHT lookup** (`Distance.dfy`,
  `Dht.dfy`), the **wire format** (`Wire.dfy`), **bitfields** (`Bitfield.dfy`), **piece and file layout**
  (`Layout.dfy`, `Files.dfy`, `FileLaws.dfy`), **rarest first** (`RarestFirst.dfy`) and the **seed store**
  (`SeedStore.dfy`). The files of a torrent go into the directory that also holds the payload, the resume file and the log;
  a torrent may name these, and `FileLaws` says exactly when all files come out right.

SHA-1 and `Sscanf("%d")` are function parameters. The first is any function; collision-freeness is a hypothesis of the
lemmas that need it. The second is any function; the round trips ask only that it reads back the canonical decimals of
64-bit integers (`BencodeLaws.ReadsDecimals`). Go's `sort` is `Sorting.SortBy`, of which only the contract is used:
sorted, and a permutation. Where a Go map is ranged over, the model takes the keys in any order.

Where the source's comments and messages differ from its code the model follows the code: the optimistic slot goes to
the best ranked peer below the cut that was not picked last, not to an unexplored one (internal/choke/choke.go:131-145);
the last pick is remembered by host and port, not by peer ID (internal/choke/choke.go:30); and the timer behind the "no
progress" failure counts from the start, whatever the progress (internal/downloader/downloader.go:680-693). A
ut_metadata data message is stored at the place of the piece that was asked for, whatever piece it names
(internal/protocol/metadata.go:221-229).

## Model

| member | source | states |
|---|---|---|
| `EngineRuns.RunInv` | internal/downloader/downloader.go:334-710 | every state of every run, under every interleaving, satisfies the whole invariant: typing, no piece lost, conservation, one session per peer, signals, disk |
| `EngineRuns.CompletedPiecesVerify` | internal/downloader/downloader.go:613-654 | with a tear-safe hash, in every reachable state a piece whose flag is set, or that the resume file names, hashes to its entry on disk |
| `EngineRuns.SuccessMeansVerified` | internal/downloader/downloader.go:671-710 | the run never returns the incomplete failure, and success, which SuccessRuns.SuccessFromStart shows to happen, means that every piece verifies on disk |
| `EngineRuns.NoPieceLost` | internal/downloader/downloader.go:562-664 | until cancellation every incomplete piece is queued or in a worker's hands, and the queue never exceeds twice the piece count |
| `EngineRuns.CountersAreConserved` | internal/downloader/downloader.go:464-465 | the WaitGroup always equals the incomplete pieces plus the workers between setting a flag and Done, zero means all complete, and after the workers stop both counters are exact |
| `EngineRuns.CancelMeansComplete` | internal/downloader/downloader.go:567-594 | a worker that finds a cancel signal is fetching a piece that is already complete |
| `EngineRuns.OneSessionPerPeer` | internal/downloader/downloader.go:498-560 | in every reachable state a peer has exactly one holder, a worker, ready session or connector, while the pool has it on loan, and none otherwise; no two of them share a peer |
| `EngineRuns.CompletionIsFinal` | internal/downloader/downloader.go:623-628 | along a run a set flag stays set |
| `EngineRuns.ReturnedIsSaved` | internal/downloader/downloader.go:693-696 | in every run, once the download has returned, however it ended, the resume file holds the final flags |
| `EngineRuns.SaveStoresFlags` | internal/downloader/downloader.go:355-361 | a save writes the flags as they are and touches nothing else |
| `Outcomes.TimerDecides` | internal/downloader/downloader.go:677-710 | of a returned run, the timeout failure means exactly that the timer fired while main waited, success exactly that main saw doneCh closed, and exactly that the timer did not fire |
| `Outcomes.OutcomeIsDecided` | internal/downloader/downloader.go:671-710 | at every point of a run main waits until it sees doneCh or the timer, the first of them decides, and it has returned exactly if it has joined the workers |
| `Outcomes.RunHasSteps` | internal/downloader/downloader.go:529-710 | every run is the work of a list of steps, one between each state and the next |
| `SuccessRuns.SuccessFromStart` | internal/downloader/downloader.go:529-729 | from every start with a worker, a connector, a known peer and data for each piece, some run without any new peer returns success with every piece complete and verifying on disk, for any hash |
| `SuccessRuns.Settle` | internal/downloader/downloader.go:566-657 | whatever a worker is doing, unless it can only requeue, it can get to the end of its piece by itself, without room in the queue |
| `SuccessRuns.WindUp` | internal/downloader/downloader.go:671-729 | with every piece complete and the workers at rest, doneCh closes, the workers leave and the download returns success |
| `Jams.CanSucceedIff` | internal/downloader/downloader.go:480-664 | until cancellation a download with a worker and a connector can still succeed if and only if every piece is complete, or there is data for the missing ones and not all workers wait for room in a full queue |
| `Jams.JamIsFinal` | internal/downloader/downloader.go:660-664 | from a jam with a piece missing the workers stay jammed while main waits, and a run that returns at all has timed out |
| `JamRuns.JamIff` | internal/downloader/downloader.go:480-490 | for any number of workers and connectors, a jam with a piece missing is reachable on exactly the torrents of two or more pieces |
| `EngineLimits.RunsKeepLimits` | internal/downloader/downloader.go:573-649 | in every reachable state a piece is tried at most 12 times, a session serves at most 32 pieces, at most 64 sessions are ready, and the endgame is on only if at most 12 pieces are missing |
| `EngineLimits.CountsAreExact` | internal/downloader/downloader.go:573-657 | in every run a session's count is the pieces it has served its worker, and the attempt number is the failures since the worker took the piece |
| `EngineLimits.AttemptDecides` | internal/downloader/downloader.go:573-589 | after 12 attempts the piece goes back; before, the worker keeps its session until that has served 32 pieces, then waits for another |
| `EngineLimits.InjectDecides` | internal/downloader/downloader.go:644-646 | a count that leaves at most 12 pieces missing starts the endgame, once |
| `EngineLimits.RoomDecides` | internal/downloader/downloader.go:518-524 | a session is handed over exactly while fewer than 64 are ready, and a piece goes back exactly while the queue has room |
| `EngineLimits.FailureReleases` | internal/downloader/downloader.go:591-621 | a failed transfer or write costs one attempt and the session, whose peer is available again |
| `EngineLimits.ConnectorReleases` | internal/downloader/downloader.go:499-526 | a connector whose dial fails rests and its peer is available again, one that quits with a session gives the peer back, and one that hands its session over rests |
| `EngineRuns.StepInv` | internal/downloader/downloader.go:529-675 | any one step of any goroutine keeps the invariant |
| `EngineRuns.InitInv` | internal/downloader/downloader.go:331-379 | the start-up state satisfies the invariant, from any resume file |
| `Engine.StepKeepsTyping` | internal/downloader/downloader.go:529-669 | every index stays in range, the queue within its capacity, and a worker has a session wherever the code uses it |
| `EngineQueue.NoneLostStep` | internal/downloader/downloader.go:480-490 | a step loses no incomplete piece: failed, cancelled and exhausted attempts all requeue |
| `EngineQueue.WorkerKeepsTrack` | internal/downloader/downloader.go:566-664 | a worker never drops the piece it holds while the run is not cancelled |
| `EngineCount.ConservedStep` | internal/downloader/downloader.go:623-637 | each step changes the counters and the workers' outstanding shares by amounts that cancel |
| `EngineCount.WaitGroupNeverNegative` | internal/downloader/downloader.go:464-465 | the WaitGroup is at least the number of incomplete pieces, and zero only when none is left |
| `EngineCount.DoneIsCovered` | internal/downloader/downloader.go:628 | whenever a worker is about to call Done the counter is positive |
| `EngineCount.CountersExactAtExit` | internal/downloader/downloader.go:696-710 | once all workers returned, completedCount and downloadedBytes are the count and the byte sum of the completed pieces |
| `EngineCount.MainSoundStep` | internal/downloader/downloader.go:671-710 | doneCh closes only when all pieces are complete, and FailIncomplete is unreachable; Outcomes.MainAfter says which outcome each end has |
| `Outcomes.MainAfter` | internal/downloader/downloader.go:677-710 | seeing doneCh leads to joining towards success, the timer to joining towards the timeout failure, the join returns that, and no other step moves main |
| `EngineSessions.ExclusiveStep` | internal/downloader/downloader.go:816-885 | a known peer is unavailable exactly when one connector, ready session or worker has it; no step releases twice or flips availability by re-adding |
| `EngineSessions.SessionsDistinct` | internal/downloader/downloader.go:498-560 | no two of the workers, ready sessions and connectors have the same peer, whatever their kinds |
| `EngineSessions.HeldIsOnLoan` | internal/downloader/downloader.go:839-885 | whoever holds a peer holds it alone, and the pool has it unavailable |
| `EngineBus.SignalledStep` | internal/downloader/downloader.go:98-117 | channels, subscriber lists and pending signals stay consistent under every step |
| `EngineBus.CancelOnlyWhenComplete` | internal/downloader/downloader.go:1148-1153 | the cancelled-by-other exit is taken only for a completed piece |
| `EngineBus.ExactlyOneSignal` | internal/downloader/downloader.go:106-117 | after complete, a channel has had one signal if it was subscribed when the list was taken, else none |
| `EngineDisk.DiskSoundStep` | internal/downloader/downloader.go:1564-1573 | every step, down to a single byte of a torn duplicate write, keeps all bytes of completed pieces genuine |
| `EngineDisk.PokeKeepsByte` | internal/downloader/downloader.go:1514-1527 | writing one byte of one piece keeps every genuine byte of every piece genuine |
| `EngineDisk.CompletedIsStored` | internal/downloader/downloader.go:1575-1582 | genuine bytes of a completed piece, under a tear-safe hash, verify from disk |
| `EngineDisk.CollisionFreeIsTearSafe` | internal/downloader/downloader.go:1225-1230 | a collision-free hash is tear safe |
| `TearSafety.TearSafetyIsExact` | internal/downloader/downloader.go:480-654 | over all runs, completed pieces verify on disk exactly if the hash is tear safe or the endgame cannot duplicate a piece that can be completed |
| `TearSafety.OrdinaryTorrents` | internal/downloader/downloader.go:480-654 | with every piece completable, one piece needs nothing of the hash, and for two or more the property holds over all runs exactly if the hash is tear safe |
| `TearSafety.TornWithoutTearSafety` | internal/downloader/downloader.go:480-490 | for a concrete torrent and a colliding hash some run ends with a completed piece that does not verify |
| `SoleWriter.SoleInRuns` | internal/downloader/downloader.go:480-490 | where the endgame starts too late to duplicate, each completable piece is queued, held or completed at most once in every reachable state, and completed pieces verify for any hash |
| `SoleWriter.SoleStep` | internal/downloader/downloader.go:562-664 | every step keeps that |
| `TornRuns.TornRun` | internal/downloader/downloader.go:480-490 | where duplicates are possible, every mix of verifying data that does not verify is left under a completed piece by some run |
| `Resume.Output.Prepare` | internal/downloader/downloader.go:1476-1512 | the file is sized to the length, cut or filled with zeros, a flag survives exactly if it was claimed by a resume file of the right length and the piece verifies, and remaining counts the rest |
| `Resume.PrimeCounters` | internal/downloader/downloader.go:334-345 | the counters start at the count and the byte sum of the completed pieces |
| `Download.FillQueue` | internal/downloader/downloader.go:374-379 | the queue starts as the rarest-first order without the completed pieces |
| `Download.QueueIsRarestFirst` | internal/downloader/downloader.go:372-379 | the queue has exactly the missing pieces, those that fewer of the first 24 probed peers have first, those that none has last, equals by index |
| `Download.Start` | internal/downloader/downloader.go:245-379 | start-up ends in an initial state of the engine with 24 workers, 48 connectors, the prepared flags and file and the missing pieces rarest first, or finds nothing to do exactly when all pieces verify |
| `Download.SuccessIsOriginal` | internal/downloader/downloader.go:671-729 | when a run succeeds, whatever the peers and the interleaving, the output file is the original payload |
| `Download.SuccessMaterializes` | internal/downloader/downloader.go:712-729 | and, with distinct and unobstructed destinations off the client's own files, the finished directory holds that payload in order |
| `Download.RestartKeepsSaved` | internal/downloader/downloader.go:1476-1512 | interrupted at any state, a restart accepts every claim of the resume file and nothing else |
| `Transfer.FetchedIsWhole` | internal/downloader/downloader.go:1124-1231 | for every event stream the transfer invariant holds at the end, and fetched data verified, with every block received once and none in flight |
| `Transfer.HonestPeerDelivers` | internal/downloader/downloader.go:1181-1223 | if all piece messages for the piece carry true bytes, duplicates, stale and unsolicited blocks never alter the buffer: no mismatch, and fetched data is the piece |
| `Transfer.SomethingOutstanding` | internal/downloader/downloader.go:1146-1174 | when the loop reads while bytes are missing, at least one and at most 16 requests are outstanding |
| `Transfer.CompleteIff` | internal/downloader/downloader.go:1146 | written reaches the piece size exactly when every block has been received |
| `Transfer.AcceptInv` | internal/downloader/downloader.go:1190-1199 | accepting an expected block keeps received and in-flight blocks a partition, the counter their total and the buffer their contents |
| `Transfer.RequestInv` | internal/downloader/downloader.go:1162-1172 | issuing a request keeps the partition and the cursor |
| `Transfer.RunKeepsInv` | internal/downloader/downloader.go:1146-1223 | from any state satisfying it, every event stream keeps the transfer invariant |
| `Transfer.MessageInv` | internal/downloader/downloader.go:1181-1222 | no message breaks the transfer invariant |
| `TransferCauses.CauseDecides` | internal/downloader/downloader.go:1146-1222 | for every stream, the first event with a cause, if a block is still missing then, decides: a cancel, a failed send, a failed read, a Choke, a Bitfield without the piece, a Piece message without header, or a wanted block of the wrong length, each with its own error; with the bitfield, the requests and the blocks in flight by then |
| `TransferCauses.HashDecides` | internal/downloader/downloader.go:1146-1230 | if all blocks arrive before any cause the hash decides, on exactly the bytes that the delivering messages brought, each at its place |
| `TransferCauses.EndDecides` | internal/downloader/downloader.go:1174-1177 | if the stream ends before either, that is a failed read |
| `TransferCauses.LackingPeerDecides` | internal/downloader/downloader.go:1125-1127 | a session whose bitfield lacks the piece gives up without a request |
| `TransferCauses.SomethingDecides` | internal/downloader/downloader.go:1146-1230 | one of these always applies |
| `TransferCauses.FetchedMeansUndisturbed` | internal/downloader/downloader.go:1146-1230 | fetched data, or a hash mismatch, means that all blocks arrived before any event with a cause |
| `TransferCauses.FieldIsLast` | internal/downloader/downloader.go:1200-1209 | the bitfield known at an event is that of the last Bitfield before it, or the initial one, with the Haves since |
| `TransferCauses.WhatIsSent` | internal/downloader/downloader.go:1139-1172 | a session sends the requests for the first blocks in order, with index, offset and length, then one cancel per block in flight if it was cancelled or choked, and nothing else |
| `TransferCauses.PipelineDepth` | internal/downloader/downloader.go:1155-1161 | the pipeline is as deep as the session's target, but at least 4 and at most 16 |
| `PeerSessions.PeerSession.DownloadPiece` | internal/downloader/downloader.go:1124-1231 | the in-place loop ends in what the transfer function says, which the TransferCauses rows determine from the events, and has sent exactly its requests and, when cancelled or choked, one cancel per block in flight |
| `PeerSessions.PeerSession.FillPipeline` | internal/downloader/downloader.go:1155-1172 | the inner loop sends exactly the requests the specification issues |
| `PeerSessions.PeerSession.HandlePiece` | internal/downloader/downloader.go:1182-1199 | a Piece message updates map, counter and buffer as specified, every copy in bounds |
| `PeerSessions.PeerSession.HandleMessage` | internal/downloader/downloader.go:1181-1222 | every message kind updates the session and the locals as the function that TransferCauses.MessageAgrees pins: a wanted block of the right length is accepted, a message with a cause ends the transfer, no other changes more than the bitfield |
| `TransferCauses.MessageAgrees` | internal/downloader/downloader.go:1181-1222 | with the pipeline full a message with a cause ends the transfer with that error, one that brings a wanted block in full is accepted at its offset, and any other leaves the blocks alone |
| `PeerSessions.PeerSession.SendCancels` | internal/downloader/downloader.go:1139-1144 | one cancel per block in flight, in any order |
| `SeedStores.ReadPieceIff` | internal/downloader/downloader.go:788-802 | exactly the non-empty ranges inside a held piece are served, with the stored bytes |
| `ServeFetch.RequestsAreServed` | internal/downloader/downloader.go:1162-1172 | every request the downloader issues lies in the range ReadPiece accepts and is answered with that block |
| `ServeFetch.AnswersAreAccepted` | internal/downloader/downloader.go:1182-1199 | the answer is a block the downloader is waiting for |
| `ServeFetch.ListenerAnswers` | internal/peer/listener.go:138-160 | an unchoked listener over a seed store sends exactly that answer |
| `ServeFetch.NetStepKeeps` | internal/downloader/downloader.go:1146-1223 | every step of the two ends succeeds, keeps the invariant and decreases a bound, so every schedule ends |
| `ServeFetch.StuckIsComplete` | internal/downloader/downloader.go:1146-1230 | where no step is possible the assembled piece is complete and equals the stored bytes |
| `ServeFetch.ScheduleExists` | internal/downloader/downloader.go:1146-1223 | taking steps while any is possible ends in a complete schedule |
| `ServeFetch.FetchGetsStoredPiece` | internal/peer/listener.go:138-160 | every complete schedule from an unchoked start assembles exactly the stored piece |
| `ServeFetch.FetchReturnsStoredPiece` | internal/downloader/downloader.go:1124-1231 | fed with the server's answers of any complete schedule, the transfer loop returns the stored piece if that verifies, else a hash mismatch |
| `Bencode.Decode` | internal/protocol/metadata.go:447-524 | every successful decode consumes between 1 and all bytes |
| `Bencode.Scanned` | internal/protocol/metadata.go:527-594 | every successful scan returns between 1 and all bytes |
| `Bencode.DecodeList` | internal/protocol/metadata.go:463-477 | the list loop collects the items in order until the end mark |
| `Bencode.DecodeDict` | internal/protocol/metadata.go:478-501 | the dictionary loop collects the entries until the end mark, a repeated key keeping its last value |
| `Bencode.ParseLength` | internal/protocol/metadata.go:510-516 | the digit loop gives the number the digits denote, or refuses |
| `Bencode.DecodeValue` | internal/protocol/metadata.go:447-524 | the decoder with its loops equals the recursive function, which consumes between 1 and all bytes |
| `Bencode.BencodeLen` | internal/protocol/metadata.go:527-594 | the scanner with its loops equals its recursive function |
| `BencodeLaws.RoundTrip` | internal/protocol/metadata.go:447-524 | decoding a canonically encoded value followed by anything gives the value and consumes exactly its encoding |
| `BencodeLaws.DecodeStable` | internal/protocol/metadata.go:447-524 | a value decoded from n bytes is decoded from every string with the same first n bytes |
| `BencodeLaws.ScannerAgrees` | internal/protocol/metadata.go:527-594 | whatever the decoder accepts, the scanner returns the length the decoder consumes |
| `BencodeLaws.ScannerAcceptsMore` | internal/protocol/metadata.go:527-594 | the converse fails: a string without length digits and a non-string key are scanned but not decoded |
| `BencodeLaws.ScannerFindsEnd` | internal/protocol/metadata.go:206-220 | in an encoded value followed by raw bytes the scanner finds where the raw bytes begin |
| `BencodeLaws.StringAcceptedIff` | internal/protocol/metadata.go:503-524 | a string is decoded exactly from digits, a colon and as many bytes as the digits say |
| `BencodeLaws.IntAcceptedIff` | internal/protocol/metadata.go:453-462 | an integer is decoded exactly from i, text that Sscanf reads, and the first e |
| `BencodeLaws.OtherTokens` | internal/protocol/metadata.go:447-452 | nothing but i, l, d and digits starts a value |
| `BencodeLaws.LastKeyWins` | internal/protocol/metadata.go:478-501 | of a key that occurs twice the last value counts |
| `InfoDict.DecodeInfoDict` | internal/protocol/metadata.go:383-445 | the parser with its loops equals the function that reads each field, error cases included |
| `InfoDict.ReadHashes` | internal/protocol/metadata.go:405-411 | the piece string cut into 20-byte hashes, a short rest dropped |
| `InfoDict.ReadFileList` | internal/protocol/metadata.go:415-438 | the files in order with their total length, entries of other types skipped |
| `InfoDict.ChopJoin` | internal/protocol/metadata.go:405-411 | cutting undoes joining |
| `InfoDict.InfoRoundTrip` | internal/protocol/metadata.go:383-445 | the encoded info dictionary of any torrent, single or multi-file, parses back to that torrent |
| `InfoDict.PrivateIff` | internal/protocol/metadata.go:383-404 | a torrent is private exactly if its dictionary says private is 1 |
| `InfoDict.LengthWins` | internal/protocol/metadata.go:411-438 | a length entry wins over the files, and without either the torrent is empty |
| `InfoDict.PartialHash` | internal/protocol/metadata.go:405-411 | hash i is bytes 20i to 20i + 20, and a short rest gives none |
| `InfoDict.StringsSplit` | internal/protocol/metadata.go:415-438 | the parts of a path are read one by one and in order, those that are no strings skipped |
| `InfoDict.FilesSplit` | internal/protocol/metadata.go:415-438 | so are the files of a list, entries that are no dictionaries skipped |
| `Metadata.FetchMetadata` | internal/protocol/metadata.go:133-244 | the exchange over a byte stream equals the specification on the messages the stream holds |
| `Metadata.ReadHandshakeMessages` | internal/protocol/metadata.go:133-164 | the first usable extension handshake among at most 200 messages, or none |
| `Metadata.SlicesInBounds` | internal/protocol/metadata.go:174-225 | every slice offset is inside the buffer |
| `Metadata.CopyAt` | internal/protocol/metadata.go:224-225 | copies as much of the slice as fits |
| `Metadata.ReadSlice` | internal/protocol/metadata.go:196-236 | waiting for a slice skips at most 200 messages, and a data message is copied at the asked offset, in bounds, as much as fits |
| `Metadata.SuccessIsAuthentic` | internal/protocol/metadata.go:238-244 | for any peer, success means the dictionary was decoded from bytes with the wanted hash |
| `Metadata.SuccessIsOriginal` | internal/protocol/metadata.go:238-244 | without collisions the result is the original's dictionary, whatever the peer sent |
| `Metadata.SliceArrivesIff` | internal/protocol/metadata.go:196-234 | an answer arrives through any other traffic exactly when fewer than 200 messages precede it |
| `Metadata.HonestPeerDelivers` | internal/protocol/metadata.go:133-236 | a peer that answers each request with a dictionary and the exact slice, with fewer than 200 other messages before the handshake and each answer and anything after, delivers the original if that has the wanted hash, else a hash mismatch, for every size |
| `Metadata.TorrentTravels` | internal/protocol/metadata.go:133-244 | through the same traffic, an honest peer's torrent comes back field by field |
| `Metadata.HandshakeDecides` | internal/protocol/metadata.go:133-172 | the first usable handshake decides: no ut_metadata, or a size that is not between 1 byte and 10 MiB, ends the exchange with its own error |
| `Metadata.NoHandshakeAtAll` | internal/protocol/metadata.go:133-169 | without a usable handshake the exchange ends after 200 messages, or with the stream |
| `Metadata.DictReply` | internal/protocol/metadata.go:205-234 | msg_type 1 is data, 2 a rejection, anything else is skipped |
| `Metadata.SliceFailureDecides` | internal/protocol/metadata.go:196-236 | after any number of slices, a rejection, 200 other messages or the end of the stream end the exchange with their own errors |
| `Wire.Stream.ReadFull` | internal/protocol/protocol.go:130-161 | takes exactly the asked number of bytes, or everything and fails |
| `Wire.Stream.ReadMessage` | internal/protocol/protocol.go:130-161 | reading takes one frame off the stream or fails as the frame function says |
| `Wire.ReadBack` | internal/protocol/protocol.go:130-178 | reading undoes writing for every message the format can carry, whatever follows |
| `Wire.AcceptsOnlyEncodings` | internal/protocol/protocol.go:130-178 | a received message is sendable and the bytes taken are its encoding |
| `Wire.StreamRoundTrip` | internal/protocol/protocol.go:130-178 | reading the concatenated encodings of any message list gives that list, then whatever the rest holds |
| `Wire.EncodeAllInjective` | internal/protocol/protocol.go:164-178 | no two message lists share an encoding |
| `Wire.RequestInverse` | internal/protocol/protocol.go:211-232 | a payload parses as a request exactly when the builder makes it |
| `Wire.PieceInverse` | internal/protocol/protocol.go:235-255 | a payload parses as a block exactly when the builder makes it |
| `Wire.FrameBytes` | internal/protocol/protocol.go:164-178 | the frames of the message kinds as bytes: the length, most significant byte first, the number, the payload |
| `Wire.PayloadBytes` | internal/protocol/protocol.go:211-285 | Request, Cancel and Piece messages have the numbers 6, 8 and 7 and the payload of three words, or two words and the block |
| `Wire.WordBytes` | internal/protocol/protocol.go:211-255 | words are most significant byte first |
| `Wire.OversizedIff` | internal/protocol/protocol.go:130-161 | a frame is refused for its length exactly when the length word exceeds 32 MiB |
| `Choke.UnchokeRound.DecideUnchokes` | internal/choke/choke.go:93-182 | with peers present exactly the chosen ones are unchoked, as many as slots or peers, the two lists are exactly the change without repetition, counters are reset and the pick is remembered, forgotten without slots and kept by an ordinary round; in the statistics: nobody choked gave us more than an unchoked one, nor as much and got more, nor is equal in both and more recent, but for the pick of a round whose number is a multiple of the interval |
| `Choke.UnchokeRound.RegisterPeer` | internal/choke/choke.go:43-55 | a new peer starts choked, a known one keeps its statistics |
| `Choke.UnchokeRound.RemovePeer` | internal/choke/choke.go:58-64 | the peer goes, the others stay as they are |
| `Choke.UnchokeRound.RecordUpload` | internal/choke/choke.go:67-77 | only a known peer's statistics change, and never a choke flag |
| `Choke.UnchokeRound.RecordDownload` | internal/choke/choke.go:80-90 | only a known peer's statistics change, and never a choke flag |
| `Choke.ChosenSize` | internal/choke/choke.go:117-157 | a round chooses exactly as many known peers as there are slots |
| `Choke.OrdinaryRoundIsFair` | internal/choke/choke.go:124-129 | in an ordinary round no choked peer beats an unchoked one in bytes downloaded, then bytes uploaded in total, then activity |
| `Choke.OptimisticRoundIsFair` | internal/choke/choke.go:131-157 | in an optimistic round only the pick can be beaten so by a choked peer |
| `Choke.PickRotates` | internal/choke/choke.go:133-145 | the pick repeats the last one only if it is the single peer below the cut |
| `Choke.PickRepeatsIff` | internal/choke/choke.go:133-154 | the remembered pick is unchanged by an optimistic round exactly when it is the one peer below the cut |
| `Choke.OptimisticRounds` | internal/choke/choke.go:132 | a round is optimistic exactly if its number is a multiple of a positive interval and there are slots, but fewer than peers |
| `Choke.PickIsFirstOther` | internal/choke/choke.go:133-145 | the pick is the first below the cut that is not the last pick; only if there is none it is the first below the cut |
| `Choke.UnchokeRound.Collect` | internal/choke/choke.go:100-104 | the table's entries, each once, in any order |
| `Choke.UnchokeRound.SortByDownloadRate` | internal/choke/choke.go:211-221 | the peers ranked, none above one that beats it in downloads, uploads and activity, as RankingIsWeakOrder spells out |
| `Choke.UnchokeRound.FindOptimistic` | internal/choke/choke.go:133-145 | the first peer below the cut that was not picked last, or the first below the cut |
| `Choke.UnchokeRound.FillSlots` | internal/choke/choke.go:117-157 | the top slots, in an optimistic round with the last of them given to the pick |
| `Choke.UnchokeRound.ApplyFlags` | internal/choke/choke.go:159-173 | the flags become those of the chosen set, and the lists name each changed peer once |
| `Choke.RankingIsWeakOrder` | internal/choke/choke.go:211-221 | the comparator is a strict weak order, and ranks a above b exactly unless a gave no more, with equal amounts got no more, and with these equal is no more recent |
| `Listener.Connection.Serve` | internal/peer/listener.go:91-161 | the connection loop ends in what the specification says of its input stream, which the laws below determine |
| `Listener.Connection.FollowPolicy` | internal/peer/listener.go:97-110 | asks the policy once, and tells the peer its new state exactly if the answer changed; recorded only if the send succeeded (Listener.ConsultObeys: then the peer stands as the policy says) |
| `Listener.Connection.Handle` | internal/peer/listener.go:116-161 | each message kind acts as specified, ignored requests included |
| `Listener.RunKeeps` | internal/peer/listener.go:96-162 | from any consistent connection state, whatever follows on the stream keeps the discipline, the upload totals and the send outcomes consistent |
| `Listener.ChokeStateAlternates` | internal/peer/listener.go:91-161 | with a policy and a resolved address, Choke and Unchoke alternate starting with Choke and blocks go out only between an Unchoke and the next Choke, whatever the peer sends |
| `Listener.AlternatesIff` | internal/peer/listener.go:117-137 | the discipline holds exactly when there is a policy and an address, or the connection takes at most one Interested |
| `Listener.AlternatesIffInput` | internal/peer/listener.go:117-137 | with no send failing, that is at most one Interested on the stream |
| `Listener.RepeatedUnchoke` | internal/peer/listener.go:132-137 | without a policy two Interested messages make it send Unchoke twice in a row |
| `Listener.UploadsAreExact` | internal/peer/listener.go:152-160 | the reported uploads add up to the block bytes of the Piece messages sent |
| `Listener.FailedSendIsLast` | internal/peer/listener.go:91-161 | after the greeting a failed send ends the connection |
| `Listener.OnlyAnswers` | internal/peer/listener.go:138-160 | a block goes out only for a well-formed request from an unchoked peer, and is what the provider holds there |
| `Listener.UnchokedPeerIsServed` | internal/peer/listener.go:138-160 | the converse over a whole connection: a peer that stands unchoked and asks for a block the provider holds gets exactly that Piece message next |
| `Listener.PolicyIsObeyed` | internal/peer/listener.go:97-131 | a governed open connection has asked its policy once per read and per Interested, and whenever it reads the peer has been told the latest answer |
| `Listener.InterestedIsAnswered` | internal/peer/listener.go:117-137 | right after an Interested the peer stands as the policy has just said, and unchoked without a policy |
| `Listener.WithoutPolicy` | internal/peer/listener.go:132-137 | without a policy the peer stands unchoked exactly from its first Interested on |
| `Listener.OpensWithBitfield` | internal/peer/listener.go:91-93 | every connection opens with the bitfield and a Choke |
| `Listener.ConsultObeys` | internal/peer/listener.go:97-110 | after asking, the peer has been told what the policy answered, by one message if that changed and none otherwise |
| `Distance.XorDist` | internal/dht/dht.go:45-51 | the loop computes the bytewise exclusive or |
| `Distance.DistIsXor` | internal/dht/dht.go:45-51 | as a number, the distance is the exclusive or of the two identifiers as numbers |
| `Distance.LessIsNumeric` | internal/dht/dht.go:76-78 | the comparator orders candidates by numeric 160-bit XOR distance |
| `Distance.EqualDistanceSameId` | internal/dht/dht.go:45-51 | only one identifier lies at a given distance |
| `Dht.Lookup.AddNodes` | internal/dht/dht.go:95-114 | admits each unseen address once, and leaves the list sorted, address-unique, capped at 200 and holding the closest of everything ever admitted |
| `Dht.Lookup.AddPeers` | internal/dht/dht.go:117-127 | a peer is in the list exactly if it was or is in the reply; the old list is a prefix, nothing repeats, and new peers stand in the order of their first occurrence |
| `Dht.Lookup.SelectBatch` | internal/dht/dht.go:142-155 | flags and returns the first three unqueried candidates, none claimed before |
| `Dht.Lookup.GetPeers` | internal/dht/dht.go:83-186 | over any replies in any order, each address is queried at most once, rounds are bounded by addresses admitted, and a lookup that runs out of candidates has queried all of the closest 200; the result is none exactly if no reply of the rounds held a peer, else exactly their peers in order of first mention, and an address is admitted exactly if a seed or reply named it, with its first identifier |
| `Dht.Lookup.ApplyReplies` | internal/dht/dht.go:160-173 | a round's replies, in the order they get the lock, are folded into nodes and peers |
| `Dht.FindLaw` | internal/dht/dht.go:117-127 | over all rounds, what is found is what the replies carried, each peer once, in the order of first mention |
| `Dht.AdmittedLaw` | internal/dht/dht.go:95-109 | over all rounds, exactly the addresses named by a seed or a reply are admitted, with the identifier of the first mention |
| `Dht.CutKeepsClosest` | internal/dht/dht.go:110-113 | sorting and cutting after each reply keeps the closest of all nodes ever admitted |
| `Dht.IncrementalCutIsExact` | internal/dht/dht.go:110-113 | place by place the list has the distances and identifiers of sorting everything once and cutting once |
| `Dht.BatchIsClosest` | internal/dht/dht.go:144-155 | a batch is the up to three closest unqueried candidates |
| `Layout.TilesIff` | internal/downloader/downloader.go:1514-1527 | the piece ranges tile the payload exactly when the piece count is the length over the piece length, rounded up |
| `Layout.PiecesCover` | internal/downloader/downloader.go:1514-1527 | every byte before the end of the last piece is in the piece its offset says |
| `Layout.PiecesDisjoint` | internal/downloader/downloader.go:1514-1527 | different pieces never share a byte |
| `Files.SanitizePathParts` | internal/downloader/downloader.go:1462-1474 | the loop equals the function that trims, drops and rewrites the parts |
| `Files.DestinationsStayInside` | internal/downloader/downloader.go:1431-1435 | whatever the torrent says, every destination lies below the root directory, by plain names |
| `Files.Directory.WriteFile` | internal/downloader/downloader.go:1437-1454 | makes the directories, opens with truncation and copies from the payload file as it then is, with each failure's effect |
| `Files.Directory.Materialize` | internal/downloader/downloader.go:1419-1460 | the loop equals the specification on the directory, of which the payload file is a part, in result and in what is left on disk |
| `Files.Directory.Finish` | internal/downloader/downloader.go:715-729 | materializing, then removing the resume file and logging, on the same directory |
| `FileLaws.WrittenIff` | internal/downloader/downloader.go:1419-1460 | succeeds exactly for non-negative lengths within the payload, destinations that are no directories and not below files or each other, and only empty files from the payload's own path on |
| `FileLaws.LastWriterOwns` | internal/downloader/downloader.go:1442-1456 | after success a destination holds the section of the last file that goes there, and every other path is as before |
| `FileLaws.IntactIff` | internal/downloader/downloader.go:715-729 | at the end every file holds its own section exactly if materializing succeeds, no file has the resume file's or the open log's path, and files sharing a destination have equal sections |
| `FileLaws.OutputsJoin` | internal/downloader/downloader.go:715-729 | then, with distinct destinations, the files in order are the payload |
| `FileLaws.WriteKeepsTree` | internal/downloader/downloader.go:1437-1442 | no path becomes both file and directory, and nothing comes to lie below a file |
| `FileLaws.PayloadNameFails` | internal/downloader/downloader.go:1442-1451 | a file with the payload's name empties the payload and fails |
| `FileLaws.StateNameVanishes` | internal/downloader/downloader.go:720-722 | a file with the resume file's name is written and then removed |
| `FileLaws.LogNameGrows` | internal/downloader/downloader.go:724-728 | a file with the log's name has the last log line appended |
| `FileLaws.CleanSplit` | internal/downloader/downloader.go:1462-1474 | path parts are treated one by one and keep their order |
| `FileLaws.TrimExact` | internal/downloader/downloader.go:1462-1474 | trimming leaves what is between the spaces at the two ends |
| `FileLaws.PlainPathsPassThrough` | internal/downloader/downloader.go:1462-1474 | a path of ordinary names is the destination as it stands |
| `FileLaws.OthersUntouched` | internal/downloader/downloader.go:1419-1460 | paths that no file goes to are left alone, also by an attempt that fails |
| `FileLaws.FailureKeepsResumeFile` | internal/downloader/downloader.go:715-722 | a download whose files cannot be written keeps its resume file |
| `Bitfield.BuildBitfield` | internal/peer/listener.go:29-44 | a bit is set exactly for the pieces the provider has, spare bits are zero |
| `Bitfield.WithPieceExact` | internal/downloader/downloader.go:1736-1751 | setting a piece, growing if needed, adds exactly that piece |
| `Bitfield.MembershipAfterSets` | internal/downloader/downloader.go:1736-1751 | after any sequence of sets the members are the initial ones and those set |
| `Bitfield.BitOrder` | internal/downloader/downloader.go:1651-1658 | piece i is bit 7 - i % 8 of byte i / 8, counted from the low end |
| `Bitfield.GrowsAsNeeded` | internal/downloader/downloader.go:1736-1751 | the bitfield grows by just as many bytes as the piece needs |
| `RarestFirst.BuildOrder` | internal/downloader/downloader.go:1683-1727 | the order sorts all pieces by the counts of the probed bitfields |
| `RarestFirst.BeforeIsTotal` | internal/downloader/downloader.go:1711-1724 | the comparator is a strict total order |
| `RarestFirst.OrderIsPermutation` | internal/downloader/downloader.go:1707-1726 | every piece is in the order exactly once |
| `RarestFirst.OrderUnique` | internal/downloader/downloader.go:1711-1726 | the counts determine the order |
| `RarestFirst.RareBeforeCommon` | internal/downloader/downloader.go:1711-1724 | in the counts: rare pieces come before common ones, unseen ones last, equals by index |
| `RarestFirst.CountsHolders` | internal/downloader/downloader.go:1683-1705 | a piece's count is the number of probed peers whose bitfield has it |

## Left out

- Fairness: no scheduler or peer behaviour is assumed, so it is proved from which states a download can succeed, not that it does.
- Worker panics: a recovered panic drops the piece a worker holds; the invariants are for runs without one.
- Sockets, deadlines, dialing and real clocks: reads, replies, errors and time are arbitrary inputs of steps; the 25 minute timer may fire at any moment.
- The protocol handshakes and newPeerSession: a session starts unchoked with some bitfield, as the setup leaves it.
- Peer scores, backoff and latencies: Acquire takes any available peer.
- Metadata: the bytes of our handshake and requests; a send of these that fails ends the exchange in the source, and the model's succeed.
- tuneInflight: the pipelining target of a session is any integer, clamped as the code clamps it.
- Peer exchange: Extended messages met during a transfer are ignored, except that peers may be added at any time.
- The format of the resume file: loading gives any list of flags or nothing, and saving stores the flags.
- Errors of the output file other than a failed piece write, fsync, and failures of the file system while materializing other than a file or directory in the way; links, name lengths and case-insensitive names.
- The temporary file that saving the resume state renames, and a periodic save still under way when the download ends.
- Integer widths: declared bencode lengths and byte counters are unbounded; piece sizes and indices are taken to fit the wire format's 32 bits, whose wrap-around in the encoder is modelled.
- Torrents without pieces or with piece length 0, and negative total lengths.
- Choke.UnchokeRound: statistics are values in a map, so pointers handed out by GetPeerStats and GetAllStats are not modelled, nor are callers that change the exported fields.
- Dht.Lookup: candidates are values in the list, not shared pointers; KRPC messages, node and peer parsing, and UDP are replaced by arbitrary replies.
- Listener: accepting connections and OnPeerSeen; one connection is modelled, for any answers of its policy and provider.
- decodeBencodeValueDL, downloadPieceFromPeer and RequestPiece, which repeat code modelled here or are unused.
- Trackers, UPnP, NAT-PMP, magnet parsing, the manager and state packages, progress output and the command line.
