# Verified model of a BitTorrent client core

This project models the stateful core of a C++ BitTorrent client and proves what it promises, for
every input, every run and every interleaving. Verify it with `dafny verify dfyconfig.toml`.

| part | modules | in the source |
|---|---|---|
| Piece download protocol | `Download`, `DownloadSafety`, `DownloadTheorems`, `DownloadCalls`, `LockedDownload`, `DownloadLiveness`, `Pieces`, `BlockTransfer`, `BlockHistory` | peer threads that race, without locks, to claim, verify, store and count pieces |
| Disk | `Disk`, `FileLocks` | pieces written across many files under ordered locks |
| Routing table | `NodeIds`, `Nearest`, `Routing`, `RoutingHistory` | the XOR metric and the buckets of the DHT |
| get_peers lookups | `Lookup`, `LookupManager`, `LookupTheorems`, `LookupHistory`, `LookupQueries`, `LookupStalls`, `LookupService` | concurrent iterative Kademlia lookups |
| Peer store | `Lru`, `LruList`, `PeerStore`, `PeerAnswers` | a cache of caches with a front-only expiry |
| Codecs and tokens | `Bencode`, `BencodeTheorems`, `BencodeGrammar`, `BencodeParser`, `Krpc`, `KrpcTheorems`, `KrpcFields`, `KrpcCodec`, `TokenRotator` | bencoding, KRPC messages, announce tokens |

How it is built:

- A protocol is a state machine: a value for the state, a function for each step, and `Run` over a
  sequence of steps. Theorems quantify over all runs. In `Download` one step is one atomic load,
  compare-and-swap, store or file write of one thread (sequentially consistent); in `FileLocks` one
  step takes or releases one mutex or visits one file.
- `Download` ignores the file mutexes and lets a connection hand over any buffer, so it has more runs than
  the source: right for what never goes wrong. What can still be achieved is stated on `LockedDownload`,
  whose runs are those runs of `Download` that the mutexes and the block exchange allow.
- An object whose methods update its fields is a class, and each method is proved equal to the step
  function the theorems speak about, or to a property stated outright. Loops are loops.
- Clocks, SHA-1, random bytes, `std::sort`, the answers of the network, I/O errors and the iteration
  order of hash tables are parameters or free choices. `Nearest.SortExists` shows that the
  assumption about `std::sort` can be met.
- History fields (`stage`, `owner`, `learned`, `asked`, `completed`, `collided`, `sent`, `lost`) are
  written and never read by any operation; they only let a theorem speak about the past.

What is assumed, and where:

- A well-formed torrent (piece count = total / piece size rounded up) where bytes and lengths are
  counted (`BytesAreConserved`, `BytesTellOnDisk`, `SeenIsOnDisk`, `CompletionIsExact`, `LengthsSum`).
  `DownloadTheorems.PieceLengthsAgree` says exactly when the two length computations agree.
- Unused transaction ids only for `LookupTheorems.BindingsAreExact` and `LookupStalls.NeverStalls`; the other
  results about lookups hold when ids collide.
- Every failed write is reported by the stream it was made on. An `fstream` that fails only when its
  destructor flushes (src/peer_wire/disk_writer.cpp:150-163) would go unseen.
- Distinct secrets and no SHA-1 collision among the token materials of the run only for
  `TokenRotator.TokenIsExact`.

Where the code and its comments disagree, the code is modelled:

- The comments at inc/peer_wire/piece_manager.h:85 and :135 read "have" as verified and on disk, but the
  flag is set before the write (src/peer_wire/piece_manager.cpp:145, 151). `HaveBeforeDisk` is a run in
  which a piece is had and not on disk; `HaveWindow` says what having a piece means, `BytesTellOnDisk`
  when a caller can rely on it, and `FailedWriteIsFinal` that a piece whose write throws is never stored
  again. `DownloadLiveness.CompletableIff` says exactly which downloads can still be completed: a torrent
  whose two piece lengths disagree, or with a piece of a wrapping block count, never is.
- The block count (src/peer_wire/peer_connection.cpp:297) is 0 for an empty piece and for one within
  16 KiB of 4 GiB. `BlockTransfer.CompletableIff` says exactly which pieces can be completed.
- The last step of on_response erases the answered id (src/dht/get_peers_lookup_manager.cpp:136), also when
  advance_lookup has just drawn the same id again. `LookupStalls.SomeRunStrands` is a run in which this strands
  a lookup, `StrandedIff` says exactly which lookups are stranded, and `StrandedStays` that they stay so until
  they expire.
- start_or_advance reports completion when it clears an exhausted lookup (src/dht/get_peers_lookup_manager.cpp:63),
  and overwrites the report when it starts the next one at once (:80). `LookupQueries.StartReports` shows that it
  never reports completion, so the branch at src/dht/dht_client.cpp:541 is dead.
- The guard of parse_byte_string (src/bencode/bencode_parser.cpp:101) adds in 64 bits and wraps. The model
  keeps it and reports `OutsideBuffer` where the source has no defined behaviour; `GuardIsExact` says
  exactly when a string leaves the buffer, `OutsideIffSomeWraps` and `KrpcTheorems.DefinedIff` exactly which
  inputs make it happen.
- read_block trusts the manager's piece length (src/peer_wire/piece_manager.cpp:192-207). For a torrent with
  the wrong number of hashes it can copy past the piece; `Pieces.ServesInsideIff` says exactly when.

## Model

| member | source | states |
|---|---|---|
| `DownloadTheorems.CompleteMeansVerified` | src/peer_wire/piece_manager.cpp:111-163 | In every interleaving of any number of threads, with endgame races and failed writes, if is_complete() holds then the bytes of every piece in the concatenated files hash to its expected SHA-1. |
| `DownloadTheorems.ClaimsAreExclusive` | src/peer_wire/piece_manager.cpp:37-85 | In every reachable state two connections never hold the same exclusive claim, and a piece claimed but not had is held by a live connection. |
| `DownloadTheorems.NoClaimLeaks` | src/peer_wire/piece_manager.cpp:210-231 | When all connections are gone, by choke, hash failure, disconnect, endgame loss or exception, every claim left belongs to a piece that is had. |
| `DownloadCalls.ChokeAlone` | src/peer_wire/peer_connection.cpp:389-407 | From every reachable state: a choke, its thread then left alone, drops the piece and leaves the connection idle; its claim is free again exactly if it was exclusive and the piece is not had; nothing else in the whole state changes. |
| `DownloadCalls.DisconnectAlone` | src/peer_wire/peer_connection.cpp:42-48 | The same for the end of a connection, which is then gone for good. |
| `DownloadCalls.RejectedAlone` | src/peer_wire/peer_connection.cpp:569-588 | The same for a finished buffer of the wrong hash, or for a piece that is had by then: nothing is stored or counted, and the claim is released unless the piece is had. |
| `DownloadCalls.LostRaceAlone` | src/peer_wire/piece_manager.cpp:121-149 | A thread at any of the three tests of complete_piece that meets a piece somebody else has won gives it up and leaves every claim as it is. |
| `DownloadCalls.AcceptedAlone` | src/peer_wire/piece_manager.cpp:111-158 | From every reachable state: a buffer of the right hash and size for a missing piece, left alone, ends on disk with no other byte changed; the piece is had, its length added, counted once, its claim kept, and the connection idle with no piece. |
| `DownloadCalls.OversizedAlone` | src/peer_wire/piece_manager.cpp:144-151 | A buffer of the right hash that does not fit: the piece stays marked and claimed, nothing is written or counted, and the connection is gone. |
| `DownloadCalls.FaultAlone` | src/peer_wire/disk_writer.cpp:150-163 | An I/O error in a write leaves any torn bytes in the chunk and every other byte as it was; the piece stays marked and claimed, is lost, and the connection is gone. |
| `DownloadCalls.FillAlone` | src/peer_wire/peer_connection.cpp:267-308 | fill_requests, left alone, keeps a piece that is still missing; otherwise it takes the one good pick there is, and claims exactly that piece if nobody has. |
| `DownloadCalls.AnnounceAlone` | src/peer_wire/peer_connection.cpp:432-481 | A have or bitfield message adds exactly that piece to what the peer offers. |
| `DownloadTheorems.BytesAreConserved` | src/peer_wire/piece_manager.cpp:144-163 | Downloaded bytes never exceed the total, and equal it when complete. |
| `DownloadTheorems.CountedAtMostOnce` | src/peer_wire/piece_manager.cpp:153-156 | In any interleaving the increment of the completed count is passed at most once for each piece, and the count is the number of pieces it was passed for. |
| `DownloadTheorems.CompletionIsExact` | src/peer_wire/piece_manager.cpp:160-163 | With no write failure and no thread inside complete_piece, complete if and only if every piece is had. |
| `DownloadTheorems.HaveWindow` | src/peer_wire/piece_manager.cpp:144-151 | A had piece is on disk, or some thread is inside its write, or its write failed. |
| `DownloadTheorems.BytesTellOnDisk` | src/peer_wire/piece_manager.cpp:144-156 | What a caller can check: the downloaded bytes equal the lengths of the had pieces if and only if no had piece is still being stored or was lost, and then every had piece is on disk. |
| `DownloadTheorems.SeenIsOnDisk` | src/peer_wire/piece_manager.cpp:144-180 | The same for a caller that reads the byte counter first and the flags one by one afterwards, while the threads run on: if the bytes are the lengths of the pieces it saw as had, each of them is on disk. |
| `DownloadTheorems.HaveBeforeDisk` | src/peer_wire/piece_manager.cpp:144-151 | A run in which a piece is had while the disk does not hold it. |
| `DownloadTheorems.FailedWriteIsFinal` | src/peer_wire/piece_manager.cpp:144-155 | Once write_piece throws, for its size, its index or an I/O error, then in every continuation the piece stays marked as had, nobody writes it again, and the download is never complete. |
| `DownloadTheorems.WriteCanThrow` | src/peer_wire/disk_writer.cpp:150-163 | A run from the start in which a write throws. |
| `DownloadLiveness.CompletableIff` | src/peer_wire/piece_manager.cpp:37-163 | With the mutexes and with real buffers, from every reachable state some continuation completes the download if and only if no write has thrown and every piece has bytes of the right length and hash, one length for manager and disk writer, and a block count that does not wrap. |
| `DownloadLiveness.StartsCompletable` | src/peer_wire/piece_manager.cpp:9-28 | A fresh download can be completed if and only if every piece has such bytes, lengths and block count. |
| `DownloadLiveness.FinishAlone` | src/peer_wire/piece_manager.cpp:144-157 | While no call is inside the disk writer, the winner of a piece, left alone, takes its mutexes, stores the piece, releases them and counts it. |
| `DownloadLiveness.FetchAlone` | src/peer_wire/peer_connection.cpp:278-329 | While no call is inside the disk writer, a fresh connection to a peer with genuine bytes that can be handed over, left alone, claims or shares a missing piece, fetches it and counts it, whoever holds its claim. |
| `DownloadLiveness.FindClear` | src/peer_wire/disk_writer.cpp:100-109 | Among any calls inside the disk writer some one has no other call in the way of the mutexes it still needs. |
| `DownloadLiveness.RunThrough` | src/peer_wire/disk_writer.cpp:96-253 | Such a call runs to its end: a read changes nothing, a write that fits stores its piece, all its mutexes are free again. |
| `DownloadLiveness.Drain` | src/peer_wire/disk_writer.cpp:96-253 | From every reachable state without a failed write, of a download that can be completed, all calls inside the disk writer can be finished without losing a piece. |
| `LockedDownload.RunRefines` | src/peer_wire/disk_writer.cpp:96-253 | Every run with mutexes and real buffers is a run of the protocol without them, so all its safety results hold here. |
| `LockedDownload.GoKeeps` | src/peer_wire/disk_writer.cpp:100-193 | Every step keeps mutual exclusion on every file, and only pieces of agreeing lengths are ever stored. |
| `LockedDownload.DeliverableIff` | src/peer_wire/peer_connection.cpp:290-301 | The buffers a connection may hand over are exactly those that some block exchange of the piece produces. |
| `DownloadTheorems.PieceLengthsAgree` | src/peer_wire/piece_manager.cpp:87-97 | The two piece_length computations agree on every index if and only if the torrent is well formed or the missing tail is a multiple of 2^32. |
| `DownloadTheorems.LengthsSum` | src/peer_wire/disk_writer.cpp:255-271 | The lengths of the pieces of a well-formed torrent add up to the total. |
| `DownloadSafety.ApplyKeeps` | src/peer_wire/piece_manager.cpp:37-231 | Every atomic step of every thread keeps the invariant: one winner per piece, its write progress on disk, claims with their owners, counters with the stages. |
| `DownloadSafety.RunKeeps` | src/peer_wire/peer_connection.cpp:254-589 | The invariant holds after every run. |
| `Pieces.PieceManager.NextNeeded` | src/peer_wire/piece_manager.cpp:37-85 | Returns the lowest piece the peer offers that is neither had nor claimed, and claims it; else the lowest offered piece not had, unclaimed; else nothing, and then every offered piece is had. |
| `Pieces.PickIsUnique` | src/peer_wire/piece_manager.cpp:37-85 | That description leaves exactly one answer. |
| `Pieces.ScanAlone` | src/peer_wire/piece_manager.cpp:40-84 | A thread left alone in the search of the interleaved machine ends with that same pick, claim and owner. |
| `Pieces.PieceManager.CompletePiece` | src/peer_wire/piece_manager.cpp:111-158 | Every outcome with its exact condition: unknown index, already had, bad hash, stored and counted with the bytes on disk, or marked and lost with the one error the write ends in; the hash invariant of stored pieces is kept. |
| `Pieces.PieceManager.AbortPiece` | src/peer_wire/piece_manager.cpp:210-231 | Clears the claim of a piece that is not had, and nothing else. |
| `Pieces.PieceManager.ReadBlock` | src/peer_wire/piece_manager.cpp:182-208 | For any torrent, exactly which requests are refused, which disk error they end in, and which leave the piece just read; a block served is that slice of the piece on disk, whose hash is right unless its write failed. |
| `Pieces.ServesInsideIff` | src/peer_wire/piece_manager.cpp:192-207 | No request that passes the length test leaves its piece if and only if the torrent is well formed, or the 32-bit cast hides its missing tail, or its surplus hashes begin where the bytes end. |
| `Pieces.OverreadExample` | src/peer_wire/piece_manager.cpp:192-207 | A torrent of 100 bytes in pieces of 10 with one hash, on which the length test admits a block behind the piece. |
| `BlockTransfer.AnyMessages` | src/peer_wire/peer_connection.cpp:290-329 | Whatever messages arrive, requests tile a prefix of the piece in order, each at most 16 KiB, the done count is the number of flags set, writes stay in the buffer, and the pipeline is refilled to 15 until all is requested. |
| `BlockHistory.AnyBuffer` | src/peer_wire/peer_connection.cpp:499-569 | For any messages of any peer: a block is marked exactly if a message inside the piece came for it, each byte is that of the last stored message that covers it or zero, only the first message for a block is stored, the in-flight counter is requests less messages modulo 2^32, and the buffer is handed over exactly when the message is the first for its block and no block is missing. |
| `BlockTransfer.HonestRunInStep` | src/peer_wire/peer_connection.cpp:499-563 | If the peer answers only outstanding requests, once and in full, the requests in flight are those sent and not answered, at most 15; and unless the block count wraps no answer is refused and each lies at its own offset. |
| `BlockTransfer.HonestBuffer` | src/peer_wire/peer_connection.cpp:566-569 | The buffer then handed to complete_piece is the in-order concatenation of the answers to all requests. |
| `BlockTransfer.CompletableIff` | src/peer_wire/peer_connection.cpp:290-329 | A claimed piece can be completed, by an honest peer or by any messages at all, if and only if it is not empty and its block count does not wrap; and then an honest peer can hand over any bytes of that length. |
| `BlockTransfer.NeverCompletes` | src/peer_wire/peer_connection.cpp:297-301 | An empty piece, or one whose block count wraps, accepts no block and never completes. |
| `BlockTransfer.SomeUnanswered` | src/peer_wire/peer_connection.cpp:314-328 | An honest exchange that is not finished always has an unanswered request. |
| `BlockTransfer.HonestDrain` | src/peer_wire/peer_connection.cpp:499-569 | From any point of an honest exchange that sends slices of some bytes the peer can go on until exactly those bytes are handed over. |
| `BlockTransfer.PeerConnection.FillRequests` | src/peer_wire/peer_connection.cpp:254-329 | The guards, the dropped endgame piece, the new claim, and exactly the requests sent. |
| `BlockTransfer.PeerConnection.HandlePiece` | src/peer_wire/peer_connection.cpp:499-589 | A block is ignored, stored, or completes the piece; which buffer is handed over and which claim released. |
| `BlockTransfer.PeerConnection.HandleChoke` | src/peer_wire/peer_connection.cpp:389-407 | Drops the piece and releases the claim only if it was exclusive. |
| `Disk.BuildLayout` | src/peer_wire/disk_writer.cpp:24-44 | The offsets are contiguous and end at the total, or the torrent is refused. |
| `Disk.DiskWriter.PreallocateFiles` | src/peer_wire/disk_writer.cpp:53-84 | Succeeds exactly when every file can be created and sized; then every file has its final length, all zero; a failure leaves the flag as it was. |
| `Disk.DiskWriter.WritePiece` | src/peer_wire/disk_writer.cpp:96-178 | Success is a slice update of the flat view of all files; failure disturbs at most the piece's own range; each error has its exact condition, an I/O error exactly when a file that holds bytes of the piece fails; "did not fully map" never happens. |
| `Disk.DiskWriter.ReadPiece` | src/peer_wire/disk_writer.cpp:180-253 | Success is that slice of the flat view; each error has its exact condition, an I/O error exactly when a file that holds bytes of the piece fails; "did not fully map" never happens. |
| `Disk.WriteThenRead` | src/peer_wire/disk_writer.cpp:120-252 | Reading a piece after writing it returns the data; every other piece keeps its bytes. |
| `Disk.PiecesDisjoint` | src/peer_wire/disk_writer.cpp:255-271 | The ranges of different pieces do not overlap. |
| `Disk.DiskWriter.FileIndicesForPiece` | src/peer_wire/disk_writer.cpp:278-297 | The scan computes the file list that the locks are taken for. |
| `Disk.FilesOfSpec` | src/peer_wire/disk_writer.cpp:278-297 | That list is ascending and holds exactly the files that overlap the piece. |
| `Disk.TouchesOnlyItsFiles` | src/peer_wire/disk_writer.cpp:120-177 | Every file a read or write of a piece touches is in its locked set. |
| `FileLocks.PieceIoIsAtomic` | src/peer_wire/disk_writer.cpp:96-253 | However reads and writes of pieces interleave, with writers that throw and leave a damaged chunk, when one is about to release its locks the flat view holds, over its whole piece, the bytes it wrote or read. |
| `FileLocks.NoDeadlock` | src/peer_wire/disk_writer.cpp:100-118 | In every reachable state with any number of readers and writers, of buffers of any size, some unfinished one can move. |
| `FileLocks.Drain` | src/peer_wire/disk_writer.cpp:184-193 | From every reachable state some schedule finishes every task. |
| `FileLocks.StepConsumes` | src/peer_wire/disk_writer.cpp:96-253 | Every step uses up part of a finite measure, so no schedule runs for ever. |
| `FileLocks.ApplyKeeps` | src/peer_wire/disk_writer.cpp:100-193 | Every step keeps the lock invariant. |
| `NodeIds.XorLoop` | src/dht/node_id.cpp:43-49 | The loop computes the XOR of two ids. |
| `NodeIds.LessIsNumeric` | src/dht/node_id.cpp:51-54 | The byte-wise comparison is the numeric order of the 160-bit values. |
| `NodeIds.DistanceInjective` | src/dht/node_id.cpp:43-54 | Two different ids are never at the same distance from a target. |
| `NodeIds.DistanceZero` | src/dht/node_id.cpp:75-81 | Distance zero means the same id. |
| `Routing.BucketIndex` | src/dht/routing_table.cpp:112-135 | The bit scan finds the exponent of the distance, and 160 for ourselves. |
| `Routing.BucketRange` | src/dht/routing_table.cpp:112-135 | Bucket b is exactly the ids at distance 2^b up to 2^(b+1). |
| `Routing.RandomIdInBucket` | src/dht/routing_table.cpp:312-343 | For every bucket below 160 and every outcome of the coin flips the id lands in that bucket. |
| `Routing.ReachableTable` | src/dht/routing_table.cpp:149-252 | After any run of adds and removes entries are in their buckets, no id occurs twice, neither self nor zero occurs, and no bucket exceeds 8. |
| `Routing.FullBucketPolicy` | src/dht/routing_table.cpp:209-231 | A full bucket drops the newcomer if and only if all eight are good, and otherwise replaces its oldest entry, silent for 15 minutes. |
| `RoutingHistory.RoomyBucket` | src/dht/routing_table.cpp:166-252 | As long as a bucket never has to hold more than eight ids, after any run it holds exactly the ids added and not removed since, each with the entry of its latest add, in order of latest add. |
| `RoutingHistory.EightIdsFit` | src/dht/routing_table.cpp:199-207 | In particular while at most eight different ids of the bucket were ever added. |
| `RoutingHistory.LeavesOnlyBy` | src/dht/routing_table.cpp:187-252 | In any table an entry leaves its bucket only when its id is removed, when it is refreshed, or when the full bucket gives up the entry silent longest, for 15 minutes. |
| `RoutingHistory.RemoveRemoves` | src/dht/routing_table.cpp:235-252 | After a remove the id is gone and every other entry is still there. |
| `RoutingHistory.AddArrives` | src/dht/routing_table.cpp:166-233 | A node that is neither self nor zero is in its bucket after its add, as added, if and only if it was known, or there was room, or some entry was not good. |
| `Routing.ClosestIsNearest` | src/dht/routing_table.cpp:275-305 | closest returns the min(k, size) nearest entries in order, no omitted one nearer, and no other list does. |
| `Routing.Touch` | src/dht/routing_table.cpp:149-164 | In place: the entry moves to the end of its row, the others keep their order. |
| `Routing.FindInBucket` | src/dht/routing_table.cpp:137-147 | The position of the id in the row, or the size. |
| `Routing.FindOldest` | src/dht/routing_table.cpp:209-219 | The entry to replace is the one seen longest ago. |
| `Routing.AddInRow` | src/dht/routing_table.cpp:187-231 | The array row becomes what the add policy, pinned by `FullBucketPolicy` and `RoutingHistory`, gives for its old contents. |
| `Routing.RoutingTable.AddEntry` | src/dht/routing_table.cpp:166-233 | The arrays after add are the specified table, pinned by `RoutingHistory`; other buckets do not change. |
| `Routing.RoutingTable.RemoveId` | src/dht/routing_table.cpp:235-252 | The arrays after remove are the specified table. |
| `Routing.RoutingTable.ClosestTo` | src/dht/routing_table.cpp:292-305 | Returns the specified list of nearest entries. |
| `Nearest.MergeNearest` | src/dht/kademlia_lookup.cpp:27-44 | Keeping only the 8 nearest and merging later gives the 8 nearest of everything, with multiplicity. |
| `Nearest.NearestDistances` | src/dht/kademlia_lookup.cpp:27-44 | Any two such choices have the same distances, position by position. |
| `Nearest.SortExists` | src/dht/kademlia_lookup.cpp:37-40 | A function that sorts by distance exists, so the assumption on std::sort can be met. |
| `Lookup.MergeNodes` | src/dht/kademlia_lookup.cpp:27-44 | The loop, sort and truncation compute the specified merge. |
| `Lookup.SelectNextCandidates` | src/dht/kademlia_lookup.cpp:46-62 | The loop computes the specified selection and marks it queried. |
| `Lookup.AllCandidatesQueried` | src/dht/kademlia_lookup.cpp:17-25 | True exactly if every candidate's address was queried. |
| `Lookup.OthersSpec` | src/dht/kademlia_lookup.cpp:30-35 | A merge takes in every node, with multiplicity, except those with our own id. |
| `Lookup.NearestFirst` | src/dht/kademlia_lookup.cpp:46-62 | The selection is greedy from the nearest candidate on, and stops early only when it has as many as asked for. |
| `Lookup.SelectOk` | src/dht/kademlia_lookup.cpp:46-62 | Never selects an address twice over the life of a lookup, and selects somebody whenever there is room and an unasked candidate. |
| `LookupTheorems.LookupInvariant` | src/dht/kademlia_lookup.cpp:27-62 | In every run a lookup's candidates are the 8 nearest, with multiplicity, of the seeds and everything ever merged, equal in distance to a batch sort; no address is asked twice; at most 6 queries are open. |
| `LookupTheorems.CompletedLookups` | src/dht/get_peers_lookup_manager.cpp:269-314 | Every completed lookup had nothing in flight, had asked all its candidates, and had asked a node at the minimum XOR distance ever learned. |
| `LookupHistory.LearnedIsHeard` | src/dht/get_peers_lookup_manager.cpp:31-138 | In every run a live lookup has learned, with multiplicity, exactly what it heard since its start: its seeds, the nodes of every answer to a transaction bound to it, and the table's answer each time it had run dry, ourselves left out. |
| `LookupHistory.CompletedIsHeard` | src/dht/get_peers_lookup_manager.cpp:257-290 | A lookup is recorded as completed exactly in the operation that completes it, with what it heard until then and in it; earlier records stay. |
| `LookupHistory.LookupsEndExactly` | src/dht/get_peers_lookup_manager.cpp:31-195 | After any operation of any run a hash has a lookup exactly if the operation started one, or it had one that neither ran dry for good nor was five minutes old when ages were checked. |
| `LookupHistory.ApplyHeeds` | src/dht/get_peers_lookup_manager.cpp:31-255 | The step behind the three above, from any state whose lookups are filed under their targets. |
| `LookupHistory.ExpiryOfBindings` | src/dht/get_peers_lookup_manager.cpp:197-220 | Expiry keeps exactly the bindings younger than 30 seconds, and takes each expired one off the pending list of its own lookup. |
| `LookupHistory.ExpiryOfLookups` | src/dht/get_peers_lookup_manager.cpp:222-255 | Expiry keeps exactly the lookups younger than five minutes and exactly the bindings no expired lookup lists. |
| `LookupQueries.NoStaleBindings` | src/dht/get_peers_lookup_manager.cpp:168-220 | After a tick, a start that found seeds or an expiry no binding is 30 seconds old. |
| `LookupQueries.AdvanceAsks` | src/dht/get_peers_lookup_manager.cpp:292-351 | advance_lookup of a lookup that goes on leaves six transactions in flight or every candidate asked; the messages are exactly the newly asked addresses, and exactly their transactions are listed as pending and bound. |
| `LookupQueries.AdvanceReports` | src/dht/get_peers_lookup_manager.cpp:292-351 | It reports completion exactly when it ends the lookup, and then sends nothing. |
| `LookupQueries.ResponseReports` | src/dht/get_peers_lookup_manager.cpp:108-138 | on_response reports completion exactly when the answer completes its lookup; otherwise its messages are exactly the newly asked addresses; an unknown transaction sends nothing. |
| `LookupQueries.StartReports` | src/dht/get_peers_lookup_manager.cpp:31-96 | start_or_advance never reports completion, and its messages are exactly the addresses newly asked by the lookup it started or went on with. |
| `LookupQueries.TickReports` | src/dht/get_peers_lookup_manager.cpp:168-195 | The messages of a tick for each lookup that goes on are exactly the addresses it has newly asked, in order. |
| `LookupTheorems.BindingsAreLive` | src/dht/get_peers_lookup_manager.cpp:108-138 | After every operation each transaction binding names a live lookup that lists it as pending, even if ids collide. |
| `LookupTheorems.BindingsAreExact` | src/dht/get_peers_lookup_manager.cpp:197-267 | If no drawn id was in use, bindings and pending sets correspond one to one. |
| `LookupTheorems.TickNeverStalls` | src/dht/get_peers_lookup_manager.cpp:168-195 | After every tick each surviving lookup lists between 1 and 6 transactions as pending, even if ids collide. |
| `LookupStalls.NeverStalls` | src/dht/get_peers_lookup_manager.cpp:168-195 | If no drawn id was in use, after every tick each surviving lookup has between 1 and 6 queries whose answers will reach it. |
| `LookupStalls.SomeRunStrands` | src/dht/get_peers_lookup_manager.cpp:108-138 | A start and one answer, during which the answered id is drawn again, leave a lookup that no answer can reach. |
| `LookupStalls.StrandedIff` | src/dht/get_peers_lookup_manager.cpp:292-351 | A lookup is stranded if and only if no binding names it and advancing it never does anything, whatever the routing table and the draws give. |
| `LookupStalls.StrandedStays` | src/dht/get_peers_lookup_manager.cpp:168-255 | No tick, answer, start or expiry changes a stranded lookup before its five minutes are over. |
| `LookupTheorems.SecondFinishTestIsDead` | src/dht/get_peers_lookup_manager.cpp:337-342 | In every state, reachable or not, advance_lookup equals itself without its second finish test. |
| `LookupTheorems.TableGivesSeeds` | src/dht/routing_table.cpp:292-305 | Every answer of a reachable routing table meets what the lookups assume of it. |
| `LookupService.GetPeersLookupManager.ExpirePendingLocked` | src/dht/get_peers_lookup_manager.cpp:197-220 | The erasing loop, in any order, drops exactly the bindings 30 seconds old and their pending marks. |
| `LookupService.GetPeersLookupManager.ExpireActiveLocked` | src/dht/get_peers_lookup_manager.cpp:222-255 | The erasing loop, in any order, drops exactly the lookups 5 minutes old and their bindings. |
| `LookupService.GetPeersLookupManager.FinishLookup` | src/dht/get_peers_lookup_manager.cpp:257-267 | Drops the lookup and every binding it lists. |
| `LookupService.GetPeersLookupManager.LookupShouldFinish` | src/dht/get_peers_lookup_manager.cpp:269-290 | Answers the specified test and replenishes the lookup from the routing table. |
| `LookupService.GetPeersLookupManager.AdvanceLookup` | src/dht/get_peers_lookup_manager.cpp:292-351 | The new state, the queries sent and the completion flag are those of the specified step. |
| `LookupService.GetPeersLookupManager.SendQueries` | src/dht/get_peers_lookup_manager.cpp:327-335 | Each selected node gets one query, with its transaction bound and listed as pending. |
| `LookupService.GetPeersLookupManager.StartOrAdvanceLookup` | src/dht/get_peers_lookup_manager.cpp:31-96 | State, queries and completion of the specified step. |
| `LookupService.GetPeersLookupManager.OnLookupResponse` | src/dht/get_peers_lookup_manager.cpp:353-385 | Drops the transaction, merges all nodes of the answer (see `LookupHistory.LearnedIsHeard`) and finishes if due. |
| `LookupService.GetPeersLookupManager.OnGetPeersResponse` | src/dht/get_peers_lookup_manager.cpp:108-138 | State, queries and completion of the specified step; the binding is erased last. |
| `LookupService.GetPeersLookupManager.TickLookups` | src/dht/get_peers_lookup_manager.cpp:168-195 | Expires, then advances every live lookup exactly once in some order, and returns all queries sent. |
| `Lru.LruIsRecent` | inc/lru_cache.h:64-102 | After any run of puts and gets the keys are exactly the first `capacity` distinct keys of the reversed use history, in order, each with the value of its latest put. |
| `Lru.KeptIff` | inc/lru_cache.h:163-169 | A key is still cached if and only if fewer than `capacity` other keys were used since its last use. |
| `LruList.LinkedKeys` | inc/lru_cache.h:171-173 | List and index hold the same keys, once each, and have the same size. |
| `LruList.LruCache.Get` | inc/lru_cache.h:64-76 | The splice gives the specified list; the value found is the stored one; index and list agree. |
| `LruList.LruCache.Put` | inc/lru_cache.h:82-102 | Overwrite, insert and evict give the specified list; index and list agree. |
| `LruList.LruCache.Erase` | inc/lru_cache.h:105-114 | Removes the key from list and index, and says whether it was there. |
| `LruList.LruCache.EraseAt` | inc/lru_cache.h:120-124 | Removes one position; the entries behind it close up. |
| `LruList.LruCache.EvictLru` | inc/lru_cache.h:163-169 | Removes the last entry from list and index, if there is one. |
| `LruList.LruCache.Clear` | inc/lru_cache.h:149-153 | Empties both. |
| `LruList.LruCache.LruKey` | inc/lru_cache.h:157-160 | The key at the back, if any. |
| `PeerStore.LivePeersAreExact` | src/dht/dht_peer_store.cpp:39-70 | After any run live_peers answers a prefix of the live ones among the 50 addresses most recently upserted for the hash, latest first; exactly them unless at some point 10000 other hashes had been touched since the hash was, wherever expire_stale ran. |
| `PeerAnswers.AnswersAreExact` | src/dht/dht_peer_store.cpp:39-70 | Unless the hash was so crowded out, an address is in the answer if and only if its last upsert for the hash is less than 30 minutes old and fewer than 50 others were upserted since. |
| `PeerAnswers.AnswersAreCurrent` | src/dht/dht_peer_store.cpp:54-70 | In any run every address answered is of that kind, occurs once, and the answer is in order of latest upsert, latest first. |
| `PeerStore.FewHashes` | src/dht/dht_peer_store.cpp:30-52 | A run that names at most 10000 hashes crowds nobody out. |
| `PeerStore.HashKeptIff` | src/dht/dht_peer_store.cpp:30-70 | Without expire_stale a hash that was named is in the store if and only if fewer than 10000 others were touched since it was. |
| `PeerStore.ExpireIsFullScan` | src/dht/dht_peer_store.cpp:8-28 | With a non-decreasing clock the front-only test removes exactly the hashes a full scan finds dead, and no live_peers answer changes, then or later. |
| `PeerStore.ListsAreOrdered` | src/dht/dht_peer_store.cpp:14-20 | Every peer list is in non-increasing last-seen order, has at most 50 peers, and each of at most 10000 hashes has one list. |
| `PeerStore.DhtPeerStore.ExpireStale` | src/dht/dht_peer_store.cpp:8-28 | The erase-while-iterating loop drops exactly the buckets with a dead front. |
| `PeerStore.DhtPeerStore.EnsureBucket` | src/dht/dht_peer_store.cpp:30-37 | Creates or touches the bucket. |
| `PeerStore.DhtPeerStore.UpsertPeer` | src/dht/dht_peer_store.cpp:39-52 | The bucket moves to the front and its peers take the specified put. |
| `PeerStore.DhtPeerStore.LivePeersOf` | src/dht/dht_peer_store.cpp:54-70 | The unexpired peers in list order, whose meaning `PeerAnswers` states; touches the bucket. |
| `BencodeTheorems.RoundTrip` | src/bencode/bencode_parser.cpp:112-192 | Parsing the encoding of any well-formed value, followed by any bytes, returns the value and takes exactly the encoding. |
| `BencodeGrammar.ReadsExactly` | src/bencode/bencode_parser.cpp:80-192 | On any bytes, canonical or not, the parser reads a value from the first n bytes if and only if they stand for it by a grammar of its own: leading zeros, a minus sign, ignored digits behind a second one, keys in any order with the last value of each key kept. |
| `BencodeGrammar.TorrentReadsExactly` | src/bencode/bencode_parser.cpp:52-78 | The same for a .torrent file, which must be a dictionary. |
| `BencodeGrammar.SameAnswers` | src/bencode/bencode_parser.cpp:174-192 | A dictionary in key order is determined by its answers, so the grammar leaves one value. |
| `BencodeTheorems.PrefixFree` | src/bencode/bencode_encoder.cpp:6-36 | If one encoding is a prefix of another the values are equal. |
| `BencodeTheorems.ReencodeParses` | src/bencode/bencode_parser.cpp:112-192 | Whatever was parsed, canonical or not, its canonical encoding parses back to the same value. |
| `BencodeTheorems.ParsedIsWellFormed` | src/bencode/bencode_parser.cpp:132-192 | Every parsed value has 64-bit integers and strictly ascending dictionary keys. |
| `BencodeTheorems.LocalValue` | src/bencode/bencode_parser.cpp:112-130 | A parse depends only on the bytes it takes. |
| `BencodeTheorems.InfoReparses` | src/bencode/bencode_parser.cpp:52-78 | The bytes saved for info parse, alone, to the value stored under it, also with repeated keys; none are saved without it. |
| `BencodeTheorems.GuardIsExact` | src/bencode/bencode_parser.cpp:100-108 | For every string with a readable length: it is read if and only if it ends inside the data, refused as unfinished if and only if it ends outside without wrapping, and read outside the buffer if and only if its end reaches 2^64. |
| `BencodeTheorems.OutsideIff` | src/bencode/bencode_parser.cpp:80-110 | parse_byte_string reads outside the buffer if and only if the data begins with such a length. |
| `BencodeTheorems.GuardFails` | src/bencode/bencode_parser.cpp:101-104 | The largest length, in 21 bytes, passes the guard. |
| `BencodeTheorems.OutsideIffSomeWraps` | src/bencode/bencode_parser.cpp:112-192 | A parse reads outside the buffer if and only if one of the strings it starts to read has such a length; lengths inside other strings do no harm. |
| `Bencode.ParseValue` | src/bencode/bencode_parser.cpp:112-130 | The parser is total: every successful parse takes at least one byte and no more than there are. |
| `Bencode.DigitsRoundTrip` | src/bencode/bencode_encoder.cpp:6-14 | The decimal digits of a number read back as that number. |
| `Bencode.ListLoop` | src/bencode/bencode_encoder.cpp:16-23 | The loop builds the list encoding. |
| `Bencode.DictLoop` | src/bencode/bencode_encoder.cpp:25-36 | The loop builds the dictionary encoding. |
| `BencodeParser.Parser.ReadByteString` | src/bencode/bencode_parser.cpp:80-110 | Value, error and new position are those of the specified parse. |
| `BencodeParser.Parser.ReadInteger` | src/bencode/bencode_parser.cpp:132-155 | Value, error and new position are those of the specified parse. |
| `BencodeParser.Parser.ReadValue` | src/bencode/bencode_parser.cpp:112-130 | Value, error and new position are those of the specified parse. |
| `BencodeParser.Parser.ReadList` | src/bencode/bencode_parser.cpp:157-172 | Value, error and new position are those of the specified parse. |
| `BencodeParser.Parser.ReadDictionary` | src/bencode/bencode_parser.cpp:174-192 | Value, error and new position are those of the specified parse. |
| `BencodeParser.Parser.ReadTorrent` | src/bencode/bencode_parser.cpp:52-78 | Dictionary, saved info bytes, error and new position are those of the specified parse. |
| `KrpcTheorems.PingRoundTrip` | src/dht/krpc.cpp:23-31 | parse_krpc of the built message recovers every field, the rest being defaults, whatever bytes follow. |
| `KrpcTheorems.FindNodeRoundTrip` | src/dht/krpc.cpp:33-44 | The same, with the target. |
| `KrpcTheorems.GetPeersRoundTrip` | src/dht/krpc.cpp:46-57 | The same, with the info-hash. |
| `KrpcTheorems.AnnounceRoundTrip` | src/dht/krpc.cpp:59-76 | The same, with info-hash, port, token and implied port. |
| `KrpcTheorems.ResponseRoundTrip` | src/dht/krpc.cpp:78-84 | The same, with the sender. |
| `KrpcTheorems.NodesResponseRoundTrip` | src/dht/krpc.cpp:86-104 | The same: the distinct nodes sent, in order of first appearance, with their exact multiplicities. |
| `KrpcTheorems.NodesResponseGpRoundTrip` | src/dht/krpc.cpp:123-134 | The same, with the token. |
| `KrpcTheorems.PeersResponseRoundTrip` | src/dht/krpc.cpp:106-121 | The same: the compact peers in order, each decoding to its peer. |
| `KrpcTheorems.ErrorRoundTrip` | src/dht/krpc.cpp:136-143 | The same, with code and message. |
| `KrpcTheorems.NodeListRoundTrip` | src/dht/krpc.cpp:202-224 | A compacted node list arrives as its distinct nodes with their multiplicities. |
| `KrpcTheorems.DefinedIff` | src/dht/krpc.cpp:240-341 | parse_krpc has a defined result on a datagram if and only if no string the parser starts to read has a length that wraps. |
| `KrpcTheorems.UndefinedDatagram` | src/dht/krpc.cpp:240-248 | A datagram on which it has none. |
| `KrpcFields.ResponseFields` | src/dht/krpc.cpp:300-315 | For any datagram that starts with a dictionary, whatever other keys it has, a response carries sender, nodes, token and values each from its own key alone, with the default for a missing key or another type. |
| `KrpcFields.QueryFields` | src/dht/krpc.cpp:257-299 | The same for the arguments of each kind of query; refused exactly when the kind is unknown or its info-hash is not twenty bytes. |
| `KrpcFields.ErrorFields` | src/dht/krpc.cpp:316-331 | The same for code and message of an error. |
| `KrpcFields.OthersAreRefused` | src/dht/krpc.cpp:240-341 | Every other datagram is refused. |
| `KrpcFields.RecordsSpec` | src/dht/krpc.cpp:202-224 | The whole records of a node list, one by one. |
| `KrpcFields.PeersSpec` | src/dht/krpc.cpp:226-238 | The six-byte strings of a list, all of them and in order. |
| `KrpcFields.PeerBytes` | src/peer_address.cpp:6-35 | The six bytes of a peer: address, then port, high byte first. |
| `KrpcFields.NodeBytes` | src/dht/routing_table.cpp:27-61 | The 26 bytes of a node: id, address, port. |
| `Krpc.NodeRoundTrip` | src/dht/routing_table.cpp:27-61 | A node is recovered from its 26 bytes. |
| `Krpc.PeerRoundTrip` | src/peer_address.cpp:6-35 | A peer is recovered from its 6 bytes. |
| `KrpcCodec.ParseNodeList` | src/dht/krpc.cpp:202-224 | For any bytes the index-map loop yields the distinct whole records in order of first appearance and their exact multiplicities; trailing bytes are ignored. |
| `KrpcCodec.ParsePeerList` | src/dht/krpc.cpp:226-238 | Keeps exactly the six-byte strings, in order. |
| `KrpcCodec.CompactNodes` | src/dht/krpc.cpp:86-93 | The loop concatenates the records. |
| `KrpcCodec.DecodeMessage` | src/dht/krpc.cpp:240-341 | For any bytes, with the parser object above: the message, whose fields `KrpcFields` states, the refusal, or the undefined outcome. |
| `TokenRotator.TokenWindow` | src/dht/token_secret_rotator.cpp:72-103 | A token is accepted for its IP at every time before issue + min(rotation interval, 10 min), however calls interleave and whatever secrets are drawn. |
| `TokenRotator.TokenIsExact` | src/dht/token_secret_rotator.cpp:72-103 | In any run a token is accepted if and only if there was no rotation since, or exactly one less than 10 minutes ago, and the address bytes are the same; so never after two. |
| `TokenRotator.AfterRun` | src/dht/token_secret_rotator.cpp:72-82 | In any run the secret changes exactly at the calls that come a whole interval after the last change; the one before is kept for 10 minutes, earlier ones are gone. |
| `TokenRotator.TokenSecretRotator.RotateIfNeeded` | src/dht/token_secret_rotator.cpp:72-82 | The fields after the call are the specified rotation. |
| `TokenRotator.TokenSecretRotator.IssueToken` | src/dht/token_secret_rotator.cpp:84-87 | The token of the current secret. |
| `TokenRotator.TokenSecretRotator.VerifyToken` | src/dht/token_secret_rotator.cpp:89-103 | Accepts the current secret, or the previous one until it expires. |

## Left out

- Sockets, TLS, UPnP, HTTP and UDP trackers: input and output plumbing.
- `SessionManager`, status output, loggers and the KRPC log summary: reporting.
- `DhtClient` threads, bootstrap and DNS, `TorrentManager`, `AnnounceCoordinator`: glue and simple counters.
- Peer messages, handshake and byte-order helpers: straight-line codecs that would only add easy members.
- `RoutingTableStore` and buckets_needing_refresh: a text format and a simple filter.
- SHA-1, random generation, inet_aton and inet_ntoa: parameters; an IPv4 address is its four bytes.
- Weak memory, allocation failure and two output files with one path: sequential consistency, memory enough and distinct files are assumed.
- 64-bit overflow of summed file lengths: totals are unbounded.
- The hash-failure counter in the interleaved machine, and the choke and interest flags there: any event may reach an idle connection, which allows more runs than the source. The continuations of `DownloadLiveness` use new connections, to peers that unchoke and answer.
- The choke flag alone (handle_unchoke) and the destructor's release as separate rows: the handlers are one assignment each, and what they mean for claims is in `ClaimsAreExclusive`, `NoClaimLeaks` and `DownloadCalls.DisconnectAlone`.
- Hash table internals: iteration orders are free choices. A clock is read once per call.
- KademliaLookup objects and the inner caches of the peer store live inside their containers and are modelled as values there: aliasing of references into them is not captured, except that get and put leave the entry at the front.
- `erase(pit)` at src/dht/get_peers_lookup_manager.cpp:136 erases the key of the answered transaction: the validity of the iterator itself is not modelled.
- `isdigit` of a byte above 127 is taken to be false, and the data of a parser to be shorter than 2^64 bytes where a theorem says so.
- `DownloadTheorems.HaveWindow`: one way only, because a piece still being written, or lost, may by chance already have the right bytes on disk.
- `Pieces.PieceManager.CompletePiece`: one thread alone; the interleavings are in `Download`.
- `PeerAnswers.AnswersAreExact`: once a hash has been crowded out only `AnswersAreCurrent` holds, because the store keeps nothing of a bucket it drops.
- `LookupQueries.TickReports`: speaks of the lookups that go on; a lookup that a tick completes sends nothing by `AdvanceReports`.
