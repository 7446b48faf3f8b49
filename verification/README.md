# Retorrent in Dafny

A model of the algorithmic core of the Retorrent BitTorrent client, with proofs of the
properties that core relies on. The model follows the program file by file: what the program
computes by recursion or matching is a function, what it changes in place is a class with
methods proved against a specification function, and the peers, verify tasks, webseed worker
and recheck that race on one torrent are a state machine whose steps are the atomic sections
of the program.

Five cores share one byte type, one identifier type and one file layout:

- **Routing table** (`InfoHash`, `BucketTree`, `RoutingTable`, `ClosestNodes`): the arena-shaped
  bucket tree over 160-bit ids, its splits, replacements and size cap, and the choice of
  contacts to answer with.
- **Piece pipeline** (`Collector`, `PieceManager`, `Bitfield`, and the `Pipeline` files): blocks
  collected from many peers in any order, claims, priorities and selection, and the
  interleaving of choose, start, join, claim, deliver, verify, abort, seek, write, leave,
  webseed and recheck over `have`, `in_progress`, the open files and the disk. `Pipeline` holds
  the state and the steps, `PipelineFrames` what each step leaves alone, `PipelineSafety` the
  invariant, `PipelineRuns` what holds over whole schedules and exactly when,
  `PipelineDiscipline` how writers can see to it, `PipelineStorage` the refinement of
  `write_piece` by its seeks and write calls, `PipelineDownload` downloads from the first
  request to the flag, and those that fail, `PipelineRecheck` recheck, `PipelineCache` the read
  cache under races, `PipelineRaces` the schedules that end badly and the steps to blame.
- **Storage** (`Layout`, `Storage`, `ReadCache`, `Webseed`, `Priorities`): the walks over the file table
  against slicing and splicing one flat byte array, the read cache, and the two readings of the
  file priorities.
- **Bencode and codecs** (`Decimal`, `Bencode`, `BencodeParser`, `Canonical`, `Metainfo`, `Rewrap`,
  `Metadata`, `Krpc`, `PeerWire`), what they send byte for byte (`BencodeBytes`, `TorrentWire`,
  `MetadataWire`, `KrpcWire`), and the metadata exchange of magnet links (`MetadataState`,
  `MetadataExchange`, `MetadataArrivals`, `MetadataLoss`, `MetadataFetch`).
- **Schedulers and bounded stores** (`Queue`, `RateLimiter`, `PeerStore`, `Sorting`).

`dafny verify dfyconfig.toml` checks everything.

Conventions: SHA-1 is a function `sha1` under which no other data of at most a piece's size
has a piece's hash (`Pipeline.Torrent.Identifies`). `String::from_utf8_lossy` is a function
`lossy` of which only three facts are used (`Bencode.Utf8Lossy`): its results are valid
already, ASCII is valid, and a byte grows to at most three. Random draws, clocks and the
iteration order of hash maps are parameters. Times are nanoseconds, or reals for the token
bucket; progress is a real.

## Where the code and its promises part

Each entry names the lemma with the input or the schedule, and the one that says exactly when
the promise is kept.

- All writers of a file share one open file, and so its position: a seek and the write after it
  are two steps (src/storage.rs:78-92 and 134-136), and verify tasks and webseed fetches run at
  the same time. `PipelineRaces.SharedPositionRace` is a schedule of two pieces in one file after
  which both are marked present and neither is on the disk. What is promised of present pieces
  (`PipelineRuns.HaveIsTrue`, `PipelineRuns.CompleteDownloadIsContent`) holds on condition that
  every write call finds the position where its own job left it. `PipelineRuns.RunKeepsExactly`:
  a schedule that writes bytes the disk does not have yet keeps the invariant exactly on that
  condition. It is met if nobody moves the position between another job's seek and the end of
  its write (`PipelineDiscipline.UndisturbedIsOnTarget`), for example with one writer per file at
  a time (`PipelineDiscipline.SerialWritesAreSafe`).
- The put that follows a cache miss is not under the lock that saw the miss: after the schedule
  `PipelineRaces.CacheMayBeStale` the cache holds bytes from before a write.
  `PipelineCache.PublishedExactly`: the entry that is put is what is on the disk exactly when no
  write call changed a byte the read had copied already. `PipelineCache.CacheCoherent`: with no
  write of a piece between a miss on it and the put, and none left without its eviction, every
  entry is what is on the disk. Both, and that a cached byte that equals the content is on the
  disk, are on condition that the write calls find their positions.
- A piece may be present and in progress at once (`PipelineRaces.PresentAndInProgress`).
  `PipelineRaces.OverlapsExactly`: that comes about exactly when a peer starts a piece that has
  become present since it was chosen, or when a piece is marked that was listed again between
  the two locks of the marking.
- `closest_nodes` says it returns good or questionable contacts, but a contact that has just been
  added is of Unknown status and is returned (`ClosestNodes.NewcomerIsReturned`).
  `ClosestNodes.OnlyUsableExactly`: all are good or questionable exactly when the table holds none
  of Unknown status or at least `k` good or questionable ones.
- `RoutingTable::add_node` counts a replaced Bad contact as a new one
  (`RoutingTables.ReplacementIsCounted`), so `len()` exceeds the number of contacts by exactly the
  number of replacements so far (`RoutingTables.RoutingTable.AddNode`).
- `apply_file_priorities` treats files beyond the end of the priority list as unwanted,
  `write_piece` treats them as wanted (`Priorities.ShortListOrphans`), and a wanted empty file
  lifts a piece in which it has no byte (`PieceManagers.EmptyFileLiftsPiece`;
  `PieceManagers.TouchedPieces` says exactly which). `Priorities.SkipAgreesExactly`: a piece is
  unwanted when and only when all its bytes are masked, exactly if neither an unlisted file has
  a byte in it that no listed file wants, nor a wanted empty file lifts it above masked ones.
- A magnet link's verified info dictionary with its keys out of order turns into a torrent with
  another hash: `d6:pieces0:12:piece lengthi1e6:lengthi0ee` does
  (`Rewrap.UnsortedChangesItsHash`). `Rewrap.RewrapPreservesInfo`: it survives byte for byte exactly
  when it is canonical; `Canonicals.CanonicalIfSorted`: a printed dictionary is so exactly when
  its keys are in strict order. `Rewrap.RewrappedTorrentOpens` says exactly when the result opens
  and to what.
- An announce reply, and a `find_node` reply without IPv4 nodes, come back as a ping reply
  (`Krpc.RepliesComeBackAsPings`). `Krpc.UnchangedIffNormal` says exactly which messages come back
  unchanged.
- The metadata message for piece 0 carries the total size and empties the buffer. Every connection
  starts by asking for the first missing piece, so piece 0 may come again: with three chunks, two
  peers both asked for piece 0, and the second of them late, the chunks 0, 1, 0 and 2 come and
  the second chunk is missing (`MetadataLoss.LateFirstLosesChunk`).
  `MetadataArrivals.FinishedExactly`: with honest data messages the exchange has finished exactly
  when at some moment every chunk had come since the first one last came.
  `MetadataArrivals.NothingIsLost`: as the program asks, nothing is lost of at most two chunks, nor
  while the first chunk comes only once.

## Model

| member | source | states |
|---|---|---|
| InfoHashes.SetBit | src/types.rs:49-56 | sets exactly the one addressed bit and leaves the other 159 |
| InfoHashes.LessIsNumeric | src/types.rs:7-8 | comparing the 20 bytes left to right is comparing the 160-bit numbers |
| InfoHashes.ValueInjective | src/types.rs:7-8 | an id is determined by its number |
| InfoHashes.PrefixAgrees | src/types.rs:43-47 | two ids have the same leading n-bit number exactly when their first n bits agree |
| InfoHashes.DistanceBits | src/types.rs:35-41 | a bit of the distance is set exactly where the two ids differ |
| InfoHashes.FirstDifferenceDecides | src/types.rs:35-41 | of two ids, the nearer one is the one that agrees with the target in the first bit where they differ, so a longer common prefix is strictly nearer |
| BucketTrees.RangeSize | src/dht/routing_table.rs:66-71 | every tree node covers an aligned range of exactly 2^bits ids |
| BucketTrees.InRangeIsPrefix | src/dht/routing_table.rs:266-282 | an id lies in a node's range exactly when it has the node's leading bits |
| BucketTrees.SplitHalves | src/dht/routing_table.rs:217-234 | a split cuts the range exactly in two halves of one bit less |
| BucketTrees.UniqueLeaf | src/dht/routing_table.rs:266-282 | only the leaf that the walk finds has an id in its range |
| BucketTrees.InOrderSorted | src/dht/routing_table.rs:179-204 | leaves visited left to right give strictly increasing ids, so ids are unique across the tree |
| BucketTrees.HasIdInItsLeaf | src/dht/routing_table.rs:284-302 | an id is stored anywhere in the tree exactly when it is stored in its own leaf |
| BucketTrees.SplitNeedsFourBits | src/dht/routing_table.rs:309-407 | pigeonhole: a leaf with eight nodes and room for another id has at least four bits, so the bit count never underflows |
| BucketTrees.ContentsAfterSplit | src/dht/routing_table.rs:361-405 | a split moves no contact: the tree's contents stay the same |
| BucketTrees.SplitArena | src/dht/routing_table.rs:309-407 | the arena has one root and two more nodes per bit resolved around our own id, which bounds it |
| RoutingTables.BucketTree.constructor | src/dht/routing_table.rs:245-256 | one leaf over the whole id space, empty |
| RoutingTables.BucketTree.GetLeaf | src/dht/routing_table.rs:266-282 | terminates at the one leaf whose range holds the id |
| RoutingTables.BucketTree.AddNode | src/dht/routing_table.rs:304-307 | keeps the whole tree invariant and the size cap, never more than 315 arena nodes, and as a map from ids it changes only as the result says; Ignored only at the cap or in a full foreign leaf |
| RoutingTables.BucketTree.InsertIntoLeaf | src/dht/routing_table.rs:309-407 | the split loop terminates and does what AddNode promises: nothing for a known id, the first Bad contact of the leaf replaced in place, a push with sorting, or a split around our own id; splits only with a full leaf |
| RoutingTables.BucketTree.SplitLeaf | src/dht/routing_table.rs:361-405 | two new leaves at the end of the arena, same contents, and the id's leaf has fewer bits |
| RoutingTables.BucketTree.IterNodes | src/dht/routing_table.rs:165-204 | the stack walk yields all contacts in strictly increasing id order |
| RoutingTables.BucketTree.UpdateNode | src/dht/routing_table.rs:284-302 | finds the id exactly when a scan of all contacts would, and changes that contact alone |
| RoutingTables.Partition | src/dht/routing_table.rs:365-372 | cuts a sorted bucket at the pivot |
| RoutingTables.GenerateRandomId | src/dht/routing_table.rs:206-215 | leading bits from the start, the rest random |
| RoutingTables.RandomIdReturns | src/dht/routing_table.rs:159-163 | a random id drawn for a bucket is routed back to that bucket |
| RoutingTables.RoutingTable.constructor | src/dht/routing_table.rs:563-569 | an empty table capped at 512 contacts |
| RoutingTables.RoutingTable.AddNode | src/dht/routing_table.rs:614-624 | the outer counter is the number of contacts plus the number of replacements |
| RoutingTables.ReplacementIsCounted | src/dht/routing_table.rs:614-624 | with one Bad contact replaced by another, the table holds one contact and counts two |
| RoutingTables.RoutingTable.MarkOutgoingRequest | src/dht/routing_table.rs:626-634 | touches the one contact with the id, if there is one |
| RoutingTables.RoutingTable.MarkResponse | src/dht/routing_table.rs:636-644 | records the response and clears the error count of the one contact |
| RoutingTables.RoutingTable.MarkError | src/dht/routing_table.rs:646-654 | counts one more error for the one contact |
| RoutingTables.RoutingTable.MarkLastQuery | src/dht/routing_table.rs:656-664 | records the query of the one contact |
| RoutingTables.BadExactly | src/dht/routing_table.rs:478-513 | after any sequence of requests, queries, responses and errors a contact is Bad exactly when it was contacted and at least two errors have come since the last response |
| RoutingTables.StatusExactly | src/dht/routing_table.rs:478-513 | for any marks in time on a new contact: Good exactly if it was contacted and has asked or answered in the last fifteen minutes, Questionable exactly if all of that is longer ago and no request is recent |
| ClosestNodes.DistanceInjective | src/types.rs:35-41 | different ids are at different XOR distances, so the sort has no ties |
| ClosestNodes.SortedByDistanceIs | src/dht/routing_table.rs:578-594 | a permutation ordered by status and then numeric XOR distance |
| ClosestNodes.Closest | src/dht/routing_table.rs:597-604 | the k best contacts that are not Bad, or all of them; whoever is passed over is less preferred than each chosen one |
| ClosestNodes.InPreferenceMeans | src/dht/routing_table.rs:578-594 | the order in plain terms: Good before Questionable before Unknown, and within one status by the first differing bit |
| ClosestNodes.NearerIsByBits | src/dht/routing_table.rs:578-594 | nearer to the target is agreeing with it in the first bit where the two differ |
| ClosestNodes.PassedOverMeans | src/dht/routing_table.rs:596-604 | a contact that is passed over is of a worse status than each chosen one, or of the same and farther by its bits |
| ClosestNodes.OnlyUsableExactly | src/dht/routing_table.rs:596-604 | only good and questionable contacts are returned exactly when there is none of Unknown status or there are at least k good or questionable ones |
| ClosestNodes.NewcomerIsReturned | src/dht/routing_table.rs:596-604 | a contact that has just been added is of Unknown status and is returned |
| Sorting.StableSortSorts | src/piece.rs:259-271 | the stable sort orders by the comparison and, where that is silent, by position |
| Sorting.TakesFirstKept | src/piece.rs:275-289 | filter and take return the first elements kept, and pass over later ones only |
| Collectors.CompleteMeansAllPresent | src/piece.rs:83-85 | with truthful blocks, counting them decides whether every offset is present |
| Collectors.AssembledIsTruth | src/piece.rs:87-99 | a complete collector of truthful blocks assembles the true piece |
| Collectors.TailIsCut | src/piece.rs:87-99 | what the last block says behind the end of the piece is cut off, and the true piece is assembled |
| Collectors.NeverTooLong | src/piece.rs:87-99 | whatever was sent, no more than the piece is assembled |
| Collectors.AnyDeliveryOrder | src/piece.rs:45-99 | whatever the order and the repetitions, complete exactly when every offset was delivered, and then the true piece |
| Collectors.PieceCollector.AddBlock | src/piece.rs:45-81 | the first block at an offset stays; a new one clears the claim |
| Collectors.PieceCollector.Assemble | src/piece.rs:87-99 | the blocks in ascending offset order, cut to the piece size, or nothing while incomplete |
| Collectors.PieceCollector.ClaimBlocks | src/piece.rs:101-137 | for every shuffle: min(count, eligible) distinct eligible tiles with the right lengths, stamped now, and no other stamp changed |
| Collectors.Shuffled | src/piece.rs:113-118 | for every draw the shuffle is a permutation |
| Collectors.ClaimsAreSpaced | src/piece.rs:119-136 | over any run, two claims of one offset are thirty seconds apart unless it was released between them |
| Collectors.ClaimedExactly | src/piece.rs:101-137 | over any run, a call that hands out fewer than it could hands out exactly the offsets that have not come and whose last claim was released or is thirty seconds old |
| Collectors.StoredNeverClaimed | src/piece.rs:101-137 | a stored offset is never claimed again, released or not |
| PipelineSafety.StepKeeps | src/network.rs:1119-1208 | every atomic step of peers, verify tasks, webseed, readers and recheck keeps the invariant of pieces, disk and cache, a write call on condition that its job finds the file's position where it left it |
| PipelineSafety.DeliverKeeps | src/network.rs:1132-1138 | a Piece message, junk or not, keeps it |
| PipelineSafety.CheckHashKeeps | src/network.rs:1157-1160 | the hash comparison keeps it |
| PipelineSafety.LookAtHaveKeeps | src/network.rs:1177-1182 | so does the look at `have` under its own lock |
| PipelineSafety.AbortKeeps | src/network.rs:1182-1188 | and the abort under the next |
| PipelineSafety.SeekKeeps | src/storage.rs:134-135 | a seek, or a Skip file passed over, keeps it |
| PipelineSafety.WriteKeeps | src/storage.rs:136-136 | a write call of any length keeps it, if the position is where the job left it |
| PipelineStorage.StorageWriteIsPatch | src/storage.rs:112-149 | putting a whole piece in place is what the storage does to the files |
| PipelineStorage.WholePieceWritten | src/storage.rs:112-149 | the seeks and write calls of one job alone, however the bytes are cut up, do to the files what one `write_piece` is specified to do |
| PipelineSafety.JudgeKeeps | src/network.rs:1634-1644 | the verdict of recheck keeps the invariant, also among peers, jobs and other readers at work; which verdict it is, says PipelineRecheck.RecheckFindsExactly |
| PipelineRecheck.RecheckFindsExactly | src/network.rs:1624-1660 | a whole recheck with nobody else at work, however its reads are cut up and whatever was recorded before: a piece is present afterwards exactly if its bytes on the disk have the right hash, none is in progress, and nothing else changed |
| PipelineRecheck.RecheckFindsContent | src/network.rs:1624-1660 | so it keeps every piece whose true bytes are on the disk and loses every other one |
| PipelineRecheck.RecheckGetsThrough | src/network.rs:1624-1660 | with nobody else at work a recheck gets through all pieces |
| PipelineRecheck.ServedFromDisk | src/network.rs:1209-1243 | a present piece is served from the disk, one that is not present is not served |
| PipelineDownload.CollectedExactly | src/network.rs:676-765 | some peers share a piece and send its blocks in any order, with any repetitions: one of them has it to verify exactly if every block was sent |
| PipelineDownload.PieceIsDownloaded | src/network.rs:1119-1208 | then, with nobody else at work, the piece is verified, and however its bytes are cut up into write calls it is in place on the disk outside skipped files, present, off the list and out of the cache |
| PipelineDownload.PieceIsFetched | src/webseed.rs:157-216 | a webseed fetch of the true piece arrives in the same way |
| PipelineDownload.SomeWritesGetThrough | src/storage.rs:112-149 | such write calls exist: one for each part of the piece, for any file table and any skipped files |
| PipelineDownload.BadPieceIsDropped | src/network.rs:1176-1190 | a piece with a wrong hash leaves no trace and may be started anew, unless it became present meanwhile |
| PipelineDownload.FailedWriteIsDropped | src/network.rs:1161-1165 | so does one that cannot be written, apart from what was written before |
| PipelineDownload.LeaverHandsOver | src/network.rs:1268-1275 | a peer that leaves hands over its piece with the blocks that came, and its claims are free again |
| PipelineDownload.ClaimedIsReserved | src/piece.rs:101-137 | a claimed offset is not offered for thirty seconds, then again unless it has come |
| PipelineDownload.EndgameStarts | src/piece.rs:345-359 | in the endgame a peer joins a piece that others are at, or starts it |
| PipelineSafety.ConcludeKeeps | src/network.rs:1644-1656 | marking and unmarking lock by lock keeps it |
| PipelineSafety.PublishKeeps | src/storage.rs:159-164 | the late put into the cache keeps it |
| PipelineRuns.WriteKeepsExactly | src/storage.rs:134-136 | a write call of bytes that are not on the disk yet keeps the invariant exactly when it finds the position where its job left it |
| PipelineRuns.RunKeepsExactly | src/network.rs:680-1280 | a schedule of any length that writes only such bytes keeps the invariant throughout exactly when every write call finds the position where its job left it |
| PipelineRuns.OnTargetKeeps | src/network.rs:680-1280 | whatever it writes, a schedule all of whose write calls find their positions keeps the invariant throughout |
| PipelineDiscipline.StepKeepsSound | src/storage.rs:78-149 | the discipline step by step: with everything in order, every job still finds its position after the step exactly when the step moves none from under another writer |
| PipelineDiscipline.RunKeeps | src/storage.rs:78-149 | the same over whole schedules |
| PipelineDiscipline.UndisturbedIsOnTarget | src/storage.rs:78-149 | under that discipline every write call finds the position where its job left it |
| PipelineDiscipline.SerialWritesAreSafe | src/storage.rs:112-149 | jobs that enter a file one at a time never disturb each other, and every write call is on target |
| PipelineRuns.LandsIffAimed | src/storage.rs:134-136 | a write call puts any bytes where they belong exactly when the position is where the job left it |
| PipelineRaces.SharedPositionRace | src/storage.rs:78-92 | a schedule of two writers after which both pieces are marked present and neither is on the disk |
| PipelineRuns.HaveIsTrue | src/piece.rs:336-343 | under every schedule whose write calls find their positions, a piece marked present has its true bytes on the disk in all files that are not skipped |
| PipelineRuns.CompleteDownloadIsContent | src/piece.rs:403-405 | after such a schedule with every piece present and no file skipped, the disk is the content |
| PipelineCache.PublishedExactly | src/storage.rs:151-165 | what a read puts into the cache is what is on the disk exactly when no write call changed a byte it had copied already |
| PipelineCache.ChangersWriteThePiece | src/storage.rs:151-165 | only a write call for the same piece can have changed one |
| PipelineCache.CacheCoherent | src/storage.rs:112-165 | with no write of a piece between a miss and its put, and none left without its eviction, every entry is what is on the disk unless a write of its piece is under way |
| PipelineRaces.CacheMayBeStale | src/storage.rs:151-165 | a schedule after which the cache holds the bytes from before a write |
| PipelineRaces.OverlapsExactly | src/piece.rs:291-343 | a step makes present and in progress overlap exactly when a piece is started that became present since it was chosen, or marked that was listed again between the two locks |
| PipelineRaces.PresentAndInProgress | src/piece.rs:307-317 | a schedule, choice and start apart, after which a piece is present and in progress |
| PieceManagers.TouchedPieces | src/piece.rs:192-199 | the pieces visited for a file are those it overlaps, and for an empty file exactly the stated one |
| PieceManagers.EmptyFileLiftsPiece | src/piece.rs:192-209 | an empty file that claims a piece without overlapping any |
| Priorities.SkipAgreesExactly | src/piece.rs:179-211 | a piece is unwanted when and only when all its bytes are masked in `write_piece`, exactly if no unlisted file orphans it and no wanted empty file lifts it |
| Priorities.FullListAgrees | src/piece.rs:179-211 | with a priority for every file and no wanted empty file the two agree on every piece |
| Priorities.ShortListOrphans | src/storage.rs:133-133 | a piece that is unwanted although its bytes would be written |
| PieceManagers.PieceManager.constructor | src/piece.rs:153-164 | nothing present, nothing started, availability zero, all priorities Normal |
| PieceManagers.PieceManager.ApplyFilePriorities | src/piece.rs:179-211 | each piece gets the best priority of the wanted files that claim it, Skip if there is none; without pieces nothing is asked for but that no file is wanted |
| PieceManagers.AssignedMeans | src/piece.rs:179-218 | High exactly if a High file claims the piece, Normal if a Normal and no High one does, Skip if none does |
| PieceManagers.PieceManager.ApplyFile | src/piece.rs:192-209 | one file improves exactly the pieces it touches |
| PieceManagers.PieceManager.MarkHavePiece | src/piece.rs:213-218 | one piece becomes more available |
| PieceManagers.PieceManager.SelectPiece | src/piece.rs:220-290 | empty only if nothing is eligible; at most ten eligible pieces of the best priority, within 2 of the rarest unless sequential, in order, and nothing eligible of the class passed over except for ten that come before it |
| PieceManagers.SelectedMeans | src/piece.rs:220-294 | the choice in plain terms: nothing Low while there is Normal or High, nothing Normal while there is High; by ascending index in sequential order, else by rarity and then index, at most two peers less rare than the rarest |
| PieceManagers.PieceManager.PickInProgressForPeer | src/piece.rs:361-386 | the unfinished started piece of the peer's with the most blocks, for every hash map order |
| Bitfields.PeerConnection.SetPiece | src/peer.rs:706-714 | adds exactly that piece, growing the field as needed |
| Bitfields.HaveBitfield | src/piece.rs:407-419 | a peer reading the bitfield sees exactly our pieces, spare bits clear |
| Bitfields.HighBitFirst | src/peer.rs:695-701 | the first piece of every eight is the highest bit of their byte |
| Layouts.OwnerUnique | src/metainfo.rs:194-199 | in contiguous files a position belongs to one file only |
| Layouts.FlatAt | src/storage.rs:127-137 | byte j of file i is byte offset + j of the flat array |
| Layouts.PieceSizesAddUp | src/metainfo.rs:264-275 | the piece sizes add up to the total exactly when there is one hash per started piece length |
| Storage.WriteIsMaskedSplice | src/storage.rs:112-149 | a write is a write to the flat array at every position outside skipped files, and nowhere else |
| Storage.WriteIsSplice | src/storage.rs:112-149 | with no skipped file, a write splices the flat array |
| Storage.ReadAfterWrite | src/storage.rs:167-208 | reading back what was written gives the data |
| Storage.OtherRangesUntouched | src/storage.rs:112-149 | a write leaves every disjoint range as it was, whatever is skipped |
| Storage.CacheCapacity | src/storage.rs:55-61 | as many pieces as fit into the cache size, but at least 64 and at most 2048 |
| Storage.Put | src/storage.rs:162-162 | the new entry comes first, the others keep their order, and the least recently used one goes when there is no room |
| Storage.DiskStorage.WriteFiles | src/storage.rs:117-145 | the loop over the file table writes each file's part of the splice |
| Storage.DiskStorage.WritePiece | src/storage.rs:112-149 | the masked splice, the piece's cache entry dropped, and the cache still agrees with the disk |
| Storage.DiskStorage.ReadPieceUncached | src/storage.rs:167-208 | the slice of the flat array, zeros beyond its end |
| Storage.DiskStorage.ReadPiece | src/storage.rs:151-165 | hit or miss, what an uncached read would return now, and the cache keeps agreeing with the disk |
| ReadCaches.CachedExactly | src/storage.rs:151-165 | after any reads a piece is cached exactly if it was read and since then fewer other pieces than there is room for |
| Webseed.SplitPieceIntoFileChunks | src/webseed.rs:220-254 | consecutive non-empty file ranges from the piece offset, together the piece cut at the end of the torrent, an error exactly when there is none |
| Webseed.JoinedIsSlice | src/webseed.rs:169-195 | the fetched chunks joined in order are the piece's slice of the flat array |
| Metainfo.OthersAreSkipped | src/metainfo.rs:205-235 | trackers that are no valid text and tiers that are no lists are passed over and cost no others |
| Metainfo.ParseMultiFile | src/metainfo.rs:153-203 | succeeds exactly when every entry is in order, with the files of the list and their total size |
| Metainfo.BuildPath | src/metainfo.rs:177-190 | the joined path, or nothing as soon as a component is not plain |
| Metainfo.PlainMeans | src/metainfo.rs:177-190 | a component is plain exactly if it contains no slash, backslash or zero byte and no two dots in a row |
| Metainfo.PathSplitsBack | src/metainfo.rs:177-190 | a path splits back into the base's components and then the file's own, one for one |
| Metainfo.FileListIs | src/metainfo.rs:153-203 | there is a file list exactly when every entry is in order, and the files then lie end to end with their own lengths and paths |
| Metainfo.FromBytes | src/metainfo.rs:35-151 | opens exactly the data whose root, info entry, piece length, hashes and files are in order, and to what they say |
| Metainfo.OpenedIsLaidOut | src/metainfo.rs:35-151 | every torrent that opens has contiguous files, their total size and hashes of twenty bytes |
| TorrentWire.TorrentOpens | src/metainfo.rs:35-151 | byte for byte: every torrent of one or many files, with any of the optional keys, opens to its name, piece length, hashes, files, trackers, web seeds and comments, under the hash of its info bytes |
| TorrentWire.WrappedBytes | src/network.rs:1493-1542 | byte for byte: the rewrap of such an info dictionary is such a torrent |
| Decimals.PrintedUsize | src/bencode.rs:122-146 | every printed length parses back |
| Decimals.PrintedI64 | src/bencode.rs:94-120 | every printed 64-bit integer parses back |
| Decimals.CastsInvert | src/peer.rs:400-463 | casting a 64-bit size to a signed integer and back loses nothing |
| Bencode.InsertGet | src/bencode.rs:183-183 | what a dictionary answers after an insertion |
| Bencode.PrintedIntegerParses | src/bencode.rs:94-120 | a printed integer is accepted, read back and left right behind |
| Bencode.IntegersAccepted | src/bencode.rs:94-120 | between `i` and `e`, exactly the printed numerals of 64-bit integers are accepted, and digits behind a plus sign |
| BencodeBytes.GrammarIs | src/bencode.rs:196-226 | what each of the four kinds of value looks like on the wire |
| Bencode.PrintedStringParses | src/bencode.rs:122-146 | a printed byte string is read back whatever bytes it holds |
| Bencode.PrintedValueParses | src/bencode.rs:70-194 | a printed value parses back at any position and depth, whatever follows, and is an error exactly when it is nested too deeply |
| Bencode.ParsedHolds | src/bencode.rs:70-194 | every accepted input gives 64-bit integers, sorted valid keys and at most the allowed nesting |
| Bencode.RoundTrip | src/bencode.rs:59-68 | parsing an encoding followed by anything returns the value and stops at its end, exactly up to nesting 128 |
| Bencode.NormalisationIsIdempotent | src/bencode.rs:59-68 | encoding what was parsed normalises: it parses to the same value again |
| BencodeParser.ParseValue | src/bencode.rs:70-92 | the recursive methods compute the parsing function |
| BencodeParser.ParseList | src/bencode.rs:148-165 | the list loop does |
| BencodeParser.ParseDict | src/bencode.rs:167-194 | the dictionary loop does, a repeated key overwriting |
| BencodeParser.EncodeValue | src/bencode.rs:196-226 | appends exactly the encoding to the buffer |
| BencodeParser.ExtractInfoRaw | src/bencode.rs:229-249 | the walk over the root's raw bytes computes the raw info function |
| BencodeParser.InfoRawOfPrinted | src/bencode.rs:229-249 | on any canonical root the walk returns the encoding of the info entry, unless an entry up to it is nested too deeply |
| BencodeParser.ReachableInfoIsGet | src/bencode.rs:229-249 | with no entry nested too deeply, that entry is the one a lookup finds |
| BencodeParser.ParsingIsLocal | src/bencode.rs:70-92 | what the parser accepts depends on the accepted bytes alone, wherever they stand, and is accepted where it is less deeply nested |
| Rewrap.WrapInfoDictWithTrackers | src/network.rs:1493-1542 | the insertions in source order give the root in key order; an unparsable dictionary is spliced in raw |
| Rewrap.RewrapPreservesInfo | src/network.rs:1493-1542 | the raw info bytes of the rewrapped torrent are the verified ones exactly when those are canonical |
| Canonicals.CanonicalIs | src/bencode.rs:59-68 | the encodings of values within the limit are exactly the bytes that parsing and printing give back |
| Canonicals.CanonicalIfSorted | src/bencode.rs:167-226 | a dictionary printed with its entries in any order is canonical exactly when its keys are in strict order |
| Canonicals.AnyOrderIsParsed | src/bencode.rs:167-194 | entries printed in any order, repeated keys or not, parse to the dictionary that takes them one by one |
| Canonicals.EntriesInjective | src/bencode.rs:196-226 | different entry lists are printed differently |
| Rewrap.UnsortedChangesItsHash | src/network.rs:1547-1571 | a dictionary that opens after the rewrap with another hash than the one it was verified against |
| Rewrap.FallbackLosesInfo | src/network.rs:1507-1513 | a dictionary that does not parse is never found again in the fallback torrent |
| Rewrap.FallbackNeverParses | src/network.rs:1507-1513 | and that torrent does not parse at all |
| Rewrap.RewrappedTorrentOpens | src/metainfo.rs:35-151 | for every dictionary: the rewrapped torrent opens exactly when it parses, is nested below the limit and describes a torrent, and then to that torrent with the same trackers and web seeds and the hash of its printed form |
| Rewrap.MagnetKeepsItsHash | src/network.rs:1547-1571 | the torrent that a magnet link turns into has the link's hash exactly when the verified dictionary is canonical |
| Metadata.FindDictEnd | src/peer.rs:469-503 | the nested loops compute the scanning function |
| Metadata.DictEndOfPrinted | src/peer.rs:469-503 | on a printed dictionary followed by anything, the scanner finds its end exactly when it holds no list |
| Metadata.ScannerNeverDisagrees | src/peer.rs:469-503 | on every input the parser accepts as a dictionary, the scanner finds the parser's end or none |
| Metadata.MetadataRoundTrip | src/peer.rs:400-463 | built messages parse back to type, piece, total size and raw data for all 64-bit numbers |
| Metadata.BuiltMessagesParse | src/peer.rs:400-463 | each of the three builders makes a message that parses back to what was put in |
| MetadataWire.BuiltBytes | src/peer.rs:400-463 | the bytes of a request, a data message with and without total size, and a reject |
| MetadataStates.MetadataState.SetTotalSize | src/peer.rs:32-36 | sizes and empties the buffer |
| MetadataStates.MetadataState.StorePiece | src/peer.rs:39-44 | stores within range and says whether all are present |
| MetadataStates.MetadataState.Assemble | src/peer.rs:47-59 | the pieces in order cut to the total size, or nothing while one is missing |
| MetadataExchanges.PeerRequests.Take | src/network.rs:1011-1023 | a data message is taken only if its piece was asked for on that connection, which uses up the request |
| MetadataExchanges.MetadataExchange.RequestPiece | src/network.rs:909-914 | after a handshake, the first missing piece is asked for, or piece 0 |
| MetadataExchanges.MetadataExchange.ReceiveData | src/network.rs:1025-1069 | what a data message does to the exchange: a verified dictionary ends it, a wrong one starts it anew, a stored chunk asks for the piece behind it |
| MetadataExchanges.FinishedIsVerified | src/network.rs:1043-1056 | whatever peers send, only dictionaries with the right hash are handed on |
| MetadataArrivals.OpenAreAsked | src/network.rs:1011-1023 | the requests open on a connection are those the events leave open, whatever the shared state |
| MetadataArrivals.FinishedExactly | src/network.rs:1010-1069 | with honest data messages, in any order with any repetitions and any advertised sizes, the exchange has finished exactly when at some moment every chunk that had come since the first connection and was asked for had come since the first one last came, and then with the dictionary |
| MetadataArrivals.RuleHearsFirstFirst | src/network.rs:909-926 | as the program asks, no other chunk comes before the first one |
| MetadataArrivals.NothingIsLost | src/network.rs:909-1097 | as the program asks, with at most two chunks, or while the first one comes once, the exchange has finished exactly when every chunk has come |
| MetadataFetch.OnePeerSuffices | src/network.rs:909-1069 | with one honest peer the program, by its own rule, asks for one chunk after the other and ends up with the dictionary, whatever its size |
| MetadataLoss.LateFirstLosesChunk | src/network.rs:1028-1030 | a run by the program's rule with three chunks and two peers: all three chunks come, and one is missing |
| MetadataStates.AssembledIsDict | src/peer.rs:47-59 | truthful chunks assemble exactly when none is missing, and then to the dictionary |
| MetadataStates.PresentAfter | src/peer.rs:32-44 | which chunks the buffer holds after true chunks in any order |
| MetadataStates.AnyChunkOrder | src/peer.rs:32-59 | what the buffer assembles to after true chunks in any order |
| Krpc.CompactAddrRoundTrip | src/dht/protocol.rs:137-170 | a compact address comes back without its IPv6 flow and scope |
| Krpc.KrpcRoundTrip | src/dht/protocol.rs:283-629 | every message comes back as its norm |
| KrpcWire.OnTheWire | src/dht/protocol.rs:283-629 | byte for byte: what every kind of message is sent as, key by key, and that these bytes are understood as the message, unchanged exactly when it is normal |
| KrpcWire.AnyAnnounceIsUnderstood | src/dht/protocol.rs:533-548 | an announce with any 64-bit numbers is understood, the port cut to 16 bits and the flag to 8 |
| KrpcWire.UnderstoodExactly | src/dht/protocol.rs:481-629 | a dictionary is a message exactly if the entries that its kind needs are there and of the right type |
| KrpcWire.UnknownKeysIgnored | src/dht/protocol.rs:481-629 | further entries under unknown keys change nothing |
| Krpc.UnchangedIffNormal | src/dht/protocol.rs:283-629 | a message comes back unchanged exactly when it is normal |
| Krpc.RepliesComeBackAsPings | src/dht/protocol.rs:283-629 | an announce reply and a node reply without IPv4 nodes come back as ping replies |
| Krpc.JunkIsSkipped | src/dht/protocol.rs:563-576 | in a list of peers, items that are no compact addresses are passed over and cost no others |
| Krpc.WantRoundTrip | src/dht/protocol.rs:57-91 | every combination of wanted families comes back |
| KrpcWire.NodeOnTheWire | src/dht/protocol.rs:99-135 | a node is its id, its address and its port with the high byte first, and parses back |
| Krpc.ParseCompactNodes | src/dht/protocol.rs:172-182 | the nodes are exactly those whose encodings make up the data up to an incomplete rest |
| Krpc.ParseCompactNodesV6 | src/dht/protocol.rs:184-194 | the same for IPv6 |
| Krpc.BuildAllInjective | src/dht/protocol.rs:99-135 | lists of one family with the same encoding are equal |
| PeerWire.DecodeBody | src/peer.rs:189-360 | every message body decodes to its message |
| PeerWire.FrameIs | src/peer.rs:189-280 | the bytes of every message: length with the highest byte first, number, fields |
| PeerWire.RecvOfEncoded | src/peer.rs:664-693 | a sent message is received as it was and nothing after it is touched, exactly up to the size limit |
| PeerWire.StreamRoundTrip | src/peer.rs:664-693 | a stream of messages is received message by message, exactly when none is over the limit |
| Queue.TorrentSession.Pause | src/network.rs:1430-1438 | pauses, and says Seeding for a complete torrent |
| Queue.TorrentSession.Resume | src/network.rs:1440-1449 | lifts both pauses |
| Queue.PauseTorrent | src/engine.rs:274-280 | a user pause overrides the queue's |
| Queue.ResumeTorrent | src/engine.rs:282-287 | resumes and starts |
| Queue.QueuePauseTorrent | src/engine.rs:296-302 | pauses into the queue |
| Queue.EnforceQueue | src/engine.rs:311-384 | the loops leave every session as the specification says, for every iteration order |
| Queue.NoLimitEmptiesQueue | src/engine.rs:313-325 | without a limit, flag by flag: who was in the queue is unpaused and started, everybody else is as before |
| Queue.NobodyWaitsWithoutLimit | src/engine.rs:313-325 | after any history, lifting the limit leaves nobody in the queue and paused only whom the user paused |
| Queue.WithLimit | src/engine.rs:327-384 | with a limit, flag by flag: complete sessions leave the queue, user-paused ones stay, every other one runs or waits |
| Queue.RunsExactly | src/engine.rs:355-377 | a session that takes part runs exactly if fewer of those that take part go before it, by pieces had of pieces needed and then by position, than there are slots |
| Queue.UserPauseStays | src/engine.rs:274-384 | no enforcement with whatever limit lifts a pause of the user's |
| Queue.RankingIs | src/engine.rs:355-360 | the sort ranks exactly the competing sessions by progress, ties by iteration order |
| Queue.SlotsAreFilled | src/engine.rs:336-382 | with a limit, exactly min(limit, candidates) candidates run; complete torrents leave the queue and user-paused ones are untouched |
| Queue.MostProgressedRun | src/engine.rs:355-377 | no running candidate is less progressed than a queued one |
| Queue.EnforcingTwice | src/engine.rs:311-384 | a second pass in the same order changes nothing |
| Queue.QueuePausedMeansPaused | src/engine.rs:274-393 | over any run of control operations, additions, removals, rechecks and changes of iteration order, queue-paused implies paused |
| Queue.LimitHoldsAfterAnyRun | src/engine.rs:311-384 | after any history, enforcement leaves exactly so many candidates running |
| RateLimiters.RateLimiter.TryConsume | src/types.rs:276-291 | refills, then takes the amount or nothing; always granted at rate zero |
| RateLimiters.RateLimiter.Refill | src/types.rs:306-330 | whole tokens up to the cap, the fraction carried over |
| RateLimiters.RateLimiter.constructor | src/types.rs:258-270 | starts with the cap in tokens, which is the rate or four blocks |
| RateLimiters.RefillIs | src/types.rs:306-330 | a refill adds what the time since the last one has earned at the rate, whole bytes and the rest apart, up to the cap |
| RateLimiters.TakesWhatItGrants | src/types.rs:276-291 | a request within the tokens is granted at once, a granted one takes its bytes, a refused one nothing |
| RateLimiters.RateLimiter.SetRate | src/types.rs:272-274 | changes the rate alone |
| RateLimiters.RefilledOk | src/types.rs:306-330 | at a fixed rate tokens never exceed the cap and the fraction stays below one |
| RateLimiters.WindowBound | src/types.rs:276-330 | bytes granted in a window stay below cap + 1 + rate times its length |
| RateLimiters.AnyWindow | src/types.rs:276-330 | the same for any window of any longer history |
| RateLimiters.EventuallyGranted | src/types.rs:293-304 | a request of at most the cap succeeds once it has waited amount / rate, however often it was refused |
| PeerStores.NearMeansSamePrefix | src/dht/peer_store.rs:130-133 | the distance bound admits exactly the hashes with our first two bytes |
| PeerStores.PeerStore.GenTokenFor | src/dht/peer_store.rs:106-119 | remembers the token, forgetting the oldest beyond a thousand |
| PeerStores.PeerStore.StorePeer | src/dht/peer_store.rs:121-173 | accepts exactly the near announces with a remembered token and room, and stores the address once |
| PeerStores.PeerStore.GetPeers | src/dht/peer_store.rs:175-180 | exactly the listed addresses of the hash |
| PeerStores.RunKeepsStoreOk | src/dht/peer_store.rs:106-173 | in every run the counter is the sum of the list lengths and at most 1000, addresses are distinct per hash, hashes near |
| PeerStores.TokensAreLastIssued | src/dht/peer_store.rs:106-119 | what is remembered is exactly the last thousand tokens issued |
| PeerStores.AcceptedExactly | src/dht/peer_store.rs:121-173 | when an announce is accepted after any run, in terms of the tokens issued |
| PeerStores.AnnounceIsListed | src/dht/peer_store.rs:121-173 | an accepted announce is listed at the announced port, or with an implied port where it came from; nobody else comes or goes |
| PeerStores.ListedExactly | src/dht/peer_store.rs:121-180 | after any run an address is listed for a hash exactly if some announce of it was accepted |

## Left out

- UI, tray, mobile glue, notifications and configuration files: no algorithm in them.
- Sockets, HTTP, UPnP, trackers, tasks and channels: only the atomic steps they trigger.
- SHA-1, UTF-8 decoding, JSON and memory mapping: abstract functions, or plain bytes.
- File system errors: a failed write or read is a step of the pipeline; `DiskStorage` itself models successful calls only.
- Which open file a writer gets a duplicate of: any that is open for the path, or a new one, which is more than the table of open files allows.
- Bytes written behind the declared end of a file: they are never read back and are dropped.
- Two file-table entries with the same path: files are distinct byte strings.
- 64-bit overflow of offsets and of string ends, and pieces near 4 GiB: numbers are unbounded there.
- State loaded from disk (routing table, peers, resume data): runs start empty, or from pieces truthfully recorded as present.
- `total_downloaded`, statistics and choking: a second verification of one piece counts twice, so nothing is claimed.
- Rounding of `f32` progress and `f64` tokens: reals.
- The window between the two flag writes of one pause or resume: each control operation is one step.
- Priorities changed in mid-run and a magnet link turning into a torrent while peers work: fixed during a run.
- `wait_consume`'s polling interval: refused calls at any times stand for it.
- Storage.DiskStorage.ReadPiece: one call is one step, because the program does not hold the lock between a miss and the put; `PipelineCache` has the interleaved calls.
- PipelineRuns.HaveIsTrue: assumes that every write call finds the position where its job left it, that the recorded pieces were truthful at the start and that no other data of at most a piece's size has its hash.
- PipelineDownload.PieceIsDownloaded: no peer, job or reader outside the download steps in between, and no I/O error; what holds with everybody at work is PipelineSafety.StepKeeps and PipelineRuns.HaveIsTrue.
- PipelineRecheck.RecheckFindsExactly: nobody else steps in between and no read fails; with others at work only PipelineSafety.StepKeeps is claimed of a recheck.
- The extended handshake itself: ours advertises the length of the whole torrent file as the size of the info dictionary (src/network.rs:594); `MetadataArrivals.FinishedExactly` is for any advertised sizes, and the first chunk brings the true one.
- MetadataArrivals.FinishedExactly: assumes honest data messages and that the empty string does not have the hash; what other peers can do is in MetadataExchanges.FinishedIsVerified alone.
- RoutingTables.RoutingTable.AddNode: states the counter as it is, not the number of contacts.
- Metadata.FindDictEnd: a length prefix near the 64-bit limit overflows the position in the program and does not here.
