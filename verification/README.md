# Verified models of the support tools

A Dafny model of the four places in this repository that hold real algorithms and protocols, with proofs of what
they promise. `dafny verify dfyconfig.toml` checks everything.

**mongoreplay, capture.** `Sequence`, `Reassembly` and the modules named after it give TCP reassembly as functions on
values and prove what is delivered for every order, overlap and loss of segments; `ReassemblyChunks` says of every
packet and flush what is handed over, with the page limits in numbers. `Recycling` adds what the pages of the cache
carry over from one use to the next, and `Leftovers` what comes of it. `PageList`, `PageRun`, `PageMoves`, `Assembler`
and `AssemblerPool` are the same thing on the heap, with the doubly linked page lists, the page cache, the connection
pool and several connections at once; each method is proved to do to a connection and to the cache what the functions
do to the values. `Message`, `Framer` and `FramerProofs` cut the stream into messages, `FramerGaps` is about gaps and
streams picked up midway, `FramerStamps` about the ops' times, `Capture` joins the two stages, and `OpHeap` puts the
ops back in time order.

**mongoreplay, playback.** `Cursors` and `Execution` are the tables that translate recorded cursors into live ones.
`Playback` is the dispatcher, its bounded queues and one goroutine for each connection as a step relation;
`PlaybackShape`, `PlaybackProgress` and `PlaybackRuns` prove what every step keeps and that every run ends,
`PlaybackUses` that no recorded use of a cursor is lost, and `PlaybackAnswers` what GetCursor answers and what is
sent. Which recordings are always played to the end is then settled exactly: `PlaybackFates` and `PlaybackTied`
construct schedules that get stuck, `PlaybackSessions` and `PlaybackKnots` analyse stuck states, `PlaybackExactly`
draws the conclusion, and `PlaybackDeadlock` is an example. `ParallelReader` and `ParallelReaderProofs` are the
concurrent parse pool.

**Restoring and repairing.** `Restore` is the time-series restore as a protocol in which the server may answer anything
it may answer and the script may crash anywhere; `RestoreScript` is the script, proved to be a run of the protocol.
`Scan` and `ScanRange` merge the nodes of a replica set; `Voting` decides what becomes of a document that differs, and
`Repair` pushes the decision through replication.

**Index statistics.** `IndexStats` adds up counter differences while servers restart.

## What the proofs found

The code is modelled as it is. Where it does not do what its comments say, the model follows the code, a lemma gives an
input, and a theorem says exactly when the promise holds.

* `Sequence.Difference` corrects a roll-over by 0xFFFFFFFF, one less than the size of the space, so a distance across the
  roll-over comes out one short, and the numbers 0 and 0xFFFFFFFF compare as equal. Section 3.4 of RFC 9293 reduces modulo
  2^32. `Sequence.DifferenceOfAdd` says exactly which distances come out right. `ReassemblyRollOver.CompleteExactly` says
  exactly which streams are delivered whole in every order, by the number of the SYN. If that is 0xFFFFFFFF, so that the
  first byte is numbered 0: those that end in the first quarter of the space, because the SYN's own empty page puts nextSeq
  back to 0xFFFFFFFF. For any other SYN: those whose bytes, and the number after them, do not roll over and whose bytes do
  not lie in both outer quarters. For every other stream a schedule is given in which a byte is lost or delivered twice,
  with no gap announced.
* `pageCache.next` is documented to return a clean page but leaves Skip and End of the page's last use. No byte is lost or
  repeated because of it (`ReassemblySafety.RunSafe` and `ReassemblyCompleteness.Complete` are for any leftovers). A stale End
  does not close a connection either: the page that carries it is followed by one that is due when it is
  (`ReassemblyCompleteness.PopNotLast`). But a gap may be announced where there is none (`ReassemblySafety.SkipIsExact`): once a
  flush has forced a page out over a gap, that page, used again, announces the same gap again
  (`Leftovers.GapAnnouncedTwice`). As long as nothing is forced, no gap is announced (`Leftovers.NothingForcedNoGap`).
* Completeness needs no bound on the payload: pages of long segments need not be sorted, but no page hides behind one that
  does not reach nextSeq (`ReassemblyCompleteness.FirstPageBlocksAll`). A FIN at the end of the stream closes the connection
  only when everything before it has been delivered (`ReassemblyFin.CompleteToTheEnd`).
* The framer gives up on a chunk that ends inside a message header; `FramerProofs.FramingExactly` shows that this is the only
  cut that matters.
* The heap sorts exactly if no op arrives behind as many later ones as it holds (`OpHeap.SortsExactly`).
* GetCursor waits for a cursor if preprocessing has found a reply that carries it, which is to say that it will come.
  `PlaybackExactly.AlwaysPlaysExactly` says exactly which recordings are played to the end under every schedule, for queues of
  any size. First, the recording must have no knot: a set of ops of which each is behind another in its channel, or waits
  for a cursor whose request or first reply is in the set or not dispatched by then. Second, if a request that makes a cursor
  may fail, no cursor that an op may wait for is used before its first reply. For the counter that such a use creates never
  learns the key of the request (`Cursors.EarlyOrigin`), a failure is then reported to nobody, and the op waits for ever
  (`PlaybackFates.EarlyUseBlocks`). If requests are recorded before their replies the second condition implies the first
  (`PlaybackExactly.RepliedFirstDecides`). `PlaybackDeadlock.EarlyUseDeadlocks` is a recording with a knot, with each request
  and its reply on one connection, that gets stuck although the server answers everything.
* The restore promises idempotence at every crash point. No bucket is ever lost, but measurements can be in the target
  twice: a crash between the direct insert and the delete, then a rerun whose insert fails with an error other than
  DuplicateKey, repairs a bucket that is there already; so does one insert that takes effect and fails all the same, without
  any crash (`Restore.CrashThenErrorCopiesTwice`). `Restore.NothingTwiceExactly` says when, in terms of what can be looked up
  before a run: if an insert that fails has never taken effect, a run can copy a bucket twice exactly if some id is then in
  both the source and the target; otherwise, exactly if the source is not empty. So looking before each start is enough in
  the first case, however often the script crashes (`Restore.NothingTwiceWithClearStarts`).
* A plain delete or replace does not reach every node (`Repair.PlainDeleteReaches`, `Repair.PlainReplaceReaches`); doing both does,
  in either order and whatever else is written in between.

## Model

| member | source | states |
|---|---|---|
| `Sequence.DifferenceOfAdd` | mongoreplay/mongoreplay/assembly.go:44-56 | Difference(s, Add(s, k)) is k exactly when s + k does not roll over and the two numbers are not in facing quarters; a roll-over inside the facing quarters comes out k - 1 |
| `Sequence.ZeroDifference` | mongoreplay/mongoreplay/assembly.go:33-52 | Difference is zero for equal numbers and for one other pair, the first and the last number |
| `Sequence.DifferenceIsAntisymmetric` | mongoreplay/mongoreplay/assembly.go:33-52 | swapping the numbers changes the sign, whatever they are |
| `Sequence.DifferenceIsRankDifference` | mongoreplay/mongoreplay/assembly.go:44-52 | inside any window no wider than a quarter of the space, across the roll-over or not, Difference is the difference of one rank function |
| `Sequence.DifferenceIsTransitive` | mongoreplay/mongoreplay/assembly.go:655-662 | hence the comparisons of the walk through the pages compose |
| `ReassemblySafety.SpanOfPage` | mongoreplay/mongoreplay/assembly.go:581-592 | byteSpan hands over exactly the bytes of a page that are not delivered yet, and nextSeq after them |
| `ReassemblySafety.RunSafe` | mongoreplay/mongoreplay/assembly.go:217-264 | over a whole life of a connection (any segments in any order, page limits, flushes, recycled pages with any leftovers): the chunks are slices of one byte stream, in order, none overlapping, each ending where nextSeq then stands, with a gap only at a chunk that was forced out by a flush, or by a segment whose pages (one for each 1900 bytes begun) reach a configured limit, announced with its size; for streams that do not roll over, from the SYN to the number after the last byte, nor touch both outer quarters (LastByteTwice shows that the first is needed) |
| `ReassemblySafety.HandleSafe` | mongoreplay/mongoreplay/assembly.go:510-579 | one packet or flush keeps that invariant, and forces at most the chunks of a flush, and for a packet one, if with its pages, counted in numbers, a configured limit is reached |
| `ReassemblySafety.SkipIsExact` | mongoreplay/mongoreplay/assembly.go:732-752 | the size announced with a page is right exactly when there is a gap or the recycled page carried no Skip from before |
| `Leftovers.NothingForcedNoGap` | mongoreplay/mongoreplay/assembly.go:732-752 | over any life of an assembler from a new cache, any connections sharing it: as long as no flush or limit forces a page out, the only gap announced is that at the start of a stream picked up midway, and no page carries a Skip |
| `Leftovers.GapAnnouncedTwice` | mongoreplay/mongoreplay/assembly.go:126-145 | for every gap of up to about three quarters of the space: a life in which a flush forces a page out over that gap and the page, used again, announces the same gap where none is |
| `ReassemblyCompleteness.Complete` | mongoreplay/mongoreplay/assembly.go:510-629 | without limits, flushes, FIN or RST: whatever the order, the overlaps and the repetitions of the segments, whatever their size and whatever flags recycled pages carry, the bytes delivered so far are the longest prefix of the stream that the segments so far cover, nextSeq is its end, and the connection is open |
| `ReassemblyFin.CompleteToTheEnd` | mongoreplay/mongoreplay/assembly.go:564-605 | the same with a FIN or RST at the end of the stream, with bytes or without, repeated and in any order: the bytes delivered are the longest prefix covered, and the connection is closed only when that is the whole stream |
| `ReassemblyCompleteness.OrderIndependent` | mongoreplay/mongoreplay/assembly.go:510-579 | the bytes delivered depend on which segments arrived, not on order, timestamps, repetition or recycled pages |
| `ReassemblyCompleteness.PopNotLast` | mongoreplay/mongoreplay/assembly.go:594-612 | when a page with an End from an earlier use is popped, the next page is due as well, so no batch ends with such an End and the connection is not closed |
| `ReassemblyCompleteness.CompleteAfterSyn` | mongoreplay/mongoreplay/assembly.go:510-629 | the same after an empty SYN, and each chunk ends where a segment or one of the pages it is cut into ends |
| `ReassemblyCompleteness.FirstPageBlocksAll` | mongoreplay/mongoreplay/assembly.go:607-612 | looking at the first page only is enough: if it does not reach nextSeq, no buffered page does, although pages of long segments need not be sorted |
| `ReassemblyCompleteness.SpliceOrdered` | mongoreplay/mongoreplay/assembly.go:650-690 | inserting a run of pages where the backward walk stops keeps that order |
| `ReassemblyRollOver.CompleteExactly` | mongoreplay/mongoreplay/assembly.go:33-56 | after an empty SYN of any number every order, overlap and repetition of segments delivers the longest prefix they have, if and only if: for a first byte numbered 0, the stream is no longer than a quarter of the space; otherwise, neither the bytes nor the number after them roll over and the bytes do not lie in both outer quarters |
| `ReassemblyRollOver.SynAtTheEndDropsAByte` | mongoreplay/mongoreplay/assembly.go:538-563 | after a SYN numbered 0xFFFFFFFF, for every stream longer than a quarter of the space: the byte after the first quarter, coming first, is taken for old and dropped for good |
| `ReassemblyRollOver.RollOverLosesAByte` | mongoreplay/mongoreplay/assembly.go:44-52 | for every stream with bytes numbered 0xFFFFFFFF and 0: three segments after which one byte is missing for good, with no gap announced |
| `ReassemblyRollOver.LastByteTwice` | mongoreplay/mongoreplay/assembly.go:581-592 | for every stream whose last byte is numbered 0xFFFFFFFF: that byte, repeated, is delivered twice |
| `ReassemblyRollOver.FarByteDropped` | mongoreplay/mongoreplay/assembly.go:559-563 | for every stream with bytes in both outer quarters: a byte of the last quarter that comes early is taken for old and dropped |
| `ReassemblyLimits.NoPanic` | mongoreplay/mongoreplay/assembly.go:684-687 | whatever has happened to a connection, with any sequence numbers, the first buffered page is never numbered nextSeq, so the panic in insertIntoConn is out of reach |
| `ReassemblyLimits.HandleSettled` | mongoreplay/mongoreplay/assembly.go:594-629 | nothing that could be sent is ever kept: every packet and flush leaves the first page beyond nextSeq |
| `ReassemblyLimits.LimitsHold` | mongoreplay/mongoreplay/assembly.go:684-699 | a segment of at most 1900 bytes leaves a connection with fewer pages than each configured limit if it had fewer before |
| `ReassemblyChunks.AheadWaits` | mongoreplay/mongoreplay/assembly.go:559-563 | a segment ahead of nextSeq, of any size: its pages, one for each 1900 bytes begun, go into the list, and if with them the pages of the connection and in use stay below the configured limits, nothing is handed over and nothing else changes; otherwise the first page is handed over, with those that follow on |
| `ReassemblyChunks.NextIsDelivered` | mongoreplay/mongoreplay/assembly.go:564-578 | a segment that is not ahead: one chunk with the last part of its bytes, its time and its End, then one for each page that follows on; the connection closes exactly if the last of these carries an End |
| `ReassemblyChunks.FirstIsDelivered` | mongoreplay/mongoreplay/assembly.go:538-558 | the first segment: the start is marked exactly by a SYN, anything else is announced as a gap of unknown size |
| `ReassemblyChunks.PagesOfSegment` | mongoreplay/mongoreplay/assembly.go:701-728 | page i of a segment has its bytes from 1900 i on, at most 1900, and its time; the last has its End |
| `ReassemblyChunks.ChunksCarry` | mongoreplay/mongoreplay/assembly.go:732-752 | the chunk of a page is a last part of its bytes, with its time and its End |
| `ReassemblyChunks.OlderFlushes` | mongoreplay/mongoreplay/assembly.go:222-246 | a flush of older pages hands over the first k pages, each in its own chunk, and keeps the rest; it closes a connection only with an End or, with all pages gone, if it was last seen before the time given |
| `ReassemblyChunks.OlderLeavesRecent` | mongoreplay/mongoreplay/assembly.go:222-246 | afterwards the connection is closed or neither its first page nor, without pages, itself is older; if that held before, nothing happens |
| `ReassemblyChunks.AllFlushes` | mongoreplay/mongoreplay/assembly.go:250-264 | a flush of everything hands over every page in order, up to one with an End, and closes the connection |
| `ReassemblyChunks.EveryChunkIsAStretch` | mongoreplay/mongoreplay/assembly.go:510-629 | over any life, with any numbers and limits: each chunk is a stretch of one packet with that packet's time, carries an End only if the packet did or a page it used was left with one, and only the first chunk can be a start |
| `PageList.PageCache.constructor` | mongoreplay/mongoreplay/assembly.go:103-111 | a new cache has all its pages free, and clean |
| `PageList.PageCache.Grow` | mongoreplay/mongoreplay/assembly.go:113-125 | growing adds the new pages, clean, at the end of the free list and counts them |
| `PageList.PageCache.Next` | mongoreplay/mongoreplay/assembly.go:126-145 | the last page leaves the free list with cleared links but with the Skip and End of its last use, and used grows by one; used plus free stays size |
| `PageList.PageCache.Replace` | mongoreplay/mongoreplay/assembly.go:147-151 | a page goes to the end of the free list with its Skip and End, used falls by one |
| `PageList.LinksConcat` | mongoreplay/mongoreplay/assembly.go:664-682 | two doubly linked runs whose facing ends point at each other are one |
| `PageList.Connection.TraverseConn` | mongoreplay/mongoreplay/assembly.go:650-662 | the walk back through the links stops at the position of the specification, between the two pages there |
| `PageList.Connection.PushBetween` | mongoreplay/mongoreplay/assembly.go:664-682 | relinking a run between two neighbours gives the well-formed list front, run, back, with the same contents |
| `PageList.Connection.Unlink` | mongoreplay/mongoreplay/assembly.go:743-751 | taking the first page off leaves the well-formed rest |
| `PageList.Connection.Reset` | mongoreplay/mongoreplay/assembly.go:362-370 | a reused connection object is a new connection, except that lastSeen is kept |
| `PageList.StreamPool.NewConnection` | mongoreplay/mongoreplay/assembly.go:453-467 | the object handed out is not open, holds no pages, and is no longer in reserve |
| `PageRun.CutOneMore` | mongoreplay/mongoreplay/assembly.go:711-725 | each round of the loop extends the cut of the payload by one full page |
| `PageRun.PagesFromTcp` | mongoreplay/mongoreplay/assembly.go:701-728 | the new pages form a doubly linked run that holds the payload cut at the page size, with the flags that the cache had for them |
| `PageMoves.TakeBytes` | mongoreplay/mongoreplay/assembly.go:733-742 | the first page's chunk is the one of the specification, and nextSeq moves past it |
| `PageMoves.PopFirstPage` | mongoreplay/mongoreplay/assembly.go:732-752 | the first page goes from the list to the cache, with the gap announced with it, and nothing else moves |
| `PageMoves.BufferPages` | mongoreplay/mongoreplay/assembly.go:684-691 | a segment's pages come from the cache into the list at their position; no page is lost and the pages used elsewhere are as many as before |
| `PageMoves.ReplaceAll` | mongoreplay/mongoreplay/assembly.go:645-647 | closing gives every page of the list back, in order, with its flags |
| `Assembler.Assembler.AddNextFromConn` | mongoreplay/mongoreplay/assembly.go:730-752 | on the heap, popping is PopFirst of the specification, for the connection and for the cache |
| `Assembler.Assembler.AddContiguous` | mongoreplay/mongoreplay/assembly.go:607-612 | the loop sends exactly the pages that the specification sends |
| `Assembler.Assembler.InsertIntoConn` | mongoreplay/mongoreplay/assembly.go:684-699 | buffering and the limit check are Insert of the specification, on which AheadWaits gives the limits in numbers; the panic is proved unreachable |
| `Assembler.Assembler.CloseConnection` | mongoreplay/mongoreplay/assembly.go:631-648 | closing empties the connection into the cache and removes it from the pool |
| `Assembler.Assembler.SendToConnection` | mongoreplay/mongoreplay/assembly.go:594-605 | what is delivered, and whether the connection closes |
| `Assembler.Assembler.SkipFlush` | mongoreplay/mongoreplay/assembly.go:614-629 | on the heap, skipFlush is SkipFlush of the specification |
| `Assembler.Assembler.FlushOlder` | mongoreplay/mongoreplay/assembly.go:222-246 | the flush of one connection is FlushOlder of the specification, and is counted exactly if its first page, or with no pages the connection, is older |
| `Assembler.Assembler.FlushAll` | mongoreplay/mongoreplay/assembly.go:250-264 | the flush of one connection ends with it closed |
| `Assembler.Assembler.Receive` | mongoreplay/mongoreplay/assembly.go:538-578 | a packet on an open connection is Receive of the specification, with the pages and flags that the cache has; pages are neither lost nor taken from others |
| `AssemblerPool.InUseBound` | mongoreplay/mongoreplay/assembly.go:93-151 | counting: a connection's pages are among those in use |
| `AssemblerPool.MadeSize` | mongoreplay/mongoreplay/assembly.go:113-151 | counting: pages that an operation took or made are all accounted for |
| `AssemblerPool.ValuesWithout` | mongoreplay/mongoreplay/assembly.go:631-636 | removing a connection's key removes that connection and no other |
| `AssemblerPool.NewAssembler` | mongoreplay/mongoreplay/assembly.go:321-338 | everything is in its place at the start |
| `AssemblerPool.GetConnection` | mongoreplay/mongoreplay/assembly.go:469-489 | an open connection is found, or a new empty one is added under its key, or none is made for a packet that ends a stream |
| `AssemblerPool.ActInPool` | mongoreplay/mongoreplay/assembly.go:510-648 | any packet or flush of one connection: used plus free is all there is, every page is in the free list or in the well-formed list of exactly one open connection, and the connection and the cache do what the specification says |
| `AssemblerPool.AssembleWithTimestamp` | mongoreplay/mongoreplay/assembly.go:497-579 | the same for a packet looked up by key; every other connection is as it was |
| `AssemblerPool.AssemblePacket` | mongoreplay/mongoreplay/assembly.go:497-579 | the assembler with all its connections and its cache takes exactly the step that the pool on values takes |
| `AssemblerPool.AssembleOnePage` | mongoreplay/mongoreplay/assembly.go:374-385 | with segments of one page, both page limits are unreached after every packet, of every connection and in total |
| `AssemblerPool.FlushStep` | mongoreplay/mongoreplay/assembly.go:222-246 | the flush of one connection is a step of the pool on values |
| `AssemblerPool.FlushEach` | mongoreplay/mongoreplay/assembly.go:199-264 | flushing every connection, in any order, does to each what the specification says, takes one step of the pool on values for each, keeps everything in its place, and returns how many it flushed and closed |
| `Message.HeaderRoundTrip` | mongoreplay/mongoreplay/message.go:48-65 | FromWire undoes ToWire for every header |
| `Message.WireRoundTrip` | mongoreplay/mongoreplay/message.go:48-65 | ToWire undoes FromWire for every 16 bytes |
| `Message.LittleEndian` | mongoreplay/mongoreplay/message.go:59-65 | a field is read least significant byte first, in two's complement |
| `Message.WireLayout` | mongoreplay/mongoreplay/message.go:48-57 | the header is 16 bytes: length, request id, response id and opcode, in that order |
| `Message.RealHeaders` | mongoreplay/mongoreplay/message.go:80-94 | a header is taken for real exactly if its length is from 24 to 48000000, its ids are not negative and its opcode is one of twelve, in numbers |
| `Message.ToWire` | mongoreplay/mongoreplay/message.go:48-57 | the buffer holds the four fields little-endian |
| `Framer.HandleShrinks` | mongoreplay/mongoreplay/mongo_op_handler.go:355-385 | each round of the inner loop uses up bytes, or leaves the out-of-sync state with the same bytes; so it ends |
| `Framer.Framing.HandleStreamStateInMessage` | mongoreplay/mongoreplay/mongo_op_handler.go:268-301 | a body never outgrows its message length, and the copied part is there: the panic on a short copy is out of reach |
| `Framer.Framing.StreamOps` | mongoreplay/mongoreplay/mongo_op_handler.go:338-389 | the loops compute the specification on every sequence of chunks |
| `FramerProofs.FramingExactly` | mongoreplay/mongoreplay/mongo_op_handler.go:234-302 | for a stream of messages, and a framer before a message or out of sync: the ops are exactly the messages, whole and in order, if and only if no chunk ends inside a header |
| `FramerProofs.ChunksExact` | mongoreplay/mongoreplay/mongo_op_handler.go:338-389 | after any prefix cut outside headers the messages that end in it have been emitted, whether the framer was in sync or not |
| `FramerProofs.BadCutLoses` | mongoreplay/mongoreplay/mongo_op_handler.go:241-249 | once a chunk has ended inside a header, the bytes emitted and held are fewer than those read |
| `FramerProofs.ChunkingDoesNotMatter` | mongoreplay/mongoreplay/mongo_op_handler.go:338-389 | two ways of cutting outside headers give the same messages |
| `FramerProofs.EveryOpIsSound` | mongoreplay/mongoreplay/mongo_op_handler.go:234-318 | for any chunks and gaps: an op's body has the length its header says, within the limits, starts with that header, and lies between two gaps |
| `FramerGaps.MidwayExactly` | mongoreplay/mongoreplay/mongo_op_handler.go:366-372 | a stream picked up midway at the start of a message, whatever the framer was doing: the ops are exactly the messages if and only if no chunk ends inside a header |
| `FramerGaps.ResumesAfterGap` | mongoreplay/mongoreplay/mongo_op_handler.go:303-318 | after a gap nothing is emitted for its chunk nor for chunks that do not start with a header taken for real; from the next chunk that starts with a message on, the ops are exactly the messages if and only if no chunk ends inside a header |
| `FramerStamps.EveryOpIsStamped` | mongoreplay/mongoreplay/mongo_op_handler.go:234-266 | for any chunks: the time of an op is that of the chunk in which its header came |
| `Capture.CapturesMessages` | mongoreplay/mongoreplay/mongo_op_handler.go:338-389 | reassembly, then framing: with the segments of a stream of messages in any order, overlapping and repeated, none of which ends inside a header, nor a page of one, the ops emitted are exactly the messages within the longest prefix that the segments cover |
| `Capture.CapturesExactly` | mongoreplay/mongoreplay/mongo_op_handler.go:338-389 | once every byte has arrived, the ops are exactly the messages if and only if no chunk handed over ends inside a header |
| `OpHeap.EmittedOnce` | mongoreplay/mongoreplay/mongo_op_handler.go:194-212 | every op that enters the heap comes out once |
| `OpHeap.SortsExactly` | mongoreplay/mongoreplay/mongo_op_handler.go:194-212 | the output is in time order exactly when no op arrives behind as many ops seen after it as the heap holds |
| `OpHeap.FarApartInOrderSorts` | mongoreplay/mongoreplay/mongo_op_handler.go:194-212 | it is if any two ops at least the heap's capacity apart are in order on arrival |
| `OpHeap.OneOutput` | mongoreplay/mongoreplay/recorded_op.go:35-47 | with all stamps different the output does not depend on how the heap arranges its items |
| `OpHeap.OrderedOps.HeapPop` | mongoreplay/mongoreplay/recorded_op.go:41-58 | Swap and Pop take off an op that no other is less than |
| `OpHeap.HandleOps` | mongoreplay/mongoreplay/mongo_op_handler.go:194-212 | the loop emits a permutation of its input numbered from one, each time a least op of those waiting |
| `Cursors.CountersSpec` | mongoreplay/mongoreplay/cursors.go:104-143 | the counters after any recording: uses, first reply, connection of the last reply, for each cursor |
| `Cursors.EarlyOrigin` | mongoreplay/mongoreplay/cursors.go:106-140 | the counter of a cursor that is used before its first reply never learns the key of the request |
| `Cursors.PreprocessCursorManager.constructor` | mongoreplay/mongoreplay/cursors.go:163-262 | the manager waits for exactly the nonzero cursors that are both replied and used, with their use counts, and knows the request of each |
| `Cursors.PreprocessCursorManager.MarkFailed` | mongoreplay/mongoreplay/cursors.go:145-161 | marks the failed op's cursor, and only that; it is never called on one already marked |
| `Cursors.PreprocessCursorManager.SetCursor` | mongoreplay/mongoreplay/cursors.go:308-321 | the first live id set stays; later ones are ignored |
| `Cursors.PreprocessCursorManager.UseCursor` | mongoreplay/mongoreplay/cursors.go:288-300 | hands out the live id, counts the use down, and drops the cursor exactly if no more than one use was left; other cursors stay |
| `Execution.PairsEitherWay` | mongoreplay/mongoreplay/execute.go:88-125 | a reply pair comes out the same whichever half arrives first |
| `Execution.AddReplyOk` | mongoreplay/mongoreplay/execute.go:88-125 | complete pairs have both halves, both nonzero; incomplete ones just one |
| `Execution.ExecutionContext.AddFromWire` | mongoreplay/mongoreplay/execute.go:88-99 | the method is AddReply of the specification |
| `Execution.ExecutionContext.AddFromFile` | mongoreplay/mongoreplay/execute.go:101-108 | the method is AddReply of the specification |
| `Execution.ExecutionContext.HandleCompletedReplies` | mongoreplay/mongoreplay/execute.go:149-170 | every complete pair is handed to the manager once, and only incomplete ones remain |
| `Execution.RewriteCursors` | mongoreplay/mongoreplay/execute.go:127-147 | compacting the list in place while reading it leaves the ids that GetCursor answered, in order, at exactly the places where it answered one |
| `Execution.RewrittenFound` | mongoreplay/mongoreplay/execute.go:127-147 | the places with an answer, in order: the result has one id for each, the one answered there |
| `PlaybackShape.StepShape` | mongoreplay/mongoreplay/play.go:155-208 | what every step of every goroutine keeps of the queues: each op is in one place, in recorded order within its channel |
| `PlaybackProgress.StepInv` | mongoreplay/mongoreplay/execute.go:172-280 | every step of the dispatcher and the connections keeps the playback invariant |
| `PlaybackProgress.PlayedMeansSettled` | mongoreplay/mongoreplay/cursors.go:264-306 | once both the request and the first reply of a cursor are played, its wait is over, unless the request can fail and the cursor is used before that reply |
| `PlaybackProgress.NeverFailsTwice` | mongoreplay/mongoreplay/cursors.go:145-161 | no channel is closed a second time in any reachable state |
| `PlaybackRuns.StepWork` | mongoreplay/mongoreplay/execute.go:172-227 | every step uses up part of a bounded amount of work |
| `PlaybackRuns.LiveIsFixed` | mongoreplay/mongoreplay/cursors.go:308-321 | the live id of a cursor never changes once set |
| `PlaybackRuns.AnswersAlongRun` | mongoreplay/mongoreplay/cursors.go:264-321 | over every run from the start, and however it goes on: each successful GetCursor answers the cursor's one nonzero live id, and that id stays |
| `PlaybackUses.UsesAddUp` | mongoreplay/mongoreplay/cursors.go:288-300 | in every reachable state: the uses left of a cursor and the ids given for it so far add up to its uses in the recording, it is in the table exactly as long as uses are left, and these are enough for all that is still to be asked |
| `PlaybackUses.AskedIsPresent` | mongoreplay/mongoreplay/cursors.go:264-300 | no recorded use, in any run, finds its cursor dropped |
| `PlaybackAnswers.KnownIsAnswered` | mongoreplay/mongoreplay/cursors.go:264-306 | every use asked for once the live id is known is answered with that id, however the run goes on, unless the cursor's request has failed |
| `PlaybackAnswers.SentAreLive` | mongoreplay/mongoreplay/execute.go:127-147 | an op that is executed is sent with the live ids of exactly those of its cursors that were answered, in order, and with at least one |
| `PlaybackAnswers.LiveIdIsSaid` | mongoreplay/mongoreplay/execute.go:149-170 | a live id is what the server said in this run to a request whose recorded reply carries that cursor |
| `PlaybackSessions.ChannelsAreSessions` | mongoreplay/mongoreplay/play.go:189-201 | in every reachable state two ops were sent to one channel if and only if they are of one connection number with no end of it between them, and the next op goes to the channel of its session |
| `PlaybackFates.EarlyUseBlocks` | mongoreplay/mongoreplay/cursors.go:106-161 | for every recording in which a cursor that an op may wait for is used before its first reply: if requests fail, playback gets stuck before that op is done |
| `PlaybackKnots.StuckIsKnot` | mongoreplay/mongoreplay/cursors.go:264-306 | in every reachable stuck state the ops left are a knot of the recording, unless a failure could go unreported |
| `PlaybackTied.KnotGetsStuck` | mongoreplay/mongoreplay/play.go:145-216 | for every knot of a recording: a schedule that gets stuck with the ops of the knot not done, with a server that answers every request that makes a cursor waited for |
| `PlaybackExactly.AlwaysPlaysExactly` | mongoreplay/mongoreplay/execute.go:172-280 | for every recording, queue size and kind of server: playback always gets to the end if and only if the recording has no knot and, where requests that make cursors may fail, no cursor that an op may wait for is used before its first reply |
| `PlaybackExactly.TimelyHasNoKnot` | mongoreplay/mongoreplay/cursors.go:253-263 | if what an op may wait for is recorded before it, there is no knot, for queues of any size |
| `PlaybackExactly.NeverStuck` | mongoreplay/mongoreplay/play.go:145-216 | then every reachable state with ops left has an enabled step |
| `PlaybackExactly.EveryRunPlaysEverything` | mongoreplay/mongoreplay/play.go:145-216 | and every schedule ends, and can only end with every op played |
| `PlaybackExactly.RepliedFirstDecides` | mongoreplay/mongoreplay/cursors.go:106-140 | if requests may fail and are recorded before their replies, playback always gets to the end if and only if no cursor that an op may wait for is used before its first reply, whatever the queues |
| `PlaybackDeadlock.EarlyUseDeadlocks` | mongoreplay/mongoreplay/cursors.go:264-306 | a recording that gets stuck for queues of any size: each request and its reply on one connection, the server answers every request that makes a cursor waited for |
| `ParallelReaderProofs.StepInv` | mongoreplay/mongoreplay/parallel_file_read_manager.go:40-135 | every step of reader, workers and consumer keeps the invariant: each result manager's one token is in one place, and jobs in flight are the next ones wanted |
| `ParallelReaderProofs.DeliversNext` | mongoreplay/mongoreplay/parallel_file_read_manager.go:126-135 | the result that next() receives is that of the next document of the file |
| `ParallelReaderProofs.NoSendOnClosed` | mongoreplay/mongoreplay/parallel_file_read_manager.go:40-121 | nothing is sent on a closed channel and no channel is closed twice |
| `ParallelReaderProofs.ReadsInOrder` | mongoreplay/mongoreplay/parallel_file_read_manager.go:106-135 | over every interleaving, also after a read error: the results are a prefix of the file in order, each document once; each as parsed; without an error the end comes after all |
| `ParallelReaderProofs.ErrorIsRecorded` | mongoreplay/mongoreplay/parallel_file_read_manager.go:40-56 | once the consumer has seen the end, an error is recorded exactly if reading the file failed |
| `ParallelReaderProofs.NeverStuck` | mongoreplay/mongoreplay/parallel_file_read_manager.go:40-121 | while the consumer waits some goroutine can move, read error or not |
| `ParallelReaderProofs.EveryScheduleEnds` | mongoreplay/mongoreplay/parallel_file_read_manager.go:40-135 | every schedule ends with the consumer told so, after the whole file if there was no error |
| `Restore.NoBucketLost` | timeseries-restore-via-regular-coll/timeseries-restore-via-regular-coll.js:213-286 | for every interleaving of crashes, restarts, transient errors and unknown commits: each bucket is in the source, the target or the bad collection, and a return leaves the source empty |
| `Restore.NothingTwiceExactly` | timeseries-restore-via-regular-coll/timeseries-restore-via-regular-coll.js:118-154 | before a run, with nothing in the target twice: the run may copy a bucket twice if and only if some bucket is in both the source and the target; if an insert that fails may have taken effect, if and only if the source is not empty |
| `Restore.NothingTwiceUnlessInsertFailsOnPresent` | timeseries-restore-via-regular-coll/timeseries-restore-via-regular-coll.js:228-240 | over any number of runs: nothing is in the target twice unless an insert fails with another error than DuplicateKey on a bucket that is in the target |
| `Restore.NothingTwiceWithClearStarts` | timeseries-restore-via-regular-coll/timeseries-restore-via-regular-coll.js:213-286 | however often the script crashes: nothing is in the target twice if each run starts with no bucket in both the source and the target and an insert that fails has not taken effect |
| `Restore.CrashThenErrorCopiesTwice` | timeseries-restore-via-regular-coll/timeseries-restore-via-regular-coll.js:213-286 | both ways happen: after a crash between insert and delete the next run can copy a bucket twice, and a first run can if an insert takes effect and fails |
| `Restore.RestartFinishes` | timeseries-restore-via-regular-coll/timeseries-restore-via-regular-coll.js:174-286 | however it was interrupted, the next undisturbed run ends in a bounded number of steps with an empty source |
| `RestoreScript.Server.IsRun` | timeseries-restore-via-regular-coll/timeseries-restore-via-regular-coll.js:174-295 | whatever the script has done so far is a run of the protocol, and the totals are those of that run |
| `RestoreScript.Server.CommitTransaction` | timeseries-restore-via-regular-coll/timeseries-restore-via-regular-coll.js:129-150 | each answer of the server to a commit, and what it leads to: done, failed, or tried again, the commit alone if its result is unknown; the repair takes effect once |
| `RestoreScript.TryRepairBucket` | timeseries-restore-via-regular-coll/timeseries-restore-via-regular-coll.js:60-158 | the retry loops are a run of the protocol from unpacking to repaired, not repaired or stopped, and a repair counts as one exactly then |
| `RestoreScript.ProcessBucket` | timeseries-restore-via-regular-coll/timeseries-restore-via-regular-coll.js:221-283 | one bucket: inserted, repaired or recorded as bad, then deleted unless the repair has; what it reports is what happened, and with a server that does as it is told it is copied directly |
| `RestoreScript.RunCopyWithRepair` | timeseries-restore-via-regular-coll/timeseries-restore-via-regular-coll.js:174-295 | the script returns only with an empty source; its totals are the buckets taken, repaired and given up in the run, and with a server that does as it is told every bucket is copied directly and counted once |
| `Scan.GetLeastId` | replset-consistency/scan_checked_replset.js:85-105 | all the places of the least id, ascending, and none only if there are no documents |
| `Scan.CountCandidates` | replset-consistency/scan_checked_replset.js:107-125 | the distinct choices, each with how often and where it first occurs |
| `Scan.PickDoc` | replset-consistency/scan_checked_replset.js:107-143 | consistent exactly if all nodes agree; otherwise the strict plurality, or undecided with two tied |
| `ScanRange.MatchingBeyond` | replset-consistency/scan_checked_replset.js:194-230 | a cursor past its first id is the cursor opened beyond that id |
| `ScanRange.RepairRange` | replset-consistency/scan_checked_replset.js:240-315 | whatever snapshots expire while advancing: it ends, each id of the union is handled once in ascending order, and every save collection holds that node's version of exactly the ids on which the nodes disagree |
| `ScanRange.HandledExactly` | replset-consistency/scan_checked_replset.js:240-300 | an id is handled exactly if it is in the half-open range and on some node |
| `ScanRange.DisagreeExactly` | replset-consistency/scan_checked_replset.js:107-125 | the nodes disagree on an id exactly if some node's document with it is not on every node |
| `ScanRange.SavedExactly` | replset-consistency/scan_checked_replset.js:269-289 | what is saved of an id for a node is its document, or a marker that it has none |
| `ScanRange.LeftShrinks` | replset-consistency/scan_checked_replset.js:240-313 | resuming at the key of the failure leaves fewer ids, so the outer loop ends |
| `Voting.CountSameDocs` | replset-consistency/repair_checked_documents.py:64-78 | the equality classes of the docs with their members, largest first, counts summing to the number of nodes |
| `Voting.OneNameEach` | replset-consistency/repair_checked_documents.py:306-326 | every pair of settings but never and never has exactly one strategy name |
| `Voting.Names` | replset-consistency/repair_checked_documents.py:306-326 | which settings each strategy name stands for |
| `Voting.WinnerIsSound` | replset-consistency/repair_checked_documents.py:167-217 | whatever wins has the most votes, under a majority setting more than half, under a never setting nothing wins, and no two versions win |
| `Voting.WinsExactly` | replset-consistency/repair_checked_documents.py:172-211 | what wins, in votes: more than half under majority; under plurality more than any other, or as many as others if the other setting is not plurality and no other version is among them |
| `Voting.AutomaticChoice` | replset-consistency/repair_checked_documents.py:172-211 | the automatic choice is exactly the winner by votes and strategy, if there is one |
| `Voting.TieDecides` | replset-consistency/repair_checked_documents.py:190-211 | in a tie: delete if keep is not plurality, keep the only version if delete is not plurality, otherwise neither |
| `Voting.MakeChoice` | replset-consistency/repair_checked_documents.py:167-217 | the choice for one document is what the votes, the strategy and the fallback decide, and a version kept is one that a node has |
| `Voting.DecidesExactly` | replset-consistency/repair_checked_documents.py:167-217 | a winning version is restored, a winning missing marker deletes; without a winner the user or the fallback decides, without a strategy the user |
| `Voting.DecidesOnce` | replset-consistency/repair_checked_documents.py:167-217 | votes, strategy and answer leave one outcome |
| `Repair.AgreeWhereLogged` | replset-consistency/repair_checked_documents.py:219-236 | for any writes on the primary: on an id the log names, a node that applied the log agrees with the primary, whatever either held; other ids are untouched |
| `Repair.BothReachEveryNode` | replset-consistency/repair_checked_documents.py:219-236 | a replace and a delete of one id, in either order and with other writes in between, make every node agree on it |
| `Repair.PlainDeleteReaches` | replset-consistency/repair_checked_documents.py:219-226 | a plain delete reaches a node exactly if the primary has the document or the node does not |
| `Repair.PlainReplaceReaches` | replset-consistency/repair_checked_documents.py:228-236 | a plain replace reaches a node exactly if the primary has another version or the node has the right one |
| `Repair.RangeConverges` | replset-consistency/repair_checked_documents.py:259-298 | a repaired range: on every node each id is as decided; ids skipped or fixed before are untouched and not in the log |
| `Repair.RepairRange` | replset-consistency/repair_checked_documents.py:259-298 | the loop performs exactly the writes of the outcomes that the votes decide, and records exactly those ids as fixed; a dry run changes nothing |
| `Repair.ReplicatedCollection.DeleteDoc` | replset-consistency/repair_checked_documents.py:219-226 | replace, then delete |
| `Repair.ReplicatedCollection.ReplaceDoc` | replset-consistency/repair_checked_documents.py:228-236 | delete, then replace |
| `Repair.ScanFeedsRepair` | replset-consistency/repair_checked_documents.py:271-272 | what the scan saves has the same ids in every collection, which the repair relies on |
| `Repair.RerunSkips` | replset-consistency/repair_checked_documents.py:264-280 | a second run leaves alone the ids that the first one recorded |
| `IndexStats.IntervalBound` | indexStats/indexStats.js:325-358 | between two snapshots no access is counted that did not happen, however the seconds of a reset fall; without a reset and with the server reached twice, all are |
| `IndexStats.IntervalExactly` | indexStats/indexStats.js:325-358 | an interval with a reading at both ends adds the difference, if the seconds of the two reset times are equal and the count has not gone down, else nothing |
| `IndexStats.IntervalNeedsBoth` | indexStats/indexStats.js:325-358 | without a reading at both ends it adds nothing |
| `IndexStats.ServersExactly` | indexStats/indexStats.js:325-361 | a server is listed in a difference exactly if its reading can be compared with the one of the last snapshot |
| `IndexStats.RetrievedIsGathered` | indexStats/indexStats.js:137-150 | a snapshot has every record of every listed server that answers, as often as the answers have it, and no others |
| `IndexStats.NeverOverstates` | indexStats/indexStats.js:325-402 | the total of an index is at most its accesses between the first and the last snapshot, for any resets, noticed or not, and any unreachable servers; equal if there are none |
| `IndexStats.AllAreCounted` | indexStats/indexStats.js:137-174 | in terms of the servers' answers: the total is at most the accesses on the listed servers, and all of them if every listed server answers each time and none resets |
| `IndexStats.IndexStatsAccumulator.TakeSnapshot` | indexStats/indexStats.js:137-174 | the maps hold the baseline and the totals of all snapshots so far; the new one has the records of all listed servers that answer, and a server that does not answer adds nothing |
| `IndexStats.IndexStatsAccumulator.BuildLastDiff` | indexStats/indexStats.js:325-361 | the difference map has exactly the indexes with a comparable reading, with their sums and servers |
| `IndexStats.IndexStatsAccumulator.UpdateCumulativeStats` | indexStats/indexStats.js:385-402 | the differences are added to the totals, in any order |
| `IndexStats.IndexStatsAccumulator.UpdateBaseline` | indexStats/indexStats.js:367-380 | everything is marked absent, then the readings are recorded as present |

## Left out

- ReassemblyCompleteness.Complete: without page limits, flushes, and a FIN or RST inside the stream, because the code does not deliver everything otherwise; RunSafe covers these, CompleteToTheEnd a FIN or RST at the end. A SYN with data and a capture that starts midway are covered for streams in a window. CompleteExactly covers an empty SYN for exactly the streams for which the law holds.
- Capture.CapturesMessages: for recycled pages without a Skip left over, because a stale Skip makes the framer drop what it has; the SYN is not numbered 0xFFFFFFFF.
- Playback.Enabled: the time-to-live of the cursor and reply caches and the generations of a repeated playback are not modelled; entries are permanent, one playback is one trace.
- ParallelReader.Enabled: parsing is one step, with any result; what it does to a document is a parameter.
- PageList.Page: the bytes of a page are a value, not a slice of its buffer, so that the model does not say that a buffer is read before it is reused; the links, owners and lists are on the heap.
- PageList.PageCache.Next: the 1024 pages of the first allocation are a parameter, and the growth of the cache is not bounded, as in the source.
- PlaybackExactly.AlwaysPlaysExactly: for recordings in which requests, and replies that carry a cursor, have distinct keys and each cursor waited for was made by a recorded request that is executed; every connection of the playback can be opened.
- OpHeap.OrderedOps.HeapPop: container/heap is not part of this repository; the model takes any op that no other is less than.
- Repair.Apply: what a secondary does with an entry is the documented tolerant behaviour, not modelled from source.
- RestoreScript.Server: the server's answers are a finite list, after which the script crashes; a run of the protocol may be of any length.
- IndexStats.IndexStatsAccumulator: the retrieval status of servers, the snapshot times and the result documents.
- Several assemblers that share a StreamPool, and the panic on a second start of a connection: one assembler is modelled.
- Packet capture, sockets, sessions, BSON, gzip, logging, sleeps, wall-clock scheduling and the prompts for the user, whose answer is any valid one.
- The parsers of wire operations: their writers are not part of this model, so there is no round trip to state.
- Finding bad ranges and killing sessions in scan_checked_replset.js; sleeps and retries while no common snapshot can be had.
- The balancer, dbStats, getMongoData, latency, monitor, migration and schema scripts, the clamp script and ca-118: reporting, plumbing or one-branch logic.
