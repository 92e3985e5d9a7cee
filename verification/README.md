# The Bifaci wire protocol, modelled and proved

Bifaci carries requests between an engine and cartridge processes through a
routing host.  This project models the protocol's flow control, ordering,
streams, request lifecycle, admission and routing, and proves what holds over
every run of them.

Each lock-protected section of the program is one atomic step, and theorems
quantify over all interleavings of the steps.  Where the program updates an
object in place there is a class whose methods are proved to make exactly the
moves of the model; the theorems are about the model.

| file | what it is about |
|---|---|
| `CborCodec`, `CborSequence` | the item codec (section 3 of RFC 8949) and CBOR sequences (section 2 of RFC 8742) |
| `Credit`, `CreditProtocol` | gates, windows and grants, and the link they make together |
| `Frames`, `FlowOrdering`, `FlowDelivery` | sequence numbers and the reorder buffer |
| `WriterGate`, `WireDelivery` | the gate behind a flow's terminal and the numbering at the one place frames reach the wire, and what a reader makes of that wire |
| `OutputStream`, `StreamContent`, `StreamRuns`, `SequenceRuns`, `StreamCalls`, `Coalescing`, `Characters` | a handler's output stream: coalescing, chunking, fragmenting, closing |
| `ItemReassembly`, `Demux`, `DemuxReads`, `PeerResponse`, `PeerReads` | the receiving ends: items, request streams, peer responses, and what their readers find when chunks are damaged or cut |
| `StreamLinks` | both ends together: from a handler's calls to what the reader finds |
| `Emission`, `Offers`, `RequestOutput`, `RequestWire` | the rules a request's frames follow, which refusals by the channel they survive, when its outputs keep them, and when the wire does |
| `Pools`, `RuntimeLoop`, `RequestLives`, `RequestInputs`, `MainLoop` | admission through pools, the main loop, handler threads, terminals, what ends a request's input |
| `RoutingTables`, `RoutingRuns`, `RoutingCalls`, `RoutingAges`, `RoutingMarks`, `HostDeaths`, `HostTables` | the host's tables, ages and marks, their collector, peer calls and cancels, cartridge deaths and generations |
| `Framing`, `ChunkAssembly`, `Transfers` | length-prefixed frames on a byte stream; transfers assembled by offset |
| `Selection` | which candidate serves a request |

`dafny verify dfyconfig.toml` checks the whole project.

## What the program does not do

Some promises hold only under a condition.  Each of these is stated with its
exact condition, and where it helps with the smallest input that breaks it.

- A split of a CBOR sequence steps by re-encoded lengths, so it is faithful
  exactly on shortest-form data (`SplitIsFaithfulIff`, `LongHeadSplitsInTwo`).
- The credit of a chunk the channel refuses is spent before the chunk is tried and
  never comes back (`Sources/Bifaci/CartridgeRuntime.swift:1046-1047`), and neither do
  those of the chunks behind it, which the relay keeps: the sender of a window of one
  whose first chunk is refused waits on an open gate for ever (`RefusedChunkStalls`).
- A stream with nothing refused stalls exactly with no credit, or with a window of one
  and an item of several fragments; with a chunk of its own refused also when what its
  later calls are to send does not fit in the rest of the window; with any frame of its
  flow refused, when it is longer than its window (`CanStallIff`).  What never stalls
  even so: a stream that fits in its window (`EveryRunFinishes`).
- A stream left with grants pending by a reader that blocks on another can wait for ever
  exactly when the batch exceeds the sender's window, or a frame of its flow may be
  refused (`CanDesertIff`).
- A number is spent before a write is tried, so a frame the channel refuses
  (`Sources/Bifaci/IO.swift:386-393`) leaves a gap as soon as a later frame of
  the flow goes through before the flow ends (`InSequenceIff`,
  `RefusedThenTaken`).  A reader delivers such a flow up to the gap and no
  further (`WriterToReader`, `WriterToRelay`, `NeverPassedOn`).
- A request that starts while another under its id still runs overwrites the
  chain on record: every pool of the first one's chain loses a slot for good
  (`PoolsAreConservedIff`, `SameIdTwice`, `LostForGood`).  None of the runtime's
  fatal branches is reached even so (`NothingFatal`), and ids that are free again
  before they come again lose nothing (`ApartIsConserved`).
- Such a request also takes over the first one's frame queue
  (`Sources/Bifaci/CartridgeRuntime.swift:5705-5710`), and a connection that ends finishes
  no queue: a request's input comes to an end exactly if its END or ERR, a malformed
  frame or a cancel of it comes before both, and its readers are told it was cut short
  exactly if the cancel is first (`InputEndsIff`, `NeverEnds`).
- A close of a request's credit gates reaches those that are registered then: a
  gate registered after a cancel stays open, and so does one displaced by another
  under its key (`ClosedIff`, `StartAfterCancel`).
- A chunk's index is spent before its send is tried too
  (`Sources/Bifaci/CartridgeRuntime.swift:981-1000`), and so is a stream's start.  A
  handler that goes on after a refused send keeps its request's rules exactly while
  the channel takes nothing of a stream behind its refused STREAM_START or a refused
  chunk of it, a STREAM_END without a count excepted; and END also asks that every
  stream whose STREAM_START was taken has had its STREAM_END taken (`TriesIff`,
  `RulesKeptIff`, `RequestKeepsTheRules`).  The smallest requests that fail: a chunk
  emitted behind a refused one (`RefusedChunkBreaks`), the STREAM_END of a stream
  whose STREAM_START was refused (`RefusedStartBreaks`), and END behind a last flush
  that was refused, which the finishing of the outputs passes over in silence
  (`RefusedFlushBreaks`).
- Nothing stops a handler from writing to a stream it has closed: the chunk comes
  behind the STREAM_END (`WriteAfterCloseBreaks`).
- A close before a start spends the close: a required output so treated is left
  open behind END (`EndAcceptedIff`, `ClosingUnstartedBreaks`).
- The gate behind a terminal holds until as many other flows as the record has
  room for have ended (`SuppressedIff`); a straggler that comes later than that
  breaks the request's rules (`RequestKeepsTheRules`).
- In a self-loop every data and terminal frame goes to the handler up to the first
  terminal to come from the relay, whoever wrote it: what the handler answers by then
  comes back to the handler itself (`SelfLoopStaysWithHandler`, `FirstEndDivides`),
  and if its END comes round before the body's, handler and requester are each given
  the END they wrote (`EndsCross`).
- The mark of an ended body or response outlives its entry exactly when a marked
  entry is evicted, or a marked key's REQ comes again and its cartridge does not
  take it (`MarksKeepEntriesIff`).  The collector takes an entry exactly when a new
  request comes one short of the watermark (`EvictsIff`).  Unlike the tables, the
  marks have no bound: requests whose bodies end and whose responses do not leave one
  each (`MarksAreUnbounded`).
- A cancel is passed on to every peer call its request has made, ended or not, since
  the record of them was last evicted or swept (`CancelReachesCalls`).  The record is not
  dropped with the request: a later request under the same key inherits it
  (`LaterRequestInherits`).
- The ERR for a handler that dies, or no longer takes a frame, is passed on at the
  relay exactly when the flow has carried a frame since it was last over
  (`WriteErrDeliveredIff`).  One for a handler that never spoke,
  and the second terminal owed when the response has ended but the body has not,
  are numbered 1 and held back for ever (`SweepErrDeliveredIff`,
  `SecondTerminalIsKept`); one whose record was evicted ends the relay
  (`EvictedRecordEndsRelay`).
- A cartridge retired from the roster is killed once its drain has expired, whatever it
  still owes: its entries stay, its death is taken for one already handled, and its
  callers are sent no ERR for it (`DrainCutOff`, `RetiredOwesNothing`).  A peer call it
  had written before it was killed is recorded all the same.  But for these two each
  entry is a running cartridge's at every moment (`EntriesAreServedIff`).
- A STREAM_START under the id of a stream started before and not yet ended leaves that
  stream's reader waiting for ever (`EveryReaderEndsIff`); a malformed STREAM_START ends the
  open streams as if complete (`EndsAs`); a request's END inside an item drops
  the part held without a word (`EndDropsCut`).
- An end chunk that overtakes others is taken for the whole (`EndDecides`).

The comment at `Sources/Bifaci/CartridgeHost.swift:2088-2093` says that entries
for incoming requests are never cleaned up on terminals; the code does clean
them up at the second of the two ends, and the model follows the code.  The
comment in `Sources/Bifaci/CartridgeRuntime.swift:1664-1669` takes re-encoding to
be length-preserving; the model follows the code for inputs where it is not.  The
comment at `Sources/Bifaci/CartridgeHost.swift:604-612` promises the callers of a retired
cartridge an ERR, and the one at `Sources/Bifaci/CartridgeRuntime.swift:106-112` that the
end of the connection finishes a request's input; the code does neither, and the model
follows the code.

## Model

| member | source | states |
|---|---|---|
| CborCodec.DecodeEncode | Sources/Bifaci/CartridgeRuntime.swift:1670-1684 | an encoded item, followed by anything, decodes to itself and uses up exactly its own bytes |
| CborCodec.DecodeExtends | Sources/Bifaci/CartridgeRuntime.swift:1664-1684 | a verdict reached on some bytes, an item or malformed, is not changed by bytes that come after |
| CborCodec.ProperPrefixIsShort | Sources/Bifaci/CartridgeRuntime.swift:1664-1684 | no proper prefix of an item ever decodes or is rejected: it is only "not yet enough" |
| CborCodec.EncodeNotLonger | Sources/Bifaci/CborSequenceUtil.swift:45-84 | stepping by an item's re-encoded length never steps past the bytes it was read from |
| CborSequence.SplitCborSequence | Sources/Bifaci/CborSequenceUtil.swift:45-84 | the offset loop returns what the recursive splitting says, for every input and every error |
| CborSequence.AssembleCborSequence | Sources/Bifaci/CborSequenceUtil.swift:94-104 | the concatenation when every item starts with a decodable value; otherwise the index of the first that does not |
| CborSequence.SplitIsFaithfulIff | Sources/Bifaci/CborSequenceUtil.swift:45-84 | split succeeds and its items concatenate back to the input exactly when the input is non-empty and in shortest form throughout |
| CborSequence.LongHeadSplitsInTwo | Sources/Bifaci/CborSequenceUtil.swift:45-84 | two bytes that are one item in a longer head are split into two items |
| CborSequence.SplitUndoesAssembleIff | Sources/Bifaci/CborSequenceUtil.swift:45-104 | assembling then splitting gives the items back exactly when there is one and each is a single encoding |
| CborSequence.AssembleCborArray | Sources/Bifaci/CborSequenceUtil.swift:160-172 | the encoded array of the items' values, or the index of the first undecodable item |
| CborSequence.SplitUndoesAssembleArrayIff | Sources/Bifaci/CborSequenceUtil.swift:120-172 | the array round trip keeps the items exactly when there is one and each is a single encoding |
| Credit.CreditGate.Ask | Sources/Bifaci/Credit.swift:70-135 | one pass of check or park: take, fail when closed, or park; no waiter that could proceed is ever left parked |
| Credit.CreditGate.GrantCredits | Sources/Bifaci/Credit.swift:139-154 | a grant adds to an open gate and wakes every waiter, leaving nobody parked |
| Credit.CreditGate.CloseGate | Sources/Bifaci/Credit.swift:139-161 | a close keeps the first reason and wakes every waiter |
| Credit.CreditWindow.Arrived | Sources/Bifaci/Credit.swift:203-212 | a chunk is accepted exactly while the window is open, and counted |
| Credit.CreditWindow.Consumed | Sources/Bifaci/Credit.swift:213-226 | a consumed chunk is granted back in batches, moving pending into remaining |
| Credit.GrantsAreHalves | Sources/Bifaci/Credit.swift:213-226 | however many chunks are consumed, credits go back half a window at a time, one by one for a window under four, and what is left over is pending |
| Credit.CreditWindow.Flushed | Sources/Bifaci/Credit.swift:229-233 | everything consumed and not yet granted is granted, and the window has it back |
| Credit.CreditWindow.ContinuedItem | Sources/Bifaci/Credit.swift:235-241 | a chunk that continues an item is granted back at once |
| Credit.CreditRouter.Register | Sources/Bifaci/Credit.swift:273-277 | a gate is found again under its request and stream |
| Credit.CreditRouter.CloseRequest | Sources/Bifaci/Credit.swift:281-295 | every registered gate of the request is closed and unregistered, and no other gate moves |
| Credit.ClosedIff | Sources/Bifaci/Credit.swift:273-295 | over every run of registrations and closes, the gates closed are exactly those some close of their request finds standing under their key |
| Credit.StartAfterCancel | Sources/Bifaci/CartridgeRuntime.swift:916-933 | an output started behind the cancel registers a gate that stays open |
| Credit.CreditRouter.GrantFrame | Sources/Bifaci/Credit.swift:300-319 | a grant reaches the stream it names or, naming none, the request's only one, and no other |
| CreditProtocol.RunConserves | Sources/Bifaci/Credit.swift:55-254 | over every run, whatever the channel refuses: available, in flight, queued, pending and granted credits and those spent on refused and held chunks sum to the window; the receiver's remaining is what the sender holds, has under way or has lost plus the opening slack; so no violation; and every item is delivered, on its way or missed |
| CreditProtocol.SafeIff | Sources/Bifaci/CartridgeRuntime.swift:2106-2113 | a receiver with window r never accuses any honest sender with window w exactly when w <= r |
| CreditProtocol.CloseIsFinal | Sources/Bifaci/Credit.swift:139-161 | behind a close, in every run, nobody who asks waits, all are told the first reason given, and no credit is taken however much is granted |
| CreditProtocol.StepWorks | Sources/Bifaci/CartridgeRuntime.swift:2068-2079 | every step but a close leaves less work, whatever the schedule |
| CreditProtocol.QuietIsFinished | Sources/Bifaci/CartridgeRuntime.swift:2068-2079 | with nothing refused and a window of two, or of one on one-fragment items, a state nothing can move from has everything consumed and the window back |
| CreditProtocol.EveryRunFinishes | Sources/Bifaci/CartridgeRuntime.swift:2068-2140 | runs are bounded, and every maximal one has settled whatever was refused: something is left to send only if the whole window is used up, never if the stream fits in it; with nothing refused and a window of two, or of one on one-fragment items, every item was delivered and consumed and the window is back |
| CreditProtocol.CanStallIff | Sources/Bifaci/CartridgeRuntime.swift:1137-1138 | exactly when a stream can stall for good: nothing refused, with no credit or with a window of one and an item of several fragments; its own chunks refused, also when what the later calls send does not fit in the window less one, or less two behind the first fragment of an item; any frame of the flow refused, when it is longer than the window |
| CreditProtocol.RefusedChunkStalls | Sources/Bifaci/CartridgeRuntime.swift:1205-1210 | the smallest stall by a refusal: window one, two items, the first one's chunk refused |
| CreditProtocol.CanDesertIff | Sources/Bifaci/CartridgeRuntime.swift:2063-2079 | a stream left with grants pending by a reader that blocks elsewhere can wait for ever exactly when the batch exceeds the sender's window or a frame of its flow may be refused |
| FlowOrdering.InsertKeepsOrder | Formal/CapDAGFormalProgram/program/modules/CapDAG-Bifaci-Flow.c:2037 | holding a new number keeps the held numbers strictly ascending past the expected one, and adds exactly it |
| FlowOrdering.TakeRunSplits | Formal/CapDAGFormalProgram/program/modules/CapDAG-Bifaci-Flow.c:4385 | the run taken is consecutive, nothing is lost, and what stays is past a gap |
| FlowOrdering.DeliverIsNextRun | Formal/CapDAGFormalProgram/program/modules/CapDAG-Bifaci-Flow.c:1809 | the expected number is delivered with all that follows it without a gap |
| FlowOrdering.AcceptKeepsState | Sources/Bifaci/FlowOrdering.swift:110-128 | the buffer's keys stay the model's held numbers, so no delivered number is missing from the buffer |
| FlowOrdering.ReorderBuffer.Accept | Sources/Bifaci/FlowOrdering.swift:96-147 | the frame's own flow moves as the model says, no other moves, and the removal loop never meets a missing number |
| FlowOrdering.ReorderBuffer.CleanupFlow | Sources/Bifaci/FlowOrdering.swift:149-154 | forgets the flow and nothing else |
| FlowOrdering.SeqAssigner.Assign | Sources/Bifaci/FlowOrdering.swift:41-55 | a flow frame gets its flow's next number; other frames and other flows are untouched |
| FlowDelivery.RunIsFaithful | Sources/Bifaci/FlowOrdering.swift:96-147 | at every moment of any run what was delivered is everything below the next number, in order, and the rest of what came is held |
| FlowDelivery.RunAcceptsIff | Sources/Bifaci/FlowOrdering.swift:96-147 | a run of arrivals is taken whole exactly when no number repeats and never more than the limit wait for a missing one |
| FlowDelivery.RefusalSays | Sources/Bifaci/FlowOrdering.swift:96-147 | a frame refused as stale was passed on before, as a duplicate it waits already, and as an overflow it is new and as many as the limit wait |
| FlowDelivery.NothingPastAGap | Sources/Bifaci/FlowOrdering.swift:96-147 | a number that never comes blocks its flow there |
| FlowDelivery.PermutationIsUndone | Sources/Bifaci/FlowOrdering.swift:84-147 | any bounded permutation of a numbered flow comes out once each and in the order written, nothing held |
| FlowDelivery.CleanupLosesNothing | Sources/Bifaci/Relay.swift:166-175 | once a flow's last frame is delivered nothing of it is held |
| FlowDelivery.FlowsAreIndependent | Sources/Bifaci/FlowOrdering.swift:96-147 | each flow of an interleaving is delivered as if alone, and frames of no flow pass in order |
| FlowDelivery.NumberNumbers | Sources/Bifaci/FlowOrdering.swift:41-55 | `Number`, which is what the assigner does (`WireDelivery.AssignAll`), numbers each flow's frames 0, 1, 2 and leaves them otherwise unchanged |
| WireDelivery.AssignAll | Sources/Bifaci/FlowOrdering.swift:41-55 | an assigner applied to a connection's frames one by one numbers them as `Number` |
| FlowDelivery.EndToEnd | Sources/Bifaci/FlowOrdering.swift:33-147 | numbered, permuted and interleaved anyhow, frames pass the buffer without a refusal exactly when no flow exceeds the limit, and then every flow comes out as written |
| WriterGate.TerminatedFlows.Insert | Sources/Bifaci/Stats.swift:217-229 | the queue of ended flows stays without repeats and within its capacity, dropping the oldest |
| WriterGate.SuppressedIff | Sources/Bifaci/CartridgeRuntime.swift:3276-3298 | a frame is suppressed exactly when its flow's last frame on the wire was its terminal and fewer than the capacity of other flows have ended since |
| WriterGate.NothingBehindTheEnd | Sources/Bifaci/CartridgeRuntime.swift:3276-3298 | right behind an END or ERR of its flow no frame of any of the seven kinds of a flow is written |
| WriterGate.OutsideFlowsPasses | Sources/Bifaci/CartridgeRuntime.swift:3276-3314 | a frame of the other eight kinds is written as it is after any history, and moves no count |
| WriterGate.InSequenceIff | Sources/Bifaci/CartridgeRuntime.swift:3300-3314 | the wire is gap-free per flow exactly when no attempt that passed the gate and was refused is followed, before its flow ends, by one of the flow that is taken |
| WriterGate.RefusedThenTaken | Sources/Bifaci/IO.swift:384-393 | the smallest such run: one frame refused, for its size or otherwise, and the next taken, which goes out numbered 1 |
| WriterGate.ChannelFrameSender.SendFrame | Sources/Bifaci/CartridgeRuntime.swift:3276-3314 | gate, number, write and record as one step of the model |
| WireDelivery.WriterNumbers | Sources/Bifaci/CartridgeRuntime.swift:3276-3314 | a writer that is never refused, on flows not used again, numbers as the assigner alone does |
| WireDelivery.WriterToReader | Sources/Bifaci/FlowOrdering.swift:84-147 | a writer's wire, permuted and interleaved anyhow, passes the buffer exactly when no flow exceeds the limit; each flow comes out as written up to its first loss, and all of every flow exactly when no number was skipped |
| WireDelivery.NeverPassedOn | Sources/Bifaci/IO.swift:384-393 | behind a refused frame the next one of its flow is taken in and never passed on |
| WireDelivery.Pump | Sources/Bifaci/Relay.swift:165-183 | the relay's pump, which forgets a flow as it passes on the flow's terminal, is the model's run; the first refusal ends it |
| WireDelivery.PassesAtOnceIff | Sources/Bifaci/Relay.swift:165-183 | over flows used again and again, each frame of a wire is passed on as it comes exactly when every flow is numbered by place since its last terminal |
| WireDelivery.WriterToRelay | Sources/Bifaci/CartridgeRuntime.swift:3276-3314 | what one writer sends passes the relay frame by frame exactly when it skipped no number |
| OutputStream.CoalesceBuf.Append | Sources/Bifaci/CartridgeRuntime.swift:747-769 | the batch is due on size or age, for any clock readings |
| Coalescing.WriteSendsIff | Sources/Bifaci/CartridgeRuntime.swift:747-769 | a write sends all that is held exactly if that is 4096 bytes or more or its first byte had been held for 20 ms; otherwise it sends nothing |
| Coalescing.HeldIsFewAndYoung | Sources/Bifaci/CartridgeRuntime.swift:747-769 | after any calls, failing ones too, what is held is all that was written since some write, fewer than 4096 bytes, and had not been held for 20 ms at any write since |
| OutputStream.OutputStream.StartStream | Sources/Bifaci/CartridgeRuntime.swift:916-979 | a first start sets the mode and then tries STREAM_START, which may be refused; a second fails |
| OutputStream.OutputStream.SendChunk | Sources/Bifaci/CartridgeRuntime.swift:981-1001 | the index is spent before the frame is tried, and a refusal is the caller's error |
| OutputStream.OutputStream.WriteBatch | Sources/Bifaci/CartridgeRuntime.swift:1040-1050 | the splitting loop sends the pieces in order until credit ends or the channel refuses one |
| OutputStream.OutputStream.WriteBytes | Sources/Bifaci/CartridgeRuntime.swift:1025-1037 | a write is the model's write |
| OutputStream.OutputStream.EmitText | Sources/Bifaci/CartridgeRuntime.swift:1179-1204 | the back-off loop sends the longest whole-character pieces, or reports a character that fits no chunk |
| OutputStream.OutputStream.EmitValue | Sources/Bifaci/CartridgeRuntime.swift:1166-1227 | a value is emitted behind a flush, by kind |
| OutputStream.OutputStream.EmitMap | Sources/Bifaci/CartridgeRuntime.swift:1212-1218 | a map goes out as the array of its pairs does |
| OutputStream.OutputStream.EmitItem | Sources/Bifaci/CartridgeRuntime.swift:1128-1142 | the fragmenting loop sends the item's pieces with its metadata on the first only |
| OutputStream.OutputStream.CloseStream | Sources/Bifaci/CartridgeRuntime.swift:1333-1384 | a first close of a started stream flushes and, if that went, tries STREAM_END; any other does nothing |
| StreamCalls.CallFailsAs | Sources/Bifaci/CartridgeRuntime.swift:916-1226 | with credit and channel out of the way, exactly the calls out of turn, in the wrong mode, and of a text with a character too wide for a chunk fail, each with its own failure |
| StreamCalls.TextFailsIff | Sources/Bifaci/CartridgeRuntime.swift:1183-1203 | a text fails exactly if one of its characters has more bytes than a chunk |
| StreamContent.EmitsIsPrefix | Sources/Bifaci/CartridgeRuntime.swift:997-1050 | a sending loop puts a prefix of its pieces on the wire, numbered on from the last: up to the end of the credit or the first piece refused, which has its number too, and all of them exactly if nothing failed |
| StreamContent.SplitKeepsBytes | Sources/Bifaci/CartridgeRuntime.swift:1040-1050 | the pieces of a batch are its bytes |
| StreamContent.SplitTextIsFaithful | Sources/Bifaci/CartridgeRuntime.swift:1179-1204 | a text goes out whole exactly when each character fits a chunk; pieces never cut a character and are the text up to the one that does not fit |
| Characters.SliceIsTextIff | Sources/Bifaci/CartridgeRuntime.swift:1183-1203 | of a text of whole characters (section 3 of RFC 3629), its first n bytes are a text exactly when they cut no character |
| Characters.ChunkTakesMost | Sources/Bifaci/CartridgeRuntime.swift:1183-1203 | a chunk of a text takes as many whole characters as it has room for |
| Characters.GoesOutWholeIff | Sources/Bifaci/CartridgeRuntime.swift:1183-1203 | a text goes out whole exactly when each of its characters fits a chunk on its own |
| StreamRuns.RunAdds | Sources/Bifaci/CartridgeRuntime.swift:741-783 | for any calls and clock readings, wire and buffer together are what was written, and the wire is always a prefix of it, also behind a closed gate or a refused frame |
| StreamRuns.GoingOnKeepsOrder | Sources/Bifaci/CartridgeRuntime.swift:981-1227 | a handler that goes on after failures: what reaches the wire, and what is still held, is what it wrote with some of it missing, never repeated or reordered |
| StreamRuns.ClosedStreamIsComplete | Sources/Bifaci/CartridgeRuntime.swift:1333-1384 | any closed stream is its STREAM_START, its chunks numbered 0, 1, 2 and its one STREAM_END with their exact count or none; and a scalar stream's chunks carry exactly what was written |
| SequenceRuns.RunCarries | Sources/Bifaci/CartridgeRuntime.swift:1128-1142 | whatever is called on a sequence stream, whenever its gate closes and whatever the channel refuses, the wire carries the fragments of the items emitted, in order, and all of them if no call failed |
| SequenceRuns.ClosedSequenceIsComplete | Sources/Bifaci/CartridgeRuntime.swift:1128-1384 | a closed sequence stream is its STREAM_START, all fragments of all items emitted, and STREAM_END with their count |
| SequenceRuns.ListIsSent | Sources/Bifaci/CartridgeRuntime.swift:1128-1384 | start, each item of a list and close under an open gate: no call fails exactly if the channel takes each of the frames, and then that wire |
| StreamLinks.SequenceReachesReader | Sources/Bifaci/CartridgeRuntime.swift:2126-2226 | from the handler's calls to the request's reader: exactly the items emitted, with their metadata and in order, and the end |
| StreamLinks.SequenceReachesCaller | Sources/Bifaci/CartridgeRuntime.swift:1836-1925 | the same as an output of a peer call, at its caller |
| StreamLinks.ScalarReachesCaller | Sources/Bifaci/CartridgeRuntime.swift:1899-1916 | a scalar output from the handler's writes to the caller of the peer call: one value per chunk on that output, no failure, together exactly what was written |
| StreamLinks.ListReachesReader | Sources/Bifaci/CartridgeRuntime.swift:1128-1142 | a list emitted item by item, each frame taken, is what the reader finds |
| StreamLinks.ScalarReachesReader | Sources/Bifaci/CartridgeRuntime.swift:2106-2226 | from the handler's writes to the request's reader on a scalar stream: one value per chunk, no error, together exactly what was written |
| StreamRuns.ChunksFit | Sources/Bifaci/CartridgeRuntime.swift:1040-1142 | every chunk of bytes, text or an item holds 1 to maxChunk bytes |
| ItemReassembly.FeedItem | Sources/Bifaci/CartridgeRuntime.swift:2126-2159 | one item's fragments give that item with its metadata, an empty buffer, and a credit back per further fragment |
| ItemReassembly.ItemsRoundTrip | Sources/Bifaci/CartridgeRuntime.swift:1128-1142 | any list of items, any chunk size: exactly those items and metadata in order, nothing left over, one credit held back per item |
| ItemReassembly.FeedReads | Sources/Bifaci/CartridgeRuntime.swift:2135-2160 | whatever bytes a chunk adds, each whole item is delivered, the start of one is kept, and malformed bytes are told of once and dropped |
| ItemReassembly.CutDelivers | Sources/Bifaci/CartridgeRuntime.swift:2126-2159 | cut anywhere, exactly the whole items are delivered, and the buffer is empty exactly between two items |
| ItemReassembly.SeqReassembly.Accept | Sources/Bifaci/CartridgeRuntime.swift:2126-2159 | the decode loop over the buffer is the model's step |
| Emission.AcceptedIff | Formal/CapDAGFormalProgram/program/modules/CapDAG-Bifaci-Request.c:278 | frames of many streams are accepted exactly when each stream's own frames are |
| Emission.TerminalIff | Formal/CapDAGFormalProgram/program/modules/CapDAG-Bifaci-Request.c:278 | END is accepted exactly when no stream is left live; ERR always |
| Emission.CutAccepted | Formal/CapDAGFormalProgram/program/modules/CapDAG-Bifaci-Request.c:2427-2437 | an accepted emission cut anywhere may end in ERR |
| Emission.NothingAfterTerminal | Formal/CapDAGFormalProgram/program/modules/CapDAG-Bifaci-Request.c:278 | nothing is accepted after a terminal, and what comes is refused as after the end |
| Emission.ViolationSays | Formal/CapDAGFormalProgram/program/modules/CapDAG-Bifaci-Request.c:278 | the violation a refused frame is given is so, with the stream, the places and the counts it names |
| Offers.TriesIff | Formal/CapDAGFormalProgram/program/modules/CapDAG-Bifaci-Request.c:278 | of what one stream hands over, the frames taken are accepted exactly when none is taken behind a refused start or chunk, a countless end behind a chunk excepted, or behind the end |
| Offers.AcceptsIff | Formal/CapDAGFormalProgram/program/modules/CapDAG-Bifaci-Request.c:278 | the same for a request's interleaved streams, with nothing, ERR or END behind; END asks also that no stream is left open |
| RequestOutput.RulesKeptIff | Sources/Bifaci/CartridgeRuntime.swift:916-1384 | whatever a handler calls, wherever it is cut, whenever its credit ends and whatever the channel refuses: its frames, and an ERR behind them, are accepted exactly under that condition, and END exactly if no stream is left open either |
| RequestOutput.AnyCutIsAccepted | Sources/Bifaci/CartridgeRuntime.swift:916-1384 | if the channel takes everything and no stream is written to after it was closed, an ERR is in order at any point |
| RequestOutput.EndAcceptedIff | Sources/Bifaci/CartridgeRuntime.swift:3092-3100 | such a request, its gates never closing, may end in END exactly when no output was closed before it was started and then started, by the handler or as required |
| RequestOutput.RefusedStartBreaks | Sources/Bifaci/CartridgeRuntime.swift:3092-3100 | a refused STREAM_START is followed by its STREAM_END, for a stream never opened |
| RequestOutput.RefusedChunkBreaks | Sources/Bifaci/CartridgeRuntime.swift:981-1001 | a chunk emitted behind a refused first one is numbered 1, out of place |
| RequestOutput.RefusedFlushBreaks | Sources/Bifaci/CartridgeRuntime.swift:3092-3100 | a last flush that is refused leaves an open stream behind END |
| RequestOutput.WriteAfterCloseBreaks | Sources/Bifaci/CartridgeRuntime.swift:1025-1037 | a chunk written after the close comes behind the STREAM_END |
| RequestOutput.ClosingUnstartedBreaks | Sources/Bifaci/CartridgeRuntime.swift:3092-3100 | closing a required output unstarted and returning leaves an open stream behind END |
| RequestOutput.FinishAll | Sources/Bifaci/CartridgeRuntime.swift:3092-3100 | every output's stream is finished, each on its own, a failure of one passed over |
| RequestWire.OpenRequestKeepsTheRules | Sources/Bifaci/CartridgeRuntime.swift:3276-3314 | until a terminal of it is taken, what reaches the wire of a request keeps the rules exactly when nothing is taken that breaks a stream |
| RequestWire.RequestKeepsTheRules | Sources/Bifaci/CartridgeRuntime.swift:3276-3314 | a request's handler frames cut anywhere, any of them refused, its terminal and any stragglers, interleaved with other flows: what reaches the wire keeps the rules exactly when nothing is taken that breaks a stream, an END leaves none open, and each straggler taken comes while the flow is remembered as ended; and it is then the frames taken and the terminal |
| Pools.NextUpIsEarliest | Formal/CapDAGFormalProgram/program/modules/CapDAG-Bifaci-Pools.c:876 | who goes next has the smallest ticket of those that fit, one more in each pool of their chain passing no limit, and nobody goes only if nobody fits |
| Pools.AdmissionIsWhole | Formal/CapDAGFormalProgram/program/modules/CapDAG-Bifaci-Pools.c:458 | admission takes one slot of every pool of the chain and of no other, never past a limit |
| Pools.AdmitNextShrinks | Sources/Bifaci/CartridgeRuntime.swift:5530-5536 | an admission shortens the line |
| Pools.ArriveEntersIff | Formal/CapDAGFormalProgram/program/modules/CapDAG-Bifaci-Pools.c:527 | a newcomer enters at once exactly when active + 1 is within the limit in every pool of its chain and nobody in line fits |
| Pools.IdlePoolsAdmit | Formal/CapDAGFormalProgram/program/modules/CapDAG-Bifaci-Pools.c:876 | with nothing active, whoever waits can go |
| Pools.ArrivalsFill | Formal/CapDAGFormalProgram/program/modules/CapDAG-Bifaci-Pools.c:278-297 | from idle pools, of n arrivals on one chain as many start as the tightest limit of its pools, or all if there is none, and the others are in line |
| Pools.LimitTakesEffect | Sources/Bifaci/CartridgeRuntime.swift:4428-4431 | a pool's new numbers are in force at once: no limit if neither side sets one, else the tightest set; no other pool, slot or place in line moves |
| Pools.RuntimePools.constructor | Sources/Bifaci/CartridgeRuntime.swift:4267-4340 | every pool at the limit in force for its two numbers, nobody active or in line, chains naming only these pools |
| Pools.RuntimePools.AcceptRequest | Sources/Bifaci/CartridgeRuntime.swift:4352-4366 | arrival as the model decides; the unknown-pool branch is unreachable; line and held requests agree |
| Pools.RuntimePools.ReleasePattern | Sources/Bifaci/CartridgeRuntime.swift:4369-4376 | the chain's slots go back |
| Pools.RuntimePools.RemoveQueued | Sources/Bifaci/CartridgeRuntime.swift:4382-4388 | takes the request out of the line if it is in it, and nothing else |
| Pools.RuntimePools.AdmitOne | Sources/Bifaci/CartridgeRuntime.swift:4393-4400 | admits whoever is next; its ticket is always held |
| Pools.RuntimePools.SetAvailable | Sources/Bifaci/CartridgeRuntime.swift:4415-4426 | an unknown pool changes nothing; a known one's limit is in force at once, and nothing else moves |
| Pools.RuntimePools.ApplyDesired | Sources/Bifaci/CartridgeRuntime.swift:4404-4412 | the operator's limits are all taken over or, if one names an unknown pool, none; each is in force at once and nothing else moves |
| RuntimeLoop.TerminalClaim.Take | Sources/Bifaci/CartridgeRuntime.swift:1702-1720 | granted to the first claimant and to nobody after |
| RuntimeLoop.StepInv | Sources/Bifaci/CartridgeRuntime.swift:5526-6063 | every step of loop, handlers and limit setters, whatever ids come, keeps the line, pools that cover their running requests, and wakeups |
| RuntimeLoop.StepSlack | Sources/Bifaci/CartridgeRuntime.swift:5765-5767 | a step leaves a pool one slot short exactly when it starts a request whose id another one holding the pool still runs under, and otherwise changes no balance |
| RuntimeLoop.PoolsAreConservedIff | Sources/Bifaci/CartridgeRuntime.swift:4369-4400 | after every run a pool counts its running requests plus one per displaced request that held it; so counts are right exactly if no request was started under an id still running |
| RuntimeLoop.LostForGood | Sources/Bifaci/CartridgeRuntime.swift:5582-5590 | a slot once lost comes back in no continuation |
| RuntimeLoop.SameIdTwice | Sources/Bifaci/CartridgeRuntime.swift:5765-5767 | the smallest failing run: an id comes again while its first request runs, and the count is wrong from then on |
| RuntimeLoop.ApartIsConserved | Sources/Bifaci/CartridgeRuntime.swift:5720-5769 | if each id handled is neither running nor in line, no request is displaced and no slot lost |
| RuntimeLoop.NothingFatal | Sources/Bifaci/CartridgeRuntime.swift:4352-4400 | in every reachable state, whatever ids come, a release has slots to give back, whoever is admitted is held, and no arrival meets an unknown pool |
| RequestLives.LivesStep | Sources/Bifaci/CartridgeRuntime.swift:5526-6063 | every step of a run of fresh ids keeps each request in one place with exactly the terminals due |
| RequestLives.ExactlyOneTerminal | Sources/Bifaci/CartridgeRuntime.swift:5472-5521 | in every state of a run of fresh ids a request has had at most one terminal, none while pending or in line, and exactly one once it has ended |
| RequestLives.CancelledInLineNeverStarts | Sources/Bifaci/CartridgeRuntime.swift:5998-6014 | cancelled in line, a request gets its one ERR at once and no continuation in which its id stays its own starts it or ends it again |
| RequestLives.EndedForGood | Sources/Bifaci/CartridgeRuntime.swift:5582-5609 | an ended request stays ended with one terminal over every such continuation |
| RequestLives.FreshIsConserved | Sources/Bifaci/CartridgeRuntime.swift:5720-5769 | requests under ids of their own displace nobody |
| RuntimeLoop.NobodyLeftWaiting | Sources/Bifaci/CartridgeRuntime.swift:4481-4497 | a loop asleep with nothing on its way has nobody in line who could go, and, unless slots were lost, nobody at all once nothing runs |
| RuntimeLoop.NewLimitHolds | Sources/Bifaci/CartridgeRuntime.swift:4404-4431 | a new limit, set from outside or by the operator's message, is the pool's at once, and no other limit, slot, place in line or thread moves |
| RuntimeLoop.EachSetterPushesOnce | Sources/Bifaci/CartridgeRuntime.swift:4481-4497 | over every run each limit set from outside wakes the loop once, sooner or later |
| RuntimeLoop.DrainAll | Sources/Bifaci/CartridgeRuntime.swift:5526-5574 | the drain ends, and only when nobody in line could go |
| MainLoop.MainLoop.DrainLine | Sources/Bifaci/CartridgeRuntime.swift:5526-5574 | the draining loop over the dictionaries is the model's drain |
| MainLoop.MainLoop.HandleRequest | Sources/Bifaci/CartridgeRuntime.swift:5720-5769 | admission of a request is the model's move |
| RequestInputs.InputEndsIff | Sources/Bifaci/CartridgeRuntime.swift:5613-6041 | over every run a request's input comes to an end exactly if its END, ERR, a malformed frame or a cancel comes before the next REQ under its id and before the loop is over, and its package is failed as cut short exactly if the first of these is the cancel |
| RequestInputs.InputIsWhatCame | Sources/Bifaci/CartridgeRuntime.swift:5852-5957 | until it is ended or displaced a request's input is exactly the frames that came under its id, in order |
| RequestInputs.NeverEnds | Sources/Bifaci/CartridgeRuntime.swift:5705-5710 | the smallest failing runs: the id comes again, or the connection ends, and no continuation ends the first input |
| RequestInputs.PendingIncoming.Handle | Sources/Bifaci/CartridgeRuntime.swift:5852-5957 | a turn of the loop over the dictionary of queues is the model's |
| MainLoop.MainLoop.HandleDone | Sources/Bifaci/CartridgeRuntime.swift:5582-5609 | a done event is the model's move, its release covered by conservation |
| MainLoop.MainLoop.HandleCancel | Sources/Bifaci/CartridgeRuntime.swift:5982-6041 | a cancel is the model's move in all three cases |
| RoutingTables.CollectedBelow | Sources/Bifaci/CartridgeHost.swift:1254-1285 | a table that reached the watermark loses exactly 1638 entries and keeps its touched keys |
| RoutingTables.ContinuedSound | Sources/Bifaci/CartridgeHost.swift:2212-2355 | a continuation keeps keys and touched keys equal, tables bounded and marks disjoint |
| RoutingRuns.TablesStaySound | Sources/Bifaci/CartridgeHost.swift:1171-1340 | in every reachable state each table has its touched keys, fewer than 6553 entries, and no request is marked both ways |
| RoutingRuns.EntryLivesUntilBothEnd | Sources/Bifaci/CartridgeHost.swift:2329-2355 | an undisturbed request's entry lives until both ends have come, in either order, and goes at the second |
| RoutingRuns.CreditReachesHandler | Sources/Bifaci/CartridgeHost.swift:2240-2278 | a response-direction CREDIT reaches the handler exactly until the second end |
| RoutingRuns.ResponseCreditReachesHandler | Sources/Bifaci/CartridgeHost.swift:2240-2278 | while the handler's entry is kept, a response-direction CREDIT goes to the handler at every moment, whoever called under the id and whatever has ended |
| RoutingRuns.RequestCreditReachesRequester | Sources/Bifaci/CartridgeHost.swift:2240-2278 | while the requester's entry is kept, a request-direction CREDIT goes to the requester at every moment, whatever the handler's entry and the marks say, and so does the other once the handler's entry is gone |
| RoutingRuns.AloneReachesHandler | Sources/Bifaci/CartridgeHost.swift:2240-2278 | with no caller under its id, every directed continuation of a request goes to its handler while the entry is kept, behind its END too |
| RoutingRuns.UndirectedCreditIsDropped | Sources/Bifaci/CartridgeHost.swift:2246-2256 | a CREDIT without a direction goes nowhere and changes nothing |
| RoutingCalls.CancelReachesCalls | Sources/Bifaci/CartridgeHost.swift:2416-2476 | over every run a cancel is passed on to exactly the peer calls made under its key, in order, since their record was last evicted or swept; with a kill, or without an entry, to nobody |
| RoutingCalls.CallsNameTheirParent | Sources/Bifaci/CartridgeHost.swift:2593-2610 | a peer call is made under a request exactly if that has an entry and the call names its id, no other entry having the id |
| RoutingCalls.LaterRequestInherits | Sources/Bifaci/CartridgeHost.swift:2636-2644 | the record of calls outlives its request: a cancel of a later request under the same key is passed on to the calls of the first |
| RoutingAges.AgeIsLastUse | Sources/Bifaci/CartridgeHost.swift:1220-1241 | in every reachable state an entry of any of the four tables is as old as the last step that used it |
| RoutingAges.EvictedIsLeastRecent | Sources/Bifaci/CartridgeHost.swift:1295-1325 | what a new request's collection takes was last used no later than anything it leaves |
| RoutingRuns.SelfLoopReachesRequester | Sources/Bifaci/CartridgeHost.swift:2240-2353 | from the body's END on every data or terminal frame goes to the requester until its entry is released, whatever happens to the handler's |
| RoutingRuns.SelfLoopStaysWithHandler | Sources/Bifaci/CartridgeHost.swift:2240-2278 | while the handler's entry is kept and no terminal has come under its key, every data or terminal frame of a self-loop goes to the handler, at every moment of a run |
| RoutingRuns.FirstEndDivides | Sources/Bifaci/CartridgeHost.swift:2329-2355 | the first terminal under the key, whoever wrote it, is taken for the body's end |
| RoutingRuns.EndsCross | Sources/Bifaci/CartridgeHost.swift:2240-2355 | a handler's END that comes round before the body's goes to the handler, and the body's then to the requester that wrote it |
| RoutingMarks.EvictsIff | Sources/Bifaci/CartridgeHost.swift:1295-1340 | in a sound state a step evicts a request's entry exactly when it is a new request one short of the watermark |
| RoutingMarks.MarksKeepEntriesIff | Sources/Bifaci/CartridgeHost.swift:1295-1340 | over every run from empty tables, every marked request has its entry at every moment exactly while no marked entry was evicted and no marked key's repeated REQ was undone |
| RoutingMarks.MarksAreUnbounded | Sources/Bifaci/CartridgeHost.swift:2186-2355 | for every n a run of n requests under keys of their own, whose bodies end and whose responses do not, ends with n marks while the tables stay below the watermark |
| RoutingMarks.NeverRequested | Sources/Bifaci/CartridgeHost.swift:2186-2355 | in every run from empty tables a key never requested has no entry and no mark |
| RoutingMarks.EntryLivesFromItsRequest | Sources/Bifaci/CartridgeHost.swift:2186-2355 | from the REQ of a fresh key on, an undisturbed request's entry lives until both ends have come, and goes at the second |
| HostTables.CollectTable | Sources/Bifaci/CartridgeHost.swift:1295-1340 | from any non-empty table a collection ends below the hard cap, oldest first, counting exactly what it removed |
| HostTables.HostTables.Collect | Sources/Bifaci/CartridgeHost.swift:1254-1285 | every table collected, and the total grown by exactly what all lost |
| HostTables.HostTables.NoteReleased | Sources/Bifaci/CartridgeHost.swift:1105-1120 | the ring stays without repeats and within 64, dropping the oldest |
| HostTables.RingHoldsTheLast | Sources/Bifaci/CartridgeHost.swift:1105-1120 | of ids noted once each the ring holds the last 64, in order |
| HostTables.NotedOnce | Sources/Bifaci/CartridgeHost.swift:1105-1120 | an id noted is held, and noted again changes nothing |
| HostTables.HostTables.HandleRequest | Sources/Bifaci/CartridgeHost.swift:2186-2210 | a request is a move of the table model, undone if the cartridge does not take it |
| HostTables.HostTables.HandleContinuation | Sources/Bifaci/CartridgeHost.swift:2212-2355 | routing, failure and terminal bookkeeping are the model's; an unroutable frame is a straggler exactly if its id was lately released; the id is noted exactly when something recorded under it goes |
| HostTables.HostTables.HandleCloseStream | Sources/Bifaci/CartridgeHost.swift:2393-2414 | a tap-off is a move of the table model and goes to the handler's cartridge, if there is an entry |
| HostTables.HostTables.HandleCancel | Sources/Bifaci/CartridgeHost.swift:2416-2476 | a cancel is a move of the table model, and is passed on to exactly the peer calls on record unless it kills |
| HostTables.HostTables.HandlePeerCall | Sources/Bifaci/CartridgeHost.swift:2582-2616 | a peer call is a move of the table model, under a parent that has an entry; the ring stays and evictions are counted exactly |
| HostTables.HostTables.HandleFlowFrame | Sources/Bifaci/CartridgeHost.swift:2618-2652 | any other flow frame is a move of the table model; its id is noted exactly when it ends a request whose body is over |
| HostTables.HostTables.HandleDeath | Sources/Bifaci/CartridgeHost.swift:2839-2878 | the sweep's loops leave exactly the swept tables and exactly the ERR numbers owed, and each swept entry's id is noted once |
| HostDeaths.OneErrPerEntry | Sources/Bifaci/CartridgeHost.swift:2965-2987 | one ERR per removed entry, numbered one past its flow's last recorded number, or 1 |
| HostDeaths.DeathIsAnswered | Sources/Bifaci/CartridgeHost.swift:2738-2990 | the death of a running process leaves nothing of its cartridge and everything else, and writes one ERR per entry unless the host had asked it to exit |
| HostDeaths.OldChangesNothing | Sources/Bifaci/CartridgeHost.swift:2002-2013 | no event of an older generation changes anything, however late |
| HostDeaths.BuriedOnce | Sources/Bifaci/CartridgeHost.swift:2738-2763 | a process is swept at most once |
| HostDeaths.EntriesAreServedIff | Sources/Bifaci/CartridgeHost.swift:2002-2878 | whatever dies, is spawned again or speaks late, each entry names a cartridge that is running at every moment of a run exactly if no drain was cut off with an entry outstanding and no peer call of a retired process was still to be read |
| HostDeaths.RetiredOwesNothing | Sources/Bifaci/CartridgeHost.swift:2738-2754 | from a retirement to the next spawn of the cartridge no death event of it changes anything: no sweep and no ERR |
| HostDeaths.DrainCutOff | Sources/Bifaci/CartridgeHost.swift:1523-1556 | the smallest such run: spawned, asked, cut off, dead, and the entry is still there with no ERR written |
| HostDeaths.ErrAtRelay | Sources/Bifaci/Relay.swift:241-250 | behind frames passed in order an ERR is delivered, refused or held for ever by its number alone |
| HostDeaths.RecordFollows | Sources/Bifaci/CartridgeHost.swift:2586-2652 | over every run the number on record for a flow is that of its last frame sent, the host's own ERRs among them, and there is none once the flow is over, as long as nothing takes the record |
| HostDeaths.SweepErrDeliveredIff | Sources/Bifaci/CartridgeHost.swift:2854-2866 | over every such run the ERR a death owes is passed on at the relay exactly when its flow has carried a frame since it was last over; otherwise it is numbered 1 and kept |
| HostDeaths.WriteErrDeliveredIff | Sources/Bifaci/CartridgeHost.swift:2299-2323 | the same of the ERR for a continuation its cartridge no longer takes |
| HostDeaths.TurnedAwayIsDelivered | Sources/Bifaci/CartridgeHost.swift:2140-2210 | the ERR for a REQ that nothing serves, numbered 0, is passed on when its flow is at rest |
| HostDeaths.SecondTerminalIsKept | Sources/Bifaci/CartridgeHost.swift:2839-2878 | a request whose response has ended and whose body has not is owed an ERR by its handler's death, and the relay keeps it |
| HostDeaths.EvictedRecordEndsRelay | Sources/Bifaci/CartridgeHost.swift:2854-2866 | with its record evicted, the ERR is refused, ending the relay, exactly when two or more frames have passed |
| Framing.AnySegmentation | Sources/Bifaci/BufferReader.swift:33-72 | however the bytes are cut and read, the payloads handed on are the originals in order and the rest is held |
| Framing.NothingMeansIncomplete | Sources/Bifaci/BufferReader.swift:40-63 | nothing is handed on exactly when the next frame has not all come |
| Framing.OversizeIsFinal | Sources/Bifaci/BufferReader.swift:54-57 | a length over the limit is never read past, and fails every extraction from there on |
| Framing.LimitIsExact | Sources/Bifaci/BufferReader.swift:54-57 | exactly the payloads longer than the negotiated limit, or than 16 MiB, are refused |
| Framing.BufferReader.AppendBytes | Sources/Bifaci/BufferReader.swift:33-37 | bytes are held in the order they come |
| Framing.BufferReader.ExtractFrame | Sources/Bifaci/BufferReader.swift:40-72 | the next payload and the rest, or the buffer unchanged |
| ChunkAssembly.EndDecides | Sources/Bifaci/BufferReader.swift:112-252 | a transfer ends with its end chunk and is exact precisely if every byte not brought by then is zero |
| ChunkAssembly.CompleteTransfer | Sources/Bifaci/BufferReader.swift:210-252 | with everything there before the end, in any order, the transfer is exact |
| Transfers.AssemblyHolds | Sources/Bifaci/BufferReader.swift:210-252 | after any chunks, honest or not, the length is what the last one to open said, the count how far those since then reach, and each byte that of the last chunk to cover it, or zero |
| Transfers.TransferIs | Sources/Bifaci/BufferReader.swift:210-252 | a transfer is handed on with the first chunk that makes it whole, as far as its chunks since the last to open reach |
| Transfers.NeverDone | Sources/Bifaci/BufferReader.swift:210-252 | chunks that never make a whole transfer hand on nothing |
| ChunkAssembly.ChunkAssembler.ProcessChunk | Sources/Bifaci/BufferReader.swift:210-252 | one chunk of one transfer is the model's step, and a finished transfer is forgotten |
| Selection.SelectIsBest | Formal/CapDAGFormalProgram/program/modules/CapDAG-Ranking.c:131-141 | selection gives the first of the dispatchable candidates that none beats, in numbers: at least as specific as the request before less, then the nearer; or none exactly when none is dispatchable |
| Selection.OrderIsFree | Formal/CapDAGFormalProgram/program/modules/CapDAG-Ranking.c:131 | the order of the candidates decides nothing but between equals |
| Selection.PrecedesIffBetter | Sources/Bifaci/CartridgeHost.swift:1833-1838 | the host's order on signed distances is the order of the ranking keys |
| Selection.FindHandlerWithPattern | Sources/Bifaci/CartridgeRuntime.swift:4703-4747 | the runtime's dominance scan is the selection |
| Selection.FindCartridgeForCap | Sources/Bifaci/CartridgeHost.swift:1813-1841 | the host's sort gives a best candidate, ranked as the selection's, or none exactly when there is none |
| Demux.EndsAs | Sources/Bifaci/CartridgeRuntime.swift:2021-2276 | how every open stream and the package end, by what stopped the frames; cut short, all are abandoned |
| Demux.EveryReaderEndsIff | Sources/Bifaci/CartridgeRuntime.swift:2028-2050 | every reader comes to an end exactly when no STREAM_START comes under the id of a stream started before and not yet ended |
| Demux.SequenceArrives | Sources/Bifaci/CartridgeRuntime.swift:2126-2226 | a list emitted on one stream, interleaved anyhow with others, is exactly what its reader finds |
| Demux.StreamEndTellsCut | Sources/Bifaci/CartridgeRuntime.swift:2175-2227 | ended inside an item by its STREAM_END, a stream says so after its whole items |
| Demux.EndDropsCut | Sources/Bifaci/CartridgeRuntime.swift:2229-2231 | ended inside an item by the request's END, it reads as complete |
| DemuxReads.ScalarStreamReads | Sources/Bifaci/CartridgeRuntime.swift:2094-2174 | whatever its chunks hold, the reader of a scalar stream finds exactly one entry per chunk: the value of an intact one that decodes, else a failure that says why not |
| DemuxReads.DamagedChunkIsReported | Sources/Bifaci/CartridgeRuntime.swift:2106-2125 | a chunk beyond its window, or whose checksum is wrong or missing, is one protocol failure in its place, and everything else in every queue is as without it |
| DemuxReads.LateChunkIsIgnored | Sources/Bifaci/CartridgeRuntime.swift:2101-2104 | a chunk of a stream not started or already ended changes nothing |
| DemuxReads.StreamsAreAnnounced | Sources/Bifaci/CartridgeRuntime.swift:2028-2092 | every stream started is handed to the handler, once and in order, with a queue of its own |
| Demux.RequestDemux.DemuxAll | Sources/Bifaci/CartridgeRuntime.swift:1984-2283 | the frame loop over the live queues is the model's run |
| PeerResponse.CutShortIsAbandoned | Sources/Bifaci/CartridgeRuntime.swift:1950-1963 | a response cut short yields an abandonment last |
| PeerResponse.OnlyEndIsSilent | Sources/Bifaci/CartridgeRuntime.swift:1836-1963 | a response that yields no failure was ended by its END |
| PeerResponse.OutputArrives | Sources/Bifaci/CartridgeRuntime.swift:1836-1925 | a list answered on one output is exactly what that output's reader sees, whatever comes between |
| PeerReads.ScalarOutputReads | Sources/Bifaci/CartridgeRuntime.swift:1863-1916 | whatever its chunks hold, the reader of a scalar output finds exactly one item per chunk, its value with its metadata, else a failure that says why not |
| PeerReads.FrameInPlace | Sources/Bifaci/CartridgeRuntime.swift:1836-1949 | at any place of a response a damaged chunk is one failure on its output and a LOG one item, and nothing else changes; an ERR or a frame that breaks the protocol is one failure and the last item |
| PeerReads.CutIsTold | Sources/Bifaci/CartridgeRuntime.swift:1918-1936 | a list cut by its STREAM_END or by the response's END is its whole items, and an error behind them unless the cut fell between two |
| PeerReads.CutsInOrder | Sources/Bifaci/CartridgeRuntime.swift:1927-1936 | the streams cut by END are told of in the order of their ids |
| PeerResponse.Puller.Next | Sources/Bifaci/CartridgeRuntime.swift:1831-1963 | the next item of the response, and nothing only once all of it was yielded |

## Left out

- Spawning, signals, pipes, timers and semaphores; HELLO, identity probes, heartbeat reports, RelayNotify contents and logging.
- Discovery, manifests, build and launch code, registry resolution, CLI mode and live capture feeds.
- Tagged-URN matching: whether a candidate can serve a request and how specific it is are given.
- CBOR floats, maps, tags, simple values and indefinite lengths; other majors than integers, strings and arrays are malformed in the codec here.
- Transfers on disk: chunk assembly is modelled in memory only, where the length does not exceed the chunk limit.
- Wrap-around of 64-bit counters: sequence numbers, credits and generations are naturals.
- Two threads writing one stream at once: the chunk index is taken under a lock but sent outside it, so their chunks can go out of order; each stream has one writer here.
- CREDIT accounting inside the demux: whether a chunk is within its window is part of the frame there, and the credit link is modelled on its own.
- Pools.RuntimePools.constructor: resolving pool declarations into chains is taken as input.
- MainLoop.MainLoop.HandleDone: closing the request's credit gates and feeds is not part of the loop's model; `Credit.CreditRouter.CloseRequest` is what the close does.
- MainLoop.MainLoop.HandleCancel: finishing the request's input is modelled in `RequestInputs`, where whether a cancel ends its request is part of the event; closing its credit gates and cancelling its peer calls are not part of the loop's model.
- Demux.RequestDemux.DemuxAll: window accounting is a flag of the frame, and live-feed references are not modelled.
- RequestLives.ExactlyOneTerminal: speaks of ids that do not come twice; under one id two requests have two terminals, which the claims keep apart but a count by id does not.
- The position a queued request is told, and the per-pool queued figure of a snapshot: counts with no effect on admission.
- Which of two candidates of equal rank a sort or a dictionary puts first, and in which order a death's ERR frames are sent: any order is allowed.
- CreditProtocol.EveryRunFinishes: speaks of runs without a close; a close wakes every waiter, which `Credit.CreditGate.CloseGate` states.
