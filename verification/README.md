# A verified model of the NIC's data path

This project models the parts of a Homa network card whose correctness is least obvious from
their code, and proves what they promise. It is written in Dafny 4.11; `dafny verify dfyconfig.toml`
checks all of it.

**PCIe DMA read engine** (`TlpSizing`, `TlpStream`, `CompletionPath`, `ReadEngine`, `Engine*`,
`DmaReadEngine`). A descriptor is cut into read requests; PCIe tags and operation tags are handed
out from FIFOs and taken back; credits are counted; completions arrive split and interleaved; one
status is raised for each operation. `ReadEngine` has one function for each clocked process, from
the registers before an edge to those after it. The `Engine*` modules prove, process by process and
then for `Clock`, that every tag is in one place, that the credit counters are exact, that the
status FIFO has room, and that the wrapping read counters of an operation always tell its
unfinished reads apart. `EngineRuns` draws the conclusions for every run from reset: a status for
every accepted descriptor, once, in order and only after its last read, with the requests that tile
it and the right error. For a status without an error, everything its requests asked for has been
written, each byte once (`EngineData` for one request, `EngineFates` for all of an operation); with
aligned descriptors the RAM bytes written are exactly the descriptor's range (`CompletionPath`,
`EngineRows`, `EngineRanges`), and at the time it is raised the RAM has finished the writes
(`EngineWrites`). `EngineLink` follows the requests onto the link: what has been taken, what waits and
what is still to be issued are the planned requests in order, each under the tag of its table entry.
`EngineAccept` says from a header's fields alone what becomes of a completion. `EngineProgress` shows
that every accepted descriptor does get its status, `EngineAnswers` that reads end because their
completions are taken, `EngineIntake` that an enabled engine always takes a further descriptor.
`DmaReadEngine` updates the registers in place and is proved equal to the specification.

Nothing is assumed about the link except that, in the one cycle after the last data of a tag was
received, it delivers no further acceptable header for that tag (`EngineTags.TooSoon`); the tag
table still shows the tag as outstanding in that cycle. `EngineTags.ClockTags` shows that this is
exactly what is needed, and `EngineTooSoon` has an input without it after which a tag is in the FIFO
twice. Only where data is followed into the RAM (`EngineData`), completions also have to state truly
how much of what their request's header asked for is still to come, and not to end before their data
(`EngineData.Honest`). Completions for tags that are not outstanding, malformed or erroneous ones and
any stalls are all allowed. The RAM's `done` signals, the link's readiness and the transmit limit are
inputs; `EngineWrites` has the counters the first come from, and needs that no completion of a read is
taken in the cycle after its end, which holds of completers that keep their word unless the read ended
with an error. Progress needs that link and RAM are free again and again, and that words for a read
arrive again and again until it ends if the engine is ready for them again and again
(`EngineAnswers.Serves`); that it is, is proved.

**SRPT queue simulator** (`EntryBag`, `QueueBase`, `PifoSpec`, `PifoInvariants`, `PifoSorter`,
`QueueRuns`, `SimulatedQueues`). The small sorted queue backed by a self-sorting vector, the ideal
queue, and their comparison over any arrivals. Both are refinements of one fluid server, which gives
the equal backlog. `PifoSorter` has what a step of the sorter achieves and how large the sorted queue
gets.

**Segmented RAM and its ports** (`RamPipeline`, `SegmentedRam`, `FlatRam`, `RamClient`). Two
interleaved banks are one circular byte memory; the back-pressured read pipelines answer in order.

**Merging and sharing** (`TraceMerge` and `TimeTrace` for the trace buffers; `PriorityEncoder`,
`Arbiter`, `Skid`, `DescMux`, `RamDemux` for the DMA plumbing; `PriorityQueue`).

**Packets** (`PacketFraming`, `PacketIngress`). Frames tile a packet and give back its header and
payload fields; the DMA requests of the receiving side tile the message, and each payload byte is
followed through RAM and request. In which order a sender fills the payload field is a parameter:
this card's egress, which is also what feeds its ingress, puts the first byte into the lowest lane.

Functions specify; classes do the same work in place, field by field and loop by loop, and are
proved against them; lemmas about the functions carry the properties. A state also holds a log of
what was observed where a property speaks of the past; the hardware has no such registers.

## What the proofs found

- With a maximum read request size of 4096 bytes, a descriptor whose last page is whole is followed
  by one more request, because a page-aligned rest of exactly 4096 bytes is not recognised as the
  last. Its Length field is 0, which stands for 1024 dwords, and all its byte enables are set: it
  reads the host page behind the descriptor (`TlpStream.ExtraRequest`). The requests ask for exactly
  the descriptor's bytes if and only if it does not end on a full page (`TlpStream.AsksExactly`; one
  page from address 0 is an input, `TlpStream.OnePageAsksMore`). A completion of that request goes
  where the data of the descriptor's last page went (`EngineRuns.ExtraReadLandsOnLastPage`), and no
  credits are recorded for the 4 KB it returns (`TlpStream.ExtraCredits`).
- A descriptor of length 65533 to 65535 whose length plus byte offset reaches 65536 wraps the 16-bit
  comparison; its first request runs to the page boundary whatever the maximum request size. The
  condition is exact (`TlpStream.RequestSizes`); `TlpStream.WrappedComparison` is an input.
- The small sorted queue can outgrow its size: when an arrival has filled it and the vector's head is
  smaller than its entry seven from the size, the step takes in one more than it gives up. Without
  such a tick, and only then, it keeps its size throughout a run (`PifoSorter.StaysSmall`;
  `PifoSorter.OutgrowsSize` is an input).
- The vector's sorter remembers one misplaced slot only and may stop with two slots out of order,
  which no step changes then (`PifoSorter.SorterStopsEarly`).
- A data cycle that crosses the end of a 128-byte RAM row writes its second part to the front of the
  same row, since the row increment is commented out (`CompletionPath.CycleWritesItsBytes`; an input
  is `CompletionPath.CrossingCycle`). A completion stays clear of this exactly if its data starts in
  its bus word at its lowest address bits, or fits its row (`CompletionPath.CompletionInRows`);
  for a request of more than three bus words, every way to cut it where bus words begin is safe
  exactly if its RAM and host addresses agree modulo the bus width and lie in the first dword of a
  bus word (`CompletionPath.AlignedExactly`).
- This card's egress fills the payload field from the lowest lane, but the wire and the ingress take
  the second frame's payload from the highest. So the first min(14, length) bytes of every payload
  are replaced by others and come nowhere, and exactly the bytes behind them are in place; only an
  empty payload comes whole (`PacketIngress.EgressPacket`; `PacketIngress.EgressMisplaces` is an input).
- For a sender that fills the highest lanes first, as the headers and the keep bits are laid out, it
  is the last frame that suffers: only the second frame's field is shifted down, so a partial later
  one is not whole in the RAM. Exactly the payloads of at most 14 bytes, or of 14 and a multiple of
  64, are (`PacketIngress.WholePacket`); of the others exactly the bytes `PacketIngress.Lost` names
  are missing (`PacketIngress.PartialLastFrame` is an input). Within a frame the last byte comes first
  (`PacketIngress.HeldAt`).
- The 64 bytes read for a frame go on past the end of a message's circular buffer; byte `lane` is the
  frame's exactly if the buffer does not end before it (`PacketFraming.WordInLine`; an input is
  `PacketFraming.LineEnds`).
- The trace buffers print exactly the records they still hold that are neither before the starting
  time nor at the largest 64-bit time (`TimeTrace.PrintedByPosition`). So the promise that nothing
  recorded from the starting time on is missing fails for events at that very time that were
  overwritten (an input is `TimeTrace.FirstOfManyIsMissing`); later ones are never missing
  (`TimeTrace.NothingMissing`). An event with the largest time stops its thread
  (`TraceMerge.AllPrintable`; an input is `TraceMerge.LargestTimeStops`).
- The priority queue accepts entries when it is full. An entry is lost exactly if all registers are in
  use, or all but one and none of their entries is above the new one (`PriorityQueue.EnqueueLoses`;
  `PriorityQueue.EnqueueInserts` says which one, `PriorityQueue.FullQueueLoses` and
  `PriorityQueue.LastRegisterDrops` are inputs). A head that leaves a full queue leaves the last entry
  there twice (`PriorityQueue.LeavingHead`, `PriorityQueue.FullQueueRepeats`). A head with more cycles
  than priority wraps to the lowest priority and may then be out of order (`PriorityQueue.PoppedOrder`,
  `PriorityQueue.WrapLosesOrder`).
- A write of 65 to 128 bytes through the 64-byte port writes zeros behind its data, and one of more
  writes nothing (`FlatRam.WriteIsFlat`; an input is `FlatRam.OneByteTooMany`).

## Model

| member | source | states |
|---|---|---|
| TlpSizing.MaxReadDwords | hw/src/main/resources/verilog_libs/pcie/dma_if_pcie_rd.v:1478 | the configuration field gives 32 dwords doubled field times, and 1024 from field 5 on |
| TlpSizing.SlicesOfValue | hw/src/main/resources/verilog_libs/pcie/dma_if_pcie_rd.v:662-722 | the bit slices the sizes are computed from are those of the address |
| TlpSizing.SizeMatchesReference | hw/src/main/resources/verilog_libs/pcie/dma_if_pcie_rd.v:662-732 | in all four size branches and for both completion boundaries, the dword count, the header and data credits and, unless the TLP is the last, the next address are the ones of the reference formulas |
| TlpSizing.SizeIsSound | hw/src/main/resources/verilog_libs/pcie/dma_if_pcie_rd.v:662-722 | a TLP takes a non-empty part of what is left, stays in its 4 KB page and takes at most 64 header and 256 data credits; it is marked last exactly when it takes everything, except for a page-aligned 4096-byte rest with the largest request size; it respects the maximum request size exactly unless the 16-bit comparison wraps and the page holds more |
| TlpSizing.SizeOfNothing | hw/src/main/resources/verilog_libs/pcie/dma_if_pcie_rd.v:662-691 | with nothing left the computed size covers nothing and is marked last; on a page boundary its dword count and its credits are zero too, which its header then reads as 1024 dwords (TlpStream.ExtraRequest) |
| TlpSizing.SplitsAreAligned | hw/src/main/resources/verilog_libs/pcie/dma_if_pcie_rd.v:662-722 | a TLP that leaves something ends on a dword boundary, with the largest request size on a page boundary |
| TlpStream.EnablesAreExact | hw/src/main/resources/verilog_libs/pcie/dma_if_pcie_rd.v:744-773 | at every position a descriptor leads to, Length and byte enables of the header ask for exactly the bytes the engine counts, and for a whole page where it counts none; the byte count a completer derives from them agrees |
| TlpStream.EnablesAreLegal | hw/src/main/resources/verilog_libs/pcie/dma_if_pcie_rd.v:744-773 | a request of one dword has no lane enabled in its last byte enables, and a longer one has some in both |
| TlpStream.ZeroLengthCounts | hw/src/main/resources/verilog_libs/pcie/dma_if_pcie_rd.v:744-773 | a zero-length operation makes one request of one dword without an enabled lane, which a completer counts as one byte |
| TlpStream.SegmentsTile | hw/src/main/resources/verilog_libs/pcie/dma_if_pcie_rd.v:816-863 | the byte ranges the engine counts for the requests of a descriptor tile it in order, in host memory (around the end of the address space) and in the card's RAM, none crosses a 4 KB page, and only the final request is marked last |
| TlpStream.EveryByteOnce | hw/src/main/resources/verilog_libs/pcie/dma_if_pcie_rd.v:816-863 | every byte of a descriptor is in exactly one of these ranges |
| TlpStream.AsksExactly | hw/src/main/resources/verilog_libs/pcie/dma_if_pcie_rd.v:662-773 | what the headers of a descriptor's requests ask for together is exactly the descriptor's bytes, if and only if it does not end on a full page with the largest request size |
| TlpStream.EmptyRequest | hw/src/main/resources/verilog_libs/pcie/dma_if_pcie_rd.v:664-675 | one more request follows the last bytes exactly for descriptors that end on a page boundary with a whole page, with the largest request size; before it comes a request for that page |
| TlpStream.ExtraRequest | hw/src/main/resources/verilog_libs/pcie/dma_if_pcie_rd.v:744-773 | that request goes out with Length 0 and reads the 4096 bytes of the host page behind the descriptor; its stored end address is that of the request before it |
| TlpStream.ExtraCredits | hw/src/main/resources/verilog_libs/pcie/dma_if_pcie_rd.v:662-691 | no header or data credits are recorded for it, where a request for a counted page records 32 or 64 and 256 |
| TlpStream.OnePageAsksMore | hw/src/main/resources/verilog_libs/pcie/dma_if_pcie_rd.v:664-675 | one page from host address 0 does not ask for exactly its bytes |
| TlpStream.WrappedComparison | hw/src/main/resources/verilog_libs/pcie/dma_if_pcie_rd.v:663 | 65533 bytes from byte 3 of a dword, with a maximum of 32 dwords, start with a request for 1024 |
| TlpStream.RequestSizes | hw/src/main/resources/verilog_libs/pcie/dma_if_pcie_rd.v:663 | only the first request can outgrow the maximum request size, and it does exactly when length plus byte offset reaches 65536 and the page holds more than the maximum |
| CompletionPath.CompletionFills | hw/src/main/resources/verilog_libs/pcie/dma_if_pcie_rd.v:1002-1067 | the data cycles of a completion write the part of the request it carries, starting the remaining byte count before the stored end address, in as many bus words as its payload occupies; they are final exactly when nothing is left |
| CompletionPath.RequestFills | hw/src/main/resources/verilog_libs/pcie/dma_if_pcie_rd.v:1166-1246 | for any split of requests into completions and any interleaving of tags, the cycles of a request fill its RAM range from the front without gap or overlap, and a cycle releases the tag exactly when the range is complete |
| CompletionPath.FilledOnce | hw/src/main/resources/verilog_libs/pcie/dma_if_pcie_rd.v:1002-1067 | byte k of a filled range is written by the cycle that reaches it, at its address |
| CompletionPath.CycleWritesItsBytes | hw/src/main/resources/verilog_libs/pcie/dma_if_pcie_rd.v:943-953 | a cycle writes exactly the bytes it stands for if and only if they lie in one RAM row |
| CompletionPath.CrossingCycle | hw/src/main/resources/verilog_libs/pcie/dma_if_pcie_rd.v:943-953 | 64 bytes from RAM address 96 on a 64-byte bus miss byte 128 and write byte 0 instead |
| CompletionPath.CompletionInRows | hw/src/main/resources/verilog_libs/pcie/dma_if_pcie_rd.v:1002-1067 | all cycles of a completion lie in one row each if and only if its data starts in its bus word at the lowest address bits or the part it carries lies in one row |
| CompletionPath.AlignedInRows | hw/src/main/resources/verilog_libs/pcie/dma_if_pcie_rd.v:1002-1067 | if a request's RAM and host addresses agree modulo the bus width and lie in the first dword of a bus word, a completion cut at a bus word boundary has all its cycles in rows |
| CompletionPath.AlignedExactly | hw/src/main/resources/verilog_libs/pcie/dma_if_pcie_rd.v:1002-1067 | for a request of more than three bus words, every completion cut at a bus word boundary has its cycles in rows if and only if the addresses are so aligned |
| CompletionPath.FillsRam | hw/src/main/resources/verilog_libs/pcie/dma_if_pcie_rd.v:943-953 | cycles in rows that fill a range write the RAM bytes of the range and no others |
| EngineTags.ReceiveCplTag | hw/src/main/resources/verilog_libs/pcie/dma_if_pcie_rd.v:998-1264 | after an edge the completion registers name an outstanding tag exactly when the link did not deliver an acceptable header for a tag in the cycle after that tag's end, whatever else it delivers |
| EngineTags.CompletingTags | hw/src/main/resources/verilog_libs/pcie/dma_if_pcie_rd.v:1268-1296 | released and started tags change places without being lost or doubled, and leave the tags a request may take as they were |
| EngineTags.RequestingTags | hw/src/main/resources/verilog_libs/pcie/dma_if_pcie_rd.v:816-888 | issuing a request and refilling the held tag keep every PCIe tag in exactly one place |
| EngineTags.ClockTags | hw/src/main/resources/verilog_libs/pcie/dma_if_pcie_rd.v:865-1296 | one clock edge keeps every PCIe tag in exactly one of the two tag FIFOs, the held register, the table write under way and the table, whatever arrives; and the received tag is an outstanding one exactly if no header came too soon |
| EngineTags.NextTag | hw/src/main/resources/verilog_libs/pcie/dma_if_pcie_rd.v:875-888 | a held tag stays until a request takes it; then the oldest free tag below 32 is taken, and only without any of those and with extended tags switched on the oldest of the others |
| EngineTooSoon.ReleasedTwice | hw/src/main/resources/verilog_libs/pcie/dma_if_pcie_rd.v:1268-1296 | a header that ends its read and comes too soon puts the tag into the FIFO a second time |
| EngineTooSoon.TagInTwoPlaces | hw/src/main/resources/verilog_libs/pcie/dma_if_pcie_rd.v:1072-1296 | a state with each tag in one place, and a refused completion that comes too soon, after which tag 0 is in the FIFO twice |
| EngineCredits.ReleaseInFlight | hw/src/main/resources/verilog_libs/pcie/dma_if_pcie_rd.v:1283-1288 | a released tag takes exactly its recorded credits (or its read) out of flight |
| EngineCredits.SizeCredits | hw/src/main/resources/verilog_libs/pcie/dma_if_pcie_rd.v:662-722 | no request takes more than 64 header and 256 data credits |
| EngineCredits.ClockCredits | hw/src/main/resources/verilog_libs/pcie/dma_if_pcie_rd.v:1388-1392 | both credit counters equal the sums over the outstanding tags and stay below their limits plus one request, so they never wrap; the registered comparisons agree with them |
| EngineStatus.ReportingStatuses | hw/src/main/resources/verilog_libs/pcie/dma_if_pcie_rd.v:1343-1362 | popping and fetching take the oldest status out of the FIFO and lose none |
| EngineStatus.ClockStatuses | hw/src/main/resources/verilog_libs/pcie/dma_if_pcie_rd.v:1481-1504 | the status FIFO never overflows although its full flag lags, only a status that ends a read carries an error, and such a status is sent exactly when the tag is released |
| EngineCounts.CompletingUnfinished | hw/src/main/resources/verilog_libs/pcie/dma_if_pcie_rd.v:1268-1305 | acting on completions neither adds to nor takes from an operation's unfinished reads, wherever they are recorded |
| EngineCounts.UnfinishedBound | hw/src/main/resources/verilog_libs/pcie/dma_if_pcie_rd.v:1558-1599 | an operation never has more unfinished reads than its wrapping counters can tell apart |
| EngineOps.PopSlot | hw/src/main/resources/verilog_libs/pcie/dma_if_pcie_rd.v:1343-1357 | with counters that wrap modulo twice the tags, a popped last status completes the operation exactly if its last request has been issued and no other read is unfinished, and the remembered error stays the last one reported |
| EngineOps.IssueSlot | hw/src/main/resources/verilog_libs/pcie/dma_if_pcie_rd.v:1567-1578 | the first request of an operation restarts its counters, the others advance them |
| EngineOps.AcceptSlot | hw/src/main/resources/verilog_libs/pcie/dma_if_pcie_rd.v:1558-1565 | an accepted descriptor takes over a slot with no reads and no remembered error |
| EngineOps.PoppedOp | hw/src/main/resources/verilog_libs/pcie/dma_if_pcie_rd.v:1343-1357 | the slot of a finished read stays consistent; its status is raised exactly if it was the last unfinished read of an operation that has issued all its requests |
| EngineOps.LastErrorMeans | hw/src/main/resources/verilog_libs/pcie/dma_if_pcie_rd.v:1307-1314 | the reported error is none exactly if no read reported one |
| EngineOps.ClockOps | hw/src/main/resources/verilog_libs/pcie/dma_if_pcie_rd.v:1343-1599 | one clock edge keeps every operation slot consistent and every operation tag free, held or in use |
| EngineStream.CutStep | hw/src/main/resources/verilog_libs/pcie/dma_if_pcie_rd.v:816-863 | the planned requests of a position are its next request and those of the position after it |
| EngineStream.ClockStreams | hw/src/main/resources/verilog_libs/pcie/dma_if_pcie_rd.v:788-863 | under a fixed link configuration, the requests issued for a slot stay the first ones of its descriptor's plan, and are all of them when the slot is let go |
| EngineRuns.ClockGood | hw/src/main/resources/verilog_libs/pcie/dma_if_pcie_rd.v:1395-1600 | one clock edge without a header too soon keeps all invariants of the engine together |
| EngineRuns.EveryRunIsGood | hw/src/main/resources/verilog_libs/pcie/dma_if_pcie_rd.v:1601-1662 | every state a conforming run reaches from reset satisfies all of them |
| EngineRuns.EveryRunIsOnPlan | hw/src/main/resources/verilog_libs/pcie/dma_if_pcie_rd.v:788-863 | in every such state, every slot's issued requests are on its descriptor's plan |
| EngineLink.SentTagIsFree | hw/src/main/resources/verilog_libs/pcie/dma_if_pcie_rd.v:744-848 | a request that goes out carries in its header the tag its table entry is written under, with the operation and the RAM address behind the request, and that tag was neither outstanding nor starting nor in a FIFO |
| EngineLink.SendsWithRoom | hw/src/main/resources/verilog_libs/pcie/dma_if_pcie_rd.v:821 | a request goes out exactly when there is a descriptor in hand and a tag for it, the link and the transmit limit have room, and the header and data credits of the requests in flight are below their limits |
| EngineLink.LinkNext | hw/src/main/resources/verilog_libs/pcie/dma_if_pcie_rd.v:816-848 | after an edge, what the link took and what waits for it are, in order, what waited and what was issued; a waiting request stays as it is until it is taken |
| EngineLink.EveryRunSends | hw/src/main/resources/verilog_libs/pcie/dma_if_pcie_rd.v:744-863 | over every run from reset, the requests the link has taken, the one that waits and those still to be issued for the descriptor in hand are, in order, the planned requests of the accepted descriptors in their order; each was issued under the tag of its table entry |
| EngineRuns.StatusPerDescriptor | hw/src/main/resources/verilog_libs/pcie/dma_if_pcie_rd.v:1343-1357 | the statuses raised from a slot are those of its accepted descriptors, in order; one is missing exactly while the slot has requests to issue or reads to finish |
| EngineRuns.RaisedAtTheEnd | hw/src/main/resources/verilog_libs/pcie/dma_if_pcie_rd.v:1343-1357 | an edge raises a status of a slot exactly if it pops the end of the last unfinished read and no request remains to be issued |
| EngineRuns.ReportIsComplete | hw/src/main/resources/verilog_libs/pcie/dma_if_pcie_rd.v:1307-1357 | once its status is raised, a descriptor has issued exactly the requests that tile it, each has finished once, and the status carries its tag and an error exactly if one of the reads had one |
| EngineRuns.ConfiguredCredits | hw/src/main/scala/RtlWrappers.scala:171-172 | with the limits 256 and 1792 the counters stay below 320 and 2048 |
| DmaReadEngine.Engine.PopStatus | hw/src/main/resources/verilog_libs/pcie/dma_if_pcie_rd.v:1343-1357 | the status process updates the operation table in place as specified; what it waits for is EngineWrites.WaitsForWrites |
| DmaReadEngine.Engine.Release | hw/src/main/resources/verilog_libs/pcie/dma_if_pcie_rd.v:1281-1296 | the release process updates the tag table, the tag FIFOs and the credit counters in place as specified |
| DmaReadEngine.Engine.Issue | hw/src/main/resources/verilog_libs/pcie/dma_if_pcie_rd.v:775-863 | the request process writes its registers, the table entry, the credit counters and the operation table in place, branch by branch, as specified; what goes out on the link is EngineLink.SentTagIsFree and EngineLink.LinkNext |
| DmaReadEngine.Engine.Receive | hw/src/main/resources/verilog_libs/pcie/dma_if_pcie_rd.v:998-1264 | the completion process sets its registers to their defaults and then, by state and beat, to what the specification says; which completions it takes is EngineAccept.HeaderTaken |
| DmaReadEngine.Engine.Clock | hw/src/main/resources/verilog_libs/pcie/dma_if_pcie_rd.v:1395-1600 | the processes, each reading the registers as they were before the edge, together make one step of the specified engine |
| EngineData.DataNext | hw/src/main/resources/verilog_libs/pcie/dma_if_pcie_rd.v:998-1246 | a data beat makes the next cycle of its completion, and goes on, ends the completion or ends the request exactly by the last and final marks; no other edge starts or continues one, and an end without data carries an error |
| EngineAccept.HeaderTaken | hw/src/main/resources/verilog_libs/pcie/dma_if_pcie_rd.v:1000-1184 | told from the header's fields: a completion with data for an outstanding read of this card makes the first cycle of its span and sends a status without an error; a poisoned, failed, timed-out or reset one ends the read with its own error code, poison first; any other header writes, reports and releases nothing; the rest of a packet without data is skipped |
| EngineAccept.WordTaken | hw/src/main/resources/verilog_libs/pcie/dma_if_pcie_rd.v:1185-1250 | a further word makes the next cycle, and ends the read with the last one or with the packet, if this is its last completion |
| EngineAccept.NothingTaken | hw/src/main/resources/verilog_libs/pcie/dma_if_pcie_rd.v:998-1264 | without a header or a word to follow, nothing is written, reported or released, and the place in a completion is kept |
| EngineAccept.ReadyForWords | hw/src/main/resources/verilog_libs/pcie/dma_if_pcie_rd.v:998-1264 | the engine is ready when it skips or when RAM and status FIFO have room for what a word makes, and not otherwise |
| EngineData.DataIsOutstanding | hw/src/main/resources/verilog_libs/pcie/dma_if_pcie_rd.v:1072-1090 | data is only taken for an outstanding tag |
| EngineData.HeaderContinues | hw/src/main/resources/verilog_libs/pcie/dma_if_pcie_rd.v:1002-1067 | the first cycle of a completion continues the range of its request where the last completion left off, found from the stored end address and the remaining byte count |
| EngineData.WordContinues | hw/src/main/resources/verilog_libs/pcie/dma_if_pcie_rd.v:1185-1225 | so does every further cycle, and the last one is final exactly if the range is complete |
| EngineData.ClockData | hw/src/main/resources/verilog_libs/pcie/dma_if_pcie_rd.v:998-1296 | with completions that state truly how much of what the header asked for is to come, split and interleaved in any way and under any stalls, every edge keeps the range of each outstanding request filled from the front, and a request that ends without an error has all it asked for written; this includes the request behind a full last page |
| EngineRuns.EveryRunPlacesItsData | hw/src/main/resources/verilog_libs/pcie/dma_if_pcie_rd.v:998-1296 | the same in every state a run reaches from reset |
| EngineRuns.FinishedIsFilled | hw/src/main/resources/verilog_libs/pcie/dma_if_pcie_rd.v:998-1246 | when a request ends without an error, every byte of what it asked for has been written once, by the cycle whose place it is, and nothing else; the range is the request's own RAM range wherever the engine counts bytes |
| EngineRuns.ExtraReadLandsOnLastPage | hw/src/main/resources/verilog_libs/pcie/dma_if_pcie_rd.v:732-773 | for a descriptor that ends on a full page, the last request's data goes to the same RAM range as that of the descriptor's last page, and is the host page behind it |
| EngineFates.OutstandingNext | hw/src/main/resources/verilog_libs/pcie/dma_if_pcie_rd.v:865-1296 | after an edge exactly those tags are outstanding that were and did not end, and the one a request went out under, each for its operation |
| EngineFates.ErrorStays | hw/src/main/resources/verilog_libs/pcie/dma_if_pcie_rd.v:1298-1362 | an error on its way to an operation's table entry is noted or still on its way after an edge, until the slot takes a new descriptor |
| EngineFates.ClockFates | hw/src/main/resources/verilog_libs/pcie/dma_if_pcie_rd.v:865-1362 | every edge keeps, for every request issued for the operation in a slot: it is outstanding under its own tag, or all it asked for has been written once, or its error is noted or on its way |
| EngineRuns.EveryRunSettles | hw/src/main/resources/verilog_libs/pcie/dma_if_pcie_rd.v:865-1362 | the same in every state a run reaches from reset |
| EngineRuns.CleanReportIsFilled | hw/src/main/resources/verilog_libs/pcie/dma_if_pcie_rd.v:1298-1362 | when a status without an error has been raised, all requests of the descriptor's plan have been issued and each has had all it asked for written, each byte once |
| EngineRuns.CleanReportPlacesByte | hw/src/main/resources/verilog_libs/pcie/dma_if_pcie_rd.v:1298-1362 | so every byte of the descriptor is in the interval of a data cycle made for one of its requests, at its place in the descriptor's RAM range |
| EngineRuns.WrittenInRam | hw/src/main/resources/verilog_libs/pcie/dma_if_pcie_rd.v:943-953 | if its cycles lie in rows, the RAM bytes written for such a request are exactly those of its range |
| EngineRows.PlanAligned | hw/src/main/resources/verilog_libs/pcie/dma_if_pcie_rd.v:662-722 | all requests of an aligned descriptor are aligned |
| EngineRows.ClockRows | hw/src/main/resources/verilog_libs/pcie/dma_if_pcie_rd.v:998-1246 | with aligned requests and completions cut at bus words, every edge keeps all data cycles of outstanding requests in rows |
| EngineRanges.EveryAlignedRun | hw/src/main/resources/verilog_libs/pcie/dma_if_pcie_rd.v:998-1362 | over every run with aligned descriptors and such completions, this and all other invariants hold |
| EngineRanges.CleanReportWritesRange | hw/src/main/resources/verilog_libs/pcie/dma_if_pcie_rd.v:943-1362 | in every such state, once a status without an error has been raised, the RAM bytes written for the descriptor's requests are exactly those of its range |
| EngineWrites.WaitsForWrites | hw/src/main/resources/verilog_libs/pcie/dma_if_pcie_rd.v:1337-1357 | without the RAM's word that the writes of the held status are done, that status stays, no status of a descriptor is raised and no read of one is finished |
| EngineWrites.CountedExactly | hw/src/main/resources/verilog_libs/pcie/dma_if_pcie_rd.v:1732-1738 | the done counter of a segment, which stops at 32, counts exactly the writes done and not matched to a status, as long as no more are unmatched than 32 |
| EngineWrites.ClockWrites | hw/src/main/resources/verilog_libs/pcie/dma_if_pcie_rd.v:1299-1342 | every edge keeps, for each segment, that its writes not matched yet are those of the statuses under way, in order; so the counter never stops short |
| EngineWrites.PoppedIsDone | hw/src/main/resources/verilog_libs/pcie/dma_if_pcie_rd.v:1337-1342 | a status is popped only when the write made for it in each segment it waits for is done |
| EngineWrites.ClockTrails | hw/src/main/resources/verilog_libs/pcie/dma_if_pcie_rd.v:1268-1362 | every status under way is followed by the end of a read of its operation, under way too or still to come; an edge keeps this if and only if no completion of a read is taken in the cycle after its end, or another read of the operation is under way |
| EngineWrites.HonestIsNotLate | hw/src/main/resources/verilog_libs/pcie/dma_if_pcie_rd.v:1000-1090 | after a clean end, completers that keep their word send no such completion with data |
| EngineWrites.RaisedIsWritten | hw/src/main/resources/verilog_libs/pcie/dma_if_pcie_rd.v:1337-1357 | when the status of a descriptor is raised, every RAM write made for its operation, in every segment, is done |
| EngineWrites.EveryRaiseIsWritten | hw/src/main/resources/verilog_libs/pcie/dma_if_pcie_rd.v:1337-1357 | the same at every edge of every run from reset without late completions |
| EngineProgress.ReadyOften | hw/src/main/resources/verilog_libs/pcie/dma_if_pcie_rd.v:998-1000 | if the RAM takes and finishes writes again and again, the engine is ready for completions again and again |
| EngineProgress.FiresAgain | hw/src/main/resources/verilog_libs/pcie/dma_if_pcie_rd.v:816-888 | if reads end and the link is free again and again, a busy engine sends its next request: it waits for no tag and no credit forever |
| EngineProgress.UnfinishedFinishes | hw/src/main/resources/verilog_libs/pcie/dma_if_pcie_rd.v:1343-1357 | an unfinished read ends and its last status is popped, after all those in front of it |
| EngineProgress.Raises | hw/src/main/resources/verilog_libs/pcie/dma_if_pcie_rd.v:787-1362 | the status of a live operation is raised, within as many steps as its plan has requests to issue and reads to finish |
| EngineProgress.EveryDescriptorFinishes | hw/src/main/resources/verilog_libs/pcie/dma_if_pcie_rd.v:787-1362 | every accepted descriptor has its own status, with its tag, raised at some time |
| EngineProgress.QuietIsFair | hw/src/main/resources/verilog_libs/pcie/dma_if_pcie_rd.v:787-1362 | the assumptions on the surroundings can be met |
| EngineAnswers.AnswerCounts | hw/src/main/resources/verilog_libs/pcie/dma_if_pcie_rd.v:1000-1246 | a word for an outstanding read, its own header or the next word behind one, ends the read or leaves less of it to come |
| EngineAnswers.AnsweredEnds | hw/src/main/resources/verilog_libs/pcie/dma_if_pcie_rd.v:1000-1246 | so if completers keep their word and such words arrive again and again, the read ends |
| EngineAnswers.EveryDescriptorIsServed | hw/src/main/resources/verilog_libs/pcie/dma_if_pcie_rd.v:787-1362 | then every accepted descriptor has its own status raised, without the assumption that reads end |
| EngineAnswers.QuietServes | hw/src/main/resources/verilog_libs/pcie/dma_if_pcie_rd.v:787-1362 | these assumptions can be met too |
| EngineIntake.TakesAgain | hw/src/main/resources/verilog_libs/pcie/dma_if_pcie_rd.v:787-873 | whatever an enabled engine is doing, there is a later cycle in which it takes a descriptor |
| EngineIntake.ReadyForNext | hw/src/main/resources/verilog_libs/pcie/dma_if_pcie_rd.v:788-858 | the engine is ready for a descriptor exactly if it is enabled, has nothing in hand, and had an operation tag before the edge and has one after it |
| PifoInvariants.ResumeIdeal | model/queues.hh:375-386 | picking up a misplaced entry keeps every ideal slot smaller than everything behind it |
| PifoInvariants.AdvanceIdeal | model/queues.hh:389-423 | comparing the carried entry with a slot keeps ideal slots smaller than everything behind them and than the entry carried past them |
| PifoInvariants.SpillIdeal | model/queues.hh:438-453 | putting the carried entry down and carrying another keeps ideal slots in place |
| PifoInvariants.AdvanceLive | model/queues.hh:389-423 | comparing loses and doubles no entry |
| PifoInvariants.StepValid | model/queues.hh:369-453 | a tick keeps every entry exactly once in queue, vector or carried register, the ideal order and all indices in range, and neither completes nor accounts a message |
| PifoInvariants.StepFeeds | model/queues.hh:425-436 | after a tick, live messages mean a non-empty sorted queue |
| PifoInvariants.ArrivalValid | model/queues.hh:111-116 | an arrival keeps the invariant |
| PifoInvariants.DepartureValid | model/queues.hh:118-175 | a departure from a fed queue keeps the invariant, never comes back empty-handed, and takes exactly one block off the backlog if the wire was busy |
| PifoSorter.StepSize | model/queues.hh:425-453 | a step takes in at most one entry and gives one up exactly if the sorted queue would have more than its size, so it stays within its size or does not grow |
| PifoSorter.SpillsGreatest | model/queues.hh:438-453 | what it gives up is its greatest entry, carried in front of the vector; an entry carried before is put down where it was, marked final exactly at the end |
| PifoSorter.RefillsWhenShort | model/queues.hh:425-436 | a queue at least seven short of its size takes in the head of a non-empty vector, a longer one exactly if that head is smaller than its entry seven from the size |
| PifoSorter.RunSize | model/queues.hh:369-453 | over every run the sorted queue outgrows its size by no more than the ticks in which an arrival fills it and the step takes in the head all the same |
| PifoSorter.StaysSmall | model/queues.hh:369-453 | it keeps its size throughout a run if and only if there is no such tick |
| PifoSorter.OutgrowsSize | model/queues.hh:375-453 | a full queue of eight that has nine entries after a tick |
| PifoSorter.Compares | model/queues.hh:389-423 | one comparison: the carried entry is put down, as final, exactly at the end or in front of a greater final slot; otherwise the greater of the two goes on, the smaller stays, and the slot is remembered if they changed places |
| PifoSorter.PassEnds | model/queues.hh:389-423 | left alone, a carried entry and those it is exchanged with come to a final place within as many turns as there are slots in front: the greatest of all passed becomes one more final slot behind them |
| PifoSorter.TakesUp | model/queues.hh:375-386 | a remembered slot is the next taken up |
| PifoSorter.SorterStopsEarly | model/queues.hh:375-423 | a state with two slots out of order that no step changes |
| QueueBase.AccountConsistent | model/queues.hh:155-174 | accounting a departure erases exactly one entry, keeps ids unique and moves blocks to the wire without losing any |
| EntryBag.SortedMeans | model/queues.hh:73-89 | entries are in order by what they have left to send, and by age where that is equal |
| QueueRuns.RunLosesNothing | model/qsim.cc:145-160 | over every run the underflow branch is never taken, every message that arrived is live or has completed, and the entries held are exactly the live ones |
| QueueRuns.RunGenuine | model/queues.hh:111-175 | over every run, each live entry is a message that arrived at its time with its length, numbered in order of arrival, and what it has left is its length less whole packets |
| QueueRuns.DispatchCounts | model/queues.hh:144-153 | a departure that serves a message counts one packet, and one out of order if and only if a live message had less to send |
| QueueRuns.RunIdealSlots | model/queues.hh:375-453 | over every run, a vector whose flags are all set is sorted, and a head whose flag is set is its minimum |
| QueueRuns.SettledServesLeast | model/queues.hh:375-453 | if the sorter's turn leaves an ideal head and nothing carried in front of it, the next entry served has the least to send of all live messages, and is the oldest of those with as little |
| QueueRuns.SettledDepartureInOrder | model/queues.hh:148-155 | and the next departure is not counted as out of order |
| QueueRuns.IdealRun | model/queues.hh:207-253 | the ideal queue holds exactly the live messages in order, never underflows, and never serves out of order |
| QueueRuns.IdealServesLeast | model/queues.hh:207-253 | it serves the message with the least to send, and of several with as little the oldest |
| QueueRuns.SameBacklog | model/qsim.cc:145-160 | for any arrivals, the small sorted queue and the ideal one have the same backlog and the same busy ticks after every tick, although they serve in different orders |
| QueueRuns.WorkIsConserved | model/qsim.cc:145-160 | in the small sorted queue and in the ideal one, the work that arrived is the backlog plus one block for each tick that began with the wire busy |
| SimulatedQueues.PifoNaive.Step | model/queues.hh:369-453 | the tick in place is the specified one, whose size, spilling and sorting are PifoSorter.StepSize, PifoSorter.SpillsGreatest and PifoSorter.Compares |
| SimulatedQueues.PifoNaive.Departure | model/queues.hh:118-175 | the departure in place is the specified one |
| SimulatedQueues.SimulatePifo | model/qsim.cc:145-160 | the simulation loop (departure, arrival, step) computes the specified run |
| SimulatedQueues.SimulateIdeal | model/qsim.cc:145-160 | the same for the ideal queue |
| RamPipeline.ClockContents | hw/src/main/resources/verilog_libs/pcie/dma_psdpram.v:138-163 | a read pipeline of any depth hands its words out in the order they were read, drops none, and takes a new one exactly when it says so |
| RamPipeline.ClockInStep | hw/src/main/resources/verilog_libs/pcie/dma_psdpram.v:138-163 | pipelines under the same handshake stay in step |
| SegmentedRam.Segment.Write | hw/src/main/resources/verilog_libs/pcie/dma_psdpram.v:119-128 | the write loop changes exactly the enabled bytes of the addressed word |
| SegmentedRam.Segment.Shift | hw/src/main/resources/verilog_libs/pcie/dma_psdpram.v:138-150 | the loop over the stages, on the valid bits before the edge, closes up the stages behind an empty one |
| SegmentedRam.Segment.Read | hw/src/main/resources/verilog_libs/pcie/dma_psdpram.v:138-163 | the read port is the specified pipeline step with the word read before the edge |
| SegmentedRam.SlideAt | hw/src/main/resources/verilog_libs/pcie/dma_psdpram.v:138-150 | each stage keeps its word or takes the one behind it, by whether it or a later stage makes room |
| FlatRam.ReadIsFlat | hw/src/main/scala/RamClient.scala:50-81 | a read returns the 64 bytes from its address on in one circular byte memory, for every alignment |
| FlatRam.WriteIsFlat | hw/src/main/scala/RamClient.scala:133-162 | a write changes exactly the bytes it reaches: its data for lengths up to 64, zeros behind the data up to the end of the 128-byte block for 65 to 128, nothing from 129 on |
| FlatRam.OneByteTooMany | hw/src/main/scala/RamClient.scala:133-162 | a write of 65 bytes puts a zero behind its data |
| FlatRam.ReadBack | hw/src/main/scala/RamClient.scala:50-162 | what was written is read back |
| RamClient.SendsWhenReady | hw/src/main/scala/RamClient.scala:32-45 | the queue of pending addresses never stops a read the RAM would accept, for up to six pipeline stages |
| RamClient.QueuesMove | hw/src/main/scala/RamClient.scala:32-66 | the pending addresses and the two pipelines gain and lose entries together |
| RamClient.FlightMoves | hw/src/main/scala/RamClient.scala:66-87 | words in flight leave in the order they were read, and a read joins them with the 64 bytes at its address when it enters the RAM |
| RamClient.RunIsAccounted | hw/src/main/scala/RamClient.scala:32-162 | over every run and under any back-pressure, reads are answered in order and once, each from the memory as it was when it entered the RAM; writes take effect in order |
| RamClient.InitialOk | hw/src/main/scala/RamClient.scala:32-34 | an empty port with a pipeline of at most six stages satisfies the invariant |
| RamClient.Flow | hw/src/main/scala/RamClient.scala:32-66 | at most as many reads are pending as the pipeline has stages, an always ready reader is never refused, and a word at the end of the pipelines moves on whenever the latch behind them is free or freed |
| RamClient.EverythingIsAnswered | hw/src/main/scala/RamClient.scala:32-87 | once the reader has been ready for two cycles more than there are stages, without new reads, every read accepted has been answered, in order and with the words of the memory |
| RamClient.Port.Clock | hw/src/main/scala/RamClient.scala:32-162 | latches, queues and segments updated in place make the specified step |
| TimeTrace.Buffer.Record | app/lib/time_trace.cc:264-278 | recording appends unless frozen, and the ring keeps the last 65536 events |
| TimeTrace.Buffer.First | app/lib/time_trace.cc:97-106 | the start index is that of the oldest event still printed, one less than the ring holds |
| TimeTrace.FindStart | app/lib/time_trace.cc:117-123 | the starting time is the latest of the oldest times |
| TimeTrace.Skip | app/lib/time_trace.cc:126-134 | the skipping loop stops at the first event not before the starting time, or at the end |
| TimeTrace.FindEarliest | app/lib/time_trace.cc:163-175 | the search finds the earliest printable event, and of several the one in the first buffer |
| TimeTrace.PrintInternal | app/lib/time_trace.cc:97-201 | printing returns the merge of what the buffers hold from the starting time on, and ends |
| TraceMerge.SkipIsExact | app/lib/time_trace.cc:126-134 | in an ordered trace exactly the events before the starting time are skipped |
| TraceMerge.MergeIsComplete | app/lib/time_trace.cc:158-201 | every thread's events are printed once and in its order up to the first with the largest timestamp, which stops the thread |
| TraceMerge.AllPrintable | app/lib/time_trace.cc:163-165 | a trace is printed whole exactly if no timestamp is the largest one |
| TraceMerge.LargestTimeStops | app/lib/time_trace.cc:163-165 | an event with the largest timestamp hides a later one of its thread |
| TraceMerge.MergeIsOrdered | app/lib/time_trace.cc:158-201 | from ordered traces the lines come out in order of time |
| TimeTrace.NothingMissing | app/lib/time_trace.cc:108-116 | in ordered traces every event recorded later than the starting time is printed, however much was overwritten |
| TimeTrace.PrintedByPosition | app/lib/time_trace.cc:97-201 | of an ordered trace, record k is printed if and only if the buffer still holds it and its time is neither before the starting time nor the largest; the printed records are one range of the trace |
| TimeTrace.FirstOfManyIsMissing | app/lib/time_trace.cc:97-134 | 65536 events at one time: the first has the starting time and is not printed |
| PriorityEncoder.EncodeIsExact | hw/src/main/resources/verilog_libs/pcie/priority_encoder.v:49-88 | for any width from 1, the tree is valid exactly if a bit is set and then names the first (or last) one |
| Arbiter.FixedPriority | hw/src/main/resources/verilog_libs/pcie/arbiter.v:135-139 | without turns, the grant goes to the first requesting port |
| Arbiter.StartsInTurn | hw/src/main/resources/verilog_libs/pcie/arbiter.v:81 | the empty mask after reset stands for the turn of the first port |
| Arbiter.KeepsGrant | hw/src/main/resources/verilog_libs/pcie/arbiter.v:98-139 | a blocking arbiter keeps a grant until it is acknowledged or, without acknowledgements, while it is requested; otherwise a requesting port is granted if there is one |
| Arbiter.PickIsSoonest | hw/src/main/resources/verilog_libs/pcie/arbiter.v:114-134 | with turns, it goes to the requesting port that comes soonest after the last one granted |
| Arbiter.WaitShrinks | hw/src/main/resources/verilog_libs/pcie/arbiter.v:114-134 | a port that is passed over comes closer with every decision |
| Arbiter.NobodyStarves | hw/src/main/resources/verilog_libs/pcie/arbiter.v:98-155 | over every sequence of cycles, a port that keeps requesting is passed over fewer times than there are ports |
| Arbiter.Unit.Clock | hw/src/main/resources/verilog_libs/pcie/arbiter.v:98-155 | the registers updated in place make the specified step |
| Skid.SkidKeeps | hw/src/main/resources/verilog_libs/pcie/dma_if_desc_mux.v:259-292 | the two-entry output stage loses, repeats and reorders nothing, and its second entry is free whenever it is open |
| Skid.SkidMoves | hw/src/main/resources/verilog_libs/pcie/dma_if_desc_mux.v:259-292 | a ready reader opens the stage and empties it up to what has just come; an empty stage opens by itself |
| DescMux.StatusReturns | hw/src/main/resources/verilog_libs/pcie/dma_if_desc_mux.v:354-357 | a status returns to the port on top of its tag, under the tag the port sent |
| DescMux.ShareGrows | hw/src/main/resources/verilog_libs/pcie/dma_if_desc_mux.v:192-214 | a port's share of the merged stream grows by what leaves its input register |
| DescMux.StepAccounted | hw/src/main/resources/verilog_libs/pcie/dma_if_desc_mux.v:165-330 | one cycle keeps each port's accepted descriptors equal to those sent, in the output stage, and in its register, in order |
| DescMux.RunIsAccounted | hw/src/main/resources/verilog_libs/pcie/dma_if_desc_mux.v:165-330 | the same over every run, for any number of ports from 1, any stalls and either kind of arbitration |
| DescMux.StepWaits | hw/src/main/resources/verilog_libs/pcie/dma_if_desc_mux.v:165-214 | with turns, a descriptor in its input register stays there until it is read, and every transfer of another port brings its turn closer |
| DescMux.NobodyStarves | hw/src/main/resources/verilog_libs/pcie/dma_if_desc_mux.v:165-330 | in any state of any run and whatever follows, it is passed over by fewer transfers than there are ports |
| DescMux.TakesWhatIsOffered | hw/src/main/resources/verilog_libs/pcie/dma_if_desc_mux.v:165-190 | a descriptor is accepted exactly when its register is empty or is emptied at this edge |
| DescMux.EverythingGoesOut | hw/src/main/resources/verilog_libs/pcie/dma_if_desc_mux.v:165-330 | under either kind of arbitration, a reader that is ready for as many cycles as there are steps to go gets every accepted descriptor of every port |
| DescMux.Mux.Clock | hw/src/main/resources/verilog_libs/pcie/dma_if_desc_mux.v:165-330 | input registers, arbiter and output stage updated in place make the specified step |
| RamDemux.NeverDropped | hw/src/main/resources/verilog_libs/pcie/dma_ram_demux_rd.v:308-327 | the output FIFO never holds more than 17 of 32 responses, although its half-full flag lags |
| RamDemux.OldestIsAnswered | hw/src/main/resources/verilog_libs/pcie/dma_ram_demux_rd.v:269-290 | the response taken belongs to the oldest open command |
| RamDemux.TakesWhatIsOffered | hw/src/main/resources/verilog_libs/pcie/dma_ram_demux_rd.v:269-290 | the response to the oldest open command is taken when its RAM offers it, unless the output FIFO held 16 at the edge before |
| RamDemux.AcceptsUpTo32 | hw/src/main/resources/verilog_libs/pcie/dma_ram_demux_rd.v:149-160 | a command is accepted exactly while fewer than 32 are open and the output stage is open |
| RamDemux.KeepsUp | hw/src/main/resources/verilog_libs/pcie/dma_ram_demux_rd.v:308-334 | a ready reader gets a response in every cycle in which the FIFO holds one |
| RamDemux.StepInOrder | hw/src/main/resources/verilog_libs/pcie/dma_ram_demux_rd.v:149-290 | one cycle keeps each RAM's queue equal to its share of the open commands, and the order FIFO equal to their ports |
| RamDemux.RunInOrder | hw/src/main/resources/verilog_libs/pcie/dma_ram_demux_rd.v:149-334 | over every run, whatever the RAMs and the reader do, responses leave in the order of the commands and none is lost |
| RamDemux.EverythingComesBack | hw/src/main/resources/verilog_libs/pcie/dma_ram_demux_rd.v:149-334 | when RAMs and reader are ready for as many cycles as there are steps to go, every accepted command has been answered and its response handed out |
| RamDemux.TakesTheNext | hw/src/main/resources/verilog_libs/pcie/dma_ram_demux_rd.v:149-160 | and one cycle later the next command is accepted |
| RamDemux.Demux.Clock | hw/src/main/resources/verilog_libs/pcie/dma_ram_demux_rd.v:149-334 | the registers and FIFOs updated in place make the specified step |
| PriorityQueue.EnqueueInserts | hw/src/main/scala/PriorityQueue.scala:32-44 | a new entry joins the ordered list behind its equals; in a full queue it pushes the last entry out; without a register to go to it is dropped and nothing changes |
| PriorityQueue.EnqueueLoses | hw/src/main/scala/PriorityQueue.scala:30-44 | an entry is lost, the new one or another, if and only if every register is in use, or all but one with none above the new entry |
| PriorityQueue.FullQueueLoses | hw/src/main/scala/PriorityQueue.scala:30-44 | an insertion at the front of a full queue of two |
| PriorityQueue.LastRegisterDrops | hw/src/main/scala/PriorityQueue.scala:30-44 | an entry dropped with one of two registers free |
| PriorityQueue.PopTakesHead | hw/src/main/scala/PriorityQueue.scala:45-57 | an output takes the head away, or puts it back with one cycle less; a leaving head of a full queue leaves the last entry twice |
| PriorityQueue.PoppedOrder | hw/src/main/scala/PriorityQueue.scala:45-57 | a head that stays moves one priority up, or from the highest to the lowest; the order then holds if and only if it was not at the highest, is alone, or all others are at the lowest |
| PriorityQueue.FullQueueRepeats | hw/src/main/scala/PriorityQueue.scala:48-52 | the head of two leaves and the other entry is there twice |
| PriorityQueue.WrapLosesOrder | hw/src/main/scala/PriorityQueue.scala:45-57 | a head at the highest priority with a cycle left goes behind its place in the order |
| PriorityQueue.LeavingHead | hw/src/main/scala/PriorityQueue.scala:48-52 | when the head leaves, the list stays intact exactly if not every register was in use; otherwise the last entry is repeated |
| PriorityQueue.RunServes | hw/src/main/scala/PriorityQueue.scala:32-57 | over every run in which no entry is lost or repeated, what the reader has taken and what waits in the latch have of each entry (p, c) the priorities p, p - 1, ... in order, the registers have the rest up to p - c, and the head is the least of what is there |
| PriorityQueue.LatchPassesOn | hw/src/main/scala/PriorityQueue.scala:23-46 | the reader gets the heads that were put out, each once and in order; what waits in the latch stays there until it is taken |
| PriorityQueue.Drains | hw/src/main/scala/PriorityQueue.scala:32-57 | with a ready reader and nothing new, one entry is put out in each cycle; after as many cycles as outputs are owed and one more, every entry has been delivered c + 1 times |
| PriorityQueue.Queue.Enqueue | hw/src/main/scala/PriorityQueue.scala:32-44 | the comparisons in parallel and the shifts, done in place, are the specified insertion |
| PriorityQueue.Queue.Clock | hw/src/main/scala/PriorityQueue.scala:32-57 | the registers and the output latch, updated in place, make the specified step; what the latch hands on is PriorityQueue.LatchPassesOn |
| PacketFraming.KeepIsExact | hw/src/main/scala/Interfaces.scala:521-531 | the keep bits enable exactly the bytes of the packet a frame carries, from the highest lane down |
| PacketFraming.PayloadPlace | hw/src/main/scala/Interfaces.scala:474-513 | a frame carries exactly the payload bytes that lie behind the header in its 64 bytes of the packet |
| PacketFraming.PayloadFollows | hw/src/main/scala/Interfaces.scala:474-513 | each frame's payload begins where the one before ends, and the last frame ends the payload |
| PacketFraming.OneLast | hw/src/main/scala/Interfaces.scala:460-469 | the frames of a packet are consecutive and exactly the final one is marked last |
| PacketFraming.WordInLine | hw/src/main/scala/PacketPipeline.scala:189-209 | byte `lane` of the word read for a frame is the frame's byte `lane` in the message's circular buffer if and only if the buffer does not end before it |
| PacketFraming.LineEnds | hw/src/main/scala/PacketPipeline.scala:189-209 | the twelfth full packet of a message reads past the end of the buffer in its frame at 960 |
| PacketFraming.HeaderReturns | hw/src/main/scala/PacketPipeline.scala:396-438 | a frame received in turn gives the header it was sent with, its own offset and its payload field as far as the frame carries it, and leaves the receiver at the next frame, or at the start after the last |
| PacketFraming.FramesReturn | hw/src/main/scala/PacketPipeline.scala:396-438 | the frames of a whole packet but the first give one piece each, in order: the packet's header, the frame's offset, and its payload field as it arrives |
| PacketFraming.PacketsReturn | hw/src/main/scala/PacketPipeline.scala:396-438 | the same for every packet of a stream sent back to back, whatever the sender puts into the fields |
| PacketIngress.NoWrap | hw/src/main/scala/PacketPipeline.scala:613-645 | inside a packet of less than 65536 bytes no address or length register wraps |
| PacketIngress.FramesTile | hw/src/main/scala/PacketPipeline.scala:595-659 | the DMA requests made for a packet tile its place in the message in order, each out of the RAM range of the writes made for it, whatever they hold |
| PacketIngress.FramesBatch | hw/src/main/scala/PacketPipeline.scala:645-659 | each request of a packet but the last takes at least the configured number of bytes, and none would have without its last frame |
| PacketIngress.FieldArrives | hw/src/main/scala/PacketPipeline.scala:396-438 | the payload field at the receiver is the one sent, of the second frame only the lanes behind the header, for either order of filling |
| PacketIngress.HeldAt | hw/src/main/scala/PacketPipeline.scala:608-629 | which payload byte each byte of a frame's RAM write holds, for either order of filling |
| PacketIngress.FramesDeliver | hw/src/main/scala/PacketPipeline.scala:595-659 | the RAM bytes behind a packet's requests are, in order, those of its frames' writes |
| PacketIngress.EgressFrame | hw/src/main/scala/PacketPipeline.scala:229-241 | of this card's own egress, a frame's payload is written to its place if and only if the frame is not the second |
| PacketIngress.EgressBytes | hw/src/main/scala/PacketPipeline.scala:229-241 | the bytes of the second frame come nowhere, all others come |
| PacketIngress.EgressPacket | hw/src/main/scala/MgmtCore.scala:68 | fed by its own egress, place k of a packet's range gets byte k of the payload if and only if k is at least min(14, length), so the packet comes whole if and only if it is empty |
| PacketIngress.EgressMisplaces | hw/src/main/scala/MgmtCore.scala:68 | of 1408 bytes the first place gets byte 50, and the partial last frame comes whole |
| PacketIngress.WholeFrame | hw/src/main/scala/PacketPipeline.scala:608-629 | from a sender that fills the highest lanes first, a frame's payload is whole in its RAM write if and only if the frame is the second or full |
| PacketIngress.FramesPutDown | hw/src/main/scala/PacketPipeline.scala:595-659 | from such a sender, the writes of a packet hold each byte of its payload except exactly the lost ones of a partial last frame |
| PacketIngress.WholePacket | hw/src/main/scala/PacketPipeline.scala:595-659 | from such a sender, a packet's payload comes whole if and only if it has at most 14 bytes or 14 and a multiple of 64 |
| PacketIngress.PartialLastFrame | hw/src/main/scala/PacketPipeline.scala:625-629 | from such a sender, a payload of 1408 bytes ends with a frame of 50 and is not whole |
| PacketIngress.StreamTiles | hw/src/main/scala/PacketPipeline.scala:595-659 | over every stream of packets and for either sender, each packet's requests tile its range of the message in batches of the configured size, and the range gets exactly the bytes the order of filling leaves whole |
| PacketIngress.Ingress.Frame | hw/src/main/scala/PacketPipeline.scala:613-659 | the registers updated in place, with the shift of the second frame's field, make the specified step, write and request |

## Left out

- DMA read engine: the initialisation that fills the tag FIFOs and clears the tables takes the engine to `Reset`; its counting cycles are not modelled.
- DMA read engine: tag tables of fewer than 32 tags, and credit limits of 0, which switch the limit off. The configured engine has 256 tags and both limits.
- DMA read engine: transmit sequence numbers and their saturating count are the input `txAvailable`; the output FIFOs of the RAM write side are the input `ramReady`, and its `done` counters, the input `writesDone`, are in `EngineWrites` only.
- DMA read engine: data values and their rotation onto the bus, the RAM select bits, how the segment masks come from a cycle's addresses, and the statistics and error-pulse outputs.
- EngineProgress.EveryDescriptorFinishes: that completers end every read is an assumption on them; `EngineAnswers.EveryDescriptorIsServed` has instead that words for a read arrive while the engine can take them.
- EngineWrites.EveryRaiseIsWritten: which segments a cycle writes is a parameter; runs without late completions, the condition of `EngineWrites.ClockTrails`.
- TlpSizing.SizeIsSound: speaks of counts above zero; `TlpSizing.SizeOfNothing` covers zero.
- EngineRuns.ReportIsComplete: the link configuration (request size, completion boundary) is taken as fixed over the run.
- CompletionPath.RequestFills: completions that end their TLP early, which the engine accepts, are not counted as conforming; the same holds for `EngineData.Honest`.
- EngineData.ClockData: follows the byte intervals of the data cycles; which RAM bytes they write is `EngineRuns.WrittenInRam`, for cycles inside rows, and over runs `EngineRanges.CleanReportWritesRange`. A zero-length operation's one byte is counted, and masked by the code.
- EngineRuns.CleanReportIsFilled: what was written for each request since it was issued; a later request of the same or another operation may write over it, as `EngineRuns.ExtraReadLandsOnLastPage` says of one.
- Queue simulator: slot statistics, violation ratios, the `gstats` switch, tracing and printing; the distributions arrivals are drawn from; ids as 64-bit numbers.
- QueueRuns.SameBacklog: priorities of at least 8, since the tick reads the sorted queue at `priorities - 8`.
- RamClient.RunIsAccounted: pipelines of at most six stages; the configured RAM has two. A deeper one could accept a read its pending queue refuses.
- Segmented RAM: reset while reads are under way; `wr_done`, which no client reads.
- Time trace: formatting of the lines, the copy of the buffer list under its lock, and recording by other threads while printing.
- TimeTrace.PrintInternal: the buffers do not change while it runs, as freezing intends.
- Descriptor mux: extending the RAM select by the port, which is done as for the tag, and immediate data widths.
- RamDemux.RunInOrder: selections name an existing port; the RAMs answer their commands in order. One segment is modelled, as the segments do not interact.
- PriorityQueue.RunServes: runs in which no entry is lost or repeated (the exact conditions are `PriorityQueue.EnqueueLoses` and `PriorityQueue.LeavingHead`) and no entry has more cycles than priority; `PriorityQueue.PoppedOrder` says what a single output does otherwise.
- PacketFraming.HeaderReturns: headers as 114 bytes; the division into fields is by position on both sides.
- PacketFraming.PacketsReturn: no longer says that the payload put together from the fields, highest lane first, is the one sent; the sender here fills them from the lowest lane, so it is not (`PacketIngress.EgressPacket`).
- PacketIngress.StreamTiles: packets of less than 65536 bytes whose place in the message fits 32 bits, and a configured write size of at least 1. What the RAM ranges hold when they are written; that a range is not overwritten before its request has read it depends on the DMA engine. Words read for a frame lie in their message's buffer.
- DescMux.NobodyStarves: counts transfers of other ports; how long the output may stall is up to its reader.
- Egress duplication under stall, the prefetcher, the scheduler, the content-addressable memory, address maps, the wide SRPT queue and its grant variant, AXI bridges, and all wiring.
- The kernel driver, the applications other than the trace buffers, firmware and scripts.
