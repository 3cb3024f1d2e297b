# Elkeid: a verified model of its buffers, its policy store and its wire codec

Elkeid is a host intrusion detection system: a kernel driver writes events into per-CPU ring
buffers, an agent in user space packs the records of its plugins and sends them on, and runtime
probes talk to the agent over sockets. This project models the parts of it whose correctness is
least visible in the code, in Dafny 4.11, and proves what they are relied on for.

* **The trace ring** (`driver/LKM/src/trace_buffer.c`), in three layers.
  * `HeadProtocol` is the lockless protocol by which one writer pushes the head of the ring while
    one reader swaps pages out of it, one contended access per step, freely interleaved; `TornRuns`
    and `HeadScan` hold the runs of it that go wrong.
  * `NestedCommit` is the protocol of writers that interrupt each other in stack order, between any
    two accesses; `NestedLedger` is about what becomes of the bytes they reserve, and `NestedProgress`
    about their coming to an end.
  * `TraceEvent`, `TracePages`, `TraceQueue`, `TraceState`, `RingMoves` and `TraceRing` are the
    sequential ring down to its bytes: class `TraceRing.PerCpu` reserves, fills, commits, discards,
    peeks and consumes, and is shown to be a FIFO queue that drops whole oldest pages. Its link
    updates are the steps of `HeadProtocol`. `TraceRuns` is about every sequence of calls on it.
* **The file-notify policy and the allowlists** (`driver/LKM/src/filter.c`): `MaskLayout`, `MaskMap`
  and `MaskNode` (a flat byte buffer, edited in place, as a map from uuid and name to mask),
  `MaskShelf`, `MaskBits`, `SearchTree`, `Checklist` and `Allowlist`.
* **The agent's wire codec** (`agent/proto/grpc.pb.go`, `agent/plugin`): `Varint`, `Wire`,
  `MessageLoop`, `Messages`, `Encoding`, `FieldMeaning`, `RoundTrips`, `Overruns`, `Codec` and `Receive`,
  after the Protocol Buffers encoding guide.
* **Small ones**: `DnsSwitch`, `QName`, `CpuScan` and `FrameStream`.

Six promises turned out not to hold as they stand; each comes with the input that breaks it and
with the condition under which it does hold.

* *The page the writer clears and takes as its new tail is free.* The ring itself is kept in every
  interleaving (`EveryRunKeepsTheRing`, `RingTheorem`). But `tb_is_reader_page` makes two loads, and the
  reader can re-link the page the first one returned before the second: `HeadProtocol.Torn` is that
  step. From the first such step on, and however long the reader goes on, the writer's next step gets
  the wrong answer: the check in `tb_set_commit_to_write` fires its warning, and `tb_move_tail` takes the
  page it had seen instead of pushing the head (`TornTestIsWrong`). In every interleaving the page taken
  is free exactly if it is neither the page off the ring nor the head page of a full ring, and in a run
  without a torn test it always is (`ClearedPageIsFree`). On every ring of three pages or more the
  writer can take the head page with all its unread events (`TornTakesHeadPage`), on one of two pages
  the reader's own page (`TornReaderTest`).
* *The head-page scan finds the head page in three rounds.* On a ring of n pages a scan gives up if and
  only if none of its 3n looks hits, where a look hits if the distance of the head at the start, plus the
  writer's pushes, less the looks so far is a multiple of n, or if it is at the page the head is just being
  pushed from (`ScanOutcome`). That takes a writer that pushed the head at least 3n - d times during the
  scan, more than twice around the ring, where d is the distance at the start (`GiveUpNeedsPushes`).
  That many can be made on every ring: `GivesUp` is a run in which the writer stays one page ahead. Without
  a writer one round is enough (`TraceRing.FindHead`).
* *An unknown field can be inserted anywhere in a message without changing its value.* It can for
  `EncodedRecord`, `Record` and `PackagedData`. In a `Payload` a map entry's strings are bounded by
  the message and not by the entry, so the last string of an entry can reach beyond the entry and
  beyond the place of insertion (`OverrunningEntry`). In a message of fewer than 150 keys, and in any
  message if no key reaches beyond, the insertion is harmless if and only if no tag or length of such a
  string is cut by it, no key reaches beyond it, and every value reaching beyond it is written again later
  in the message (`PayloadIgnoresUnknownExactly`). A key that reaches beyond makes the insertion visible
  unless every key it could become is in the message already (`OpenKeyShows`), and those are at least 150,
  one for every byte an unknown field can begin with (`OpenKeyNeedsKeys`). A message of just 150 keys
  can have such a key and take every insertion (`FewKeysIsSharp`). If the strings reach one byte beyond,
  it is enough to compare the writes for these 150 bytes (`PayloadIgnoresUnknownByOpenings`).
* *A ring with nothing to read is reported empty.* `tb_per_cpu_empty` never reports empty while something
  is unread. With nothing unread it reports empty if and only if the reader page holds no unread padding
  and the tail is not past the head page (`TraceRing.PerCpu.IsEmpty`). Requests that leave room for a time
  header keep the tail there, and without discards they leave unread padding only under an open
  reservation: `EmptyMissed` reaches that state. A larger request that is rejected moves the tail past
  the head page, and the ring is not reported empty though nothing was ever committed
  (`EmptyMissedForLarge`).
* *A received frame is taken off the stream as a whole, and the record is what it holds.* `ReceiveData` reads
  two varints and the tag behind each before it looks at the frame length. A frame that ends behind the
  second of those tags or before it is taken up to that tag, and the record keeps the data of whatever the
  pooled record held; only a longer one is taken exactly (`FrameExactly`). A Record without a payload
  costs the next frame its first byte (`WithoutPayload`).
* *The memmove of an insertion into a file-notify node stays inside the buffer.* It moves SOMASK bytes more
  than are live behind the new entry. It stays inside if and only if the name is known, its uuid is new,
  or SOMASK bytes are left free (`MaskNode.Node.Insert`); two names on a fresh node are enough to leave
  it (`MaskNode.MoveRunsOut`).

Requests within 8 bytes of the largest allowed length are modelled like all others; while they need a
time header they fit on no page, and every round of the retry loop moves the tail on.
`TraceRing.PerCpu.Reserve` rejects an allowed request only if it fits no fresh page in any of the 999
rounds after the first. The statement about losing at most one page is therefore made for lengths up to
`BUF_MAX_DATA_SIZE - 8`, and the accounting for all lengths.

## Model

| member | source | states |
|---|---|---|
| HeadProtocol.EveryRunKeepsTheRing | driver/LKM/src/trace_buffer.c:2012-2159 | every state of every interleaving of the writer's head-move steps with the reader's swap steps satisfies the ring invariant for n pages, and a stronger one as long as no reader-page test was torn |
| HeadProtocol.RingTheorem | driver/LKM/src/trace_buffer.c:1178-1286 | in every such state the links form one cycle of n pages without the reader page, one link is HEAD, the UPDATE link stands alone between the first two cmpxchgs and beside the HEAD link until the third, and no warning has fired but the one at 2601, and that only after a torn test |
| HeadProtocol.SwapNeverTakesUpdatedPage | driver/LKM/src/trace_buffer.c:3980-4042 | in every interleaving a successful swap takes the head page, and no link to it carries UPDATE |
| HeadProtocol.ClearedPageIsFree | driver/LKM/src/trace_buffer.c:1291-1350 | in every interleaving the page the writer clears and publishes as tail is on the ring behind the commit page, and not the page being read, if and only if it is neither the page off the ring nor the head page of a full ring; without a torn test it always is |
| HeadProtocol.TornTestIsWrong | driver/LKM/src/trace_buffer.c:1120-1125 | after the first torn test, however long the reader goes on, the writer's next step warns at 2601 or takes the page it had seen, which is not free exactly if it is the page off the ring or the head page of a full ring |
| TornRuns.TornTakesHeadPage | driver/LKM/src/trace_buffer.c:2257-2292 | on every ring of three pages or more a run that tears the test on the prev pointer a swap has not fixed yet, and ends with the writer taking the unread head page of a full ring |
| TornRuns.TornReaderTest | driver/LKM/src/trace_buffer.c:2590-2606 | a run on two pages that tears the test and ends with the writer on the reader's page and the warning at 2601 |
| HeadScan.ScanOutcome | driver/LKM/src/trace_buffer.c:1251-1270 | in every interleaving, none of a scan's looks hits but possibly the last, and that one exactly if the scan finds a page; a scan that gives up made 3n looks; what hits follows from the distance at the start, the pushes and the looks so far |
| HeadScan.GiveUpNeedsPushes | driver/LKM/src/trace_buffer.c:1251-1270 | in every interleaving, a scan that gives up after three rounds, with the head d pages ahead when it began, saw the writer push the head at least 3n - d times, which is at least 2n + 1 |
| HeadScan.GivesUp | driver/LKM/src/trace_buffer.c:1251-1270 | on every ring a run in which the scan gives up |
| RingMoves.FreeMove | driver/LKM/src/trace_buffer.c:2237-2338 | with a free next page, the writer's accesses one after the other leave a quiet ring with the tail and commit one page on |
| RingMoves.FullPush | driver/LKM/src/trace_buffer.c:2012-2159 | on a full ring, the four accesses of tb_handle_head_page turn the ring by one page |
| RingMoves.ScanEnds | driver/LKM/src/trace_buffer.c:1236-1271 | the sanity check of tb_set_head_page passes, and remembering the head page changes nothing else |
| RingMoves.SwapMoves | driver/LKM/src/trace_buffer.c:3980-4042 | the accesses of a whole page swap put the spent reader page in the place of the head page |
| NestedCommit.EveryRunInv | driver/LKM/src/trace_buffer.c:2575-2662 | every run of nested writers, interrupted between any two accesses and choosing the length of every attempt anew, keeps the commit invariant |
| NestedCommit.CommitNeverPassesOpenReservation | driver/LKM/src/trace_buffer.c:2582-2636 | the commit position never passes the start of an open reservation, and open reservations do not overlap |
| NestedCommit.NoCommitDangles | driver/LKM/src/trace_buffer.c:2638-2662 | with nobody in committing and nobody about to go round again, commit page and index are tail page and write index, even if a writer ran out of rounds in between |
| NestedCommit.OutermostLeavesClean | driver/LKM/src/trace_buffer.c:2638-2662 | the same whenever the outermost writer has left |
| NestedCommit.CommittedPagesAreWhole | driver/LKM/src/trace_buffer.c:2237-2338 | every page the commit position has passed is committed to its last written byte, and tail and commit never share memory from behind |
| NestedCommit.CommittingCountsWriters | driver/LKM/src/trace_buffer.c:2575-2580 | committing counts exactly the writers inside |
| NestedLedger.EveryRunBalances | driver/LKM/src/trace_buffer.c:2501-2682 | after every run of nested writers the bytes of committed events, of discards that came too late, of padding and of open reservations lie apart, below the write index of their page, and add up to it |
| NestedLedger.CommittedStays | driver/LKM/src/trace_buffer.c:2677-2682 | from when a writer leaves its reservation without discarding it, its bytes lie below the write index of their page for good, and below the commit index whenever the outermost writer has left |
| NestedLedger.DiscardedGoes | driver/LKM/src/trace_buffer.c:2501-2573 | an undisturbed discard gives the bytes back |
| NestedLedger.PagesAreTiled | driver/LKM/src/trace_buffer.c:2575-2662 | once the outermost writer has left, the committed bytes of every page are those of its events and its padding, without gap or overlap |
| NestedProgress.WriterLeaves | driver/LKM/src/trace_buffer.c:2575-2662 | after every run the top writer, if its request fits on a page and nothing interrupts it, leaves in finitely many steps, whatever it commits, discards or gives up |
| NestedProgress.AllLeave | driver/LKM/src/trace_buffer.c:2575-2662 | so all of them leave, and then all they wrote is committed |
| NestedProgress.OversizeStays | driver/LKM/src/trace_buffer.c:2237-2338 | and that bound is needed: a writer alone on the ring that asks for more than a page goes round until it gives up |
| TraceEvent.CalcLengthGood | driver/LKM/src/trace_buffer.c:2449-2479 | every allowed request gets a legal event size with room for its bytes |
| TraceEvent.CalcLengthLeast | driver/LKM/src/trace_buffer.c:2449-2479 | and the least such size; every legal size is the one some request gets |
| TraceEvent.NullEvent | driver/LKM/src/trace_buffer.c:160-207 | a null event has no length |
| TraceEvent.HeaderBytes | driver/LKM/include/trace_buffer.h:44-88 | how the headers of small events, large ones and time stamps lie in memory |
| TraceEvent.DataHeaderReads | driver/LKM/src/trace_buffer.c:172-213 | the size written into an event header is the size read back, in both length encodings |
| TraceEvent.EventSizeIsDataArea | driver/LKM/src/trace_buffer.c:239-253 | tb_event_size is the length of the data area |
| TraceEvent.TimeHeaderReads | driver/LKM/src/trace_buffer.c:288-297 | a time header reads back the 59-bit value stored in it |
| TraceEvent.ReservedEvent | driver/LKM/src/trace_buffer.c:2422-2447 | a reservation decodes as one data event, behind its time header, with exactly its data area and the recovered time stamp |
| TraceEvent.PaddedEnd | driver/LKM/src/trace_buffer.c:2162-2229 | the end padding of a page is one event that reaches exactly to the end and yields nothing |
| TraceEvent.Join | driver/LKM/src/trace_buffer.c:4092-4161 | whole events followed by whole events decode to the one sequence and then the other |
| TracePages.CommitAppends | driver/LKM/src/trace_buffer.c:2677-2682 | committing a reservation appends exactly its event to what the page holds |
| TracePages.PadAppendsNothing | driver/LKM/src/trace_buffer.c:2162-2229 | padding a page off appends nothing |
| TraceQueue.CommitTail | driver/LKM/src/trace_buffer.c:2677-2682 | committing on the tail page appends one event to the queue of unread events |
| TraceQueue.LeftPageEnds | driver/LKM/src/trace_buffer.c:2208-2228 | a page the writer has left ends at its end, or where no other event had room, with a null event behind if a header had |
| TraceQueue.MoveOn | driver/LKM/src/trace_buffer.c:2237-2338 | moving the tail to the next page leaves the queue as it is |
| TraceQueue.DropHead | driver/LKM/src/trace_buffer.c:1990-2002 | pushing the head of a full ring drops exactly the events of the oldest page, and its entry count is their number |
| TraceQueue.SwapReader | driver/LKM/src/trace_buffer.c:3980-4042 | swapping a spent reader page for the head page leaves the queue as it is |
| TraceQueue.AdvanceReader | driver/LKM/src/trace_buffer.c:4063-4084 | advancing over a data event takes exactly the first event off the queue |
| TraceState.StampRecovered | driver/LKM/src/trace_buffer.c:3063-3213 | with a clock that does not go back and gaps below 2^59, the stamp the reader rebuilds is the one the writer took |
| TraceState.ReservationOk | driver/LKM/src/trace_buffer.c:3186-3212 | reserving keeps the ring invariant and is invisible to the reader |
| TraceState.CommittedOk | driver/LKM/src/trace_buffer.c:2677-2682 | committing keeps the invariant and makes the reservation the newest event |
| TraceState.DiscardReads | driver/LKM/src/trace_buffer.c:2501-2573 | from the bytes alone, tb_try_to_discard finds where the reservation began, where it ended and what to take off the write stamp |
| TraceState.DiscardedOk | driver/LKM/src/trace_buffer.c:3409-3441 | discarding keeps the invariant, the queue and the exactness of later stamps |
| TraceState.PushedCore | driver/LKM/src/trace_buffer.c:2012-2159 | pushing the head of a full ring keeps the accounting: what is lost is counted by overrun |
| TraceState.OnwardCore | driver/LKM/src/trace_buffer.c:2237-2338 | moving the tail on keeps the ring invariant |
| TraceState.AdvancedOk | driver/LKM/src/trace_buffer.c:4063-4084 | consuming keeps the invariant, and delivered followed by unread stays a subsequence of the log |
| TraceState.BlankOk | driver/LKM/src/trace_buffer.c:1515-1580 | the ring tb_allocate_cpu_ring makes satisfies the invariant and is empty |
| TraceRing.FindHead | driver/LKM/src/trace_buffer.c:1236-1271 | the head-page scan finds the head page within one round, so its give-up warning is unreachable |
| TraceRing.SwapLinks | driver/LKM/src/trace_buffer.c:3980-4042 | the swap, access by access, leaves the ring turned by one page |
| TraceRing.TailLinks | driver/LKM/src/trace_buffer.c:2237-2338 | the tail move, access by access, pushes the head exactly if the ring was full |
| TraceRing.ReserveNext | driver/LKM/src/trace_buffer.c:3063-3213 | the choice of time header, the claimed length and the written header are those of the specification, if the event fits |
| TraceRing.UndoReserve | driver/LKM/src/trace_buffer.c:2501-2573 | a sequential discard always reclaims the space |
| TraceRing.PerCpu.constructor | driver/LKM/src/trace_buffer.c:1658-1661 | at least two pages, room for the requested size, nothing to read |
| TraceRing.PerCpu.MoveTail | driver/LKM/src/trace_buffer.c:2237-2338 | a page crossing loses exactly the oldest page's events, and only if every page was in use; the reader page is untouched |
| TraceRing.PerCpu.TryReserve | driver/LKM/src/trace_buffer.c:3063-3213 | one round reserves, invisibly to the reader, or moves the tail on |
| TraceRing.PerCpu.Reserve | driver/LKM/src/trace_buffer.c:3300-3348 | room for the requested bytes or a counted rejection; what made room is the oldest part of the ring, counted by overrun; with length up to BUF_MAX_DATA_SIZE - 8 it succeeds and costs at most the oldest page, and an allowed request is rejected only if it fits no fresh page in any later round; every round that fails moves the tail one page and drops the oldest page as a whole if there is no free one; a reader page the tail leaves is padded to its end |
| TraceRing.PerCpu.Fill | driver/LKM/src/trace_buffer.c:256-277 | the caller's writes change the reserved data area and nothing a reader sees |
| TraceRing.PerCpu.Commit | driver/LKM/src/trace_buffer.c:2892-2907 | the event becomes the newest unread one, with the bytes of its area and, while the clock behaves, the stamp taken at its reservation |
| TraceRing.PerCpu.Discard | driver/LKM/src/trace_buffer.c:3409-3441 | the event is gone, nothing else is lost, and the discard is counted |
| TraceRing.PerCpu.SwapPages | driver/LKM/src/trace_buffer.c:3980-4042 | the swap leaves the queue of unread events as it is |
| TraceRing.PerCpu.GetReaderPage | driver/LKM/src/trace_buffer.c:3929-4061 | what it finds has an event at its read index, if it finds nothing there is nothing unread, the queue is unchanged, and two rounds are enough, so its loop warning is unreachable |
| TraceRing.PerCpu.Advance | driver/LKM/src/trace_buffer.c:4063-4084 | the reader moves over one event and counts it if it is data |
| TraceRing.PerCpu.Peek | driver/LKM/src/trace_buffer.c:4206-4230 | the oldest unread event, or nothing exactly if there is none, and the queue and an open reservation are unchanged |
| TraceRing.PerCpu.Consume | driver/LKM/src/trace_buffer.c:4244-4281 | the oldest unread event is delivered once, bytes and stamp, the rest of the queue stays, and an open reservation keeps its bytes |
| TraceRing.PerCpu.IsEmpty | driver/LKM/src/trace_buffer.c:3520-3554 | never true while something is unread; with nothing unread true exactly if the reader page holds no unread padding and the tail is not past the head page; with small requests, without discards and open reservations true exactly if nothing is unread |
| TraceRing.PerCpu.Balance | driver/LKM/src/trace_buffer.c:3699-3704 | delivered followed by unread is a subsequence of the committed events, the difference in number is overrun, tb_num_of_entries is the number of unread events, and every produced event has one fate |
| TraceRing.EmptyMissed | driver/LKM/src/trace_buffer.c:3520-3554 | a run after which nothing is unread, a reservation is open behind a padded reader page, and the ring is not reported empty |
| TraceRing.EmptyMissedForLarge | driver/LKM/src/trace_buffer.c:3520-3554 | on every ring, a run with one rejected request and nothing committed, open, discarded or left to consume, after which the ring is not reported empty |
| TraceRuns.Run | driver/LKM/src/trace_buffer.c:3300-3441 | over any sequence of calls on a fresh ring, peeks and emptiness tests included: the accounting holds; the committed events, divided by the pages they went to, are lost by whole pages, exactly those neither taken by the reader nor on the ring, and a page only after as many newer ones were begun as the ring has; every committed event belongs to one reserve and one commit call, in order, and holds what the fills between them made of its area; it carries the clock reading of its reservation if the clock does not go back and stays below 2^59 or, without discards, its gaps between reservations do; with small requests there is one for every pair of such calls; and every consume and every peek gives the next event in the order of consumption, or nothing exactly if nothing is unread |
| TraceRuns.PagedOn | driver/LKM/src/trace_buffer.c:2012-2159 | whatever a call does to the ring, the division of the log into pages taken, lost and still there goes on, no fate changes, and what the reader took only grows |
| TraceRuns.LostCounted | driver/LKM/src/trace_buffer.c:1990-2002 | the events on the lost pages are as many as overrun counts |
| MaskLayout.SetMaskBytes | driver/LKM/src/filter.c:237-240 | overwriting the four mask bytes of an entry is changing its mask and nothing else |
| MaskLayout.AddEntryBytes | driver/LKM/src/filter.c:258-265 | opening a gap behind the segment header, filling it and rewriting the size is putting an entry in front of the others |
| MaskLayout.AddSegmentBytes | driver/LKM/src/filter.c:276-289 | inserting the bytes of a segment at a segment boundary is inserting the segment |
| MaskLayout.DropEntryBytes | driver/LKM/src/filter.c:332-338 | closing the gap of an entry and rewriting the size is removing the entry |
| MaskLayout.DropSegmentBytes | driver/LKM/src/filter.c:319-331 | closing the gap of a segment is removing the segment |
| MaskMap.MaskSet | driver/LKM/src/filter.c:237-240 | the map changes at that key only, and keys stay unique |
| MaskMap.EntryAdded | driver/LKM/src/filter.c:247-265 | a name new to its volume adds that key |
| MaskMap.SegmentAdded | driver/LKM/src/filter.c:266-290 | a new volume adds its first key, wherever its segment goes |
| MaskMap.EntryDropped | driver/LKM/src/filter.c:332-338 | the key goes, and no other |
| MaskMap.SegmentDropped | driver/LKM/src/filter.c:317-331 | with its last entry a volume goes, and no other key |
| MaskNode.FindSegment | driver/LKM/src/filter.c:126-180 | the volume's segment if there is one, else the last segment; the sanity check in front never fails |
| MaskNode.FindItem | driver/LKM/src/filter.c:181-202 | the entry of that name, with one of the queried bits unless only the name counts, exactly if there is one |
| MaskNode.Node.Check | driver/LKM/src/filter.c:344-354 | true exactly if the map holds the key with one of the queried bits |
| MaskNode.Node.Grow | driver/LKM/src/filter.c:204-225 | a larger buffer with the same live bytes, or no change |
| MaskNode.MoveInsideExactly | driver/LKM/src/filter.c:258-261 | a move of count bytes by n touches only the buffer exactly if its last byte lands inside |
| MaskNode.Node.Insert | driver/LKM/src/filter.c:227-294 | the bits are added under the key and nothing else changes, and the bytes in use grow by what the entry takes; the retry loop ends, and fails exactly if one of the doubled buffers it asks for until there is room cannot be had; the bytes it moves stay inside the buffer exactly if the name is not a new one of a known volume or SOMASK bytes are left free behind it; if the last segment had the least uuid it still has |
| MaskNode.MoveRunsOut | driver/LKM/src/filter.c:258-261 | two names of one volume on a fresh node, after which the bytes moved do not stay inside the buffer |
| MaskNode.Node.Remove | driver/LKM/src/filter.c:296-342 | the bits are taken from the key, an entry without bits goes, and with the last one its segment, an absent key is reported, the bytes in use shrink by what goes, and the buffer is empty exactly if the map is |
| SearchTree.Search | driver/LKM/src/filter.c:432-446 | the value of the key exactly if the tree has it |
| SearchTree.Inserted | driver/LKM/src/filter.c:608-629 | the tree stays ordered and gains the key, or is unchanged if it had it |
| SearchTree.Erased | driver/LKM/src/filter.c:679-695 | the tree stays ordered and loses exactly that key |
| Checklist.Checklist.Check | driver/LKM/src/filter.c:519-531 | true exactly if a queried bit is in the accumulated mask of that inode, volume and name |
| Checklist.Checklist.Add | driver/LKM/src/filter.c:495-517 | the accumulated mask of that inode, volume and name gains the bits exactly if there is memory for a missing node and for every doubled buffer until there is room, all others stay |
| Checklist.Checklist.Del | driver/LKM/src/filter.c:470-493 | the accumulated mask of that inode, volume and name loses the bits, all others stay, and a spent node is removed |
| Checklist.Checklist.DelAll | driver/LKM/src/filter.c:554-563 | nothing is left |
| Checklist.Run | driver/LKM/src/filter.c:470-563 | the policy, its buffers and which additions are taken after any sequence of commands are a function of the commands and of the memory there is; a bit is in the accumulated mask of an inode, volume and name exactly if an addition that was taken gave it and none behind that took it back; and all additions are taken if every node and every buffer smaller than twice the bytes granted to its inode since the last clear can be allocated |
| Checklist.AllAccepted | driver/LKM/src/filter.c:495-517 | that much memory is enough for every addition |
| Checklist.NodesHoldEntries | driver/LKM/src/filter.c:470-493 | after any sequence of commands in which no addition was turned down, every node holds an entry: spent ones are removed |
| Checklist.EntriesHoldBits | driver/LKM/src/filter.c:312-339 | after any sequence of commands that give bits every entry has bits: spent ones are removed |
| MaskShelf.GrownNoMore | driver/LKM/src/filter.c:204-224 | a buffer grows only if it has to, and to less than twice the need |
| Checklist.LoadBounds | driver/LKM/src/filter.c:495-517 | after any sequence of commands no node has more bytes in use than were granted to its inode since the last clear |
| Checklist.CheckAfter | driver/LKM/src/filter.c:519-531 | and an access is reported exactly if one of the queried bits stands like that; with enough memory, exactly if some addition gave it and nothing behind that took it back |
| Allowlist.StrCmpTotal | driver/LKM/src/filter.c:565-583 | strcmp is a total order on strings |
| Allowlist.List.Exists | driver/LKM/src/filter.c:565-583 | membership in the abstract set |
| Allowlist.List.Check | driver/LKM/src/filter.c:721-734 | membership, except that the placeholders are never listed |
| Allowlist.List.AddRecord | driver/LKM/src/filter.c:652-677 | the set gains the string and the counter counts it if it is new |
| Allowlist.List.DelRecord | driver/LKM/src/filter.c:679-695 | the set loses the string and the counter follows |
| Allowlist.List.Write | driver/LKM/src/filter.c:843-880 | the effect of a command on the set, with the length and record limits |
| Allowlist.ListedExactly | driver/LKM/src/filter.c:843-880 | after any run of commands on an empty list a string is listed exactly if a command of allowed length added it with the list not over its limit and none behind that deleted it or all |
| Allowlist.CheckAfter | driver/LKM/src/filter.c:721-734 | and the check after the run answers accordingly |
| Allowlist.NeverMoreThanOneOver | driver/LKM/src/filter.c:843-850 | after any run of commands the list holds at most ALLOWLIST_LIMIT + 1 strings |
| Allowlist.OneOverIsTaken | driver/LKM/src/filter.c:843-850 | and that many distinct additions are all taken |
| Varint.SovIsLength | agent/proto/grpc.pb.go:1631-1633 | the bit-length formula is the length of the encoding, for every value |
| Varint.EncodeVarint | agent/proto/grpc.pb.go:1396-1406 | the encoding ends exactly where the offset was and nothing else is written |
| Varint.ReadVarint | agent/proto/grpc.pb.go:1984-1998 | at most ten bytes, the bits beyond the 64th lost, and both error cases |
| Varint.DecodeExactly | agent/proto/grpc.pb.go:1984-1998 | what is read is the first varint, seven bits a byte, byte k at weight 128 to the k, modulo 2^64; an overflow exactly on ten bytes that say "more", and the end of the input exactly if it comes sooner |
| Varint.RoundTrip | agent/proto/grpc.pb.go:1396-1406 | every 64-bit value survives encoding and decoding, whatever surrounds it |
| Varint.SignedRoundTrip | agent/proto/grpc.pb.go:2009-2041 | negative int32 and int64 values survive the ten-byte form |
| Wire.ReadDelimited | agent/proto/grpc.pb.go:2045-2072 | a length-delimited field lies inside the input or is an error, overflow included |
| Wire.SkipGrpc | agent/proto/grpc.pb.go:3163-3240 | the skipping loop is the recursive specification, on every input |
| Wire.DelimitedExactly | agent/proto/grpc.pb.go:2045-2072 | whatever length is announced: invalid from 2^63 on, else the end of the input if it lies beyond, else the bytes |
| Wire.SkipsAnnounced | agent/proto/grpc.pb.go:3163-3240 | the same for the length of a skipped field, at any depth |
| Wire.SkipsField | agent/proto/grpc.pb.go:3163-3240 | every well-formed field, groups nested to any depth included, is skipped exactly |
| MessageLoop.SkippedExactly | agent/proto/grpc.pb.go:2078-2090 | the same for an unknown field of any message |
| MessageLoop.Concatenation | agent/proto/grpc.pb.go:1977-2098 | for every message type: a message followed by more fields decodes as the message and then the fields onto it |
| MessageLoop.UnknownFieldIgnored | agent/proto/grpc.pb.go:2077-2090 | for every message type: a well-formed unknown field behind a message that stands on its own changes nothing |
| MessageLoop.IgnoredAtBoundary | agent/proto/grpc.pb.go:2077-2090 | at every field boundary, if the decoder reads nothing behind the field it is in |
| Messages.EncodedSound | agent/proto/grpc.pb.go:1977-2098 | the switch moves forward, stays inside the input and depends on its own bytes only |
| Messages.PayloadSound | agent/proto/grpc.pb.go:2223-2399 | the same for the map decoder |
| Messages.RecordSound | agent/proto/grpc.pb.go:2099-2222 | the same with the nested payload |
| Messages.PackagedSound | agent/proto/grpc.pb.go:1637-1976 | the same with the nested records |
| Messages.FieldsContained | agent/proto/grpc.pb.go:1637-2222 | these three read nothing behind the field they are in |
| Encoding.EncodedLength | agent/proto/grpc.pb.go:1462-1480 | Size is the number of bytes of the encoding |
| Encoding.AnyOrder | agent/proto/grpc.pb.go:1500-1516 | the number of bytes of a map does not depend on the order it is walked in |
| Encoding.PayloadSize | agent/proto/grpc.pb.go:1500-1516 | Size is the number of bytes of every order |
| Encoding.RecordLength | agent/proto/grpc.pb.go:1481-1499 | Size is the number of bytes of the encoding |
| Encoding.PackagedLength | agent/proto/grpc.pb.go:1407-1461 | Size is the number of bytes of the encoding |
| Codec.MarshalEncoded | agent/proto/grpc.pb.go:1027-1070 | the backward writer fills a buffer of Size() bytes exactly with the encoding |
| Codec.MarshalPayload | agent/proto/grpc.pb.go:1112-1152 | the same for some order of the keys |
| Codec.MarshalRecord | agent/proto/grpc.pb.go:1067-1110 | the same with the nested payload |
| Codec.MarshalPackaged | agent/proto/grpc.pb.go:941-1025 | the same with nested records and repeated strings |
| Codec.UnmarshalEncoded | agent/proto/grpc.pb.go:1977-2098 | on every input the loop ends with the specified value or error |
| Codec.UnmarshalPayload | agent/proto/grpc.pb.go:2223-2399 | the same |
| Codec.UnmarshalRecord | agent/proto/grpc.pb.go:2099-2222 | the same, merging a payload met twice |
| Codec.UnmarshalPackaged | agent/proto/grpc.pb.go:1637-1976 | the same |
| FieldMeaning.EncodedMeaning | agent/proto/grpc.pb.go:1977-2098 | every list of well-formed fields, in any order, repeated, unknown or of a wrong wire type, decodes to what the schema says of its fields, or to the error of the first that has no meaning |
| FieldMeaning.PayloadMeaning | agent/proto/grpc.pb.go:2223-2399 | the same for maps, with the last key and the last value of an entry |
| FieldMeaning.RecordMeaning | agent/proto/grpc.pb.go:2099-2222 | the same, a payload met again being merged |
| FieldMeaning.PackagedMeaning | agent/proto/grpc.pb.go:1637-1976 | the same, records and addresses being appended |
| FieldMeaning.EncodedSchema | agent/proto/grpc.proto:17-21 | what is marshalled is the list of its non-empty fields, with the numbers and wire types of the schema |
| FieldMeaning.PayloadSchema | agent/proto/grpc.proto:28 | the same for the entries of a map |
| FieldMeaning.RecordSchema | agent/proto/grpc.proto:22-26 | the same |
| FieldMeaning.PackagedSchema | agent/proto/grpc.proto:5-15 | the same |
| FieldMeaning.CutShort | agent/proto/grpc.pb.go:1977-2098 | for every message type: a field cut short anywhere is rejected |
| FieldMeaning.StrayTag | agent/proto/grpc.pb.go:2003-2007 | for every message type: a tag with field number zero, or one that ends a group, is rejected behind any message |
| RoundTrips.EncodedRoundTrip | agent/proto/grpc.pb.go:1977-2098 | decoding what was marshalled gives the EncodedRecord back |
| RoundTrips.PayloadRoundTrip | agent/proto/grpc.pb.go:2223-2399 | the same for a Payload, in any order of its keys |
| RoundTrips.RecordRoundTrip | agent/proto/grpc.pb.go:2099-2222 | the same for a Record |
| RoundTrips.PackagedRoundTrip | agent/proto/grpc.pb.go:1637-1976 | the same for a PackagedData |
| RoundTrips.EncodedIgnoresUnknown | agent/proto/grpc.pb.go:2077-2090 | an unknown field at any field boundary leaves value or rejection as it was |
| RoundTrips.RecordIgnoresUnknown | agent/proto/grpc.pb.go:2200-2215 | the same |
| RoundTrips.PackagedIgnoresUnknown | agent/proto/grpc.pb.go:1955-1970 | the same |
| RoundTrips.PayloadIgnoresUnknown | agent/proto/grpc.pb.go:2223-2399 | the same behind any part that is accepted on its own |
| Overruns.PayloadIgnoresUnknownExactly | agent/proto/grpc.pb.go:2263-2380 | at every field boundary of a message of fewer than 150 keys, and in any message if no key reaches beyond: every unknown field can be inserted if and only if no tag or length is cut off there, no key reaches beyond and every value reaching beyond is written again, or the rest is rejected anyway |
| Overruns.PayloadIgnoresUnknownByOpenings | agent/proto/grpc.pb.go:2263-2380 | in any message, if strings reach one byte beyond the boundary: if and only if the writes in front come to the same with each of the 150 bytes an unknown field can begin with |
| Overruns.OpenKeyNeedsKeys | agent/proto/grpc.pb.go:2290-2330 | if a key reaches beyond the boundary, an insertion is harmless only in a message of 150 keys or more |
| Overruns.FewKeysIsSharp | agent/proto/grpc.pb.go:2290-2330 | a message of just 150 keys in which a key reaches beyond a boundary and no insertion there is noticed |
| Overruns.UndisturbedIgnoresUnknown | agent/proto/grpc.pb.go:2263-2380 | the sufficient half, for messages of any length |
| Overruns.PayloadIgnoresUnknownByWrites | agent/proto/grpc.pb.go:2263-2380 | at every field boundary, with the rest accepted: if and only if nothing is cut off there and the writes of the entries in front come to the same message whatever is inserted |
| Overruns.OpenKeyShows | agent/proto/grpc.pb.go:2290-2330 | if a key reaches beyond the boundary, an insertion is harmless only if every key it could become is in the message |
| Overruns.CoveredKey | agent/proto/grpc.pb.go:2290-2330 | and then it can be harmless |
| RoundTrips.OverrunningEntry | agent/proto/grpc.pb.go:2290-2365 | a message whose entry reads beyond its end, so that an inserted field changes the value |
| RoundTrips.OverwrittenOverrun | agent/proto/grpc.pb.go:2290-2365 | a message whose entry reads beyond its end and which an inserted field does not change |
| Receive.Plugin.ReadVarint | agent/plugin/protocol.go:14-32 | the stream reader decodes like the generated code and takes exactly the varint's bytes |
| Receive.Plugin.ReceiveData | agent/plugin/plugin.go:73-130 | the frame decoder does what the specification says, with its counters, whatever the pooled record held |
| Receive.ReceivesFrame | agent/plugin/plugin.go:73-130 | for every Record with nonzero type and stamp and a payload: exactly 4 + l bytes are taken, and type, stamp and payload bytes are the Record's |
| Receive.FrameExactly | agent/plugin/plugin.go:73-130 | on any stream with two varints and the tags around them: what is taken, what the record holds, and which error or panic comes when |
| Receive.FrameFails | agent/plugin/plugin.go:73-103 | and on any other stream it fails, with an overflow exactly if it meets a varint of more than ten bytes |
| Receive.WithoutPayload | agent/plugin/plugin.go:105-130 | a Record without payload takes the first byte of the next frame with it and leaves the pooled data in the record |
| Receive.ShortFrameBytes | agent/plugin/plugin.go:74-75 | what a frame of fewer than 256 bytes looks like |
| Bytes.LittleEndian | agent/plugin/plugin.go:74-75 | the greater length has the greater bytes, the last counting most, and every four bytes are those of the word read |
| Receive.AgreesWithUnmarshal | agent/plugin/plugin.go:73-130 | the generated decoder gives the same type, stamp and payload |
| Receive.ReMarshal | agent/plugin/plugin.go:73-130 | marshalling the received record reproduces the Record's bytes exactly if there are payload bytes |
| Receive.EndToEnd | agent/proto/grpc.proto:5-28 | a Record framed, received, packaged, marshalled and unmarshalled is the Record that was sent |
| DnsSwitch.TooMuchExactly | driver/LKM/src/smith_hook.c:2037-2040 | off exactly above 800 probe calls or 80000 packets a second over more than ten seconds, counted modulo 2^32, or with a counter at 2^31 or more |
| DnsSwitch.QuietExactly | driver/LKM/src/smith_hook.c:2058-2060 | and quiet exactly below 80000 packets a second over more than twenty, with the counter below 2^31 |
| DnsSwitch.SwitchesByTraffic | driver/LKM/src/smith_hook.c:2033-2072 | in every run, window by window: a tick within the interval changes nothing, and one behind it closes the window, starts the counters anew and switches the probe exactly as the traffic in the window calls for |
| DnsSwitch.Switch.Kretprobe | driver/LKM/src/smith_hook.c:2033-2049 | the probe goes off exactly under the load condition, and a window that was long enough ends |
| DnsSwitch.Switch.TrySwitch | driver/LKM/src/smith_hook.c:2052-2072 | the probe comes on exactly when it is quiet and registering succeeds |
| DnsSwitch.Switch.Tick | driver/LKM/src/smith_hook.c:2205-2235 | one round does what the traffic since the window began calls for, and armed stays the registration state |
| DnsSwitch.Run | driver/LKM/src/smith_hook.c:2205-2235 | in every run the changes are those the traffic calls for; enables and disables alternate, a disable more than 10 s after the enable, an enable more than 20 s after the disable |
| QName.GetDnsQuery | driver/LKM/include/util.h:324-342 | every string is spelled into the buffer and the last byte stays NUL |
| QName.ProcessDns | driver/LKM/src/smith_hook.c:1687-1702 | the length limits, and a NUL-terminated name |
| QName.WellFormedName | driver/LKM/include/util.h:324-342 | every well-formed QNAME comes out as its labels joined by dots |
| CpuScan.NextWrap | driver/LKM/src/trace.c:131-148 | the next CPU of the cyclic order, or the end |
| CpuScan.EachOnce | driver/LKM/src/trace.c:131-148 | the order has every set CPU exactly once, going around from start |
| CpuScan.FindNextEntry | driver/LKM/src/trace.c:150-194 | a readable CPU exactly if there is one, and of all readable ones the one the fewest steps behind the last one read |
| CpuScan.LastComesLast | driver/LKM/src/trace.c:160-172 | the CPU read last comes again only if no other is readable |
| CpuScan.NoneStarves | driver/LKM/src/trace.c:160-172 | a CPU that stays readable is read within as many calls as there are CPUs |
| FrameStream.Client.OnData | rasp/node/client.js:58-75 | the payloads of all complete frames in order, and exactly the incomplete rest is kept |
| FrameStream.ChunksDoNotMatter | rasp/node/client.js:58-75 | however the stream is cut, the same payloads and the same rest |
| FrameStream.BigEndian | rasp/node/client.js:65 | the greater length has the greater header, its first byte counting most |
| FrameStream.BigEndianWritten | rasp/node/client.js:94-100 | and so has the one that is written |
| FrameStream.WriteRead | rasp/node/client.js:94-100 | every header is the one written for the length it is read as |
| FrameStream.ShortFrame | rasp/node/client.js:94-100 | what a frame of fewer than 256 bytes looks like |
| FrameStream.Inverts | rasp/node/client.js:94-100 | the framing of postMessage is inverted, and an unfinished frame stays |

## Left out

- MaskNode.AddEntryAt: where the memmove at filter.c:261 would leave the buffer, which it reports, only the live bytes are moved.
- MaskNode.FindSegment: mask_strstr does not advance in its loop; it is modelled as the one comparison it makes, which is proved to match.
- Overruns.PayloadIgnoresUnknownExactly: for messages shorter than 8 GiB, where a cut length varint can be completed to a length beyond the message.
- Overruns.PayloadIgnoresUnknownByWrites: for strings that reach two bytes or more beyond a boundary of a message of 150 keys or more, a key among them, the condition compares the writes for every inserted field.
- HeadProtocol has one writer: writers that interrupt one inside tb_handle_head_page are not interleaved with the reader.
- Varint.ReadVarint: OR-ing seven shifted bits into a word is written as an addition, and the copies of the decoding loop inlined in each Unmarshal are one method.
- DnsSwitch.Run: calls and packets counted while the worker is at a tick, which its reset of the counters loses, count for no window.
- HeadProtocol and NestedCommit are sequentially consistent: compiler and memory barriers are taken as placed.
- NestedCommit keeps lengths and positions but no bytes or time stamps: stamps under nested writers are approximate by design.
- Trace pages are values in a sequence field of the class, not separate heap objects; the `struct list_head` links are indices.
- Non-overwrite mode, page resizing, wait queues, wake-ups, the 32-bit time helpers and the byte counters of trace_buffer.c.
- Payloads that JSON.parse rejects in client.js, and the sockets there.
- The rebalancing of the red-black trees in filter.c (the trees are plain ordered search trees, as values), its locks, and path resolution in device_write.
- Commands, tasks, configurations and uploads in grpc.pb.go: further messages of the same shapes.
- UTF-8: strings are byte sequences, as the generated code treats them.
- The IPv6 instance of the DNS switch, which is the same code; the kprobe handlers around it.
- The collectors, the other runtime probes, the server side and the deployment scripts.
