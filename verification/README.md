# webTOS: a verified model of the operating-system layer

webTOS runs Linux x86-64 programs over an interpreter. This project models the layer above the
interpreter, where the state machines are, and proves what that layer is for. The CPU is an
opaque snapshot and the MMU a map of page frames.

- **Demand paging** (`Chunks`, `Mappings`, `DemandPager`, `LazyMachine`, `MemoryCalls`, `Tickets`,
  `RestartableRead`). Guest memory built on demand from content-addressed chunks equals memory
  loaded eagerly, over every run of mapping edits, forks, faults and arrivals in which pager and
  hardware hear the same of every edit, with the exact condition for each edit. Late completions
  are refused exactly when they are stale. A suspended read ends as an unsuspended one would.
- **Tasks** (`Scheduler`, `Waits`, `Signals`). Saved address spaces are exact over every run, exactly
  who is released by whose end, exactly when the machine idles, and each signal return restores its
  own delivery.
- **Filesystem** (`VfsLinks`, `VfsTree`, `Paths`, `Reclaiming`, `VfsStore`, `VfsCodec`, `VfsImage`).
  What a path means, link counts over every run, what reclamation frees and what it may not, and the
  binary image: restored if and only if it fits.
- **Descriptors** (`Pipes`, `PipeSlots`, `PipeRuns`, `Epoll`). Pipe counts across shared tables and
  shared descriptions, and edge-triggered reporting against its full history.
- **Manifest** (`Text`, `Manifest`, `ManifestBuilder`). One spelling per manifest, and exactly
  which builder outputs the parser accepts.
- **Snapshots** (`Bytes`, `SnapshotSlots`). Two slots that behave as one indestructible cell.
- **Network** (`NetCalls`, `Replay`, `NetBroker`). Exactly which sessions replay faithfully, a
  budget that holds, and streams that lose nothing.
- **SHA-256 streaming** (`Digest`), against sections 5.1.1 and 6.2.2 of FIPS 180-4.

Code that updates state in place is modelled by classes and methods with loops. Each is proved
against a function of the old state, and the lemmas are about those functions and their runs.

## Where the code differs from what one might expect

These are results about the code as it is, each with the exact condition under which it behaves.

- An unmap that reaches the end of the address space drops the whole table of the space and its
  generation. Memory the hardware holds outside the range stays, and file memory not yet brought in
  is lost (`LazyMachine.OverflowLosesFile`); nothing is lost exactly under the condition of
  `LazyMachine.UnmapKeepsOthersIff`. A stale page request can come alive again
  (`Tickets.OverflowRevivesTicket`); when is `Tickets.DroppedRevives`. When a completion is accepted at
  all is `Tickets.TicketSafety` before a delivery has settled the request, `Tickets.SettledStays` after.
- A change of permission that ends with the address space reaches the hardware and not the table
  (`LazyMachine.TopProtectForgotten`, `LazyMachine.ProtectsIff`).
- `munmap` and `mprotect` do not check that their address is aligned, and over a hole they change the
  hardware, fail, and do not tell the pager (`MemoryCalls.FailedUnmapHaunts`,
  `MemoryCalls.FailedProtectExposes`, `MemoryCalls.UnalignedUnmapTears`). When they stay in tune is
  `MemoryCalls.MunmapInTuneIff` and `MemoryCalls.MprotectInTuneIff`.
- A futex waiter that the idle warp brings to its deadline is not told that it timed out
  (`Scheduler.WarpedFutexIsNotTold`). Any other waiter is told exactly when it is past its deadline
  (`Scheduler.FutexToldIff`).
- `exit_group` drops the other threads of its group without firing the vfork flag one of them may
  carry, so a vfork parent whose child is ended by another of the child's threads waits for good
  (`Waits.ParentStranded`, `Waits.ReleasedOrStrandedForGood`). Every other end of the child releases it
  (`Waits.VforkParentReleasedIff`).
- A rename between two names of one file leaves its link count one too high, for good
  (`VfsTree.RenameLeak`, `VfsTree.MergedNeverReclaimed`). Counts are exact if and only if no such
  rename happened (`VfsTree.LinksAreNames`).
- A snapshot of 2^32 bytes or more is saved and never seen again, and as a first save it takes the
  old snapshot with it (`SnapshotSlots.SavedIffFits`, `SnapshotSlots.OversizedFirstSave`).
- The manifest tool accepts guest prefixes and chunk sizes whose output the parser then refuses
  (`ManifestBuilder.BuilderAccepted`, `ManifestBuilder.DeepPrefixRefused`).
- `epoll_wait` marks edges as delivered before it stores them. One that found no room in the list,
  or whose list could not be stored, is lost: the retry, after a fault or a page-in, finds nothing
  (`Epoll.FullListLosesEdge`, `Epoll.FailedStoreLosesEdge`). An edge reaches the guest exactly when
  there is room and the list is stored (`Epoll.ReportedIffRoomAndStored`, `Epoll.EdgeLostIff`).
- Replay answers every send in full, finds everything ready and knows no local address. It is
  faithful exactly for sessions that were so live (`Replay.ReplayFaithful`, `Replay.GuestReplaysIff`),
  which a short send is not (`Replay.ShortSendReplaysFull`). As long as no send and
  no datagram receive failed, it is wrong at exactly the other calls (`Replay.ReplayFaithfulAt`).

## Model

| member | source | states |
|---|---|---|
| Chunks.NewFile | crates/linux-compat/src/chunk.rs:32-60 | A layout is accepted if and only if the chunk size is a positive multiple of 4096 and the hash count is exactly what the size needs, the empty file included |
| Chunks.ChunkArithmetic | crates/linux-compat/src/chunk.rs:32-71 | Counting chunks one by one agrees with the quotient, remainder and ceiling division of the source |
| Chunks.ChunkAt | crates/linux-compat/src/chunk.rs:63-71 | The chunk at an offset exists exactly inside the file, and its range holds the offset |
| Chunks.ContentsAt | crates/linux-compat/src/chunk.rs:63-71 | Byte i of the whole file is the byte of the chunk that holds i, at its place in that chunk |
| Chunks.ReadRefinesContents | crates/linux-compat/src/chunk.rs:122-154 | A read of any range over partly arrived chunks gives exactly min(length, size - offset) bytes of the whole file from the offset, none past its end, or names an absent chunk that it touches; it is ready if and only if all of those are here; it is never invalid |
| Chunks.TouchedIs | crates/linux-compat/src/chunk.rs:122-154 | A read touches a chunk if and only if the ranges of the two overlap |
| Chunks.ReadIsStable | crates/linux-compat/src/chunk.rs:122-154 | Chunks that arrive later never change an answer already given |
| Chunks.VerifiedAgrees | crates/linux-compat/src/chunk.rs:91-98 | A store whose every chunk passed its digest check agrees with the image wherever digests are binding |
| Chunks.ChunkStore.PutChunk | crates/linux-compat/src/vfs.rs:170-176 | A chunk enters only if the budget has room for a new one and its digest matches; a known hash is stored once |
| Chunks.BudgetKept | crates/linux-compat/src/vfs.rs:170-176 | After any arrivals what is held is what those that entered take up, and is within the budget if it was; an arrival enters if and only if it is new, has the right digest and fits in what is left, and one already here is accepted without room |
| Chunks.ChunkStore.Insert | crates/linux-compat/src/chunk.rs:91-98 | The digest decides whether a chunk enters the store |
| Chunks.ChunkStore.ReadFrom | crates/linux-compat/src/chunk.rs:122-154 | The copying loop, chunk by chunk, is the read of `ReadRefinesContents`, for every store and range |
| Mappings.NewMapping | crates/linux-compat/src/pager.rs:55-90 | A mapping is made if and only if its range is page aligned, not empty, in the address range, and its file part lies inside mapping and file |
| Mappings.Clipped | crates/linux-compat/src/pager.rs:96-115 | The part of a mapping inside a range: none if they miss, otherwise well formed, with file offset moved along |
| Mappings.ClippedLoads | crates/linux-compat/src/pager.rs:96-115 | A clipped mapping loads exactly what the whole mapping loads, inside its range and nowhere else |
| Mappings.UnmapView | crates/linux-compat/src/pager.rs:364-389 | For every mapping table: unmapping removes its range from the eager memory and changes no byte outside it |
| Mappings.ProtectView | crates/linux-compat/src/pager.rs:391-417 | For every table: protecting changes permissions inside its range and nothing else anywhere |
| Mappings.RemapView | crates/linux-compat/src/pager.rs:419-507 | For every table: moving translates the copied part byte for byte, continues the file in a grown tail, empties the old range and leaves every other address alone |
| Mappings.LastMappingGoverns | crates/linux-compat/src/pager.rs:194-204 | Permission and provenance of a byte are those of the last mapping that has it |
| Mappings.RemapKeepsWellFormed | crates/linux-compat/src/pager.rs:419-507 | A move of any well-formed table to a free range leaves a well-formed table |
| DemandPager.BuildIsEager | crates/linux-compat/src/pager.rs:260-320 | A page built from the touching mappings in order equals the eager memory byte for byte with the last permission, whichever chunks are here; a page that cannot be built names an absent chunk of a mapped file |
| DemandPager.ApplyIsLoad | crates/linux-compat/src/pager.rs:262-292 | One mapping applied to a page buffer does to each byte what the eager loader does, for every page, store and buffer |
| DemandPager.FaultPage | crates/linux-compat/src/pager.rs:213-258 | The page a fault is about is mapped and not resident; which one it is, and when there is none, is `LazyMachine.FaultIsRepairedIff` |
| DemandPager.Pager.Target | crates/linux-compat/src/pager.rs:213-258 | The method picks that page and returns exactly the mappings that touch it |
| DemandPager.Pager.Resolve | crates/linux-compat/src/pager.rs:206-326 | State and answer are those of `Resolved`, whose page, bytes, permission and request the lemmas of `LazyMachine` give |
| DemandPager.FillPage | crates/linux-compat/src/pager.rs:260-320 | The loop over mappings, filling one buffer in place, builds the specified page or stops at the specified chunk |
| DemandPager.ApplyInPlace | crates/linux-compat/src/pager.rs:262-292 | One mapping written into the buffer in place is the specified application |
| DemandPager.Pager.Map | crates/linux-compat/src/pager.rs:143-147 | Appends a mapping and moves the generation on |
| DemandPager.Pager.PageState | crates/linux-compat/src/pager.rs:194-204 | Residency, and the permission of the last touching mapping; none for an ungoverned page |
| DemandPager.Pager.NonresidentPages | crates/linux-compat/src/pager.rs:171-190 | The loop over pages lists exactly the governed pages of the range that are not resident, in order |
| DemandPager.Pager.MarkResident | crates/linux-compat/src/pager.rs:328-338 | Marks one page and nothing else |
| DemandPager.Pager.Complete | crates/linux-compat/src/pager.rs:343-362 | A completion fills the store only as specified: matching ticket, current generation, governed page, digest and budget; a stale one is dropped |
| DemandPager.Pager.Unmap | crates/linux-compat/src/pager.rs:364-389 | Table, residency and generation after an unmap are the specified ones, overflow included |
| DemandPager.KeepOutside | crates/linux-compat/src/pager.rs:364-389 | The split-and-keep loop over the table, in order, gives the specified table |
| DemandPager.Pager.Protect | crates/linux-compat/src/pager.rs:391-417 | Table and generation after a change of permission are the specified ones |
| DemandPager.Recolour | crates/linux-compat/src/pager.rs:391-417 | The split-and-recolour loop over the table, in order, gives the specified table |
| DemandPager.Pager.Remap | crates/linux-compat/src/pager.rs:419-507 | The move, with its grown tail, leaves the specified table, residency and generation |
| DemandPager.Partition | crates/linux-compat/src/pager.rs:440-460 | Splits a table at a range into what stays and what moves |
| DemandPager.Pager.ForkSpace | crates/linux-compat/src/pager.rs:509-520 | The child gets the table, the generation and the residency of its parent |
| DemandPager.Pager.DropSpace | crates/linux-compat/src/pager.rs:522-527 | The space is forgotten, generation and residency with it |
| LazyMachine.UnmapSteps | crates/linux-compat/src/pager.rs:364-389 | One unmap that ends below the end of the address space keeps the invariant and changes the guest view as the eager machine does |
| LazyMachine.OverflowView | crates/linux-compat/src/pager.rs:364-368 | One that reaches the end, byte by byte: its range goes if the hardware can unmap it, and of the rest of the space what is in a frame stays and what is not is lost |
| LazyMachine.UnmapKeepsOthersIff | crates/linux-compat/src/pager.rs:364-389 | For every state: an unmap leaves value and permission of every byte outside its range as they were if and only if it ends below the end of the address space or every governed page outside the range is in a frame; inside the range nothing is left |
| LazyMachine.OverflowLosesFile | crates/linux-compat/src/syscall.rs:2570-2574 | Counterexample, as a run: map any file below the last page, unmap the last page, and the memory of the file is gone |
| LazyMachine.ProtectsIff | crates/linux-compat/src/syscall.rs:2780-2797 | For every state: a change of permission takes effect on its range and nowhere else if and only if it does not end at the end of the address space or every governed page of the range is in a frame or has the permission already |
| LazyMachine.TopProtectForgotten | crates/linux-compat/src/pager.rs:391-394 | Counterexample, as a run: map any file, protect everything from there to the end of the address space, and a fault still brings it in with its old permission |
| LazyMachine.RemapSteps | crates/linux-compat/src/pager.rs:419-507 | A move of pages the pager knows: bytes, permissions and residency of every moved, kept and new page are those of the eager machine |
| LazyMachine.LooseMoved | crates/linux-compat/src/syscall.rs:2765-2775 | A moved page that has lost its table keeps its bytes and becomes writable data, whatever it was |
| LazyMachine.ForkSteps | crates/linux-compat/src/pager.rs:509-520 | The same for a fork: the child view equals the parent view |
| LazyMachine.FaultSteps | crates/linux-compat/src/pager.rs:206-338 | The same for a fault: bringing a page in changes nothing the guest can see |
| LazyMachine.ArrivalSteps | crates/linux-compat/src/pager.rs:343-362 | The same for an arriving chunk |
| LazyMachine.RunKeepsInv | crates/linux-compat/src/pager.rs:143-527 | Over every run, edits at the end of the address space included: the tables stay well formed, every page the pager knows as resident is in a frame, and a frame is governed by a mapping if and only if the pager knows it |
| LazyMachine.LazyRefinesEager | crates/linux-compat/src/pager.rs:143-527 | After every run of map, unmap, protect, move, fork, exec, write, fault and delivery, in any order of arrivals, whose edits at the end of the address space lose nothing and whose moves take no page that lost its table: guest memory has the value and the permission that the machine that loads eagerly and skips faults and deliveries has, and is the same cell wherever the page has not lost its table |
| LazyMachine.PlainRunsAreExact | crates/linux-compat/src/pager.rs:143-527 | Where no edit of the run reaches the end of the address space no such guard is needed, and the two memories are the same |
| LazyMachine.FramesShowEager | crates/linux-compat/src/pager.rs:206-338 | Every byte in a hardware frame after such a run, of pages that lost their table too, is the eager byte with the eager permission |
| LazyMachine.FaultRefinesEager | crates/linux-compat/src/pager.rs:206-326 | A fault after such a run brings in the eager bytes and permission, or asks for an absent chunk of the image; it is refused only while another request is pending, and left to others only if the eager page is in a frame or absent and no granted access straddles from it into a page that is not |
| LazyMachine.FaultIsRepairedIff | crates/linux-compat/src/pager.rs:213-258 | In every reachable state a fault is left to others if and only if its page is not cold, that is eagerly present and not resident, and it is no access that both sides grant and that straddles from a resident page into a cold one; what is brought in or asked for is the cold page of the two |
| LazyMachine.AskedOnce | crates/linux-compat/src/pager.rs:293-316 | A fault that finds a chunk absent leaves exactly its request pending, and the same fault again gets the same request and changes nothing |
| LazyMachine.FaultBringsView | crates/linux-compat/src/pager.rs:206-326 | A page that a fault brings in shows exactly the promised memory |
| MemoryCalls.MunmapInTuneIff | crates/linux-compat/src/syscall.rs:538-563 | For every state: munmap keeps pager and hardware in tune if and only if, when the range has no hole, its address is aligned or in a page the pager does not govern, and, when it has one, no byte of it is in a governed page |
| MemoryCalls.MprotectInTuneIff | crates/linux-compat/src/syscall.rs:2780-2797 | For every state: mprotect keeps them in tune if and only if, when the range has no hole, its address is aligned or neither page it cuts is resident with another permission, and, when it has one, every governed byte above the last hole has the permission already |
| MemoryCalls.FailedProtectExposes | third_party/icicle/icicle-mem/src/mmu.rs:574-620 | Counterexample: mprotect over a hole just below a page not yet brought in fails and leaves that page readable, so that the guest never faults for its bytes |
| MemoryCalls.FailedUnmapHaunts | crates/linux-compat/src/syscall.rs:538-563 | Counterexample: munmap over a hole just above a governed page fails, the page is gone and the pager still governs it, so a host copy into memory put there fails by the old permission |
| MemoryCalls.UnalignedUnmapTears | crates/linux-compat/src/syscall.rs:547-550 | Counterexample: munmap from the middle of a governed page leaves the page to the pager and half of it to the hardware |
| MemoryCalls.UnmappedGoverns | crates/linux-compat/src/pager.rs:364-389 | After an unmap of any range, aligned or not, a page is governed if and only if it was and its first byte is outside |
| MemoryCalls.ProtectedGoverns | crates/linux-compat/src/pager.rs:391-417 | After a change of permission of any range a page is governed if and only if it was, with the new permission if and only if its first byte is inside |
| Tickets.TicketSafety | crates/linux-compat/src/pager.rs:293-362 | After every run since a request, overflowing unmaps, exec and refused deliveries included, as long as no delivery of its ticket has settled it: a completion is accepted if and only if ticket, digest and budget are right, the table has the generation of the request, and the page is still mapped. The generation is counted from the operations: kept with its edits, gone, or started again |
| Tickets.SettledStays | crates/linux-compat/src/pager.rs:343-362 | After every run, a settled ticket is accepted again if and only if a whole number of cycles of 2^64 - 1 new requests has brought the counter round to it, and then for the request that has it now |
| Tickets.StaleChangesNothing | crates/linux-compat/src/pager.rs:343-362 | After every run, a completion for a table that has lost the generation, or for a settled ticket short of a full cycle of requests, leaves the chunk store as it was |
| Tickets.EditsMakeStale | crates/linux-compat/src/pager.rs:143-147 | While the table is not dropped, any number of edits short of 2^64 - 1 makes a request stale |
| Tickets.DroppedRevives | crates/linux-compat/src/pager.rs:364-389 | A dropped table makes every request stale; mapping again revives a request of generation g if and only if the edits after that mapping are g - 1 in number, up to whole cycles |
| Tickets.RequestIsCurrent | crates/linux-compat/src/pager.rs:293-316 | Every new request of every run is about the current generation |
| Tickets.GenerationRepeats | crates/linux-compat/src/pager.rs:143-147 | A generation comes round again exactly every 2^64 - 1 edits |
| Tickets.OverflowRevivesTicket | crates/linux-compat/src/pager.rs:364-389 | Counterexample: an unmap past the end of the address space drops the table with its generation, and mapping again revives a stale request |
| RestartableRead.ReadIsRestartable | crates/linux-compat/src/syscall.rs:881-965 | However often a regular-file read is suspended and replayed, it ends with min(count, 4 MiB, size - offset) bytes of the file, that count, the offset moved by it and no other memory changed, as one read on a fully resident image; useful deliveries are no more than the absent chunks it touches |
| RestartableRead.ReadFinishes | crates/linux-compat/src/syscall.rs:881-965 | Once every chunk the call touches is here, the next attempt ends it |
| RestartableRead.AttemptEnds | crates/linux-compat/src/syscall.rs:1056-1078 | One attempt either ends the call with that count, those bytes and that offset, or leaves memory and offset alone and asks for a chunk that the call needs |
| RestartableRead.DataCount | crates/linux-compat/src/syscall.rs:4453-4517 | What a read transfers is min(count, 4 MiB, size - offset) bytes, and none from the end on |
| RestartableRead.DeliveryBrings | crates/linux-compat/src/lib.rs:1495-1528 | An answer that the store accepts ends the wait its ticket is for and the chunk is there; any other changes nothing; a chunk the host adds on its own is there too |
| RestartableRead.FileTicketIs | crates/linux-compat/src/lib.rs:653-657 | A file ticket has the top bit set over the counter |
| RestartableRead.TouchMeetsSpec | crates/linux-compat/src/syscall.rs:42-99 | Touching a range brings in all of its governed pages, or stops at the first page that lacks permission or a chunk, and changes no byte |
| RestartableRead.PokeAllBytes | crates/linux-compat/src/syscall.rs:116-126 | The copy changes exactly the bytes of the buffer |
| RestartableRead.CopyOut | crates/linux-compat/src/syscall.rs:1056-1078 | After the whole buffer has been touched, the copy can neither fail nor suspend |
| RestartableRead.ReadEnv.HostTouch | crates/linux-compat/src/syscall.rs:42-99 | The page loop computes the specified touch |
| RestartableRead.ReadEnv.WriteMem | crates/linux-compat/src/syscall.rs:116-119 | Touches the range, then stores, or reports the fault or the wait |
| RestartableRead.ReadEnv.WriteRaw | crates/linux-compat/src/syscall.rs:122-126 | The byte loop computes the specified store |
| RestartableRead.ReadEnv.OutcomeRead | crates/linux-compat/src/syscall.rs:4453-4517 | One attempt of read(2), in place, is the attempt of `AttemptEnds` |
| Scheduler.FindReady | crates/linux-compat/src/proc.rs:409-431 | The task found can run and none before it in the queue can; when none is found, none can |
| Scheduler.EarliestDeadline | crates/linux-compat/src/proc.rs:472-493 | The least deadline of a task that is not stopped, or none |
| Scheduler.DeadlineWakes | crates/linux-compat/src/proc.rs:438-467 | A task that is not stopped and whose deadline has come can run |
| Scheduler.WarpWakes | crates/linux-compat/src/syscall.rs:5228-5303 | An idle warp lands exactly on the earliest deadline of an unstopped task (or stays, when that has passed), never overflows, and leaves a task to run |
| Scheduler.StallKeeps | crates/linux-compat/src/syscall.rs:5228-5303 | Resolving a stall changes flags, sources and the clock only, and guest time does not go back |
| Scheduler.SwitchKeeps | crates/linux-compat/src/syscall.rs:3108-3156 | A switch finds the address space it needs, keeps the invariant, and leaves the memory of every live group as it was |
| Scheduler.ScheduleKeeps | crates/linux-compat/src/syscall.rs:3108-3208 | The same for a whole scheduling decision, stall resolution included |
| Scheduler.ExitKeeps | crates/linux-compat/src/syscall.rs:3589-3662 | An exit removes tasks of its own group only and keeps the saved spaces exact |
| Scheduler.KillAllKeeps | crates/linux-compat/src/syscall.rs:5124-5168 | SIGKILL of any targets removes their tasks and dead address spaces, and no other |
| Scheduler.StepKeeps | crates/linux-compat/src/syscall.rs:3096-3208 | Every step keeps the saved spaces exact, never finds one missing, and never takes time back; every live group keeps its memory but for the running instructions and the thread ids that clone and exit store, and a forked group starts as the copy with its id stored |
| Scheduler.RunKeeps | crates/linux-compat/src/syscall.rs:3096-3208 | Over every run of clone, park, schedule, exit and kill the saved address spaces are exactly the groups of parked tasks minus the one in the MMU, so the missing-space branch is unreachable and no dead group is kept; time never goes back |
| Scheduler.FutexToldIff | crates/linux-compat/src/syscall.rs:3108-3162 | For every schedulable state: a futex waiter that nobody woke and that is switched in is told of its timeout if and only if its deadline had come before the stall was resolved; that is right unless the warp itself brought the clock to the deadline |
| Scheduler.ReadyFutexIsTold | crates/linux-compat/src/syscall.rs:3108-3162 | A waiter that was ready without a stall is told exactly when it is past its deadline |
| Scheduler.WarpedFutexIsNotTold | crates/linux-compat/src/syscall.rs:3108-3162 | Counterexample: a lone futex waiter is switched in by the warp with the clock at its deadline, and is not told |
| Scheduler.LinuxEnv.FirstReady | crates/linux-compat/src/proc.rs:409-431 | The search loop computes the specified choice |
| Scheduler.LinuxEnv.Earliest | crates/linux-compat/src/proc.rs:472-493 | The loop over waits and timers computes the earliest deadline |
| Scheduler.LinuxEnv.Stall | crates/linux-compat/src/syscall.rs:5228-5303 | State and result are those of `ResolveStall`: input first, then the quiet machine |
| Scheduler.LinuxEnv.StallQuiet | crates/linux-compat/src/syscall.rs:5244-5303 | State and result are those of `ResolveQuiet`: the network, then the warp |
| Scheduler.LinuxEnv.Schedule | crates/linux-compat/src/syscall.rs:3108-3208 | The state and the choice are those of `ScheduleNext`: the first ready task, else what resolving the stall finds, else none |
| Scheduler.LinuxEnv.Place | crates/linux-compat/src/syscall.rs:3108-3156 | The chosen entry leaves the queue and the address spaces are swapped exactly as `SwitchTo` says, or the missing space is reported |
| Scheduler.LinuxEnv.Park | crates/linux-compat/src/syscall.rs:3096-3104 | The running task joins the end of the queue |
| Scheduler.LinuxEnv.BlockAndSwitch | crates/linux-compat/src/syscall.rs:3387-3395 | Park, then hand over the CPU |
| Scheduler.LinuxEnv.CloneTask | crates/linux-compat/src/syscall.rs:4118-4237 | The new state is that of a clone: who the new task is, is said by `Waits.NewTaskIs`, where its id is stored by `Waits.CloneStores`; a vfork parent is parked; memory of every other group is kept |
| Scheduler.LinuxEnv.TaskExit | crates/linux-compat/src/syscall.rs:3589-3662 | The new state is that of an exit and then a hand-over: what it fires, reports, clears and releases is said by `Waits.StepFollows`, `Waits.ExitAnswersWait` and `Waits.ExitClears`; memory of every other group is kept |
| Scheduler.LinuxEnv.KillTarget | crates/linux-compat/src/syscall.rs:5138-5165 | The removal loop over the queue is the kill of one group, as `Waits.KillAllFrees` says it |
| Scheduler.LinuxEnv.KillTargets | crates/linux-compat/src/syscall.rs:5124-5168 | The loop over targets is the specified kill of all |
| Waits.StepFollows | crates/linux-compat/src/syscall.rs:3589-3594 | For every step and every vfork flag: it is carried until its carrier execs, exits, is killed or is swept away, and by nobody new but a vfork child; it is fired if and only if it was or its carrier so ends and is not swept away by the group exit of another thread |
| Waits.RunFlags | crates/linux-compat/src/syscall.rs:4203-4237 | Over every run a carried flag is its carrier's own id and not fired, ids are never shared, and every step does that to the flags |
| Waits.VforkParentReleasedIff | crates/linux-compat/src/syscall.rs:3589-3594 | At every step of every run: while the child lives without exec no parent suspended on it can run, whatever its signals; when the child execs, exits or is killed every unstopped one can, if and only if it was not taken by the exit_group of another thread of its group |
| Waits.ReleasedOrStrandedForGood | crates/linux-compat/src/proc.rs:438-467 | A released vfork parent stays so in every later state; one whose flag nobody carries and nobody fired is held in every later state of every run |
| Waits.ParentStranded | crates/linux-compat/src/syscall.rs:3603-3606 | Counterexample, as a run of four steps from the start: a thread of a vfork child calls exit_group, the child is reported, its parent is held and the machine idles |
| Waits.ExitAnswersWait | crates/linux-compat/src/syscall.rs:3607-3631 | The exit of a leader or of a group adds exactly one report, with its group, parent and status, and every unstopped matching wait4 can then run; a thread that ends alone adds none |
| Waits.KillAllFrees | crates/linux-compat/src/syscall.rs:5124-5168 | SIGKILL takes the tasks of the target groups and no other, fires the flags they carried and no other, and reports each of their leaders, with status 9, and no one else |
| Waits.KillAnswersWait | crates/linux-compat/src/syscall.rs:5138-5160 | Every unstopped parent that waits for a killed leader can run |
| Waits.NewTaskIs | crates/linux-compat/src/syscall.rs:4118-4237 | After a clone the next id is one more, and there is a live task with that id: a thread in its creator's group with its creator's parent, a process leading its own group as its creator's child |
| Waits.NewTaskRuns | crates/linux-compat/src/proc.rs:133-200 | A new task can run at once, has no pending signals and blocks what its creator blocks |
| Waits.CloneStores | crates/linux-compat/src/syscall.rs:4139-4201 | Where the new id is stored: a thread's creator sees both words, another creator its own only, and a new process both, in a copy of its creator's memory |
| Waits.CreatorGoesOn | crates/linux-compat/src/syscall.rs:4225-4237 | The creator goes on with the CPU and the registers it had, unless it vforks: then it is parked on its child, to resume with the registers of its answer |
| Waits.ExitClears | crates/linux-compat/src/syscall.rs:3596-3601 | The threads an exit leaves behind find zero where it asked for it and nothing else changed |
| Waits.ResumedBecause | crates/linux-compat/src/syscall.rs:3124-3132 | A task switched in without a stall is told that its condition holds if and only if it does; if it does not, a signal it does not block is pending and it is no vfork wait |
| Waits.IdleIff | crates/linux-compat/src/syscall.rs:5228-5303 | For every state: the machine idles if and only if no task can run as things are, after the keystrokes, and, unless the network is the host's to drive, after its answer and at any later moment |
| Waits.StallRuns | crates/linux-compat/src/syscall.rs:5228-5260 | After a stall the first task that the keystrokes let run is run, else the first that the answer of the polled network lets run |
| Signals.ChooseIs | crates/linux-compat/src/syscall.rs:3980-3998 | For every signal: it is chosen if and only if it is deliverable, has a handler, and every deliverable one below it is discarded; it stops being pending if and only if it is so reached and has a handler or is discarded, so one that kills or stops by default stays and ends the walk |
| Signals.RunKeepsNested | crates/linux-compat/src/syscall.rs:3973-4116 | Over every run the three frame stacks have equal length, the alternate-stack depth counts its frames exactly, and a nonzero depth implies a registered stack |
| Signals.ReturnRestores | crates/linux-compat/src/syscall.rs:4086-4116 | Each sigreturn restores the mask and the CPU of its own delivery, all but the instruction count, whatever nested in between; the alternate stack is back too |
| Signals.FramesKept | crates/linux-compat/src/syscall.rs:3973-4116 | Frames below an open delivery are untouched by everything nested above it |
| Signals.SigReturnIsSteps | crates/linux-compat/src/syscall.rs:4086-4116 | rt_sigreturn is the pop followed by the delivery of the next pending signal |
| Signals.DeliveryBlocks | crates/linux-compat/src/syscall.rs:3973-4081 | A delivery blocks what the handler asks and its own signal, keeps everything blocked before, and takes exactly the deliverable signals up to the one delivered, all before it being discarded ones |
| Signals.FrameBelowRedZone | crates/linux-compat/src/syscall.rs:4033-4063 | A frame on the interrupted stack, or nested on the alternate one, lies wholly below the interrupted frame and its red zone with the return address aligned as the ABI asks, if and only if the stack pointer is at least 528 |
| Signals.FirstAltFrameInside | crates/linux-compat/src/syscall.rs:4033-4063 | After every run the first frame on the alternate stack lies wholly inside the registered stack, aligned likewise |
| Signals.HandlerIsHanded | crates/linux-compat/src/syscall.rs:4033-4076 | The handler gets the addresses of siginfo and ucontext in its second and third argument and a stack pointer at the return address: 128, 256 and 8 bytes, each part under the one before, from the alternate stack's top when it is taken up and from under the red zone otherwise, stopping at zero |
| Signals.DefaultDrops | crates/linux-compat/src/syscall.rs:3690-3698 | Of the signals left to their defaults exactly 17, 18, 23 and 28 are dropped |
| Signals.AltStackTakenIff | crates/linux-compat/src/syscall.rs:3923-3966 | sigaltstack takes a stack if and only if no open frame is on the present one, no unknown flag is set, it has 2048 bytes and ends inside the address space; a refusal changes nothing |
| Signals.SignalState.DeliverSignal | crates/linux-compat/src/syscall.rs:3973-4081 | Masks, frame stacks, alternate-stack depth and CPU after a delivery are those of `Deliver`; an unwritable stack abandons it with the signal taken |
| Signals.SignalState.TakeSignal | crates/linux-compat/src/syscall.rs:3980-3998 | The loop over pending signals computes the choice |
| Signals.SignalState.RtSigReturn | crates/linux-compat/src/syscall.rs:4086-4116 | State after a return is that of `SigReturn`: pop, then deliver what is pending |
| Signals.SignalState.AlternateStack | crates/linux-compat/src/syscall.rs:3923-3965 | A stack is registered, disabled or refused as `SigAltStack` says; never while a handler runs on it |
| Digest.ZeroCountIs | crates/linux-compat/src/digest.rs:84-104 | The padding length is the least that ends on a block boundary, as section 5.1.1 of FIPS 180-4 asks |
| Digest.PaddedIs | crates/linux-compat/src/digest.rs:84-104 | The padded message is the message, the byte 0x80, fewer than 64 zeros, and the bit length modulo 2^64 as eight bytes, most significant first |
| Digest.BigEndianAt | crates/linux-compat/src/digest.rs:96-98 | Byte i of a big-endian word is the digit of its place in base 256 |
| Digest.FoldConcat | crates/linux-compat/src/digest.rs:58-82 | Folding the compression over two runs of blocks is folding it over their concatenation |
| Digest.Sha256.Update | crates/linux-compat/src/digest.rs:58-82 | After any update the object has absorbed the message so far: state, buffer and bit count are exact |
| Digest.Sha256.TopUp | crates/linux-compat/src/digest.rs:60-75 | A part-full buffer is filled first and compressed exactly when full |
| Digest.Sha256.Absorb | crates/linux-compat/src/digest.rs:76-82 | Whole blocks are compressed in order and the remainder is buffered |
| Digest.Sha256.Finish | crates/linux-compat/src/digest.rs:84-104 | The digest is the compression folded over the padded message of `PaddedIs`, length field included |
| Digest.HashPieces | crates/linux-compat/src/digest.rs:152-156 | However a message shorter than 2^64 bits is cut into pieces, the digest is that of the whole message so padded |
| SnapshotSlots.RoundTrip | web/worker.js:115-137 | An encoded snapshot decodes to itself if its payload is shorter than 2^32 bytes, and to nothing otherwise |
| SnapshotSlots.PrefixDecodes | web/worker.js:126-137 | A strict prefix of an encoding decodes if and only if it stops at the length its 32-bit word has and the digest of that part is the digest of the whole; never for a payload shorter than 2^32 bytes |
| SnapshotSlots.SaveKeeps | web/worker.js:165-191 | One save of a payload of any length, completed or interrupted anywhere, does to what is read what it does to a single indestructible cell |
| SnapshotSlots.CrashSafe | web/worker.js:115-191 | From any files whatever and after any sequence of completed and interrupted saves of any length, the two slots hold and read as one indestructible cell, whose generation each landed save advances by one until it is spent |
| SnapshotSlots.LastLandedIsRead | web/worker.js:115-191 | So reading gives the payload of the last save that landed, whatever failed after it |
| SnapshotSlots.LastSaveIsRead | web/worker.js:115-191 | For payloads shorter than 2^32 bytes reading gives the payload of the last save that was not interrupted, however many were after it |
| SnapshotSlots.NewestIs | web/worker.js:139-159 | The snapshot that is read is a good one, no other good one is newer, and of two equally new ones it is the first |
| SnapshotSlots.NextSlotIs | web/worker.js:148-151 | A save goes to the slot that is not the newest, and to the first when there is none |
| SnapshotSlots.SavedIffFits | web/worker.js:165-191 | A save that is not refused is read back if and only if its payload is shorter than 2^32 bytes |
| SnapshotSlots.OversizedFirstSave | web/worker.js:185-190 | A longer first save deletes the old single-file snapshot and leaves nothing readable |
| SnapshotSlots.SlotStore.Candidates | web/worker.js:139-146 | The decodable slots, newest first, ties in slot order |
| SnapshotSlots.SlotStore.ReadSnapshot | web/worker.js:155-159 | The newest valid payload, else the old file |
| SnapshotSlots.SlotStore.WriteSnapshot | web/worker.js:165-191 | The files after a save, stopped anywhere, are the specified ones; it is refused exactly when the generation is spent |
| VfsCodec.RoundTrip | crates/linux-compat/src/vfs.rs:929-1135 | Deserializing a serialized tree restores every node and the manifest root if and only if the tree fits the wire widths, its indexes name nodes, its layouts add up and a chunked file has a root |
| VfsCodec.DecodedFits | crates/linux-compat/src/vfs.rs:994-1135 | Whatever bytes it is given, the reader yields only trees that fit the format |
| VfsCodec.PrefixFree | crates/linux-compat/src/vfs.rs:994-1135 | No accepted image, of any version, is a strict prefix of another |
| VfsCodec.CutOrPadded | crates/linux-compat/src/vfs.rs:929-1135 | Every strict prefix and every extension of a serialized image is refused |
| VfsCodec.KindBack | crates/linux-compat/src/vfs.rs:946-988 | Every kind of node is read back from its own encoding, whatever follows |
| VfsCodec.InsertSorted | crates/linux-compat/src/vfs.rs:1066-1076 | Ordered-map insertion keeps entries in strict name order |
| VfsImage.SerializeTree | crates/linux-compat/src/vfs.rs:929-991 | The writing loops produce the specified image |
| VfsImage.SerializeKind | crates/linux-compat/src/vfs.rs:946-988 | One node kind, with its loops over entries and hashes |
| VfsImage.Reader.NextDir | crates/linux-compat/src/vfs.rs:1064-1077 | The entry loop over the cursor is the specified parse |
| VfsImage.Reader.NextChunked | crates/linux-compat/src/vfs.rs:1094-1104 | The hash table is read, split and checked as specified |
| VfsImage.Reader.NextKind | crates/linux-compat/src/vfs.rs:1063-1106 | One node kind from the cursor, unknown tags refused |
| VfsImage.Reader.NextNode | crates/linux-compat/src/vfs.rs:1059-1116 | One node from the cursor |
| VfsImage.Reader.NextNodes | crates/linux-compat/src/vfs.rs:1058-1117 | The node loop over the cursor |
| VfsImage.Restore | crates/linux-compat/src/vfs.rs:994-1135 | The whole restore, on a 32-bit or 64-bit host, accepts and yields exactly what is specified |
| VfsLinks.CreatedTracks | crates/linux-compat/src/vfs.rs:524-557 | Creating keeps every link balance and gives a new node an exact count |
| VfsLinks.LinkedTracks | crates/linux-compat/src/vfs.rs:560-570 | Linking a live node keeps every balance |
| VfsLinks.UnlinkedTracks | crates/linux-compat/src/vfs.rs:574-607 | Unlinking keeps every balance, and queues nodes without links only |
| VfsLinks.RenamedTracks | crates/linux-compat/src/vfs.rs:644-694 | Renaming keeps every balance but that of a node two of whose names it merges, which grows by one |
| VfsLinks.ReleasedTracks | crates/linux-compat/src/vfs.rs:625-640 | Reclaiming empties exactly the queued nodes nobody refers to and touches no directory, no named node and no referenced one |
| VfsLinks.CreateNames | crates/linux-compat/src/vfs.rs:524-557 | The namespace gains exactly one name, free before, for a new node with the asked contents; a refusal leaves it alone; no contents change |
| VfsLinks.LinkNames | crates/linux-compat/src/vfs.rs:560-570 | The namespace gains exactly one name, free before, for the given node; a refusal changes nothing |
| VfsLinks.UnlinkNames | crates/linux-compat/src/vfs.rs:574-607 | The namespace loses exactly that name; a refusal changes nothing; no contents change |
| VfsLinks.RenameNames | crates/linux-compat/src/vfs.rs:644-694 | The new name leads where the old one did, the old one is free unless they are the same, no other name and no contents change; a refusal changes nothing |
| VfsLinks.RenameReparents | crates/linux-compat/src/vfs.rs:683-694 | What was renamed has its new directory for a parent, and no other parent changes |
| VfsLinks.QueuedIsUnnamed | crates/linux-compat/src/vfs.rs:574-607 | A queued node is not a directory and nothing names it |
| VfsLinks.NamedHasLink | crates/linux-compat/src/vfs.rs:601-605 | A named node has a link to lose, so the saturating decrement never saturates |
| VfsTree.ResolveDepth | crates/linux-compat/src/vfs.rs:317-398 | A resolved spot has a directory for its parent, and what it found is an entry of that directory or is a directory itself; which spot it is, is `Paths.ResolvesIff` |
| VfsTree.WalkSplits | crates/linux-compat/src/vfs.rs:317-398 | A path resolves as its front part does, links followed, and then the rest from there; a front part that is missing or not a directory ends it with the right error |
| VfsTree.MadeChain | crates/linux-compat/src/vfs.rs:490-521 | Making a chain of directories keeps the arena sound, on its error paths too; what it makes is `Paths.MadeChainIs` |
| VfsTree.AddedTracks | crates/linux-compat/src/vfs.rs:402-442 | Adding or replacing a node by path keeps every balance |
| VfsTree.StepTracks | crates/linux-compat/src/vfs.rs:402-694 | Every operation keeps every balance, a merging rename excepted |
| VfsTree.CountsExact | crates/linux-compat/src/vfs.rs:402-694 | Over every run a link count exceeds the number of directory entries by what it did before plus the number of merging renames, so it is never too low |
| VfsTree.LinksAreNames | crates/linux-compat/src/vfs.rs:644-694 | A file with an exact count has as many links as names after a run if and only if the run merged no two of its names |
| VfsTree.ReclaimSafe | crates/linux-compat/src/lib.rs:362-397 | In every reachable state reclaiming never empties a directory, a named node or one an open descriptor names, and empties every other queued node |
| VfsTree.MergedNeverReclaimed | crates/linux-compat/src/vfs.rs:644-694 | A node whose count a rename left too high is never queued again |
| VfsTree.RenameLeak | crates/linux-compat/src/vfs.rs:683-691 | Counterexample, as a run of four operations on a new filesystem: after a merging rename and an unlink a file has no name, one link, is not queued and keeps its contents |
| Paths.ResolvesIff | crates/linux-compat/src/vfs.rs:306-398 | A path resolves to a spot if and only if its components lead there one after the other, from the root if it begins with a slash and from the start otherwise, each by its entry, by the parent for "..", or by what the target of the link there leads to, through at most eight nested links; and fails with an error if and only if a component on the way fails with it |
| Paths.AbsoluteFromAnywhere | crates/linux-compat/src/vfs.rs:327-331 | A path that begins with a slash resolves the same from every directory |
| Paths.ResolveJoin | crates/linux-compat/src/vfs.rs:317-398 | A path in two parts resolves as the second does from where the first leads, links followed |
| Paths.ComponentsJoin | crates/linux-compat/src/vfs.rs:297-301 | The components of a path in two parts are those of the first and then those of the second |
| Paths.ComponentsOne | crates/linux-compat/src/vfs.rs:297-301 | A part without a slash is one component, and none if it is empty or "." |
| Paths.MadeChainIs | crates/linux-compat/src/vfs.rs:490-521 | mkdir -p succeeds if and only if afterwards existing directories lead along the whole path, and answers the last; it fails with ENOTDIR only; it changes no name there was, adds empty directories only, and none when all were there |
| Paths.MadeResolves | crates/linux-compat/src/vfs.rs:490-521 | After it the path resolves from the root to the directory it answered |
| Paths.AddedIs | crates/linux-compat/src/vfs.rs:402-442 | For every parent path and name: a directory in the way of anything else is left alone; otherwise the missing parents are made, the name in the parent means the new node, and every other name means what it meant |
| Reclaiming.ReclaimComplete | crates/linux-compat/src/lib.rs:362-397 | After every run whose writes go to nodes that are linked or queued, a node without links is queued or empty already, so reclaiming leaves empty every one that no descriptor names |
| Reclaiming.StepMinds | crates/linux-compat/src/vfs.rs:402-694 | No operation on names leaves a node without links outside the queue, or takes one out of it |
| VfsStore.Vfs.Create | crates/linux-compat/src/vfs.rs:524-557 | Tree and answer are those of `Created`, whose namespace and counts the lemmas above give; a refused node stays allocated, as in the source |
| VfsStore.Vfs.Link | crates/linux-compat/src/vfs.rs:560-570 | Tree and answer are those of `Linked`: one name and one link more, or a refusal and no change |
| VfsStore.Vfs.Unlink | crates/linux-compat/src/vfs.rs:574-607 | Tree and answer are those of `Unlinked`: one name and one link fewer, queued when the last link goes, or one of four refusals and no change |
| VfsStore.Vfs.Rename | crates/linux-compat/src/vfs.rs:644-694 | Tree and answer are those of `Renamed`: the name moved, what it displaced one link down, or a refusal and no change |
| VfsStore.Vfs.ReleaseUnreferenced | crates/linux-compat/src/vfs.rs:625-640 | The loop over the queue is the specified release |
| VfsStore.Vfs.Reclaim | crates/linux-compat/src/lib.rs:362-397 | The collecting loops over every descriptor table, then the release |
| VfsStore.ReferredIs | crates/linux-compat/src/lib.rs:366-384 | A node is collected exactly when some descriptor of some table names it |
| VfsStore.Vfs.MkdirP | crates/linux-compat/src/vfs.rs:490-521 | The component loop is the chain of `Paths.MadeChainIs` |
| VfsStore.Vfs.AddNode | crates/linux-compat/src/vfs.rs:402-442 | Tree and answer are those of `Added`, which `Paths.AddedIs` describes |
| VfsStore.Vfs.ResolveFrom | crates/linux-compat/src/vfs.rs:317-398 | The component loop, recursive through symlinks, is the resolution of `Paths.ResolvesIff` |
| Manifest.ParsePrints | crates/linux-compat/src/chunk_manifest.rs:36-214 | For every byte string and every list of entries: the parser yields the list if and only if the list is well formed, sorted and housed, and the bytes are its printing |
| Manifest.UniqueSpelling | crates/linux-compat/src/chunk_manifest.rs:36-214 | Two accepted texts with the same entries are the same bytes |
| Manifest.PrintUnique | crates/linux-compat/src/chunk_manifest.rs:36-214 | Printing is injective on lists of entries, whether a manifest can hold them or not |
| Manifest.LineSpelling | crates/linux-compat/src/chunk_manifest.rs:48-178 | A line is accepted for an entry if and only if the entry is valid and the line is its printing |
| Manifest.KindSpelling | crates/linux-compat/src/chunk_manifest.rs:104-171 | Tag, field count and fields of a directory, link or file determine each other |
| Manifest.OctalSpelling | crates/linux-compat/src/chunk_manifest.rs:237-249 | A mode is accepted if and only if it is at most 7777 in octal and spelled without sign or leading zero |
| Manifest.MtimeSpelling | crates/linux-compat/src/chunk_manifest.rs:67-74 | A time is accepted if and only if it is a signed 64-bit number in its shortest spelling |
| Manifest.FnvSpelling | crates/linux-compat/src/chunk_manifest.rs:128-143 | An identifier is accepted if and only if it is sixteen lower-case hex digits |
| Manifest.HashListSpelling | crates/linux-compat/src/chunk_manifest.rs:144-160 | A hash list and its text determine each other, the empty list included |
| Text.HexSpelling | crates/linux-compat/src/chunk_manifest.rs:251-270 | Hex text decodes to bytes if and only if it is their lower-case printing |
| Text.UnsignedSpelling | crates/linux-compat/src/chunk_manifest.rs:117-127 | A number that reads back as its text is spelled in its shortest form, below its limit |
| Manifest.ParseManifest | crates/linux-compat/src/chunk_manifest.rs:36-214 | The line loop and the parent loop compute the specified parse; the duplicate check never fires |
| ManifestBuilder.BuilderAccepted | tools/build_chunk_manifest.py:50-151 | The output of the tool is accepted if and only if the guest prefix has at most one part, canonical, and, where there are files, the chunk size is below 2^32; what is accepted is exactly the records of the tree, and everything else is refused |
| ManifestBuilder.DeepPrefixRefused | tools/build_chunk_manifest.py:50-151 | Counterexample: for prefix /a/b the output is refused whatever the tree |
| ManifestBuilder.RootPrefixAccepted | tools/build_chunk_manifest.py:50-151 | For prefix / the output is always accepted when the chunk size fits |
| ManifestBuilder.InOrderUnique | tools/build_chunk_manifest.py:144-145 | One set of records has one list in path order, so the order of the walk does not matter |
| ManifestBuilder.RecordsDistinct | tools/build_chunk_manifest.py:75-142 | No two records of a tree have the same path |
| ManifestBuilder.ParentRecorded | tools/build_chunk_manifest.py:75-142 | Every record below the packaged root has its parent directory recorded |
| ManifestBuilder.RegularValid | tools/build_chunk_manifest.py:127-142 | A file record is valid if and only if the chunk size fits 32 bits |
| ManifestBuilder.HashFile | tools/build_chunk_manifest.py:130-135 | The read loop hashes the chunks in order and counts the bytes |
| ManifestBuilder.Collect | tools/build_chunk_manifest.py:75-142 | The walk collects the specified records |
| ManifestBuilder.BuildManifest | tools/build_chunk_manifest.py:50-151 | Walk, sort and print give the specified text |
| Pipes.EndOfFileExact | crates/linux-compat/src/syscall.rs:4518-4531 | A pipe count is zero if and only if no task has a descriptor for that end |
| Pipes.DroppedCounts | crates/linux-compat/src/fd.rs:371-413 | Dropping a description takes one from each count it is part of, without saturating, and adds one to the activity of each pipe for each end |
| Pipes.ReleaseKeeps | crates/linux-compat/src/fd.rs:371-413 | Letting go of a reference keeps every count exact |
| Pipes.PairedKeeps | crates/linux-compat/src/syscall.rs:4410-4448 | A new pipe or socket pair keeps every count exact, also when the table has room for one end or none |
| Pipes.Dup2Keeps | crates/linux-compat/src/syscall.rs:2108-2120 | Duplicating onto a slot, closing what it held, keeps every count exact |
| Pipes.ForkKeeps | crates/linux-compat/src/proc.rs:133-165 | Copying a table keeps every count exact |
| Pipes.ExecKeeps | crates/linux-compat/src/fd.rs:521-527 | Close-on-exec keeps every count exact |
| Pipes.ClearedKeeps | crates/linux-compat/src/fd.rs:521-527 | Exactly the selected slots are emptied |
| Pipes.ExitKeeps | crates/linux-compat/src/syscall.rs:3633-3643 | The last task to leave a table closes it; otherwise nothing is closed |
| PipeRuns.StepKeeps | crates/linux-compat/src/fd.rs:371-535 | Every operation keeps every reference count exact |
| PipeRuns.EndOfFileOverRuns | crates/linux-compat/src/fd.rs:371-535 | After every run of pipe, socketpair, open, dup, close, changes of the close-on-exec flag, exec, fork, thread, exit and kill, writers is zero exactly when no live task names the write end, and readers likewise |
| PipeRuns.NeverSaturates | crates/linux-compat/src/fd.rs:371-413 | An open description still has its ends counted |
| PipeRuns.InsertPlaces | crates/linux-compat/src/fd.rs:483-501 | A new descriptor takes the lowest free slot from its minimum on, and no other slot changes |
| PipeRuns.SlotBelowLimit | crates/linux-compat/src/fd.rs:483-501 | On every run a new descriptor gets the lowest free number from its minimum on, below 1024, and is refused if and only if all of those are in use |
| PipeRuns.PipePlaces | crates/linux-compat/src/syscall.rs:4410-4448 | The read end takes the lowest free slot and the write end the next; every other descriptor of every table stays |
| PipeSlots.ChosenIs | crates/linux-compat/src/fd.rs:483-501 | The search finds a slot if and only if it is the lowest free one from the minimum on, inside the table or below the limit |
| PipeSlots.SetCloexecKeeps | crates/linux-compat/src/syscall.rs:2131-2134 | Changing the close-on-exec flag keeps every count exact |
| PipeSlots.CloexecDecides | crates/linux-compat/src/syscall.rs:2131-2134 | The flag decides what the next exec does with the descriptor, and with no other |
| PipeRuns.DupShares | crates/linux-compat/src/syscall.rs:2097-2106 | A duplicate shares the description of the descriptor it was made from, which stays |
| PipeRuns.Dup2Shares | crates/linux-compat/src/syscall.rs:2108-2120 | The target slot, and no other slot of any table, comes to share the description |
| PipeRuns.ForkShares | crates/linux-compat/src/fd.rs:431-435 | A forked table holds the same descriptors over the same descriptions |
| PipeRuns.Kernel.LetGo | crates/linux-compat/src/fd.rs:371-413 | One reference fewer; the last one ends its ends, as `Release` says |
| PipeRuns.Kernel.InsertFrom | crates/linux-compat/src/fd.rs:483-501 | The padding and search loops install at the specified slot or find the table full |
| PipeRuns.Kernel.MakePipe | crates/linux-compat/src/syscall.rs:4410-4448 | The state is that of `NewPipe`; the two numbers are the lowest free slot and the lowest free one after it is taken, or none where there was no room |
| PipeRuns.Kernel.SetFd | crates/linux-compat/src/syscall.rs:2131-2134 | The flag of an open descriptor is changed, or the descriptor is refused |
| PipeRuns.Kernel.CloseCloexec | crates/linux-compat/src/fd.rs:521-527 | The loop over slots closes exactly the marked ones |
| PipeRuns.Kernel.CloneTable | crates/linux-compat/src/fd.rs:431-435 | The copying loop is the specified fork |
| PipeRuns.Kernel.DropTask | crates/linux-compat/src/syscall.rs:3633-3643 | Releasing the table handle is the specified exit |
| Replay.ReplayFaithful | crates/linux-compat/src/netrecord.rs:226-442 | For every sequence of calls of the whole interface replay gives the live answer at every call, across interleaved handles, if and only if every send was accepted whole, no datagram receive or shutdown failed, whatever was asked to be ready was, and no local address was known when asked for |
| Replay.ReplayFaithfulAt | crates/linux-compat/src/netrecord.rs:226-442 | Call by call: where no send and no datagram receive failed, replay gives the live answer to a call if and only if that answer is one it can reproduce, whatever the others were |
| Replay.GuestReplays | crates/linux-compat/src/netrecord.rs:337-442 | A deterministic guest replayed against the log of its own live run makes the same calls and gets the same answers |
| Replay.GuestReplaysIff | crates/linux-compat/src/netrecord.rs:337-442 | A deterministic guest replayed against the log of its own live run goes the same way if and only if every live answer is one that replay can reproduce |
| Replay.ShortSendReplaysFull | crates/linux-compat/src/netrecord.rs:354-366 | Counterexample: a session of one short send, which replay answers in full |
| Replay.StepFaithful | crates/linux-compat/src/netrecord.rs:337-442 | One exchange that did not fail: the cursor moves past exactly what it logged, and the answer is the live one if and only if it can be |
| Replay.RecordingBroker.TcpConnect | crates/linux-compat/src/netrecord.rs:231-235 | The inner answer is handed on and logged |
| Replay.RecordingBroker.TcpSend | crates/linux-compat/src/netrecord.rs:237-243 | Handed on; logged only when it succeeded |
| Replay.RecordingBroker.TcpRecv | crates/linux-compat/src/netrecord.rs:245-255 | Handed on and logged, errors too |
| Replay.RecordingBroker.UdpOpen | crates/linux-compat/src/netrecord.rs:261-265 | Handed on and logged |
| Replay.RecordingBroker.UdpSendTo | crates/linux-compat/src/netrecord.rs:267-278 | Handed on; logged only when it succeeded |
| Replay.RecordingBroker.UdpRecvFrom | crates/linux-compat/src/netrecord.rs:280-293 | Handed on; logged only when it succeeded |
| Replay.RecordingBroker.TcpShutdown | crates/linux-compat/src/netrecord.rs:257-259 | Handed on and not logged |
| Replay.RecordingBroker.Readable | crates/linux-compat/src/netrecord.rs:295-297 | Handed on and not logged |
| Replay.RecordingBroker.LocalAddr | crates/linux-compat/src/netrecord.rs:299-301 | Handed on and not logged |
| Replay.RecordingBroker.WaitReady | crates/linux-compat/src/netrecord.rs:308-310 | Handed on and not logged |
| Replay.RecordingBroker.CloseHandle | crates/linux-compat/src/netrecord.rs:303-306 | Logged |
| Replay.ReplayBroker.NextEvent | crates/linux-compat/src/netrecord.rs:337-343 | The next event, moving past it unless the log is spent |
| Replay.ReplayBroker.TcpConnect | crates/linux-compat/src/netrecord.rs:347-352 | The specified answer and cursor |
| Replay.ReplayBroker.TcpSend | crates/linux-compat/src/netrecord.rs:354-366 | A full send, past a matching record if it is next |
| Replay.ReplayBroker.TcpRecv | crates/linux-compat/src/netrecord.rs:368-381 | The specified answer and cursor; end of stream when the log does not match |
| Replay.ReplayBroker.UdpOpen | crates/linux-compat/src/netrecord.rs:387-392 | The specified answer and cursor |
| Replay.ReplayBroker.UdpSendTo | crates/linux-compat/src/netrecord.rs:394-407 | A full send, past a matching record if it is next |
| Replay.ReplayBroker.UdpRecvFrom | crates/linux-compat/src/netrecord.rs:409-418 | The specified answer and cursor |
| Replay.ReplayBroker.TcpShutdown | crates/linux-compat/src/netrecord.rs:383-385 | Success, without a look at the log |
| Replay.ReplayBroker.Readable | crates/linux-compat/src/netrecord.rs:420-424 | Always yes, without a look at the log |
| Replay.ReplayBroker.LocalAddr | crates/linux-compat/src/netrecord.rs:426-428 | Always unknown, without a look at the log |
| Replay.ReplayBroker.WaitReady | crates/linux-compat/src/netrecord.rs:439-441 | Always yes, without a look at the log |
| Replay.ReplayBroker.CloseHandle | crates/linux-compat/src/netrecord.rs:430-437 | Past a matching record if it is next |
| NetBroker.BudgetHolds | crates/linux-compat/src/net.rs:646-791 | On every run, the budget moved at will by the host, sent plus received never exceeds the largest budget there was, and the meter is exactly what crossed |
| NetBroker.CallWithinBudget | crates/linux-compat/src/net.rs:646-791 | After every run, with whatever budgets before, a call moves bytes only if everything moved so far, those bytes included, is within the budget then in force |
| NetBroker.MeterCounts | crates/linux-compat/src/net.rs:646-684 | After every run the meter is what crossed, as far as a machine word counts, and the budget is the last one set |
| NetBroker.ReadableMakesProgress | crates/linux-compat/src/net.rs:366-368 | An open handle is readable if and only if a stream or a datagram receive would not be told to wait |
| NetBroker.StreamInOrder | crates/linux-compat/src/net.rs:468-539 | At every point of every run the stream bytes delivered in the lifetime of a handle are those the guest read followed by those still buffered |
| NetBroker.EndsOnlyDrained | crates/linux-compat/src/net.rs:524-539 | An error, end of stream or would-block from the host broker comes only when everything delivered has been read |
| NetBroker.DrainedAnswers | crates/linux-compat/src/net.rs:524-539 | After every run a read of a drained stream answers with the first failure of the lifetime of the handle, else the end if the peer closed in it, else that nothing has come |
| NetBroker.ClosedIff | crates/linux-compat/src/net.rs:479-482 | The end of a stream is marked if and only if the peer closed in the present lifetime of the handle |
| NetBroker.ErrorIff | crates/linux-compat/src/net.rs:484-491 | The error of a handle is the first failure delivered in its present lifetime |
| NetBroker.LocalIff | crates/linux-compat/src/net.rs:460-465 | Its local address is that of the latest connection delivered in it |
| NetBroker.MeterAdmits | crates/linux-compat/src/net.rs:674-791 | A stream transfer is cut to what is left of the budget, and refused if and only if it wants something and nothing is left; a datagram is sent whole or refused; every other call goes through |
| NetBroker.RefusedChangesNothing | crates/linux-compat/src/net.rs:728-791 | A refused call changes nothing and answers EPERM |
| NetBroker.CallOrders | crates/linux-compat/src/net.rs:505-608 | A call that succeeds orders exactly what it says from the host, once, after everything before; any other orders nothing |
| NetBroker.HandleAnswers | crates/linux-compat/src/net.rs:505-590 | A handle that is not open is a bad descriptor to every call; one that has failed answers a send with its failure, any other takes the send whole; a shutdown of an open handle is taken |
| NetBroker.HandlesInOrder | crates/linux-compat/src/net.rs:397-402 | Over every run handles are given out in order from one |
| NetBroker.SentInOrder | crates/linux-compat/src/net.rs:512-522 | What the guest was told was sent on a handle is, in order, what the host is given to send |
| NetBroker.DatagramsInOrder | crates/linux-compat/src/net.rs:473-590 | Datagrams are taken whole, once each, in delivery order |
| NetBroker.DatagramCut | crates/linux-compat/src/net.rs:574-590 | A taken datagram keeps its sender and is cut to the room, the budget and 65536 bytes |
| NetBroker.HostBroker.TcpConnect | crates/linux-compat/src/net.rs:505-510 | A fresh endpoint under the next handle, and a command |
| NetBroker.HostBroker.TcpSend | crates/linux-compat/src/net.rs:512-522 | A command with all the bytes, or the reported error |
| NetBroker.HostBroker.TcpRecv | crates/linux-compat/src/net.rs:524-539 | Buffered bytes first, then error, end of stream, would-block |
| NetBroker.HostBroker.UdpSendTo | crates/linux-compat/src/net.rs:556-572 | A command with the whole datagram, or the reported error |
| NetBroker.HostBroker.UdpRecvFrom | crates/linux-compat/src/net.rs:574-590 | The oldest datagram, else error, else nothing |
| NetBroker.HostBroker.Readable | crates/linux-compat/src/net.rs:592-596 | Data, a datagram, the end or an error is there |
| NetBroker.HostBroker.WaitReady | crates/linux-compat/src/net.rs:608-613 | The loop finds whether any of the handles is readable |
| NetBroker.HostBroker.CloseHandle | crates/linux-compat/src/net.rs:602-606 | The endpoint goes, with a command if there was one |
| NetBroker.HostBroker.Deliver | crates/linux-compat/src/net.rs:462-491 | Each kind of delivery, on a fresh endpoint when the handle is unknown; the first error stays |
| NetBroker.MeteredBroker.SetBudget | crates/linux-compat/src/net.rs:663-665 | The budget changes and nothing else |
| NetBroker.MeteredBroker.TcpSend | crates/linux-compat/src/net.rs:732-740 | Clipped to the allowance, refused when it is spent, charged with what was accepted |
| NetBroker.MeteredBroker.TcpRecv | crates/linux-compat/src/net.rs:742-749 | Clipped, refused, charged likewise |
| NetBroker.MeteredBroker.UdpSendTo | crates/linux-compat/src/net.rs:759-776 | Refused whole when it does not fit |
| NetBroker.MeteredBroker.UdpRecvFrom | crates/linux-compat/src/net.rs:778-791 | Clipped, refused, charged likewise |
| Epoll.EdgeRule | crates/linux-compat/src/syscall.rs:5845-5851 | After every run an edge-triggered condition is due if and only if it holds now (readable or writable if asked for, hung up always) and nothing was seen since arming, or it did not hold at the previous look, or there has been activity since |
| Epoll.LevelRule | crates/linux-compat/src/syscall.rs:5825-5851 | A level-triggered condition is due if and only if it holds now |
| Epoll.MapIsHistory | crates/linux-compat/src/syscall.rs:5758-5878 | The suppression map says exactly what the full history of waits and re-arms says, for every descriptor and run |
| Epoll.ListedIffRoom | crates/linux-compat/src/syscall.rs:5852-5868 | What is due is in the list a wait makes if and only if fewer reports than there is room for are due ahead of it, and at that place |
| Epoll.ReportedIffRoomAndStored | crates/linux-compat/src/syscall.rs:5852-5890 | What is due reaches the guest, at that place, if and only if there is room for it and the list could be stored |
| Epoll.LookedIsNotDue | crates/linux-compat/src/syscall.rs:5845-5878 | Whatever a wait reported, a retry with the same look finds no edge due that the wait looked at |
| Epoll.EdgeLostIff | crates/linux-compat/src/syscall.rs:5845-5890 | After every run, a due edge is lost, to the guest and to the retry, if and only if there was no room or the list could not be stored |
| Epoll.FullListLosesEdge | crates/linux-compat/src/syscall.rs:5849-5853 | Counterexample: with a full list an edge is marked as delivered without being reported, and is not due at the next wait |
| Epoll.FailedStoreLosesEdge | crates/linux-compat/src/syscall.rs:5869-5888 | Counterexample: one ready descriptor and a store that fails; the retry answers that nothing is ready |
| Epoll.EpollInner.Register | crates/linux-compat/src/syscall.rs:5762-5776 | Interest and re-arming as specified, with each refusal |
| Epoll.EpollInner.Remove | crates/linux-compat/src/syscall.rs:5777-5782 | Interest and mark removed, or refused |
| Epoll.EpollInner.EpollWait | crates/linux-compat/src/syscall.rs:5787-5890 | The marks are made whether or not the list can then be stored; the answer is the list, or a failure when there was something to store and it could not be |
| Epoll.EpollInner.Scan | crates/linux-compat/src/syscall.rs:5787-5878 | The scan and the marks applied after it give the specified list and map |

## Left out

Assumptions and abstractions:

- The interpreter, the JIT, instruction decoding and MMU internals: page frames are a map and the
  CPU an opaque value.
- Digest collision resistance: where one content per hash is needed, `Chunks.Binding` says so. The
  rounds of the compression function are a parameter of `Digest`.
- LazyMachine.LazyRefinesEager: moves go to a range that is free, as the allocator chooses it; edits
  are page aligned and meet no hole, which the system calls do not see to: `MemoryCalls` says what the
  others do. Anonymous memory and its permissions are not part of the eager view.
- MemoryCalls.MunmapInTuneIff: ranges that end below the end of the address space; the others are
  `LazyMachine.UnmapKeepsOthersIff` and `LazyMachine.ProtectsIff`. The hardware is a permission at each
  address, not the range map and its translation cache.
- RestartableRead.ReadIsRestartable: regular files only; wait4, getdents64 and epoll_wait commit
  state before a write that can restart, and of these only epoll_wait is modelled.
- Reclaiming.ReclaimComplete: that a write goes to a linked or queued node is the descriptor table's
  doing, which keeps an open node referenced; it enters as a condition on the run.
- Scheduler.RunKeeps: a signal frame stored right after a switch counts as part of the next guest
  step; signal delivery at a switch, ptrace-like stop reports and the SIGCHLD and
  futex wakeups an exit causes enter as arbitrary changes of task flags; pipes, timers and sockets
  are readiness sources of a shared world. Lost futex wakeups and reaping are not claimed.
- Signals.ReturnRestores: the frame bytes in guest memory are not modelled, only their place.
- SnapshotSlots.CrashSafe: saves do not overlap, and an interrupted one leaves the old bytes or a
  strict prefix of the new ones.
- VfsCodec.RoundTrip: the error text is not modelled; a directory is its entries in name order.
- VfsTree.CountsExact: link counts do not wrap at 2^64; acyclicity of the tree is not claimed,
  because rename has no descendant check.
- ManifestBuilder.BuilderAccepted: the walk is depth first, which `InOrderUnique` shows does not
  matter; the trace identifier is a parameter; chunk files are not written.
- PipeRuns.EndOfFileOverRuns: a descriptor number pair that cannot be stored after `pipe` is the two
  closes that follow it; pseudoterminal counts are not modelled.
- Replay.GuestReplays: the guest depends on the answers of the network interface only.
- NetBroker.SentInOrder: the byte encoding of the command stream is not modelled.
- Epoll.EdgeRule: the watches a blocked wait leaves behind are not modelled.

Behaviour that is not part of the model:

- Storage accounting by vector capacity; it enters as a yes-or-no answer where it decides.
- The memory budget checked when a page is delivered, and page-in counters.
- `materialize_file` and the other byte-level file operations, beyond the change of a node's kind.
- `topology_only`, listing and path reconstruction.
- Receipts computed from a recording.
- The native broker, WebSockets, fetching, browser storage calls and image caching.
- Secret injection and redaction, crash bundles, traces, the lift cache and the flat manifest.
- Calls that only answer or set a field: ids, times and clocks, limits, resource use, umask, uname,
  sysinfo, getrandom, prctl, stat and access, chmod, chown, utimensat, chdir, getcwd, readlink,
  sync, madvise, scheduling and robust-list calls.
- Calls over other descriptors: eventfd, timerfd and inotify, poll and select, ioctl and terminals,
  flock and status flags, sendfile, and sockets above the network interface.
- brk and the placement of anonymous mappings, the futex queue operations, wait4 and process groups.
