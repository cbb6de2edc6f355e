# A verified model of the DECOPUS trace library and its tools

This project models, in Dafny, the parts of the trace tool chain that carry its promises: the
event handler that runs the callbacks of a hardware trace in a causal order, the two threads that
bring events to it, the reader and writer of trace files, and the tools built on top of them
(register time travel, cache coherence, source lines), with the entropy decoder of the Motion-JPEG
software that runs on the traced platform.

`dafny verify dfyconfig.toml` checks everything.

**The event handler** (`EventState`, `EventSteps`, `EventCommit`, `EventLinks`, `EventHandler`,
`EventTheorems`, `EventRuns`, `EventDoublePut`).  An event goes through the stages *init*, *go* and *return*.
The C code counts what still blocks a stage and runs its callback when the count reaches zero; no
check tests whether its own callback has run already, and a callback that runs may unlock others,
recursively.  The class `Handler` has the same mutually recursive methods over the same tables.
`Inv` says that every counter is the number of blockers that are outstanding.  Every method keeps
it, also in the middle of other calls, and the theorems are about every state it allows.  An event
is named by its position in the trace.  A callback is what the handler sees of it: the fifo puts
that an *init* callback makes, as those of tool/sherlock/src/core/core_cpu.c and core_cache.c do.

**The circular buffer** (`CircularBuffer`).  The tracing program and the handling thread exchange
buffers of containers through two shared indexes, with mutexes and condition variables.  The model is a
state machine whose steps are the accesses to the shared variables, in any interleaving; the
theorems are about all its reachable states, and about all runs of the handler while the tracer
waits.

**The reorder buffer** (`TraceReader`) **and its index** (`AvlShape`, `AvlBalance`, `AvlUpdate`,
`AvlOps`, `AvlTheorems`).  Events are read in file order, their reference ids become pointers, and
an event is passed on when it is the oldest and all its references are known.  The index is the
AVL tree with father pointers of avl.h, modelled on a pool of nodes that the rotations update in
place.

**The trace file** (`CodecBytes`, `TraceCodec`, `TraceStream`, `TraceWriter`, `TraceFile`).  The byte format of
every kind of container, the ids that are written as differences, the buffered writer, the reader's
window over the file and its device table.

**Register time travel** (`TimeTravel`, `TimeModes`, `TimeOracle`) **and banked registers**
(`BankedRegisters`).  Executed instructions are recorded with links to previous writers of their
registers, and the oracle moves over the recording in both directions.  The reference is the
history of what the registers really were, including mode changes, which the entries do not record.  The banked registers refine the registers of each
mode in section B1.3.2 of the ARM Architecture Reference Manual, ARMv7-A and ARMv7-R edition.

**The coherence oracle** (`CoherenceLog`, `CoherenceOracle`, `CoherenceTheorems`, `CoherenceRun`,
`CoherenceReaders`).
An automaton with a few words for each byte of memory decides whether the accesses of several
write-back caches were coherent.  The reference is the list of all accesses to the byte, without
any automaton.

**The address index** (`DebugTree`, `DebugIndex`).  A balanced tree over a sorted linked list, both
updated in place, with the searches that find the source line of an address.

**The entropy decoder** (`JpegBits`, `JpegHuffman`, `JpegBlock`, `JpegDecoder`).  Huffman tables,
bit window, symbols and blocks, against the encoding procedures of Annexes C and F of ITU-T T.81.

`Common` holds the types that several models share.

## Model

| member | source | states |
|---|---|---|
| EventTheorems.RunsOnce | lib/decopus/trace/include/hwe_handle_implem.h:694-880 | no callback ever runs twice, in any state and also inside callbacks, although no check tests whether its own callback has run |
| EventTheorems.PredecessorsFirst | lib/decopus/trace/include/hwe_handle_implem.h:639-880 | a callback runs only after everything that has to run before it: commits, earlier stages, references, the fifo put it waits for |
| EventTheorems.StageOrder | lib/decopus/trace/include/hwe_handle_header.h:43-45 | the stages of an event run in order; a reference runs its go before, and its return after, the event that references it, and is committed before that event's init, whichever of the two came first in the trace |
| EventTheorems.InitInCommitOrder | lib/decopus/trace/include/hwe_handle_header.h:37-40 | the init callbacks of the events of one component run in the order of the events |
| EventTheorems.FifoOrder | lib/decopus/trace/include/hwe_handle_implem.h:997-1051 | stages put in one fifo run in put order, over any distance and any mixture of kinds, if none of those between passes over its predecessor |
| EventTheorems.OvertakesOnlyIf | lib/decopus/trace/include/hwe_handle_implem.h:1042-1051 | a stage that runs before the one put just before it is one that passes over it: the predecessor is a return whose event put its go in the same fifo and has run it |
| EventTheorems.LinkedOrder | lib/decopus/trace/include/hwe_handle_implem.h:945-992 | a chain of barriers orders its first and last stage |
| EventTheorems.QueueNullIff | lib/decopus/trace/include/hwe_handle_implem.h:1042-1051 | when the queue of a fifo is null: nothing was put, the last put has run, or the last put is a return hidden by the go of its event in the same fifo |
| EventTheorems.PutOrderedIff | lib/decopus/trace/include/hwe_handle_implem.h:997-1037 | a put is made to wait for the put before it, if that has still to run, exactly when that one is not hidden in this way |
| EventLinks.LinkedIff | lib/decopus/trace/include/hwe_handle_implem.h:997-1037 | the barrier a put makes, told from the history of puts and callbacks alone |
| EventTheorems.RunsIffReady | lib/decopus/trace/include/hwe_handle_implem.h:726-880 | between two calls of handle_event a stage has run if and only if everything that has to run before it has run: nothing ready is forgotten |
| EventRuns.HandleRun | lib/decopus/trace/include/hwe_handle_implem.h:479-689 | handling a trace gives a run: a state between any two events, with a history that only grows |
| EventRuns.RunsAfterIff | lib/decopus/trace/include/hwe_handle_implem.h:726-880 | a stage that runs has not run before an event is handed over, if and only if the commit of that event is among its transitive predecessors |
| EventRuns.GoAwaitsFollowersIff | lib/decopus/trace/include/hwe_handle_header.h:42-43 | the documented rule that go runs only when all followers are committed holds of an event in all states of a run, if and only if the commit of each follower is among the transitive predecessors of its go |
| EventRuns.InitRunsIff | lib/decopus/trace/include/hwe_handle_header.h:37-38 | after any number of events init of one of them has run, if and only if neither it nor an earlier event of its component references an event that is still to come; so it runs at its own commit exactly if there is no such forward reference |
| EventRuns.HandleForward | lib/decopus/trace/include/hwe_handle_header.h:37-38 | an event with a forward reference, committed, whose init has not run |
| EventRuns.PutOrder | lib/decopus/trace/include/hwe_handle_implem.h:997-1051 | if no event puts both its go and its return in one fifo, every fifo runs in put order |
| EventTheorems.CompletionIff | lib/decopus/trace/include/hwe_handle_implem.h:479-880 | after the whole trace, every callback of every event has run if and only if references, stages and fifo predecessors form no cycle; then every event has been recycled |
| EventTheorems.RecycledUnreachable | lib/decopus/trace/include/hwe_handle_implem.h:827-880 | an event that was recycled is out of reach, also inside callbacks: its followers have returned, and no list and no fifo names it |
| EventTheorems.ReferencesValid | lib/decopus/trace/include/hwe_handle_header.h:37-40 | when a callback is about to run, neither its event nor a reference of it has been recycled |
| EventTheorems.QueueNotOver | lib/decopus/trace/include/hwe_handle_implem.h:1042-1051 | the queue of a fifo never points to an event whose return is over |
| EventTheorems.HandleTrace | lib/decopus/trace/include/hwe_handle_implem.h:479-689 | handling a whole trace event by event runs no callback twice, and runs all of them exactly when there is an acyclic order |
| EventDoublePut.Overtaken | lib/decopus/trace/include/hwe_handle_implem.h:1042-1051 | in a trace of three events, a go runs before the return that was put before it in the same fifo |
| EventDoublePut.AfterFirst | lib/decopus/trace/include/hwe_handle_header.h:42-43 | in that trace the go of the first event has run before its follower is handed over |
| EventDoublePut.HandleDoublePut | lib/decopus/trace/include/hwe_handle_implem.h:997-1051 | the handler, given that trace, ends with the two callbacks in the wrong order |
| EventHandler.Handler.constructor | lib/decopus/trace/include/hwe_handle_implem.h:314-340 | the empty handler satisfies the invariant and has nothing to do |
| EventHandler.Handler.HandleEvent | lib/decopus/trace/include/hwe_handle_implem.h:479-689 | one more event is handed over, the invariant holds, no callback is active and no stage is left that could run |
| EventHandler.Handler.RegisterEvent | lib/decopus/trace/include/hwe_handle_implem.h:599-637 | the new event joins the init fifo of its component, and no stage becomes ready by it |
| EventHandler.Handler.HandleRef | lib/decopus/trace/include/hwe_handle_implem.h:639-675 | registering one reference keeps all counters equal to their blockers, and makes no stage ready |
| EventHandler.Handler.TellFollower | lib/decopus/trace/include/hwe_handle_implem.h:677-682 | a follower that waited for the commit has one blocker less, and only its init may become ready by it |
| EventHandler.Handler.FreeBarrier | lib/decopus/trace/include/hwe_handle_implem.h:694-721 | one blocker is taken from the stage behind a barrier, which runs if it was the last; everything the caller still has to unlock is left as it was |
| EventHandler.Handler.CheckInit | lib/decopus/trace/include/hwe_handle_implem.h:726-758 | runs init, unlocks what waits for it and goes on to go, if nothing blocks it; otherwise changes nothing |
| EventHandler.Handler.CheckGo | lib/decopus/trace/include/hwe_handle_implem.h:763-822 | the same for go, with the followers that wait for it |
| EventHandler.Handler.CheckRet | lib/decopus/trace/include/hwe_handle_implem.h:827-880 | the same for return, with the references it holds, and recycles the event |
| EventHandler.Handler.Unlock | lib/decopus/trace/include/hwe_handle_implem.h:735-750 | the list of a stage that has run is emptied, although the checks it calls may run callbacks recursively |
| EventHandler.Handler.UnlockFollowers | lib/decopus/trace/include/hwe_handle_implem.h:795-812 | the list of followers is emptied, each with one blocker less |
| EventHandler.Handler.ReleaseRefs | lib/decopus/trace/include/hwe_handle_implem.h:846-863 | all references are released and the event is recycled, once |
| EventHandler.Handler.PutInfifo | lib/decopus/trace/include/hwe_handle_implem.h:945-1037 | the new state after a put, for any state and any stage |
| EventHandler.Handler.RmFrFifo | lib/decopus/trace/include/hwe_handle_implem.h:1042-1051 | leaving a fifo keeps the invariant and makes nothing ready |
| EventHandler.Handler.InitCallback | tool/sherlock/src/core/core_cpu.c:59-112 | the puts of an init callback keep the invariant, and the history of puts stays the one the callbacks make |
| CircularBuffer.InitInv | lib/decopus/trace/include/hwetrace_par_cirbuf.h:144-216 | the initial buffers and indexes satisfy the invariant |
| CircularBuffer.StepKeeps | lib/decopus/trace/include/hwetrace_par_cirbuf.h:222-680 | every step of either thread keeps the invariant |
| CircularBuffer.ReachableInv | lib/decopus/trace/include/hwetrace_par_cirbuf.h:144-680 | the invariant holds in every state of every interleaving |
| CircularBuffer.Delivered | lib/decopus/trace/include/hwetrace_par_cirbuf.h:273-680 | in every run the containers handled are the first of those that the actions of the tracer send, each once and in order; when the handling thread has ended they are all of them up to the end marker |
| CircularBuffer.SentIs | lib/decopus/trace/include/hwetrace_par_cirbuf.h:222-334 | the history that deliveries are compared with is what the actions of the run send, and nothing else |
| CircularBuffer.StepMoves | lib/decopus/trace/include/hwetrace_par_cirbuf.h:222-680 | where containers go: an allocation gives the tracer the container of its next clean slot, sending takes it into the history, handling passes on the one of the next full slot, and recycling takes it from the handler |
| CircularBuffer.BuffersOwned | lib/decopus/trace/include/hwetrace_par_cirbuf.h:348-464 | the two threads never work on the same buffer, and the tracer never counts a buffer ready that is not |
| CircularBuffer.ContainersOwned | lib/decopus/trace/include/hwetrace_par_cirbuf.h:222-313 | a container is with the tracer, with the event handler, or in one slot of one buffer, and never in two of these places |
| CircularBuffer.DistanceIs | lib/decopus/trace/include/hwetrace_par_cirbuf.h:348-464 | the modular distance of the two shared indexes is the true number of buffers between them |
| CircularBuffer.WaitingLeavesWork | lib/decopus/trace/include/hwetrace_par_cirbuf.h:348-383 | a tracer that waits leaves the handler a buffer to work on, unless the end was reached |
| CircularBuffer.HandlerNotBlocked | lib/decopus/trace/include/hwetrace_par_cirbuf.h:461-680 | the handler always has a step to take before it has ended |
| CircularBuffer.StuckIff | lib/decopus/trace/include/hwetrace_par_cirbuf.h:461-680 | the handler has no step to take if and only if it has ended |
| CircularBuffer.WorkDecreases | lib/decopus/trace/include/hwetrace_par_cirbuf.h:461-680 | while the tracer waits, every step of the handler uses up some of a finite amount of work |
| CircularBuffer.JoinReturns | lib/decopus/trace/include/hwetrace_par_cirbuf.h:465-698 | no run of the handler after the end marker is longer than its work |
| CircularBuffer.JoinEnds | lib/decopus/trace/include/hwetrace_par_cirbuf.h:465-698 | a run of the handler after the end marker is at its end exactly when the thread has ended, and then everything that the run before it sent has been handled |
| CircularBuffer.JoinRuns | lib/decopus/trace/include/hwetrace_par_cirbuf.h:324-343 | after the end marker there is a run of the handler to its end |
| CircularBuffer.SleepEnds | lib/decopus/trace/include/hwetrace_par_cirbuf.h:356-383 | no wake-up is lost: a run that leaves the tracer asleep is shorter than the work on one buffer |
| CircularBuffer.StaysAwake | lib/decopus/trace/include/hwetrace_par_cirbuf.h:356-383 | a tracer that was woken is not put to sleep by the handler |
| TraceReader.Reader.ReadAll | lib/decopus/trace/source/hwetrace_read.c:235-316 | the events passed on are a prefix of the file, each with pointers to exactly the events its ids name; all of them are passed on and the index ends empty if and only if every reference is in the file and every expected count is exact |
| TraceReader.EmptyIff | lib/decopus/trace/source/hwetrace_read.c:430-563 | the same equivalence, for any state in which the file has been read |
| TraceReader.HandledPrefix | lib/decopus/trace/source/hwetrace_read.c:501-550 | at any time the events passed on are a prefix of the file, each once and with the right pointers |
| TraceReader.AllPassed | lib/decopus/trace/source/hwetrace_read.c:476-550 | no event of a closed file with exact counts is left waiting |
| TraceReader.Reader.HandleEvent | lib/decopus/trace/source/hwetrace_read.c:294-312 | after each event read, the head of the fifo, if there is one, misses a reference: nothing that could be passed on is kept back |
| TraceReader.Reader.InsertEvent | lib/decopus/trace/source/hwetrace_read.c:338-363 | the event joins the fifo and the index, and nothing becomes ready |
| TraceReader.Reader.FindNode | lib/decopus/trace/source/hwetrace_read.c:159-183 | the node of an id, made if there was none |
| TraceReader.Reader.TrySolveOurRef | lib/decopus/trace/source/hwetrace_read.c:430-471 | every reference of the event becomes a pointer or is listed with the node it waits for |
| TraceReader.Reader.SolvePendingRef | lib/decopus/trace/source/hwetrace_read.c:476-495 | every reference that waited for the event becomes a pointer, and the events this releases are passed on |
| TraceReader.Reader.TryCommit | lib/decopus/trace/source/hwetrace_read.c:501-550 | the head and all that can follow it are passed on |
| TraceReader.Reader.TryDelete | lib/decopus/trace/source/hwetrace_read.c:556-563 | a node is freed exactly when its event was passed on and no reference to it is expected any more |
| AvlOps.Tree.constructor | lib/decopus/trace/utils/include/avl.h:524-544 | the empty tree |
| AvlOps.Tree.Find | lib/decopus/trace/utils/include/avl.h:630-649 | the node with the key if there is one, otherwise the node it would be a child of |
| AvlOps.Tree.Adjacent | lib/decopus/trace/utils/include/avl.h:654-703 | the node with the closest key on either side, or none if there is no key on that side |
| AvlOps.Tree.Rot | lib/decopus/trace/utils/include/avl.h:730-761 | the pool after a rotation: pointers, sides and key intervals of the four nodes it touches, and nothing else |
| AvlOps.Tree.Balance | lib/decopus/trace/utils/include/avl.h:769-1019 | from a tree whose one subtree has just grown or shrunk, the balance is restored up to the root, with the same keys |
| AvlOps.Tree.Add | lib/decopus/trace/utils/include/avl.h:1032-1144 | exactly one more key if it was absent and no change if it was present, from any valid hint, in a balanced search tree |
| AvlOps.Tree.Descend | lib/decopus/trace/utils/include/avl.h:1041-1068 | the descent from the hint ends at the key or at the one place for it |
| AvlOps.Tree.Rem | lib/decopus/trace/utils/include/avl.h:1283-1379 | exactly one node and its key less; every other node keeps its key, and the tree is balanced and searchable |
| AvlOps.Tree.SwapNodes | lib/decopus/trace/utils/include/avl.h:1294-1347 | the removed node's place is taken by its neighbour in the higher subtree, pointer by pointer |
| AvlTheorems.SortedKeys | lib/decopus/trace/utils/include/avl.h:315-358 | read from left to right, the tree is the strictly increasing sequence of exactly its keys |
| AvlTheorems.HeightBound | lib/decopus/trace/utils/include/avl.h:769-1019 | the height is at most about twice the logarithm of the number of nodes |
| AvlTheorems.NeighbourIsHint | lib/decopus/trace/utils/include/avl.h:1021-1031 | the future neighbours of a key are valid hints |
| AvlTheorems.AncestorIsHint | lib/decopus/trace/utils/include/avl.h:1021-1031 | and so are all their ancestors |
| TraceCodec.BodyBack | lib/decopus/trace/include/events/hwe_tools.h:45-114 | the body of every kind of container is read back from the bytes that are kept of it, whatever follows |
| TraceCodec.BodyNeeds | lib/decopus/trace/include/events/hwe_tools.h:70-114 | a body that is cut off anywhere is not read |
| TraceCodec.InstBack | lib/decopus/trace/include/events/hwe_inst.h:126-187 | an instruction with or without jump target and register values is read back |
| TraceCodec.Mem32Back | lib/decopus/trace/include/events/hwe_mem.h:234-274 | a memory access with or without data is read back |
| TraceCodec.InfoBack | lib/decopus/trace/include/events/hwe_info.h:61-115 | the description of a device of every known kind is read back |
| TraceCodec.MemLayout | lib/decopus/trace/include/events/hwe_mem.h:87-274 | a memory access is written and read with `width + 1` bytes of data exactly if bit 6 of its first byte, `usedata`, is set, whatever the other bits are, at the offsets of the packed structure |
| TraceCodec.InstLayout | lib/decopus/trace/include/events/hwe_inst.h:25-187 | an instruction keeps its jump target exactly if bit 5 of its second word, `jump`, is set, and its register values exactly if bit 6, `regdata`, is, whatever the other bits are |
| TraceCodec.InfoLayout | lib/decopus/trace/include/events/hwe_info.h:48-115 | a description starts with the bytes of version 1.3; the five devices have details of 1, 9, 6, 0 and 0 bytes, and every other device and version is refused |
| TraceStream.IdRoundTrip | lib/decopus/trace/include/events/hwe_common.h:298-324 | an event index is recovered from its difference exactly if the step is representable; the difference is written exactly if it is from -8 to 7 |
| TraceStream.LongStepLost | lib/decopus/trace/include/events/hwe_common.h:298-308 | a step of 2^32 is lost |
| TraceStream.ContBack | lib/decopus/trace/include/events/hwe_common.h:329-392 | a container with any dates, references and body is read back, whatever follows |
| TraceStream.ContNeeds | lib/decopus/trace/include/events/hwe_common.h:368-392 | a container that is cut off anywhere makes the reader ask for more bytes |
| TraceStream.IdBack | lib/decopus/trace/include/events/hwe_common.h:490-523 | the record that sets an id is read back |
| TraceStream.ContsBack | lib/decopus/trace/source/hwetrace_read.c:239-292 | the containers of a written file are read back exactly when every device id is below twice the size the table has reached |
| TraceStream.GroupBack | lib/decopus/trace/source/hwetrace_read.c:276-289 | consecutive containers with one id make up the events again |
| TraceStream.StreamRoundTrip | lib/decopus/trace/source/hwetrace_read.c:407-422 | the events written to a file are the events read from it, if and only if every device id is below twice the size that the device table has reached before it |
| TraceStream.DeviceAlone | lib/decopus/trace/source/hwetrace_read.c:407-422 | a file with one event of one device is read back exactly if the device is below 32 |
| TraceWriter.WriteSize | lib/decopus/trace/include/events/hwe_inst.h:100-144 | how many bytes writing a container touches, beside the size it declares |
| TraceWriter.WriteInsideIff | lib/decopus/trace/source/hwetrace_write.c:55-83 | for each of the three tests for room: a container that passes it is written inside the buffer, however full that is, if and only if it is not an instruction without register values that has any register, or more than five in a first container without an id record |
| TraceWriter.StreamInside | lib/decopus/trace/source/hwetrace_write.c:44-89 | a writer never counts more bytes than its buffer has, and never leaves the buffer if no container writes more than the room asked for |
| TraceWriter.Overrun | lib/decopus/trace/source/hwetrace_write.c:55-68 | a writer that leaves its buffer: events until it is nearly full, and an instruction with registers without values |
| TraceWriter.Writer.Flush | lib/decopus/trace/source/hwetrace_write.c:35-39 | flushing changes nothing of what is written in all |
| TraceWriter.Writer.BufferEvent | lib/decopus/trace/source/hwetrace_write.c:44-89 | the bytes of one event are added to the file, over any flushes, the last index of its device is remembered, and how far the buffer was written to |
| TraceWriter.Writer.WriteAll | lib/decopus/trace/source/hwetrace_write.c:44-89 | what a fresh writer outputs reads back as the events exactly under the condition on device ids; how far it wrote in its buffer, and that it stayed inside if no container writes more than the room asked for |
| TraceFile.Window.Refill | lib/decopus/trace/source/hwetrace_read.c:378-387 | the buffer gets some more of the file, as much as the call of read gives, unless it is full or the file is at its end, and loses nothing |
| TraceFile.Window.ReadContainer | lib/decopus/trace/source/hwetrace_read.c:368-402 | through a window of any filling the next record is the one of the whole file; a record that fits in the buffer fails to be read if and only if one call of read does not complete it |
| TraceFile.ShortRead | lib/decopus/trace/source/hwetrace_read.c:387-392 | a whole record that fits in the buffer and fails to be read, because read gave one byte first |
| TraceFile.Window.ReadFile | lib/decopus/trace/source/hwetrace_read.c:239-292 | reading in pieces of any sizes gives the containers of the whole file, or the reason why it stopped; a file of records that fit is read to its end if no read is short |
| TraceFile.RecordMore | lib/decopus/trace/include/events/hwe_tools.h:76-114 | what is read from a part of a file is what is read from the whole file, once the part holds it |
| TraceFile.StreamFits | lib/decopus/trace/source/hwetrace_read.c:368-402 | every record of a written file fits in the reader's buffer |
| TraceFile.WriteAndRead | lib/decopus/trace/source/hwetrace_write.c:44-89 | writing events and reading the file in pieces gives the events back exactly under the condition on device ids, and otherwise ends at the table |
| TimeOracle.Oracle.constructor | tool/sherlock/src/delorean/delorean_main.c:159-259 | the recording starts with one reset node for each processor, which all registers and all banked registers lead to; the CPSR is 0x400001D3 and the others are zero |
| TimeOracle.Oracle.SwitchMode | tool/sherlock/src/core/core_cpu.c:285-313 | the registers with their links after a switch |
| TimeModes.SwitchedAt | tool/sherlock/src/core/core_cpu.c:285-313 | a switch replaces r13, r14 and the SPSR, and r8 to r12 into and out of FIQ mode, by what is kept for the new mode, the last two with their links, and leaves all other registers alone |
| TimeOracle.Oracle.CpuExec | tool/sherlock/src/core/core_cpu.c:195-206 | the registers after the writes of an instruction, with a switch before each new CPSR |
| TimeOracle.Oracle.Entries | tool/sherlock/src/delorean/delorean_main.c:700-757 | each write becomes an entry that leads to where its register leads after the instruction was run, or to its own node |
| TimeOracle.Oracle.Record | tool/sherlock/src/delorean/delorean_main.c:700-786 | an instruction is run and appended to the recording; where the recording tells all that happened so far, it goes on to do so if and only if the instruction keeps the mode, or the registers that come in are those that go out |
| TimeModes.ToldIff | tool/sherlock/src/delorean/delorean_main.c:811-828 | the entries of an instruction tell what happened to the registers, in value and link, if and only if its mode change, if any, brings in registers equal to those it takes out |
| TimeModes.KeptAgrees | tool/sherlock/src/delorean/delorean_main.c:811-828 | an instruction that keeps the mode always meets this condition |
| TimeOracle.Oracle.ReverseExec | tool/sherlock/src/delorean/delorean_main.c:319-381 | one node back: a register the node wrote shows what undoing gives it, and all others stay |
| TimeOracle.Oracle.CpuReverse | tool/sherlock/src/delorean/delorean_main.c:538-591 | the entries of a node undone one after the other, from the first to the last |
| TimeOracle.Oracle.GetRegLastWrite | tool/sherlock/src/delorean/delorean_main.c:661-677 | a register gets the value and link of the first entry with its id, or stays |
| TimeOracle.Oracle.ForwardExec | tool/sherlock/src/delorean/delorean_main.c:390-450 | one node ahead: a register the node wrote has its last value and a link to the node, and all others stay |
| TimeOracle.Oracle.CpuForward | tool/sherlock/src/delorean/delorean_main.c:601-639 | the entries of a node done again one after the other |
| TimeOracle.Oracle.Travel | tool/sherlock/src/delorean/delorean_main.c:319-450 | any moves: back at the end, all registers and links are as before if they were as their last writers left them; anywhere, the registers are as they were if every node is undone and done again as it happened |
| TimeOracle.Oracle.GoBack | tool/sherlock/src/delorean/delorean_main.c:319-381 | going back over any distance, every register shows what undoing its first writer on the way leaves, and stays if there is none |
| TimeTravel.TravelIff | tool/sherlock/src/delorean/delorean_main.c:319-450 | all moves over a recording show the registers as they really were, if and only if every node is undone and done again as it happened: a condition on each node and the registers before and after it |
| TimeTravel.EndRestoredIff | tool/sherlock/src/delorean/delorean_main.c:390-450 | all moves that come back to the end leave the registers and links as they were, if and only if the registers written since the reset are as their last writers left them |
| TimeTravel.BackShown | tool/sherlock/src/delorean/delorean_main.c:319-381 | straight back from the end every register shows what undoing its next writer leaves, and its value at the end if there is none |
| TimeTravel.ToldPast | tool/sherlock/src/delorean/delorean_main.c:700-786 | where the entries tell all that happened, every register was at every place as its last writer left it |
| TimeTravel.FaithfulIff | tool/sherlock/src/delorean/delorean_main.c:538-677 | then undoing and redoing an instruction is true to a register exactly when, if it writes it twice, it writes the old value first, and otherwise the instruction that wrote the old value did not write another one first |
| TimeTravel.DistinctTruthful | tool/sherlock/src/delorean/delorean_main.c:538-591 | if moreover no instruction writes a register twice, all moves show the registers as they were |
| TimeTravel.ToldEnd | tool/sherlock/src/delorean/delorean_main.c:390-450 | and the end is always restored, also with registers written twice |
| TimeTravel.MovedShows | tool/sherlock/src/delorean/delorean_main.c:538-639 | every move keeps what each register shows: its last writer's value, what undoing its next writer left, or its value at the end |
| TimeOracle.RepeatedPc | tool/sherlock/src/core/core_cpu.c:131-174 | runs in which undoing an instruction that writes r15 itself leaves a wrong value in r15 |
| TimeOracle.SwitchLost | tool/sherlock/src/core/core_cpu.c:199-204 | runs in which a mode change, moved over back and ahead, leaves the stack pointer of the old mode |
| BankedRegisters.Cpu.CpuExec | tool/sherlock/src/core/core_cpu.c:195-224 | after any run of writes, up to one that would leave the arrays, the banks and the current registers hold the registers of all modes as the writes make them, which are the architecture's wherever the writes to user registers reach their registers |
| BankedRegisters.Cpu.EnterMode | tool/sherlock/src/core/core_cpu.c:195-313 | a CPSR with the number of one of the seven modes in its low five bits, whatever its other bits are, gives the processor the sixteen registers and the SPSR of that mode |
| BankedRegisters.ModeRun | tool/sherlock/src/core/core_cpu.c:195-206 | after such a CPSR a write of a register changes the register of that mode and no other |
| BankedRegisters.UserIds | tool/sherlock/src/core/core_cpu.c:207-218 | which ids name which user register: bit 4 set, the number in the low four bits, bit 5 for FIQ mode; an id above 15 without bit 4 changes nothing |
| BankedRegisters.Cpu.WriteUser | tool/sherlock/src/core/core_cpu.c:207-218 | which register of which mode a write to a user register changes, or that it changes none |
| BankedRegisters.UserWriteIff | tool/sherlock/src/core/core_cpu.c:207-218 | such a write does what the architecture does if and only if it is made where the register is, or the values are there already |
| BankedRegisters.UserStackLost | tool/sherlock/src/core/core_cpu.c:210-211 | in user mode a write of the user stack pointer is lost |
| BankedRegisters.ReachingRun | tool/sherlock/src/core/core_cpu.c:195-224 | a run whose writes to user registers all reach them is the run of the architecture |
| BankedRegisters.Cpu.SwitchMode | tool/sherlock/src/core/core_cpu.c:285-313 | no register of any mode changes its value in a switch: each is found where the new mode puts it |
| BankedRegisters.Cpu.VisitMode | tool/sherlock/src/core/core_cpu.c:195-313 | a register written in another mode is seen from this mode, in the register of the same number, if and only if the two modes share it, and no other register changes |
| CoherenceOracle.Oracle.Dfa | tool/sherlock/src/watson/watson_main.c:877-1152 | after each access the words of the byte are what the list of its accesses says, and each counter is the number of bytes with that verdict, until one problem too many ends the program |
| CoherenceOracle.Oracle.OnModify | tool/sherlock/src/watson/watson_main.c:960-1060 | the same for an access to a byte that a cache has modified |
| CoherenceOracle.Oracle.OnWriteback | tool/sherlock/src/watson/watson_main.c:1061-1144 | the same for an access to a byte that was written back |
| CoherenceOracle.Oracle.Problem | tool/sherlock/src/watson/watson_main.c:371-379 | one problem more is counted, and the program ends exactly above a million |
| CoherenceTheorems.VerdictIff | tool/sherlock/src/watson/watson_main.c:877-1152 | a byte has a problem of a kind exactly when its first fault is a pair of accesses that conflict in that way with nothing between them that made them coherent |
| CoherenceTheorems.ProblemIff | tool/sherlock/src/watson/watson_main.c:262-351 | one access is to blame for a problem of a kind exactly when such a conflict ends at it |
| CoherenceTheorems.CleanIff | tool/sherlock/src/watson/watson_main.c:877-1152 | a byte is coherent exactly when none of its accesses is to blame for anything |
| CoherenceTheorems.UndefinedForeign | tool/sherlock/src/watson/watson_main.c:262-351 | an undefined order is between accesses of two caches, if the accesses of one cache are ordered |
| CoherenceReaders.ReaderIff | tool/sherlock/src/watson/watson_main.c:1063-1090 | the reader on record is the access that set it last, if none since dropped it |
| CoherenceReaders.UndefinedIff | tool/sherlock/src/watson/watson_main.c:262-351 | an order is undefined exactly when the first fault is a checked pair of accesses that are not in order |
| CoherenceReaders.LastReaderOnly | tool/sherlock/src/watson/watson_main.c:1091-1112 | a modification of a byte that was written back is in order exactly when it follows the last write and the last of the reads since, however many there are |
| CoherenceReaders.CaughtIff | tool/sherlock/src/watson/watson_main.c:1091-1112 | every modification that overtakes a read is reported, if and only if no read since the last write ends later than both the last write and the last read |
| CoherenceReaders.OvertakenLog | tool/sherlock/src/watson/watson_main.c:284-293 | logs in which a modification overtakes the first of two fetches and no access is to blame |
| CoherenceReaders.OvertakenRun | tool/sherlock/src/watson/watson_main.c:638-795 | a run of three caches that leads to such a log |
| CoherenceTheorems.ProblemAddresses | tool/sherlock/src/watson/watson_main.c:371-379 | the bytes in the problem state are as many as the problems and undefined orders counted |
| CoherenceTheorems.WarnedAddresses | tool/sherlock/src/watson/watson_main.c:382-392 | the bytes with a warning are as many as the warnings counted |
| CoherenceRun.AlwaysTimely | tool/sherlock/src/watson/watson_main.c:1292-1418 | in every run the accesses of one cache to one byte are ordered, two acknowledged reads aside |
| CoherenceRun.RunUndefined | tool/sherlock/src/watson/watson_main.c:638-795 | so in every run an undefined order is one between two caches |
| CoherenceRun.OwnWriteOrdered | tool/sherlock/src/watson/watson_main.c:273-282 | the order check of a write by the last modifier never fails in a run |
| CoherenceRun.Plugin.Execute | tool/sherlock/src/watson/watson_main.c:638-795 | any run of events feeds every byte its accesses with their memory orders, or ends with too many problems or a full list of pending reads |
| CoherenceRun.ReadLogged | tool/sherlock/src/watson/watson_main.c:681-710 | a read not made for a store is a fetch of the bytes asked for, up to and with the last, and an allocation of the rest of the line; one for a store is an allocation of all bytes; addresses wrap at 32 bits and no other byte is touched |
| CoherenceRun.WriteLogged | tool/sherlock/src/watson/watson_main.c:667-722 | a write adds a write of each of its bytes and an acknowledged modification a modification of each, at the order of the cache |
| CoherenceRun.AckLogged | tool/sherlock/src/watson/watson_main.c:656-666 | an acknowledged read adds nothing until the next memory event of its cache, and then one acknowledged read of each of its bytes, between the two orders |
| CoherenceRun.Plugin.Acknowledge | tool/sherlock/src/watson/watson_main.c:1328-1349 | acknowledged reads wait for the next memory event of their cache; the program goes on exactly if they are no more than 10485761, one above the limit |
| CoherenceRun.Plugin.CacheOrder | tool/sherlock/src/watson/watson_main.c:1292-1326 | all waiting reads of a cache are judged with its new order and none is left |
| CoherenceRun.Plugin.ExecMem | tool/sherlock/src/watson/watson_main.c:751-795 | a memory event orders its cache and is one step of the run |
| DebugTree.BalanceLevels | lib/debughelper/debughelperlib/src/avl_tree.c:165-238 | balancing a tilted tree levels it, in every case of flags and of the child's flags |
| DebugTree.InsertContents | lib/debughelper/debughelperlib/src/avl_tree.c:309-352 | inserting into the tree is inserting into the sorted list of its entries |
| DebugTree.InsertPresent | lib/debughelper/debughelperlib/src/avl_tree.c:309-352 | a key that is present changes nothing |
| DebugTree.SearchFloor | lib/debughelper/debughelperlib/src/avl_tree.c:280-306 | the search finds the greatest key not above the one asked for, or there is none |
| DebugTree.FilteredFloor | lib/debughelper/debughelperlib/src/insn_tree.c:51-71 | the filtered search finds the greatest marked key not above the one asked for, or there is none |
| DebugTree.SortedUnique | lib/debughelper/debughelperlib/src/generic_olist.c:68-79 | a sorted list is determined by its keys, in whatever order they were added |
| DebugIndex.Index.RotateRight | lib/debughelper/debughelperlib/src/avl_tree.c:78-109 | the nodes after the pointer updates are the rotated tree, and no other node changes |
| DebugIndex.Index.RotateLeft | lib/debughelper/debughelperlib/src/avl_tree.c:130-162 | the same to the other side |
| DebugIndex.Index.Rebalance | lib/debughelper/debughelperlib/src/avl_tree.c:165-238 | the nodes after balancing in place are the balanced tree, and no other node changes |
| DebugIndex.Index.InsertNode | lib/debughelper/debughelperlib/src/avl_tree.c:309-352 | the nodes after the recursive insertion are the tree with the new leaf, balanced |
| DebugIndex.Index.SearchNode | lib/debughelper/debughelperlib/src/avl_tree.c:280-306 | the node found in the cells is the one found in the tree |
| DebugIndex.Index.ListAdd | lib/debughelper/debughelperlib/src/generic_olist.c:68-79 | the element is linked in at its place in key order, and only list elements change |
| DebugIndex.Index.AddKey | lib/debughelper/debughelperlib/src/debug_helper.c:200-233 | an absent key joins tree and list, which keep holding the same entries in the same order; a present one changes nothing |
| DebugIndex.Index.SearchAdd | lib/debughelper/debughelperlib/src/debug_helper.c:236-266 | the same, with the list entered at the element found by the search |
| DebugIndex.Index.Find | lib/debughelper/debughelperlib/src/debug_helper.c:269-278 | the element of the greatest key not above the address |
| DebugIndex.Index.FindFiltered | lib/debughelper/debughelperlib/src/debug_helper.c:284-335 | the element of the greatest key not above the address among those with a flag of the filter |
| DebugIndex.Index.AddAll | lib/debughelper/debughelperlib/src/debug_helper.c:200-266 | any sequence of additions through either function leaves a balanced tree over a sorted list with exactly the keys added |
| JpegHuffman.LoadHuffmanTable | platform/software/parallelmjpeg/Headers/Private/Decoder.h:62-90 | the table loaded from a segment, truncated to its size, and what is left of the channel |
| JpegHuffman.CodesAreAnnexC | platform/software/parallelmjpeg/Headers/Private/Decoder.h:62-90 | the codes the table stands for are those that the procedure of Annex C of ITU-T T.81 generates |
| JpegHuffman.NoShorterCode | platform/software/parallelmjpeg/Headers/Private/Decoder.h:120-143 | no beginning of a code is taken for a code |
| JpegHuffman.SymbolRoundTrip | platform/software/parallelmjpeg/Headers/Private/Decoder.h:120-143 | for every loaded canonical table, a code decodes to its symbol, whatever follows |
| JpegBlock.ValueRoundTrip | platform/software/parallelmjpeg/Headers/Private/Mjpeg.h:220-229 | every coefficient, positive or negative, is recovered from its category and bits |
| JpegBlock.BlockBack | platform/software/parallelmjpeg/Headers/Private/Decoder.h:145-184 | a block with any runs of zeros is read back from its code, whatever follows |
| JpegBlock.SymbolSteps | platform/software/parallelmjpeg/Headers/Private/Decoder.h:145-184 | the symbol 0x00 ends a block, 0xF0 skips sixteen coefficients, and 16 * run + size skips `run` of them and takes a value of `size` bits |
| JpegBits.UnstuffStuff | platform/software/parallelmjpeg/Headers/Private/Decoder.h:92-118 | stuffing zero bytes after 0xFF and leaving them out gives the bits back |
| JpegDecoder.Scan.GetBits | platform/software/parallelmjpeg/Headers/Private/Decoder.h:92-118 | the number of the next bits, modulo 2^32, over byte borders and stuffed bytes |
| JpegDecoder.Scan.GetSymbol | platform/software/parallelmjpeg/Headers/Private/Decoder.h:120-143 | the symbol of the code that comes next |
| JpegDecoder.Scan.UnpackBlock | platform/software/parallelmjpeg/Headers/Private/Decoder.h:145-184 | the 64 coefficients in place are the next block of the stream, and its first one is the next prediction of its component |
| JpegDecoder.Scan.DecodeScan | platform/software/parallelmjpeg/Headers/Private/Decoder.h:145-184 | the blocks of several interleaved components, one after the other |
| JpegDecoder.ScanRoundTrip | platform/software/parallelmjpeg/Headers/Private/Decoder.h:62-184 | for any loaded canonical tables and any interleaving of components, the blocks of a scan are recovered from its stuffed bytes |
| JpegDecoder.DecodeBytes | platform/software/parallelmjpeg/Headers/Private/Decoder.h:62-184 | the decoder itself, run on the stuffed bytes of a scan, returns the blocks that were encoded |

## Findings

Properties that the code or its comments promise and that do not hold; each has the condition under
which it does.

- **Put order.** Stages put in one fifo need not run in put order.  `rm_frfifo`
  (hwe_handle_implem.h:1042) compares events and not stages, so when an event has put both its go
  and its return in one fifo and the go has run, the queue is null and the next put is not made to
  wait for the return.  `HandleDoublePut` is such a run.  `QueueNullIff` and `PutOrderedIff` give
  the exact condition, and `FifoOrder` the order whenever it does not arise.
- **Go and followers.** hwe_handle_header.h:42 says that go is executed when all followers are
  committed.  `check_go` does not look at the missing followers; in `AfterFirst` a go has run before
  its follower is there.  `GoAwaitsFollowersIff` says for which events of a trace the rule holds.
- **Init and references.** hwe_handle_header.h:37 says that init is executed when the event is
  committed, with references that are maybe not.  `check_init` waits for the references:
  `HandleForward` is an event whose init has not run after its commit, and `InitRunsIff` says when
  each init runs.
- **Long steps of ids.** The difference of two event indexes is cut to 32 bits before it is tested.
  `IdRoundTrip` says which steps survive; a step of 2^32 is lost (`LongStepLost`).
- **Growing the device table.** `update_previd` (hwetrace_read.c:407) doubles the table once.  A
  file is read back if and only if every device id is below twice the size reached before it
  (`StreamRoundTrip`); a file of one device from 32 on is not (`DeviceAlone`).
- **Size of an instruction.** `hwe_inst32_write` writes register values that `hwe_inst32_sizeof`
  does not count when the instruction carries none.  `WriteInsideIff` says for each test of
  `buffer_event` which containers it keeps in the buffer, and `Overrun` is a writer that leaves it.
- **Short reads.** `read_container` gives up when one call of `read` does not complete a record
  (`ReadContainer`, `ShortRead`).
- **Writing a register twice.** Every instruction gets a write of r15, also one that writes r15
  itself, and undoing the entries from the first to the last then shows the first value written
  (`RepeatedPc`).  `FaithfulIff` gives the exact condition for each node and register.
- **Changing the mode.** `delorean_pg_exec_cpu` runs after `cpu_exec` has stored the new CPSR, so
  `dl_switch_mode` sees no change and records nothing.  After a mode change, moving back and ahead
  leaves registers of the old mode (`SwitchLost`).  `ToldIff` says which instructions are recorded
  completely, `EndRestoredIff` when the end is restored, and `TravelIff` when the past is shown as
  it was.
- **User registers.** A write to a user register goes to a fixed place, which is not always where the
  register is: in user and system mode one to r13 or r14 is lost, and one to r8 to r12 is right only
  if its flag agrees with the mode (`UserWriteIff`, `UserStackLost`).
- **Only the last reader.** A byte remembers one reader, so a modification that overtakes an earlier
  fetch of another cache is not always reported: `OvertakenRun` is a run in which it is not, and
  `CaughtIff` says after which accesses every overtaking is reported.
- **Pending reads.** `watson_pending_read_ack` accepts one read more than its array has room for
  (`Acknowledge`).

## Left out

- The HWE_INFO branch of `handle_event`, the reports, dumps and debugging output of the handler.
- The reuse of the memory of recycled events: an event keeps its own name, so use after recycling would show as a name in a list, and `RecycledUnreachable` excludes it.
- References spread over several containers of one event: an event has one list of references.
- The effects of callbacks other than the fifo puts of init, and the barriers that tools set directly (hwe_handle_implem.h:1057-1110).
- EventHandler.Handler.RegisterEvent: adds the expected followers before the put in the init fifo; the code does it after, with nothing in between that reads them.
- Weak memory, the timing prediction and the statistics of the circular buffer; the tracer may switch buffers at any time. The positions are those of HWEPAR_MODE 3.
- The events of one file have distinct ids in `TraceReader`, and its index is a map; the tree is modelled by itself.
- AVL_RANGED and AVL_LINKED, and first, last, reset and the pools of avl.h.
- Printing and describing containers; devices that select a part of a trace (hwetrace_print.c).
- TimeOracle.Oracle.Record: refuses instructions with ids of user registers, with a mode that does not exist, or with two different modes, for which the code uses a null pointer or memory given to `realloc`; memory and devices are not modelled.
- The list of pending reads is a sequence, so the read beyond the array is kept like the others.
- The write-through automaton, which is never installed, the printing of accesses, and caches beyond the 32 that the bitmap of readers has room for.
- Reading DWARF, functions and source files: the address index is modelled from the addition of addresses on.
- JpegDecoder.Scan.UnpackBlock: predictions are unbounded integers; streams for which the code is undefined (a run past the block, a code longer than 16 bits) are outside its contract.
- Inverse quantisation, the cosine transform, colours and the channels of the decoder.
