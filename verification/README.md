# side-eye-go: a model of the in-process snapshot engine

side-eye-go takes snapshots of a running Go process from within. It stops the world, walks the stack of
every goroutine, runs small bytecode programs over the frames, and follows pointers from there and from the
static variables until everything reachable is in one binary buffer. This project models that engine, the
two protocols around it that fetch its programs and stream captures, and the listener that connects it, and
proves what they keep.

## The parts

- **Stack machine** (`Machine`, `StackMachine`, `Decoder`): about 35 instructions over one stack that mixes
  return addresses and data. `Machine` is the step function on values; the class in `StackMachine` updates
  its fields, the output and the worklist in place and is proved to do the same, instruction by instruction.
  `StackShape`, `Expression`, `SliceLoop`, `GoContext`, `ContextWalk`, `ContextChain` and `Alignment` hold the theorems
  about runs; `MachineFrame` what every instruction leaves alone; `Runs` the states of a run.
- **Output** (`Buffer`, `OutBuf`, `BufferFacts`): a backing array, a length and an overflow flag, with 32-bit
  offsets that wrap around. `Framing` is a reader that steps by the length fields; `FramedRun` proves that
  runs keep the output readable, `Containment` that they keep what was there before, even on overflow.
- **Worklist** (`Ring`, `Fifo`, `Worklist`): a set of keys in front of a linked queue of 128-slot rings.
- **Snapshotter** (`Snapshots`, `Snapshotter`, `Draining`, `Records`, `Accounting`, `WholeOutput`): goroutine
  records with shared stacks, classification of frames, truncation, and the drain of the worklist. The stack
  hash is in `Murmur`, the unwinder in `Unwinder`. `Overwriting`, `Misalignment` and `Leftovers` hold the inputs on
  which the output is not intact, not aligned, or a run inherits a stack; `FrameTypes`, `TypedRuns`,
  `PointerProgram`, `FramePrograms`, `DrainPrograms`, `SafePrograms`, `SafeDrains` and `SafeSnapshots` the programs
  for which it is intact.
- **Protocols** (`Capture`, `Fetcher`, `Listener`): the capture stream of two producers, the cache of programs
  behind single flights, and the redialling listener, as steps between which the others can run.

## How to read the theorems

A state machine over values comes first, and the classes are proved to refine it, so theorems about the
values hold of the imperative code. A *fault* stands for a panic of the program, or for a read or write
outside the backing array, which the program does not check. Most theorems about runs say what holds unless the
run faults; `WholeOutput.SnapshotAddsUp` is about snapshots that finish. `Containment.WriteStaysInsideIff` says
when writing an entry faults.

Whole-output theorems speak of *orderly* runs: instructions write data where the layout has data (not over a
header), open frames and append entries between expressions only, and lengths are below 2^30. This is what
the compiler of the programs has to guarantee; the code does not check it. A run is *contained* if in addition
there is room for each entry that it writes, whether or not its data can be read; then it writes none outside the
array (`Containment.ContainedWritesInside`). `FrameTypes` is a discipline for frame programs that can be checked
instruction by instruction, before a run; `TypedRuns` proves that programs with loops, calls and pointers that
follow it are contained exactly when there is room for their entries. Straight-line programs that follow it and write
no entries of their own are contained whatever memory they read (`FramePrograms`), so for them the goroutine section
adds up unless a run faults. If they also read only inside the frame, they do not fault (`SafePrograms`), and with
types whose programs read only inside their objects a snapshot that has room for these objects finishes and adds up
(`SafeSnapshots.SafeSnapshotAddsUp`). Which programs a compiler emits is not fixed by the repository.

## Where the code and its comments differ

The model follows the code.

- `writeQueueEntry` (internal/snapshot/out_buf.go:199-207) says that the buffer is unmodified when it is full.
  It does not look at the result of the reservation: it goes on at offset 0 and overwrites the header of the
  snapshot and the records behind it. If the data does not fit the whole output, or cannot be read, it sets bit 31 of
  a word 2^32 - 16 bytes behind the start of the output, which is not its memory; if the data fits but cannot be
  read, the start of the output is zeroed before that. `Containment.EntriesAreLocalIff` and
  `Containment.WriteStaysInsideIff` say exactly when, `Overwriting.HeaderIsOverwritten` and `Overwriting.ArrayIsLeft`
  give inputs at the capacity of the program. The sum of the goroutine section is therefore proved for
  runs in which no such reservation is refused; every other way to overflow, including that of goroutine
  headers, stacks, frames and chased objects, is covered.
- On a failed dereference the same function keeps the entry, with bit 31 of its type set.
- `freeList.get` (internal/fifo/queue.go:41-49) clears the link before it reads it, so the rest of the free
  list is dropped. The queue is unaffected, and no conservation of nodes is claimed.
- Frames run from the root to the leaf (internal/snapshot/snapshot.go:231-238), against the comment above.
- A do-while loop over an empty slice does not stop (internal/snapshot/stack_machine.go:215-225); see
  `SliceLoop.EmptySliceFails`.
- Outside expressions the length of the output need not be a multiple of 8 (internal/snapshot/stack_machine.go:409-425):
  a slot may end off a boundary; see `Misalignment.SnapshotIsMisaligned`, and `Alignment.AlignmentIsKept` for the exact condition.
- The stack of the machine is not cleared between runs (internal/snapshot/stack_machine.go:191-201): a run that fails
  leaves its words to the next; see `Leftovers.StackIsLeft`, and `Leftovers.StacksStayEmpty` for the exact condition.
- Goroutines whose stacks have the same hash share the frames of the first (internal/snapshot/snapshot.go:173-249), so
  a collision of stacks of different lengths can index past the frame bases; `SafeSnapshots.HashesAgree` excludes it.
- The counter of goroutines in the header counts the one that overflowed and was cut off, too; see
  `Accounting.GoroutinesAreAccounted`.
- A goroutine without a frame pointer has its pc unshifted and its frame base unadjusted
  (internal/snapshot/unwinder.go:36-38).

## Model

| member | source | states |
|---|---|---|
| StackShape.StepKeepsShape | internal/snapshot/stack_machine.go:203-606 | an instruction of an annotated program keeps the shape of the stack (data words above return addresses), decodes inside the program and never underflows |
| StackShape.EveryStateIsShaped | internal/snapshot/stack_machine.go:191-606 | every state of a run from an empty stack, after any number of steps, is at an annotated instruction with all operand bytes inside the program and the stack shaped as annotated |
| StackShape.ReturnsMatchCalls | internal/snapshot/stack_machine.go:177-189 | every return, by a Return or by a pointer that is null or cannot be read, pops exactly the address pushed by the innermost call still open, and goes there |
| StackShape.RunIsSound | internal/snapshot/stack_machine.go:191-606 | a run of an annotated program has no decode fault and no stack fault, and one that returns true leaves the stack empty |
| Decoder.DecodeOfEncode | internal/stackmachine/op_decoder.go:174-384 | decoding at the pc finds the instruction encoded there, with all operands, and the pc right behind it |
| Decoder.ProgramRoundTrip | internal/stackmachine/op_decoder.go:174-384 | a whole program is recovered from its encoding, so operand sizes and pc movement agree |
| Decoder.OpDecoder.SetPC | internal/stackmachine/op_decoder.go:23-29 | moves the pc exactly when the target lies inside the program, and says so |
| Decoder.OpDecoder.PopOpCode | internal/stackmachine/op_decoder.go:174-178 | reads the byte at the pc and moves past it |
| Decoder.OpDecoder.DecodeOperands | internal/stackmachine/op_decoder.go:180-384 | reading operand by operand gives what Decode gives for the whole instruction, and leaves the pc behind it |
| Expression.EvaluationStaysAbove | internal/snapshot/stack_machine.go:409-463 | from PrepareExprEval on, after any number of steps, no byte below the length at which the expression was opened has changed |
| Expression.SavedEvaluation | internal/snapshot/stack_machine.go:427-442 | SaveExprResult leaves the length as it was at PrepareExprEval and changes exactly the bytes of the result slot, to the result |
| Expression.FailedEvaluation | internal/snapshot/stack_machine.go:444-463 | a null or unreadable pointer leaves length and bytes as they were at PrepareExprEval |
| Expression.SaveLands | internal/snapshot/stack_machine.go:435-442 | the result bytes arrive unaltered by the truncation; a result past the capacity is not stored |
| Alignment.AlignmentIsKept | internal/snapshot/stack_machine.go:203-606 | the length is a multiple of 8 outside expressions after an instruction if and only if the instruction is not a slot write that ends off a boundary outside an expression, nor a nested PrepareExprEval |
| Alignment.EveryStateIsAligned | internal/snapshot/stack_machine.go:191-606 | in every state of a run without such an instruction the length is a multiple of 8 unless an expression is open |
| Misalignment.SnapshotIsMisaligned | internal/snapshot/snapshot.go:251-283 | a concrete snapshot, at the capacity of 2^20 bytes, that finishes without overflow and whose header gives a length of 60: the program of a type moves past the snapshot header and writes a slot of 4 bytes |
| MachineFrame.StepIsMonotone | internal/snapshot/stack_machine.go:203-606 | from every state, for every instruction: length and end of results stay within the capacity, an overflow is never forgotten, no worklist entry is lost, reordered or repeated |
| MachineFrame.RunIsMonotone | internal/snapshot/stack_machine.go:191-606 | the same over a whole run |
| SliceLoop.SliceIsTraversed | internal/snapshot/stack_machine.go:215-225 | a loop of PushSliceLen, body, Decrement and the non-popping CondJump is, at the start of pass k, at the start of element k, runs the body once for each of the n elements, and leaves zero on the stack; the body need only run for these n passes |
| SliceLoop.PassesVisitElements | internal/snapshot/stack_machine.go:388-391 | the k-th pass starts with the offset advanced over k elements and the count lowered by k |
| SliceLoop.EmptySliceFails | internal/snapshot/stack_machine.go:215-225 | with a count of zero the loop, which tests after decrementing, is not left for as many passes as the body can be run: with less fuel the run fails, with more it goes on behind the slice |
| SliceLoop.AdvanceIsABody | internal/snapshot/stack_machine.go:405-407 | AdvanceOffset by the element size is a loop body for any number of passes |
| SliceLoop.PointersAreABody | internal/snapshot/stack_machine.go:265-272 | so is EnqueuePointer and AdvanceOffset by 8, for the passes over a slice of pointers that lies inside the output |
| SliceLoop.PointerSliceIsEnqueued | internal/snapshot/stack_machine.go:265-272 | over such a slice of n pointers the loop takes 1 + 4n steps, pushes exactly these pointers, in order, and writes nothing |
| SliceLoop.PushEachQueuesNew | internal/snapshot/queue.go:38-59 | of pointers pushed in order exactly those are queued, in that order, that are not null, not seen before and not repeated |
| SliceLoop.EmptyPointerSliceFails | internal/snapshot/stack_machine.go:215-225 | over an empty slice the same loop never returns true |
| GoContext.FirstMatchesAreFirst | internal/snapshot/stack_machine.go:150-175 | each slot is recorded at most once, and exactly the first offer for each wanted slot is recorded |
| GoContext.TakeAllIsFirstMatch | internal/snapshot/stack_machine.go:150-175 | recording along the chain equals recording only the first matches; the slots left are those never offered |
| GoContext.SlotHoldsFirst | internal/snapshot/stack_machine.go:157-162 | after the walk a slot holds the address and runtime type of the first value offered for it |
| CaptureMask.InitialIndices | internal/snapshot/stack_machine.go:527-527 | the initial mask wants exactly the first captureCount slots, at most 64 |
| CaptureMask.ClearIndices | internal/snapshot/stack_machine.go:152-155 | recording a slot clears that slot in the mask and no other |
| ContextWalk.WalkTakes | internal/snapshot/stack_machine.go:531-589 | a walk takes the offers of the links in order, at each link the value's own type before the key's, and stops with nothing else changed below its base |
| ContextWalk.EndlessWalkOverflows | internal/snapshot/stack_machine.go:532-590 | a walk that has no end has filled the output after a sixteenth of its capacity in links |
| ContextWalk.ContextIsCaptured | internal/snapshot/stack_machine.go:505-591 | PrepareGoContext leaves exactly one more entry, whose data is a cleared object with the first offers along the walk in their slots, and nothing of the walk behind it; a context seen before changes nothing |
| ContextChain.WalkFollowsChain | internal/snapshot/stack_machine.go:531-589 | the offers of a walk are a prefix of those of the chain of contexts in the memory of the process, cut short only when nothing is wanted any more, so the capture is that of the whole chain |
| ContextChain.ChainIsCaptured | internal/snapshot/stack_machine.go:505-591 | the captured object holds exactly the values that are first for their slots along the chain in memory, defined without the machine |
| ContextChain.VisitedIsObject | internal/snapshot/stack_machine.go:539-561 | what a link copies to the output and offers is what its object holds in memory |
| StackMachines.StackMachine.TakeStep | internal/snapshot/stack_machine.go:203-606 | the class decodes and executes one instruction, updating its fields, the output and the worklist in place, as the step function does; every theorem about steps holds of it |
| StackMachines.StackMachine.Run | internal/snapshot/stack_machine.go:191-608 | the loop of at most 100000 instructions ends with the result and the state of the machine on values |
| OutBuffer.OutBuf.GetEntryLen | internal/snapshot/out_buf.go:23-26 | the length field of the entry whose data starts at the offset |
| OutBuffer.OutBuf.PrepareFrameData | internal/snapshot/out_buf.go:29-66 | frame header, entry header, room for the padded data, and program and depth behind the data; refused without change but the overflow flag |
| OutBuffer.OutBuf.ConcludeFrameData | internal/snapshot/out_buf.go:68-70 | the header becomes the length of everything appended behind it |
| OutBuffer.OutBuf.Zero | internal/snapshot/out_buf.go:84-92 | zeroes exactly the range, or nothing if its end is past the capacity |
| OutBuffer.OutBuf.Copy | internal/snapshot/out_buf.go:97-107 | copies byte by byte from the front, or nothing if an end is past the capacity |
| OutBuffer.OutBuf.Dereference | internal/snapshot/out_buf.go:113-126 | copies the memory, or zeroes the range if it cannot be read |
| OutBuffer.OutBuf.EnsureLen | internal/snapshot/out_buf.go:133-143 | grows to the length, or sets the overflow flag and changes nothing else |
| OutBuffer.OutBuf.WriteSnapshotHeader | internal/snapshot/out_buf.go:149-158 | grows by 56 bytes or sets the overflow flag |
| OutBuffer.OutBuf.WriteGoroutineHeader | internal/snapshot/out_buf.go:162-169 | grows by 40 bytes or sets the overflow flag |
| OutBuffer.OutBuf.Truncate | internal/snapshot/out_buf.go:175-177 | sets the length and leaves the bytes and the flag |
| OutBuffer.OutBuf.ReserveQueueEntry | internal/snapshot/out_buf.go:179-194 | appends an entry header and room for its padded data, or is refused |
| OutBuffer.OutBuf.WriteQueueEntry | internal/snapshot/out_buf.go:199-207 | the entry with its data; flagged if unreadable; at offset 0 if the reservation was refused |
| OutBuffer.OutBuf.WriteStack | internal/snapshot/out_buf.go:209-218 | appends the program counters, 8 bytes each, or is refused |
| Buffer.CopyOfDisjoint | internal/snapshot/out_buf.go:97-107 | a copy between disjoint ranges moves exactly the source bytes |
| Buffer.CopyIsLocal | internal/snapshot/out_buf.go:97-107 | a copy changes nothing outside its destination, even between overlapping ranges |
| BufferFacts.WriteEntryFits | internal/snapshot/out_buf.go:199-207 | an entry for which there is room is appended with its padding, its header flagged exactly if the data cannot be read, its data the memory or zero |
| Containment.RefusedEntryOverwritesStart | internal/snapshot/out_buf.go:199-207 | a refused entry that fits the array and can be read replaces the start of the output by its own data |
| Containment.WriteStaysInsideIff | internal/snapshot/out_buf.go:199-207 | writing an entry stays inside the backing array if and only if there is room for it, or it was refused but fits the array from offset 0 on and can be read |
| Containment.RefusedEntryLeavesArray | internal/snapshot/out_buf.go:179-203 | every other refused entry first has its length zeroed from offset 0 on, if it fits the array, and then is flagged at offset 2^32 - 16, outside the array |
| Containment.EntriesAreLocalIff | internal/snapshot/out_buf.go:179-207 | whatever the memory, an entry stays inside the array and leaves what was written before it alone if and only if there is room for it or it has no data; also if its data is known to be readable |
| Containment.EntriesStayInside | internal/snapshot/stack_machine.go:336-591 | an orderly instruction with room for each entry it writes, that of a subroutine, of a pointer, of a context object and of each link of its walk, writes none of them outside the array, whether or not it can be read |
| Containment.ContainedWritesInside | internal/snapshot/stack_machine.go:191-606 | in a contained run no instruction writes an entry outside the array |
| Framing.ReadEntriesFinds | internal/snapshot/out_buf.go:179-194 | a reader that steps by 16 plus the padded length recovers exactly the entries and lands exactly on their end, if and only if they lie there |
| Framing.ReadFramesFinds | internal/snapshot/out_buf.go:29-70 | a reader that steps by the back-patched lengths lands on every frame end and recovers every entry |
| FramedRun.SectionExec | internal/snapshot/stack_machine.go:203-606 | an orderly instruction leaves the output laid out as predicted, and nothing below its start changed |
| FramedRun.RunIsFramed | internal/snapshot/stack_machine.go:191-606 | a run of orderly instructions in which every reservation fits leaves frames and entries where the reader finds them |
| FramedRun.SectionIsReadable | internal/snapshot/out_buf.go:68-70 | the reader recovers all frames and all entries behind them, and lands on the length of the output |
| Fifo.Queue.PushBack | internal/fifo/queue.go:75-86 | appends; the returned place is where the element stays, and no queued element moves |
| Fifo.Queue.PeekFront | internal/fifo/queue.go:92-97 | the first element, if there is one |
| Fifo.Queue.PopFront | internal/fifo/queue.go:102-110 | removes the first element; no other moves |
| Fifo.Queue.GetNode | internal/fifo/queue.go:41-49 | a clean node, from the free list or new; the rest of the free list is lost, as the link is cleared before it is read |
| Fifo.Queue.PutNode | internal/fifo/queue.go:51-56 | a drained node goes to the front of the free list |
| Fifo.Queue.PlacesAreDistinct | internal/fifo/queue.go:75-86 | no two queued elements share a node and slot |
| Fifo.Queue.NodesAreFew | internal/fifo/queue.go:75-110 | a queue of n >= 2 elements has at most (n - 2) / 128 + 2 nodes |
| Fifo.Queue.UnusedSlotsAreZero | internal/fifo/queue.go:117-145 | free nodes are not in the chain, chain nodes are not empty, and a slot that is not zero holds a queued element |
| Fifo.QueueNode.PushBack | internal/fifo/queue.go:127-132 | appends to the ring at the slot behind the last element |
| Fifo.QueueNode.PopFront | internal/fifo/queue.go:138-145 | removes the first element of the ring and zeroes its slot |
| Ring.PopRemovesFirst | internal/fifo/queue.go:138-145 | popping a ring removes its first element, across the wrap, and keeps the unused slots zero |
| Ring.LocateIsInjective | internal/fifo/queue.go:117-145 | different elements of packed rings lie in different slots |
| Worklist.Queue.Push | internal/snapshot/queue.go:50-59 | pushes an address and type not seen before, and nothing else |
| Worklist.Queue.Pop | internal/snapshot/queue.go:29-36 | takes the first entry, or says that there is none |
| Worklist.Queue.ShouldRecord | internal/snapshot/queue.go:38-48 | true once for each address other than null and type |
| Worklist.PushKeepsInv | internal/snapshot/queue.go:50-59 | the keys seen are exactly those queued at some time and those recorded, each once |
| Worklist.SeenIsCounted | internal/snapshot/queue.go:38-59 | the number of keys seen is the number of entries popped, queued and recorded |
| Worklist.PopThenGrowDecreases | internal/snapshot/snapshot.go:251-283 | a pop followed by any pushes lowers (unseen keys, queue length) lexicographically |
| Draining.EntryMakesProgress | internal/snapshot/snapshot.go:251-283 | processing an entry, whatever memory is walked, makes progress and only extends the history of the worklist |
| Draining.ProcessedIsClosed | internal/snapshot/snapshot.go:251-283 | entries are popped in first-push order, and if the output did not overflow every key seen was popped or recorded |
| Draining.PoppedOnce | internal/snapshot/snapshot.go:251-283 | no address and type is popped twice |
| Snapshots.SnapshotIsClosed | internal/snapshot/snapshot.go:94-115 | the same over a whole snapshot, from the static variables and all goroutines on |
| Snapshotters.Snapshotter.Classify | internal/snapshot/snapshot.go:213-217 | the program of the range a pc lies in, by bisection |
| Snapshotters.Snapshotter.FramesOfInterest | internal/snapshot/snapshot.go:212-223 | the frames that have a program, leaf first |
| Snapshotters.Snapshotter.VisitFrames | internal/snapshot/snapshot.go:231-238 | runs the frames from the end of the list, root first, until one fails |
| Snapshotters.Snapshotter.SnapshotGoroutine | internal/snapshot/snapshot.go:173-249 | skips and counts as the status says, and writes the record |
| Snapshotters.Snapshotter.AppendData | internal/snapshot/snapshot.go:231-248 | runs the frames and writes the header over the room left for it |
| Snapshotters.Snapshotter.SnapshotGoroutines | internal/snapshot/snapshot.go:102-109 | takes every goroutine and truncates one that overflowed |
| Snapshotters.Snapshotter.ProcessPopped | internal/snapshot/snapshot.go:252-271 | clamps the length to that of the type; unknown and empty objects are dropped |
| Snapshotters.Snapshotter.SerializeObject | internal/snapshot/snapshot.go:271-282 | writes the entry if the type asks for it and runs the program of the type |
| Snapshotters.Snapshotter.ProcessQueue | internal/snapshot/snapshot.go:251-283 | the loop ends, in the state that draining the worklist on values ends in |
| Snapshotters.Snapshotter.TakeSnapshot | internal/snapshot/snapshot.go:68-130 | header, static variables, goroutines, worklist and lengths, in that order |
| Snapshots.SearchFindsLeast | internal/snapshot/snapshot.go:214-216 | on a sorted list the bisection finds the least index at which the value is not above the element |
| Snapshots.InterestingIff | internal/snapshot/snapshot.go:212-223 | a frame is of interest if and only if the range of its pc has a program; frames are listed once, leaf first |
| Records.ReadRecordsFinds | internal/snapshot/snapshot.go:173-249 | a reader that steps by 40 plus the data length visits exactly the records and lands on their end |
| Accounting.FramesStayAbove | internal/snapshot/snapshot.go:225-238 | the runs for a goroutine leave everything before its data alone, even if they overflow; if they complete their frames the data is a sequence of frames |
| Accounting.GoroutineIsAccounted | internal/snapshot/snapshot.go:102-109 | a goroutine is skipped, or gets a record with its id, status and stack hash, with a stack if and only if no earlier record has that hash; or it is cut off and the records before it are intact |
| Accounting.GoroutinesAreAccounted | internal/snapshot/snapshot.go:102-113 | the records are those of the live goroutines up to the first that overflowed; the header counts them and that one |
| Containment.RunStaysAbove | internal/snapshot/stack_machine.go:191-606 | an orderly run in which there is room for each entry, readable or not, leaves everything below its start alone, even if it overflows, and then fails |
| Containment.OverflowIsClean | internal/snapshot/stack_machine.go:203-606 | any instruction but the three that write entries overflows without changing anything else, and fails the run |
| WholeOutput.DrainGrows | internal/snapshot/snapshot.go:251-283 | draining leaves the goroutine section alone; unless the output overflows it is laid out as a function of the run says, with the object of every entry popped that is to be serialized, flagged if unreadable |
| WholeOutput.SnapshotAddsUp | internal/snapshot/snapshot.go:68-130 | the finished header gives the length of the output and of the goroutine section; a reader from byte 56 visits exactly the kept records and ends where the header says; records without a stack have an earlier one with the same hash; unless the output overflowed, what follows is laid out as the drain says and holds every object; and if each program of a type closes what it opens and opens no frames, a reader of the entries from there on lands exactly on the length in the header |
| FrameTypes.AllowedIsOrderly | internal/snapshot/stack_machine.go:203-606 | an instruction that the frame discipline allows writes data only where data belongs |
| FrameTypes.AllowedKeepsMode | internal/snapshot/stack_machine.go:203-606 | and leads to a state of the mode that the discipline predicts |
| TypedRuns.TypedRunIsContained | internal/snapshot/stack_machine.go:191-606 | a run of any program, with loops, calls and pointers, that follows the discipline along every edge is contained if and only if there is room for each entry it writes, readable or not; then none is written outside the array, and it returns true only with every frame closed and the stack empty |
| PointerProgram.IsWellTyped | internal/snapshot/stack_machine.go:444-463 | a concrete program with a call and a pointer dereference follows the discipline |
| PointerProgram.PointerProgramIsContained | internal/snapshot/stack_machine.go:444-463 | so its runs are contained unless there is no room for an entry, whatever the memory |
| FramePrograms.StraightCloses | internal/snapshot/stack_machine.go:409-503 | a straight-line frame program, of any number of expressions, presence bits and enqueues in any order the discipline allows, is contained from every state with an empty stack, whatever the memory, and unless it overflows or faults returns true with the frame complete and the stack empty |
| FramePrograms.FrameIsStraight | internal/snapshot/stack_machine.go:409-503 | a frame with any list of slots, each loaded, marked present and possibly enqueued, is such a program |
| FramePrograms.SnapshotIsContained | internal/snapshot/snapshot.go:102-109 | with straight-line frame programs every list of goroutines is contained, whatever the memory |
| FramePrograms.FrameProgramsAddUp | internal/snapshot/snapshot.go:102-113 | so the goroutine section of such a snapshot adds up unless a run faults, with every record's data a sequence of frames |
| SafePrograms.AllowedIsSafe | internal/snapshot/stack_machine.go:255-503 | an instruction that reads and writes inside the frame, its trailer, or what an expression has loaded does not fault, and leads to the predicted mode |
| SafePrograms.SafeRuns | internal/snapshot/stack_machine.go:191-606 | a straight-line program of such instructions, run from an empty stack, does not fault, whatever the memory holds and wherever the output ends |
| SafePrograms.FrameIsSafe | internal/snapshot/stack_machine.go:409-503 | a frame with any list of slots in it is such a program |
| SafeSnapshots.EncodedFrameIsSafe | internal/stackmachine/op_decoder.go:174-384 | also when it is encoded, anywhere in the program memory, and decoded again |
| SafeSnapshots.SnapshotNeverFails | internal/snapshot/snapshot.go:102-109 | with such frame programs every list of goroutines is taken without a fault, if goroutines with the same stack hash have stacks of the same length |
| SafeSnapshots.SafeProgramsAddUp | internal/snapshot/snapshot.go:102-113 | under that condition on hashes the goroutine section adds up: the snapshot is taken, and its records are those of the live goroutines up to the first that overflowed |
| DrainPrograms.QuietRuns | internal/snapshot/stack_machine.go:227-335 | a program of a type that moves over its object, enqueues what it refers to, resolves interfaces inside it and returns is contained, leaves layout, length and stack as they are, and returns true unless it faults, whatever the memory |
| DrainPrograms.QuietDrainIsContained | internal/snapshot/snapshot.go:251-283 | with such types, or types without a program, draining is contained and leaves complete entries only, if and only if there is room for each object that is serialized |
| SafeDrains.DrainNeverFaults | internal/snapshot/snapshot.go:251-283 | if these programs read inside their objects, and there is room for whole objects, draining ends without a fault |
| SafeSnapshots.FrameShotIsKept | internal/snapshot/snapshot.go:102-109 | with straight-line frame programs the goroutines leave an empty stack to the drain, unless the output overflowed |
| SafeSnapshots.QuietSnapshotAddsUp | internal/snapshot/snapshot.go:68-130 | a finished snapshot with straight-line frame programs and such types adds up as soon as there was room for the objects: a reader visits the records and, unless the output overflowed, from there on the objects, among which is every one popped, and lands on the length in the header |
| SafeSnapshots.SafeSnapshotAddsUp | internal/snapshot/snapshot.go:68-130 | with safe frame programs and safe types, room for the objects, and that condition on hashes, the snapshot finishes without a fault and adds up in this way, whatever the memory |
| Leftovers.RunEmptiesStack | internal/snapshot/stack_machine.go:177-201 | a run of any program that returns true leaves an empty stack, whatever was on it before |
| Leftovers.StackAfterGoroutine | internal/snapshot/snapshot.go:173-249 | a goroutine leaves the stack as its last run left it, or untouched if it has no runs |
| Leftovers.StacksStayEmpty | internal/snapshot/snapshot.go:102-109 | all runs for the goroutines start on an empty stack if and only if each run that fails with room left does so with an empty stack |
| Leftovers.StackIsLeft | internal/snapshot/snapshot.go:231-238 | a concrete snapshot in which a run fails with room left and leaves a word on the stack: a program that only returns then fails, where from an empty stack it succeeds |
| Overwriting.RefusedObjectOverwritesStart | internal/snapshot/snapshot.go:271-281 | for every snapshot and type, an object serialized without room replaces the output from the header on by its bytes, and then the program of its type is run |
| Overwriting.RefusedObjectLeavesArray | internal/snapshot/snapshot.go:271-276 | if it is larger than the output or cannot be read, the program writes outside the array |
| Overwriting.HeaderIsOverwritten | internal/snapshot/snapshot.go:150-150 | a concrete snapshot, at the capacity of 2^20 bytes, of one object of that size: the header then gives a goroutine section of 2^32 - 1 bytes |
| Overwriting.ArrayIsLeft | internal/snapshot/snapshot.go:150-150 | concrete snapshots at that capacity that write outside the array: an object of 2 MiB, and an unreadable one of 1 MiB |
| Murmur.Murmur2 | internal/snapshot/snapshot.go:303-317 | the loop computes the hash |
| Murmur.MixKeyIsBijective | internal/snapshot/snapshot.go:308-311 | multiply, xor-shift, multiply can be undone |
| Murmur.AbsorbIsBijective | internal/snapshot/snapshot.go:313-314 | absorbing a frame is a bijection of the running hash |
| Murmur.SeedIsBijective | internal/snapshot/snapshot.go:303-317 | for a fixed stack the hash is a bijection of the seed |
| Murmur.FrameIsBijective | internal/snapshot/snapshot.go:303-317 | for a fixed rest of the stack the hash is a bijection of each frame |
| Murmur.SingleFrameDifferenceSeparates | internal/snapshot/snapshot.go:303-317 | two stacks of equal length that differ in exactly one frame have different hashes |
| Unwinding.Unwinder.WalkStack | internal/snapshot/unwinder.go:32-63 | the buffers hold the pcs and frame bases of the recursively defined chain |
| Unwinding.AdjustCFA | internal/snapshot/unwinder_arm64.go:10-16 | the loop, which reads ahead of its writes, computes the pure shift, with the top of the stack last, and touches nothing behind |
| Unwinding.ChainIsUnique | internal/snapshot/unwinder.go:39-58 | the chain is the only list that starts at the frame, follows the saved frame pointers, and ends only at a null or unreadable one or at the bound |
| Unwinding.BasesFollowTheChain | internal/snapshot/unwinder.go:32-63 | each frame base is 8 above the frame pointer of its caller, each pc is shifted by the base modulo 2^64 |
| Capture.ChunksIff | internal/server/server.go:353-371 | the chunks are the only way to cut the data into full chunks of 64 KiB and a last one that is not empty |
| Capture.RunCpuProfile | internal/server/server.go:316-383 | sends start, chunks and completion, or an initial part of these |
| Capture.ReadChunk | internal/server/server.go:437-450 | reads of any size fill exactly one chunk, or what is left |
| Capture.RunExecutionTrace | internal/server/server.go:385-473 | whatever the sizes of writes and reads, sends start, chunks and completion, or an initial part of these |
| Capture.SplittingIff | internal/server/server.go:497-518 | a stream is an interleaving of two producers' messages if and only if it splits into them |
| Capture.ScheduleInterleaves | internal/server/server.go:511-518 | under any order in which the producers get the lock, the stream interleaves what they sent so far |
| Capture.CaptureRoundTrip | internal/server/server.go:283-314 | in a successful capture each producer's messages are start, chunks, completion, only the last chunk may be short, and its data is recovered |
| Capture.FailedCaptureSplits | internal/server/server.go:283-314 | a producer that failed leaves an initial part of its messages, and the other is unaffected |
| Fetcher.Cache.Insert | internal/server/fetcher.go:72-82 | evicts just enough, whichever entries they are, and inserts; at most max(1, capacity) entries |
| Fetcher.RetryLoop | internal/server/fetcher.go:63-95 | ends with the first round that gives no reason to retry |
| Fetcher.StepKeepsInv | internal/server/fetcher.go:51-97 | every step of every caller keeps: bounded cache, provenance of every result, one flight for each key |
| Fetcher.EveryStateIsSafe | internal/server/fetcher.go:51-97 | in every reachable state the cache has at most max(1, capacity) entries, every cached or returned result came from a fetch of its key, at most one caller fetches a key, and a caller with a live context returns no cancellation but its own fetch's |
| Fetcher.WaitersAreServed | internal/server/fetcher.go:63-95 | no caller waits for a flight that nobody can land |
| Listener.StepKeepsInv | internal/serverdial/server_dial.go:79-138 | every step of the goroutine and of all callers keeps the invariant |
| Listener.EveryStateIsSafe | internal/serverdial/server_dial.go:191-197 | in every reachable state at most one dialled connection is unclosed, no onClose is closed twice, and every Close returns the error of the one close |
| Listener.ClosedForever | internal/serverdial/server_dial.go:269-273 | once a Close of the listener has returned, the status is Disconnected and nothing is dialled, in every later state |
| Listener.StepKeepsStatus | internal/serverdial/server_dial.go:88-98 | the status is Connected while a connection is offered or held, Disconnected once the goroutine is finishing, and done is never undone |

## Left out

- ContextWalk.WalkTakes: the walk has a budget of links as a parameter, where the program loops without bound. `ContextWalk.EndlessWalkOverflows` says what an endless walk does to the output. Holds when the offsets that type descriptions give lie inside their objects and no reservation was refused during the walk.
- ContextWalk.ContextIsCaptured: the same, for outputs that did not overflow; a refused entry is `Containment.RefusedEntryOverwritesStart`.
- Expression.EvaluationStaysAbove: the instructions in between may not move the offset below the expression or address past 2^32, and reservations fit.
- Expression.FailedEvaluation: says nothing when the failing pointer itself overflows the output.
- FramedRun.RunIsFramed: for orderly runs, as described above, and outputs that did not overflow.
- Accounting.GoroutineIsAccounted: for contained runs; refused entries overwrite the start of the output.
- WholeOutput.SnapshotAddsUp: for contained runs, for the same reason, and for snapshots that do not fault. The reader of the entries behind the goroutine section needs that each program of a type closes its expressions and opens no frames; without that the theorem says where the entries are, but not that a reader ends on the length.
- TypedRuns.TypedRunIsContained: for annotated programs; frames are opened and closed outside subroutines, pointers are followed inside them, and the offset is not moved while an expression is open.
- FramePrograms.FrameProgramsAddUp: for straight-line programs that write no entries, and unless a run faults; `SafeSnapshots.SafeProgramsAddUp` is for those that do not. Loops, calls and pointers are covered by `TypedRuns.TypedRunIsContained`, run by run, for runs that start on an empty stack; see `Leftovers.StacksStayEmpty`.
- DrainPrograms.QuietDrainIsContained: programs of types are straight lines here, with interfaces but without loops, calls, subroutine entries, Go contexts or objects copied by the program itself; for these the drain theorems are about contained runs.
- SafeSnapshots.SafeSnapshotAddsUp: for straight-line programs, and with room for the objects, which depends on the memory; without room see `Overwriting.RefusedObjectOverwritesStart`.
- ContextChain.ChainIsCaptured: as `ContextWalk.ContextIsCaptured`, for at most as many links as the budget.
- OutBuffer.OutBuf.WriteQueueEntry: what a write outside the backing array does to other memory is not modelled; the method reports it.
- StackMachines.StackMachine.Run: a context walk that uses up its budget of links is a fault, where the program goes on.
- StackShape.RunIsSound: faults other than decoding and the stack (an offset outside the output, a missing frame header, division by an element size of zero, an illegal instruction) remain possible; annotations do not describe them.
- SliceLoop.SliceIsTraversed: the body is described by a condition that may depend on the pass; it keeps the stack and moves the offset over one element. A body that ends the run in some pass is covered up to that pass.
- Capture.RunExecutionTrace: the pipe is the list of writes to come and how it is closed; cancellation is a pipe closed with an error, and whether shutdown terminates is not modelled.
- Listener.EveryStateIsSafe: safety only. The goroutine does not notice a Close while it offers a connection, so that Close may not return is possible in the model as in the program.
- Fetcher.WaitersAreServed: says that a step is possible, not that it is taken; the single-flight group is assumed to run one function for each key and to hand its result to all who joined.
- Buffer capacity, program length and the length of the output are below 2^31; the program uses 2^20 for the first.
- Memory of the stopped process is a map from addresses to bytes that does not change during a snapshot; partial copies before a failed read are not visible.
- The list of goroutines, with their registers, is an input; how it is found is not modelled, nor is stopping the world.
- Times, durations, the last collection and the other statistics in the snapshot header besides the two counters are not written.
- The instruction that dereferences an arbitrary address is a fault; the two for contexts that the program ignores, and unknown codes, do nothing.
- The amd64 variant of the frame base adjustment, which adds a constant to each element.
- Generated message code, the other services of the server, the client, hashing of the executable, URL parsing and the header written to a dialled connection (only whether writing it succeeded).
