# Verified models from the M5 simulator and its DCPT prefetcher

Dafny models of eight parts of the tree, each in the form the source has: classes and loops where
the code updates state, functions where it computes. Every part is proved against an independent
description of what it is for, over every input or every run.

- **FastAlloc** (`FastAlloc.dfy`): the bucketed free-list allocator. Memory is a map from addresses
  to stored words; the free lists are threaded through it exactly as the code does. The reference is
  a set of books (blocks carved, blocks live, free lists, refills); every run of legal calls keeps
  blocks apart, the lists acyclic and null-terminated, and per bucket live + free = 20 × refills.
- **Decode blocks** (`DecodeBlocks.dfy`): the parser actions that turn nested `decode` blocks into
  nested C `switch` code. The generated code is run with C fall-through and compared with direct
  lookup in the tree under the nearest enclosing default.
- **Critical-path annotator** (`CpaRecords`, `CpaQueues`, `CpaTables`, `CpaLog`, `CpaSpec`,
  `CpaInvariant`, `CpaSteps`, `CpaCalls`, `CpaEffects`, `CpaAnnotator`, `CpaCheckpoint`, `CpaAlike`,
  `CpaResume`): byte-counted queues, interning tables, the ordered log with held records, state-machine stacks and
  links, saving and restoring all of it, and carrying on from there. `CpaSpec` says for each call
  what state it leads to or that it stops the simulation; the class in `CpaAnnotator` follows it
  step by step; `CpaSteps`, `CpaCalls` and `CpaEffects` say what every call and every run keeps,
  undoes, needs and leaves behind.
  Record pointers are indexes into a store that only grows, so aliasing between the log, the queues
  and the held links is kept.
- **libelf** (`ElfDescriptors.dfy`, `ElfLayout.dfy`, `ElfStrings.dfy`): lifetimes of descriptors and
  archive members; the file layout the library chooses, against chapter 4 ("Sections") of the
  System V gABI; and string lookup by offset, in both of its forms, compared after layout.
- **CRC-32** (`Crc32.dfy`): the bitwise reference, the nibble table and the mirrored form, the bursts
  it detects, and the residue of a frame with its FCS field (clause 3.2.9 of IEEE 802.3).
- **DCPT prefetcher** (`Prefetcher.dfy`): the history table as a replay of the accesses, the
  candidates, and the in-flight set over any run of accesses and completions with any answers of
  the simulator.
- **Internet checksum** (`InternetChecksum.dfy`): the unrolled summation and the fold, against
  sections 1 and 4.1 of RFC 1071 and section 3.1 of RFC 791, on hosts of either byte order.
- **CircleBuf** (`CircleBuf.dfy`): `readall` against the plain history of the bytes written, and the
  copies of the partial reads against the bounds of the buffer.

What the operating system, the system allocator, the cache and the guest decide comes in as
parameters: the address of a new chunk, the kind of file found, the answers of the miss queue, the
cache and the prefetch queue, the arguments of guest calls, the clock.

Where the code does not do what one would expect, the code is followed, the case is shown, and the
exact condition is proved:

- A nested `decode` case ends without `break`, so code that does not return falls into the next
  case (`DecodeBlocks.FallThroughIntoNextCase`); the switch returns the decoded instruction exactly
  when that instruction's code returns (`DecodeBlocks.SwitchReturnsDecoded`).
- A block without any default, own or inherited, is an error in the parser
  (`DecodeBlocks.AcceptsExactly`).
- An empty state-machine stack is not restored from a checkpoint. One state announced without a
  running machine makes one (`CpaCheckpoint.EmptyStackReached`); stacks come back unchanged exactly
  when none is empty (`CpaCheckpoint.StacksRestoredIff`). Held system-call links are not saved, one
  such call makes one (`CpaCheckpoint.HeldLinkReached`); they come back unchanged exactly when no
  record is held (`CpaCheckpoint.LinksRestoredIff`). Of the pending log exactly the queued records
  come back, with `orig_data` equal to what remained (`CpaCheckpoint.QueuedIsRestored`,
  `CpaCheckpoint.RestoredIsQueued`). With no link held every further run from the restored state is
  like the run without a checkpoint (`CpaResume.CarriesOn`); with one held two further calls tell them
  apart (`CpaResume.HeldLinkDiffers`, `CpaResume.CarriesOnIff`).
- The table of symbols that are not to become states is made by stringizing string literals, so each
  entry keeps its quotes and its terminating zero, and no C string ever matches one
  (`CpaSpec.NothingIgnored`).
- Queued negative counts can drive what is still to be removed out of 32 bits, though enough bytes are
  there (`CpaSteps.OverflowHappens`); the model stops there. The exact condition is part of
  `CpaCalls.QueueGoesIff`, and it never arises without negative counts (`CpaSteps.DequeueDrops`,
  `CpaSteps.ResizeSets`).
- State numbers have no limit but their field in a record has 16 bits: `CpaSpec.Record` cuts them.
- Ending a state machine looks at the top of the stack before checking that there is one: it is
  undefined, here a stop, exactly on an empty stack (`CpaCalls.EndPops`). Beginning a machine with a
  link from the running one always stops while a system-call link is held for it
  (`CpaCalls.BeginGoesIff`).
- Laying out a section spaces its descriptors by the largest alignment, looking a string up by
  adding sizes uses each descriptor's own: the two differ for mixed alignments
  (`ElfStrings.MixedAlignmentsDisagree`) and agree exactly under the condition `SameStarts`
  (`ElfStrings.LookupsAgreeIff`).
- A candidate 0 equals the never-updated `last_prefetch`, so it empties the list while its block
  stays reserved: four accesses of one instruction walking down to address 64 do it
  (`Prefetcher.ReservedButDropped`). An access keeps in-flight and outstanding blocks equal exactly
  when no such candidate comes with or after a reservation, at most 19 are reserved and the queue has
  room for them (`Prefetcher.LeakFreeIff`). What is not issued stays in flight until some completion
  names its block (`Prefetcher.StaysInFlight`), and at 100 in flight no access issues anything
  (`Prefetcher.Starves`).
- A write can leave `_start` one past the buffer, after which a read copies a negative length from
  outside it: writes of 6, 8 and 6 bytes into 10 (`CircleBuf.ReadLeavesBuffer`). Reads stay inside
  exactly when `_start` is at most the buffer length and the length is not negative
  (`CircleBuf.ReadInsideIff`, `CircleBuf.RestInsideIff`); `CircleBuf.StartLeavesIff` says which writes
  cause it.
- For fewer than two bytes the checksum loop still reads sixteen words (`InternetChecksum.CksumAdd`).

## Model

| member | source | states |
|---|---|---|
| FastAlloc.BucketFor | m5/src/base/fast_alloc.hh:149-153 | the bucket's block is the smallest multiple of the quantum that holds the size, and the size has a bucket exactly when it is at most 512 |
| FastAlloc.TakeFreeOk | m5/src/base/fast_alloc.hh:155-177 | taking the head of a free list keeps blocks apart, lists exact and counts conserved |
| FastAlloc.RefillOk | m5/src/base/fast_alloc.cc:55-74 | carving an unused chunk into twenty blocks keeps all of that |
| FastAlloc.GiveBackOk | m5/src/base/fast_alloc.hh:179-195 | freeing a live block into its own bucket keeps all of that |
| FastAlloc.StepOk | m5/src/base/fast_alloc.hh:155-195 | every legal call keeps the books in order |
| FastAlloc.RunOk | m5/src/base/fast_alloc.hh:155-195 | so does every run of legal calls |
| FastAlloc.Conservation | m5/src/base/fast_alloc.hh:155-195 | after any run, live plus free blocks of a bucket are twenty per refill |
| FastAlloc.HeldIsLive | m5/src/base/fast_alloc.hh:155-195 | the blocks a bucket has handed out are its refills' blocks less its free list |
| FastAlloc.NewBlockIsPrivate | m5/src/base/fast_alloc.hh:155-177 | a block returned after any run was not live, is now the only new live one, is large enough and lies apart from every other block |
| FastAlloc.FreeThenAllocate | m5/src/base/fast_alloc.hh:155-195 | a freed block is the next of its bucket to be handed out, and then all is as before |
| FastAlloc.FollowLinked | m5/src/base/fast_alloc.hh:155-195 | following the pointers stored in the blocks visits exactly the listed blocks in order and then meets null |
| FastAlloc.FastAlloc.constructor | m5/src/base/fast_alloc.cc:47-53 | all lists empty, all counters zero |
| FastAlloc.FastAlloc.MoreStructs | m5/src/base/fast_alloc.cc:55-74 | nineteen of the twenty blocks are threaded from the chunk's start, the last is returned, nothing outside the chunk is written |
| FastAlloc.FastAlloc.Allocate | m5/src/base/fast_alloc.hh:155-177 | the first free block of the bucket, or the last of twenty new ones with the other nineteen listed in address order; size 0 is refused, sizes above 512 are the system's; lists, memory and counters follow |
| FastAlloc.FastAlloc.Deallocate | m5/src/base/fast_alloc.hh:179-195 | the block goes to the head of its bucket's list with the old head stored in it, is counted, and is no longer live |
| FastAlloc.FastAlloc.ClientWrite | m5/src/base/fast_alloc.hh:155-195 | clients writing anything inside live blocks never damage a free list |
| FastAlloc.Play | m5/src/base/fast_alloc.hh:155-195 | the real allocator refines the books over every legal run |
| DecodeBlocks.SwitchReturnsDecoded | m5/src/arch/isa_parser.py:1515-1622 | the generated switch, run with C fall-through, returns the instruction of direct lookup if and only if that instruction's code returns |
| DecodeBlocks.BlockDecodes | m5/src/arch/isa_parser.py:1515-1622 | the inductive form: under any inherited default, format and remaining bits |
| DecodeBlocks.LabelsSelect | m5/src/arch/isa_parser.py:1626-1637 | the generated labels are exactly the constants of the list, or default |
| DecodeBlocks.RunReturnsReturning | m5/src/arch/isa_parser.py:1605-1622 | generated code only ever returns an instruction whose code returns |
| DecodeBlocks.AcceptsExactly | m5/src/arch/isa_parser.py:1515-1679 | code is generated exactly for blocks with known formats, at most one default case each, and some default to use |
| DecodeBlocks.NearestDefaultWins | m5/src/arch/isa_parser.py:1526-1545 | if no statement of the innermost block reached is for the word, the switch returns the instruction written as default in the innermost block on the way that names one, in the format in force there, or the inherited one |
| DecodeBlocks.MatchedDecodes | m5/src/arch/isa_parser.py:1590-1622 | otherwise the word decodes to the instruction picked there, in its explicit format or the one in force |
| DecodeBlocks.PicksRight | m5/src/arch/isa_parser.py:1574-1622 | the statement picked lists the value, or is the default statement if none does |
| DecodeBlocks.OwnDefaultShadows | m5/src/arch/isa_parser.py:1538-1545 | a block that names a default is translated the same whatever it inherits |
| DecodeBlocks.FormatShadows | m5/src/arch/isa_parser.py:1574-1601 | so is a format block, whatever format surrounds it |
| DecodeBlocks.FormatRules | m5/src/arch/isa_parser.py:1574-1679 | an instruction without a format of its own inside a format block gets that block's |
| DecodeBlocks.InnerDefaultWins | m5/src/arch/isa_parser.py:1526-1545 | of two nested defaults the inner one is returned |
| DecodeBlocks.FallThroughIntoNextCase | m5/src/arch/isa_parser.py:1605-1613 | a tree whose nested block does not return and falls into the next case |
| DecodeBlocks.Parser.constructor | m5/src/arch/isa_parser.py:1064-1068 | the format stack holds no format and the default stack nothing |
| DecodeBlocks.Parser.Instruction | m5/src/arch/isa_parser.py:1655-1679 | an explicit known format wins over the one on top of the stack, which serves if there is none; an unknown or missing one is an error |
| DecodeBlocks.Parser.OptDefault | m5/src/arch/isa_parser.py:1530-1545 | pushes the default just written, in its own format or the one in force, or else the one on top again |
| DecodeBlocks.Parser.DecodeBlock | m5/src/arch/isa_parser.py:1515-1524 | produces the reference code and leaves both stacks as found |
| DecodeBlocks.Parser.StatementList | m5/src/arch/isa_parser.py:1547-1555 | two default cases are an error; otherwise the code in order, stacks as found |
| DecodeBlocks.Parser.Statement | m5/src/arch/isa_parser.py:1574-1622 | each of the four statements, stacks as found |
| DecodeBlocks.Parse | m5/src/arch/isa_parser.py:1515-1679 | a whole block succeeds exactly when it is acceptable |
| CpaQueues.UnitsCount | m5/src/base/cp_annotate.cc:968-1051 | with unsigned counts, a queue's bytes are the number of its units |
| CpaQueues.ShrinkHead | m5/src/base/cp_annotate.cc:1034-1036 | taking bytes off the first record drops exactly that many leading units |
| CpaQueues.ShrinkTail | m5/src/base/cp_annotate.cc:645-647 | taking bytes off the last record drops exactly that many trailing units |
| CpaQueues.NeverRunsDry | m5/src/base/cp_annotate.cc:1025-1032 | while bytes remain to be removed a record is left, so the `fatal` in the loop is unreachable |
| CpaQueues.RemoveHead | m5/src/base/cp_annotate.cc:1037-1045 | popping a used-up first record keeps what is removed plus what is left equal to what was there |
| CpaQueues.RemoveTail | m5/src/base/cp_annotate.cc:648-656 | likewise at the tail |
| CpaQueues.PushToQueue | m5/src/base/cp_annotate.cc:968-986 | a new record adds its units at the chosen end, counts and sums follow, other queues keep theirs |
| CpaQueues.RemovedFromQueue | m5/src/base/cp_annotate.cc:1016-1046 | after removal sizes and byte counts of all queues are exact again |
| CpaQueues.ClearedQueue | m5/src/base/cp_annotate.cc:997-999 | clearing a queue leaves all others exact |
| CpaTables.InternSysOk | m5/src/base/cp_annotate.hh:323-340 | numbering a system keeps the tables dense and inverse to each other |
| CpaTables.InternSmOk | m5/src/base/cp_annotate.hh:283-297 | numbering a state machine keeps them so |
| CpaTables.InternQOk | m5/src/base/cp_annotate.hh:343-361 | numbering a queue keeps them so |
| CpaTables.InternStOk | m5/src/base/cp_annotate.hh:300-321 | numbering a state keeps them so |
| CpaTables.NumbersAreDense | m5/src/base/cp_annotate.hh:283-361 | every number from one to the count is given to some name |
| CpaTables.IdsInjective | m5/src/base/cp_annotate.hh:283-361 | no two names of any systems share a number |
| CpaLog.HeldBlocksTheRest | m5/src/base/cp_annotate.cc:940-945 | neither a held record nor anything after it has been written |
| CpaLog.WriteNext | m5/src/base/cp_annotate.cc:940-962 | writing the first pending record keeps all of that |
| CpaLog.IndexStep | m5/src/base/cp_annotate.cc:947-949 | the index has one entry per 100000 written records, at the position of that record |
| CpaSteps.EnqueueAdds | m5/src/base/cp_annotate.cc:968-986 | the units of the new record join the queue at the tail or, when flagged, at the head; every other queue keeps its units and all records stay |
| CpaSteps.DequeueDrops | m5/src/base/cp_annotate.cc:988-1051 | exactly the first count units are gone, or all for -1, and every other queue keeps its units; without negative counts it stops exactly when fewer bytes are there or count is neither positive nor -1 |
| CpaSteps.TrimmedKeeps | m5/src/base/cp_annotate.cc:636-657 | exactly the first size units are left |
| CpaSteps.ResizeSets | m5/src/base/cp_annotate.cc:617-658 | afterwards the queue holds max(size, 0) bytes: units appended at the tail, trimmed from the tail, or only new ones after a reset; it never stops after a reset or without negative counts |
| CpaSteps.OverflowHappens | m5/src/base/cp_annotate.cc:1016-1046 | a queue with enough bytes whose removal overflows |
| CpaSteps.NextSteady | m5/src/base/cp_annotate.cc:145-836 | every call that goes on keeps tables, queues, links and stacks in order, every record in its place, and unsigned counts unsigned |
| CpaSteps.RunSteady | m5/src/base/cp_annotate.cc:812-836 | so does every run: the records of any part of it are all still in place at the end, unchanged but for a held one that may be released |
| CpaSteps.QueuesCounted | m5/src/base/cp_annotate.cc:968-1051 | after every run without negative counts each queue has `qSize` records and `qBytes` units |
| CpaSpec.NothingIgnored | m5/src/base/cp_annotate.cc:45-73 | no string without a zero character is on the list of ignored symbols |
| CpaCalls.EndPops | m5/src/base/cp_annotate.cc:250-302 | ending stops exactly on an empty stack, and otherwise pops the named machine, nothing else and from no other stack |
| CpaCalls.BeginGoesIff | m5/src/base/cp_annotate.cc:145-225 | beginning goes on exactly when the machine has or gets a number below 65535 and at most one link leads into it, counting the one asked for and the one held |
| CpaCalls.BeginPushes | m5/src/base/cp_annotate.cc:145-235 | the machine's number is on top of its thread's stack, all other stacks stay |
| CpaCalls.BeginResolves | m5/src/base/cp_annotate.cc:210-225 | a link held for the machine learns its number and is held no longer; all other held links stay |
| CpaCalls.BeginThenEnd | m5/src/base/cp_annotate.cc:145-302 | a machine that begins and ends leaves all stacks as they were |
| CpaCalls.NextKeepsHeld | m5/src/base/cp_annotate.cc:210-225 | no call but beginning the awaited machine lets go of a held link |
| CpaCalls.AnswerResolves | m5/src/base/cp_annotate.cc:210-218 | and that call makes the machine now on top of the stack its target |
| CpaCalls.HeldUntilBegun | m5/src/base/cp_annotate.cc:773-810 | over every run, a held link may be written if and only if the machine it awaits has begun |
| CpaCalls.QueueGoesIff | m5/src/base/cp_annotate.cc:968-1051 | queue calls go on exactly when the queue has or gets a number, the bytes stay within 0..2^31-1, enough are there to remove, and the need stays within 32 bits |
| CpaCalls.LinkGoesIff | m5/src/base/cp_annotate.cc:698-733 | linking stops exactly when a machine runs and the target has no number or is linked already |
| CpaCalls.HoldGoesIff | m5/src/base/cp_annotate.cc:773-810 | a system-call link stops exactly when a machine runs and one is held under the name already |
| CpaCalls.WaitGoesIff | m5/src/base/cp_annotate.cc:537-591 | waiting stops exactly when a machine runs and the queue gets no number; ending a machine afterwards never does |
| CpaCalls.NextGoesIff | m5/src/base/cp_annotate.cc:145-810 | each call goes on exactly when its own condition on the state before it holds |
| CpaCalls.RunGoesIff | m5/src/base/cp_annotate.cc:145-810 | a run goes on to its end exactly when each call may be made where it is made |
| CpaEffects.EndLeaves | m5/src/base/cp_annotate.cc:250-302 | ending the named machine forgets its link and no other, logs the way back first if there was one and its last state if machines remain; any other name changes nothing |
| CpaEffects.BeginLeaves | m5/src/base/cp_annotate.cc:145-235 | beginning: the link from the machine on top or the held one is remembered, the first logged; the first state is logged last; nothing else is logged and all other links, marks and last states stay |
| CpaEffects.BeginEndBegin | m5/src/base/cp_annotate.cc:145-302 | begin, end and the same begin again go on whenever the first begin did |
| CpaEffects.StateLeaves | m5/src/base/cp_annotate.cc:348-378 | a symbol does nothing while an explicit state is on; otherwise the state becomes the last one and is logged with its flags when it differs |
| CpaEffects.StateEndLeaves | m5/src/base/cp_annotate.cc:380-409 | the end of explicit states: symbols count again, the caller's is entered and logged |
| CpaEffects.LinkLeaves | m5/src/base/cp_annotate.cc:698-733 | a link is logged from the running machine to the other and becomes the only link into it |
| CpaEffects.HoldLeaves | m5/src/base/cp_annotate.cc:773-810 | a system-call link is one record from the running machine to an unknown one, held under its name |
| CpaEffects.LinkThenEnds | m5/src/base/cp_annotate.cc:698-810 | a link that ends a machine is the link followed by that end |
| CpaEffects.IdLeaves | m5/src/base/cp_annotate.cc:735-770 | connection numbers count up; the number's low 32 bits are logged for the running machine |
| CpaEffects.LowBits | m5/src/base/cp_annotate.cc:735-770 | a number logged in 32 bits differs from the one given by a multiple of 2^32 |
| CpaEffects.QueueLeaves | m5/src/base/cp_annotate.cc:968-1051 | every queue call but a resize logs one record: operation code, flags, processor, machine, queue and count |
| CpaEffects.SwQueueLeaves | m5/src/base/cp_annotate.cc:411-591 | by software for the running machine; queueing, dequeueing, peeking and reserving end the explicit state, waiting does not |
| CpaEffects.HwQueueLeaves | m5/src/base/cp_annotate.hh:414-490 | by hardware for the named machine, processor 0, with the hardware flag added and no other |
| CpaEffects.NothingQueued | m5/src/base/cp_annotate.cc:411-440 | queueing nothing only numbers the queue and ends the explicit state |
| CpaEffects.WaitLeaves | m5/src/base/cp_annotate.cc:537-591 | a wait for a full queue is logged as 3, for an empty one as 2 |
| CpaEffects.WaitThenEnds | m5/src/base/cp_annotate.cc:537-591 | a wait that ends a machine is the wait followed by that end, if a machine runs |
| CpaEffects.HwStateLeaves | m5/src/base/cp_annotate.hh:401-412 | a hardware state is one record with the hardware flag added and no other |
| CpaEffects.ResizeLeaves | m5/src/base/cp_annotate.cc:617-658 | a reset logs size 0 first; growing logs a queued record, shrinking the new size, neither nothing |
| CpaEffects.IdleLeaves | m5/src/base/cp_annotate.cc:411-810 | without a running machine software calls log nothing and change no link, mark, state, stack or queue |
| CpaEffects.TickLeaves | m5/src/base/cp_annotate.cc:812-836 | time passing changes nothing but the time that later records carry |
| CpaEffects.StateNumbers | m5/src/base/cp_annotate.hh:300-321 | states are numbered type by type from one on, in order of appearance |
| CpaAnnotator.CPA.constructor | m5/src/base/cp_annotate.cc:102-131 | an empty annotator: no name numbered, nothing logged, queued, stacked or linked |
| CpaAnnotator.CPA.Dump | m5/src/base/cp_annotate.cc:924-966 | below the threshold nothing happens; otherwise writing stops at the first held record; a forced dump writes everything; the index is exact in every case |
| CpaAnnotator.CPA.Add | m5/src/base/cp_annotate.cc:812-836 | appends the record and no other, its fields cut to their widths; a link record never triggers a dump, and what is written stays written |
| CpaAnnotator.CPA.GetSys | m5/src/base/cp_annotate.hh:323-340 | the system's number, new or known; nothing but its tables and its table of held links changes |
| CpaAnnotator.CPA.GetSm | m5/src/base/cp_annotate.hh:283-297 | the machine's number, which leads back to its name; stops exactly when 65535 would be reached |
| CpaAnnotator.CPA.GetSt | m5/src/base/cp_annotate.hh:300-321 | the state's number within its machine's type |
| CpaAnnotator.CPA.GetQ | m5/src/base/cp_annotate.hh:343-361 | the queue's number, a new queue being empty; stops exactly when 65535 would be reached |
| CpaAnnotator.CPA.DoQ | m5/src/base/cp_annotate.cc:968-986 | the reference enqueue (EnqueueAdds): record logged and joined to the queue; stops exactly when the byte count leaves 0..2^31-1 |
| CpaAnnotator.CPA.DoDq | m5/src/base/cp_annotate.cc:988-1051 | the reference dequeue (DequeueDrops): stops exactly when fewer bytes are there, count is neither positive nor -1, or the need overflows |
| CpaAnnotator.CPA.RemoveFront | m5/src/base/cp_annotate.cc:1016-1046 | takes exactly count bytes off the front; stops exactly when the need overflows |
| CpaAnnotator.CPA.TakeFrontLoop | m5/src/base/cp_annotate.cc:1025-1046 | the loop removes what the reference removes, and its check for an empty queue never fails |
| CpaAnnotator.CPA.SwSq | m5/src/base/cp_annotate.cc:617-658 | the reference resize (ResizeSets); stops exactly when the need overflows while trimming |
| CpaAnnotator.CPA.Trim | m5/src/base/cp_annotate.cc:636-657 | takes exactly the surplus off the back; stops exactly when the need overflows |
| CpaAnnotator.CPA.TakeBackLoop | m5/src/base/cp_annotate.cc:638-657 | likewise from the back |
| CpaAnnotator.CPA.RecordAndClear | m5/src/base/cp_annotate.cc:617-634 | logs the new size and empties the queue, touching no other |
| CpaAnnotator.CPA.HoldLink | m5/src/base/cp_annotate.cc:802-803 | the placeholder is held under its name and nothing is written |
| CpaAnnotator.CPA.LinkBack | m5/src/base/cp_annotate.cc:720-724 | one link into a machine at a time: stops exactly when there is one |
| CpaAnnotator.CPA.EnterState | m5/src/base/cp_annotate.cc:373-377 | the state is recorded as last, and logged unless it already was the last |
| CpaAnnotator.CPA.LinkToTop | m5/src/base/cp_annotate.cc:179-196 | the machine is linked from the top of the stack, if there is one; all other links and stacks stay |
| CpaAnnotator.CPA.PushMachine | m5/src/base/cp_annotate.cc:199-207 | the machine is on top of its stack, the explicit mark cleared, all other stacks and marks as they were |
| CpaAnnotator.CPA.ResolveSyscall | m5/src/base/cp_annotate.cc:210-225 | a held system-call link to this machine gets its target, is released, and its link remembered; otherwise nothing changes |
| CpaAnnotator.CPA.SwSmBegin | m5/src/base/cp_annotate.cc:145-235 | the reference begin: stops exactly when BeginGoesIff says, and otherwise leads to the state of BeginPushes and BeginResolves |
| CpaAnnotator.CPA.Join | m5/src/base/cp_annotate.cc:177-207 | the machine joins the stack, linked from the old top if asked, and stops exactly when it is linked already |
| CpaAnnotator.CPA.Settle | m5/src/base/cp_annotate.cc:210-234 | the held link is resolved and the first state entered |
| CpaAnnotator.CPA.DoSwSmEnd | m5/src/base/cp_annotate.cc:250-302 | the reference end (EndPops, EndLeaves): stops exactly on an empty stack; the assertion on the interning table cannot fail |
| CpaAnnotator.CPA.FinishMachine | m5/src/base/cp_annotate.cc:288-296 | the reference finish (EndLeaves): logs the way back once and forgets the link; logs the last known state if machines remain |
| CpaAnnotator.CPA.EndTop | m5/src/base/cp_annotate.cc:267-301 | pops the top exactly when it is the named machine, and then finishes it; the tables do not change |
| CpaAnnotator.CPA.CheckMachine | m5/src/base/cp_annotate.cc:278-283 | the assertion holds and interning again changes nothing |
| CpaAnnotator.CPA.SwBegin | m5/src/base/cp_annotate.cc:348-378 | ignored for a listed symbol, without a running machine or under an explicit state; otherwise the state is entered and marked; never stops |
| CpaAnnotator.IsIgnored | m5/src/base/cp_annotate.cc:352-360 | the loop finds whether the symbol is listed |
| CpaAnnotator.CPA.SwEnd | m5/src/base/cp_annotate.cc:380-409 | ignored without a running machine; otherwise symbols count again and the caller's symbol, if known, is entered and logged; never stops |
| CpaAnnotator.CPA.SwLink | m5/src/base/cp_annotate.cc:698-733 | logs a link from the running machine to the named one and remembers it, then ends the named machine if asked; stops exactly when LinkGoesIff says |
| CpaAnnotator.CPA.SwSyscallLink | m5/src/base/cp_annotate.cc:773-810 | holds a link from the running machine under the called machine's name, then ends the named machine if asked; stops exactly when one is held already |
| CpaAnnotator.CPA.SwGetId | m5/src/base/cp_annotate.cc:753-770 | a number never given before, logged for the running machine with its low 32 bits; stops exactly when there is none |
| CpaAnnotator.CPA.SwIdentify | m5/src/base/cp_annotate.cc:735-751 | logs the low 32 bits of the given number for the running machine, if there is one |
| CpaAnnotator.CPA.HwBegin | m5/src/base/cp_annotate.hh:401-412 | one record, marked as hardware, with the machine's and the state's numbers; stops exactly when there is no number for the machine |
| CpaAnnotator.CPA.HwQueue | m5/src/base/cp_annotate.hh:414-490 | queueing, dequeueing, peeking, reserving and waiting for the named machine and queue, marked as hardware, and their exact stop |
| CpaAnnotator.CPA.SwQueue | m5/src/base/cp_annotate.cc:411-535 | queueing, dequeueing, peeking and reserving for the running machine, ignored when there is none, and their exact stop |
| CpaAnnotator.CPA.SwWait | m5/src/base/cp_annotate.cc:537-591 | one record for the running machine, if there is one, and then the end of the named machine if asked; its exact stop |
| CpaAnnotator.CPA.SwAq | m5/src/base/cp_annotate.cc:661-696 | only numbers the queue; logs nothing |
| CpaAnnotator.CPA.Execute | m5/src/base/cp_annotate.cc:145-836 | over every run of all the calls: goes on exactly when the reference run does and ends in its state; no record is lost or altered except that a held one may be released; what is written followed by what is pending is the image of every record the run made, in order and once each |
| CpaAnnotator.StopsForGood | m5/src/base/cp_annotate.cc:145-810 | a run that stops anywhere does not go on |
| CpaInvariant.KnownMachine | m5/src/base/cp_annotate.cc:282-283 | interning a machine that is on a stack gives its own number back and changes nothing |
| CpaInvariant.LinksHold | m5/src/base/cp_annotate.cc:797-803 | held records and names for them correspond one to one when one is added |
| CpaInvariant.LinksRelease | m5/src/base/cp_annotate.cc:210-215 | and when one is resolved |
| CpaCheckpoint.LoadLists | m5/src/base/cp_annotate.cc:1214-1372 | reading back a listed map, in whatever order, gives that map |
| CpaCheckpoint.StackLoadLists | m5/src/base/cp_annotate.cc:1291-1306 | reading back stacks gives exactly the non-empty ones |
| CpaCheckpoint.Entries | m5/src/base/cp_annotate.cc:1055-1212 | each key of a map is written once, with its value, and the stored count is its size |
| CpaCheckpoint.LoadQueues | m5/src/base/cp_annotate.cc:1360-1371 | the restored store is the queues one after the other, each record once, all of it in the log and nothing else |
| CpaCheckpoint.Serialize | m5/src/base/cp_annotate.cc:1055-1212 | the checkpoint holds all tables, counts, stacks, links, last states and queues |
| CpaCheckpoint.LoadTables | m5/src/base/cp_annotate.cc:1217-1357 | the tables come back from the stored counts; it fails exactly when a list is shorter than its count |
| CpaCheckpoint.LoadMaps | m5/src/base/cp_annotate.cc:1291-1340 | links, explicit marks and last states come back, stacks without the empty ones; it fails exactly when a list is shorter than its count |
| CpaCheckpoint.Unserialize | m5/src/base/cp_annotate.cc:1214-1398 | any checkpoint loads exactly when every count finds its entries; that of an orderly annotator loads into an orderly one in the restored state, with nothing written, at the simulator's clock |
| CpaCheckpoint.SaveAndLoad | m5/src/base/cp_annotate.cc:1055-1398 | saving and loading never fails and gives the restored state: tables, counts, queues, links, marks and last states as they were, only non-empty stacks, no held links, only queued records |
| CpaCheckpoint.CheckpointAfter | m5/src/base/cp_annotate.cc:1055-1398 | the same after every run of calls that does not stop |
| CpaCheckpoint.StacksRestoredIff | m5/src/base/cp_annotate.cc:1291-1306 | the stacks come back as they were exactly when none is empty |
| CpaCheckpoint.LinksRestoredIff | m5/src/base/cp_annotate.cc:1055-1212 | the held links come back as they were exactly when no record is held |
| CpaCheckpoint.QueuedIsRestored | m5/src/base/cp_annotate.cc:1360-1371 | every queued record comes back in its place in its queue, field by field, with what remained as its original count |
| CpaCheckpoint.RestoredIsQueued | m5/src/base/cp_annotate.cc:1360-1371 | and no other record does |
| CpaCheckpoint.EmptyStackReached | m5/src/base/cp_annotate.cc:348-361 | one state announced without a running machine leaves an empty stack, which is not restored |
| CpaCheckpoint.HeldLinkReached | m5/src/base/cp_annotate.cc:773-810 | a system-call link under a running machine leaves a held link, which is not restored |
| CpaAlike.TakeFrontAlike | m5/src/base/cp_annotate.cc:1016-1046 | removal from like queues drops as many records and takes as many bytes from the next, or overflows in both |
| CpaAlike.NextAlike | m5/src/base/cp_annotate.cc:145-836 | from like states every call goes on to like states or stops in both |
| CpaAlike.RunAlike | m5/src/base/cp_annotate.cc:145-836 | so does every run |
| CpaResume.RestoredOk | m5/src/base/cp_annotate.cc:1214-1398 | what a checkpoint restores is in order |
| CpaResume.RestoredAlike | m5/src/base/cp_annotate.cc:1055-1398 | with no link held it is like what was saved |
| CpaResume.CarriesOn | m5/src/base/cp_annotate.cc:1055-1398 | then every further run goes on from both or stops in both, with the same names, stacks, links, marks, queue contents and new records |
| CpaResume.HeldLinkDiffers | m5/src/base/cp_annotate.cc:773-810 | with a link held, beginning another machine and asking for the link again stops the saved annotator and not the restored one |
| CpaResume.CarriesOnIff | m5/src/base/cp_annotate.cc:1055-1398 | as long as a machine can get a number, all further runs stop together if and only if no link is held |
| CpaResume.RunThroughCheckpoint | m5/src/base/cp_annotate.cc:1055-1398 | a simulation that is saved, restored and continued goes on exactly when one without the checkpoint does, and ends like it |
| ElfDescriptors.FreedOk | m5/ext/libelf/elf_end.c:75-81 | freeing an unneeded descriptor keeps every count equal to the members still open |
| ElfDescriptors.ReleaseUpOk | m5/ext/libelf/elf_end.c:50-82 | the climb through the archives ends with everything in order |
| ElfDescriptors.EndOk | m5/ext/libelf/elf_end.c:36-85 | `elf_end` keeps the invariant |
| ElfDescriptors.BeginOk | m5/ext/libelf/elf_begin.c:82-154 | `elf_begin` keeps it, and what it returns is unreleased and activated |
| ElfDescriptors.StepOk | m5/ext/libelf/elf_end.c:36-85 | each call on unreleased descriptors keeps it |
| ElfDescriptors.RunOk | m5/ext/libelf/elf_end.c:36-85 | over every run, nested archives included: child counts are exact, no released descriptor has an open child, and every unreleased one is activated or has an open member |
| ElfDescriptors.HeldBegin | m5/ext/libelf/elf_begin.c:82-154 | a successful `elf_begin` adds one activation to the total, a failed one none |
| ElfDescriptors.HeldEnd | m5/ext/libelf/elf_end.c:36-85 | `elf_end` takes one off, if there is one |
| ElfDescriptors.NoLeaks | m5/ext/libelf/elf_end.c:36-85 | after every run, no activation is left if and only if everything has been released |
| ElfDescriptors.FreedIff | m5/ext/libelf/elf_end.c:36-85 | in order, a descriptor is freed exactly when no caller holds it and no open member needs it |
| ElfDescriptors.Library.ElfEnd | m5/ext/libelf/elf_end.c:36-85 | takes one activation off and returns what is left; no other descriptor changes but for child counts and being freed, and what is freed stays so |
| ElfDescriptors.Library.ReleaseLoop | m5/ext/libelf/elf_end.c:50-84 | the loop ends and releases exactly what is no longer needed |
| ElfDescriptors.Library.ElfBegin | m5/ext/libelf/elf_begin.c:82-154 | case by case: refusals change nothing; an archive gives a new member of the kind found, activated once and counted in the archive alone; any other descriptor is activated once more; a file gives a new descriptor, and an archive for update is freed at once |
| ElfDescriptors.Library.OpenObject | m5/ext/libelf/elf_begin.c:39-80 | a new descriptor, or none: an archive opened for update is released again |
| ElfDescriptors.Library.OpenMember | m5/ext/libelf/libelf_ar.c:279-321 | a new member, counted in its archive |
| ElfArith.Roundup | m5/ext/libelf/elf_update.c:169-169 | the least multiple not below its argument |
| ElfArith.BitTest | m5/ext/libelf/elf_update.c:154-154 | the bit trick is zero exactly for powers of two |
| ElfLayout.Elf.CheckDescriptor | m5/ext/libelf/elf_update.c:142-157 | type, version, a multiple of the section alignment, a power of two: the first rule broken decides the error |
| ElfLayout.Elf.CheckData | m5/ext/libelf/elf_update.c:136-160 | succeeds exactly when every descriptor is in order, reports the first that is not, and finds the largest alignment |
| ElfLayout.Elf.PlaceData | m5/ext/libelf/elf_update.c:162-173 | each descriptor starts at the first multiple of the alignment where the one before has ended; only offsets change |
| ElfLayout.Elf.ComputeSectionExtents | m5/ext/libelf/elf_update.c:75-226 | lays one section out behind the current end, or reports why not and changes nothing |
| ElfLayout.Elf.ResyncSections | m5/ext/libelf/elf_update.c:266-318 | succeeds exactly when every section can be laid out; sections are stacked in order, none has to be moved, null and no-bits sections are left alone, and the final assertion holds |
| ElfLayout.Elf.ResyncElf | m5/ext/libelf/elf_update.c:320-495 | version, class and byte order errors in this order; otherwise the header offsets and the file size in numbers, with sections laid out and their contents kept |
| ElfLayout.RegionsInOrder | m5/ext/libelf/elf_update.c:408-471 | after success, ELF header, program headers, section bodies and section headers lie in order without overlap, each on its alignment with less than one unit before it, up to the returned size |
| ElfLayout.DescriptorsPlaced | m5/ext/libelf/elf_update.c:132-225 | descriptors stay inside their section without overlap, and each sits in the file on a multiple of its own alignment |
| ElfLayout.HeaderFieldsExact | m5/ext/libelf/elf_update.c:204-224 | in a file the class can address, header offsets and sizes are exact and aligned to `sh_addralign` |
| ElfLayout.SectionAligned | m5/ext/libelf/elf_update.c:132-200 | a section starts on a multiple of the alignment asked for, or of its type's own if none is |
| ElfLayout.BehindHeaders | m5/ext/libelf/elf_update.c:408-471 | sections lie between the headers, 52 and 32 bytes each or 64 and 56, and a table of 40 or 64 bytes for each section |
| ElfStrings.Strptr | m5/ext/libelf/elf_strptr.c:42-134 | what is found is a byte of a real buffer; with the application's layout it is the byte at that offset of the first buffer covering it, and one is found exactly when one covers it; the same for the library's layout under the gap condition |
| ElfStrings.LookupsAgree | m5/ext/libelf/elf_strptr.c:65-133 | under the gap condition both lookups give the same descriptor and position, or both fail |
| ElfStrings.LookupsDiffer | m5/ext/libelf/elf_strptr.c:65-133 | without it, an offset of the section where they differ |
| ElfStrings.LookupsAgreeIff | m5/ext/libelf/elf_strptr.c:65-133 | so after layout they agree at every offset if and only if the gap condition holds |
| ElfStrings.UniformLookupsAgree | m5/ext/libelf/elf_strptr.c:65-133 | one shared alignment and real buffers are enough |
| ElfStrings.MixedAlignmentsDisagree | m5/ext/libelf/elf_strptr.c:95-130 | two descriptors for which they differ at offsets 1 and 4 |
| Crc32.EntryIsFourShifts | m5/src/base/crc.cc:70-75 | each table entry is its index pushed through four shifts of the register |
| Crc32.TableByteIsRefByte | m5/src/base/crc.cc:79-81 | the two table steps equal the reference's eight bit steps, for every register and byte |
| Crc32.Crc32Le | m5/src/base/crc.cc:67-85 | the table-driven form equals the reference on every byte sequence |
| Crc32.Crc32LeReference | m5/src/base/crc.cc:48-65 | the double loop is the reference |
| Crc32.CarryCompletesPolynomial | m5/src/base/crc.cc:99-100 | the or with the carry makes the polynomial 0x04c11db7 |
| Crc32.MirrorReverses | m5/src/base/crc.cc:88-105 | reversing the bits of a word turns left shifts into right shifts and is its own inverse |
| Crc32.BeBitMirrors | m5/src/base/crc.cc:96-100 | one step of the mirrored form is the mirror of one step of the reference |
| Crc32.Crc32Be | m5/src/base/crc.cc:88-105 | on every byte sequence the mirrored form is the bit reversal of the CRC |
| Crc32.FeedIsShifts | m5/src/base/crc.cc:48-65 | up to four bytes are added first and shifted afterwards |
| Crc32.FeedInjective | m5/src/base/crc.cc:48-65 | different registers stay different under the same bits |
| Crc32.WindowInjective | m5/src/base/crc.cc:48-65 | from one register, different strings of at most 32 bits lead to different registers |
| Crc32.BurstDetected | m5/src/base/crc.cc:67-85 | two messages that differ only inside 32 consecutive bits, wherever these begin, have different CRCs |
| Crc32.WiderBurstMissed | m5/src/base/crc.cc:67-85 | 33 bits are too many: the generator itself goes unnoticed anywhere in any message |
| Crc32.FrameResidue | m5/src/base/crc.cc:67-85 | a message with its complemented CRC appended has CRC 0xdebb20e3, with the plain CRC it has 0 |
| Crc32.CheckValue | m5/src/base/crc.cc:67-85 | the complemented CRC of the digits 1 to 9 is 0xcbf43926 |
| Prefetcher.DifferenceExact | prefetcher/prefetcher.cc:156-157 | between addresses of physical memory the 32-bit difference is exact |
| Prefetcher.TenureIsLongest | prefetcher/prefetcher.cc:153-158 | the accesses replayed are those since the current instruction took the slot |
| Prefetcher.SameSlot | prefetcher/prefetcher.cc:147-158 | an access updates the replay of its own slot as the code updates the entry |
| Prefetcher.OtherSlot | prefetcher/prefetcher.cc:71-74 | and leaves every other slot's replay alone |
| Prefetcher.SlotDeltas | prefetcher/prefetcher.cc:48-57 | with all accesses in physical memory a slot holds the last at most 19 true, representable differences |
| Prefetcher.Dcpt.constructor | prefetcher/prefetcher.cc:33-62 | a blank table and nothing in flight |
| Prefetcher.Dcpt.InsertDelta | prefetcher/prefetcher.cc:48-57 | appends a representable difference, keeping the last 19 |
| Prefetcher.AddStrides | prefetcher/prefetcher.cc:93-97 | adds up the differences before a match, newest first |
| Prefetcher.DeltaCorrelation | prefetcher/prefetcher.cc:77-102 | no candidate exactly when no earlier pair of differences equals the last pair; if one pair alone does, the differences up to it are added one by one, newest first; in general as many candidates as differences up to every equal pair |
| Prefetcher.CandidateBound | prefetcher/prefetcher.cc:77-102 | n differences give at most (n-1)(n-2)/2 candidates |
| Prefetcher.ConstantStride | prefetcher/prefetcher.cc:77-102 | equal differences d give exactly last + k·d for k = 1..(n-1)(n-2)/2, in order |
| Prefetcher.NoPairNoCandidate | prefetcher/prefetcher.cc:77-102 | exactly without an earlier equal pair there is no candidate |
| Prefetcher.CandidateAt | prefetcher/prefetcher.cc:86-99 | behind those for later pairs, every equal pair adds the differences up to it, newest first, each candidate being the one before plus the next difference |
| Prefetcher.ReservedOk | prefetcher/prefetcher.cc:104-118 | reserved candidates lie in new, distinct blocks and the set stays within 100 |
| Prefetcher.ReservedInMemory | prefetcher/prefetcher.cc:107-107 | and within physical memory |
| Prefetcher.ReservedFor | prefetcher/prefetcher.cc:104-112 | a reservation is for a candidate neither in the cache nor in the miss queue nor in flight |
| Prefetcher.NoneForgotten | prefetcher/prefetcher.cc:104-112 | every such candidate has its block in flight afterwards, unless the set is full |
| Prefetcher.ListedIs | prefetcher/prefetcher.cc:104-118 | the list holds exactly what was reserved behind the last candidate equal to `last_prefetch` |
| Prefetcher.KeptAll | prefetcher/prefetcher.cc:113-115 | no reservation is dropped exactly when no candidate equal to `last_prefetch` comes with or after one |
| Prefetcher.LeakFreeIff | prefetcher/prefetcher.cc:104-131 | if in-flight and outstanding blocks are equal, an access leaves them so exactly when nothing reserved is cleared, at most 19 are reserved and the queue has room for all |
| Prefetcher.ReservedButDropped | prefetcher/prefetcher.cc:104-118 | after accesses at 256, 192, 128 and 64 block 0 is in flight and nothing was issued |
| Prefetcher.CompletedBetween | prefetcher/prefetcher.cc:104-138 | between two prefetches of one block lies a completion of it |
| Prefetcher.RunOk | prefetcher/prefetcher.cc:104-164 | over every run: at most 100 in flight, every outstanding block among them, no block outstanding twice |
| Prefetcher.RunCompletedBetween | prefetcher/prefetcher.cc:104-138 | over every run, between two prefetches of one block lies a completion of it |
| Prefetcher.StaysInFlight | prefetcher/prefetcher.cc:104-138 | a block in flight stays so over every run in which no completion names it |
| Prefetcher.FullIssuesNothing | prefetcher/prefetcher.cc:104-131 | with 100 in flight an access changes nothing |
| Prefetcher.Starves | prefetcher/prefetcher.cc:104-131 | so no run of accesses without completions issues anything from there on |
| Prefetcher.Dcpt.PrefetchFilter | prefetcher/prefetcher.cc:104-118 | the in-flight set gains the reserved blocks, the list is what the clearing leaves |
| Prefetcher.Dcpt.IssuePrefetches | prefetcher/prefetcher.cc:122-131 | issues the first prefetches until 19, the end, or a full queue; none for a block already outstanding |
| Prefetcher.Dcpt.Prefetch | prefetcher/prefetcher.cc:160-162 | the three steps together: the issued prefetches and the in-flight set are those of the reference |
| Prefetcher.Dcpt.Access | prefetcher/prefetcher.cc:147-164 | the slot, written out: taken over, unchanged or one difference further; the in-flight set as the reference run has it; issues at most 19, in memory, in distinct blocks not outstanding, each for a candidate neither in the cache nor in the miss queue nor in flight |
| Prefetcher.Dcpt.Complete | prefetcher/prefetcher.cc:133-138 | any completion removes its block from the set, as the reference run does, and keeps all of that |
| Prefetcher.Play | prefetcher/prefetcher.cc:104-164 | over every run with any answers, the in-flight set and the log of issues and completions are those of the reference run, and every slot is its replay |
| InternetChecksum.CksumAdd | m5/ext/dnet/ip.h:427-476 | the unrolled loop adds every byte with its weight, 256 or 1 by position and byte order, in 32-bit arithmetic; it reads exactly the words of the buffer if and only if there are at least two bytes |
| InternetChecksum.BytesAddUp | m5/ext/dnet/ip.h:427-476 | the words of a buffer and its padded odd byte are its bytes with their weights |
| InternetChecksum.NeverOverflows | m5/ext/dnet/ip.h:427-476 | from 0 no partial sum of 2..65535 bytes leaves a 32-bit int |
| InternetChecksum.FoldIs | m5/ext/dnet/ip.h:478-483 | folding keeps the value modulo 65535 and only zero folds to zero |
| InternetChecksum.CksumCarry | m5/ext/dnet/ip.h:478-483 | the result is zero exactly for positive multiples of 65535 |
| InternetChecksum.PutBufferSum | m5/ext/dnet/ip.h:427-476 | changing a word changes the sum by the difference |
| InternetChecksum.StoredChecksumVerifies | m5/ext/dnet/ip.h:427-483 | a buffer whose zeroed checksum word is replaced by the result re-checks to 0 |
| InternetChecksum.OneWordDamageDetected | m5/ext/dnet/ip.h:427-483 | a changed word goes unnoticed exactly when it is the other representation of zero and not all is zero |
| InternetChecksum.PiecesAddUp | m5/ext/dnet/ip.h:427-476 | summing an even piece and then another is summing them joined |
| InternetChecksum.SwappedFold | m5/ext/dnet/ip.h:478-483 | on the other byte order the folded sum is byte-swapped |
| InternetChecksum.SameBytesOnEveryHost | m5/ext/dnet/ip.h:427-483 | so both kinds of host store the same two bytes |
| CircleBuf.LongWrite | m5/src/base/circlebuf.cc:192-198 | a write of at least the buffer leaves its last bytes |
| CircleBuf.WriteInLine | m5/src/base/circlebuf.cc:200-202 | a write that fits extends what the ring shows |
| CircleBuf.WriteAround | m5/src/base/circlebuf.cc:203-209 | so does one that wraps around |
| CircleBuf.ReadInsideIff | m5/src/base/circlebuf.cc:73-97 | both copies of a read stay inside the buffer exactly when the length is not negative and the start not past the end |
| CircleBuf.RestInsideIff | m5/src/base/circlebuf.cc:125-155 | the copies of the read of the rest do exactly when the start is not past the end |
| CircleBuf.StartLeavesIff | m5/src/base/circlebuf.cc:189-213 | a write leaves the start past the end exactly when it was there, or when it fills the buffer to its end over a start behind the stop |
| CircleBuf.DeliversRing | m5/src/base/circlebuf.cc:73-97 | with something to show, a read delivers consecutive bytes of what `readall` shows, from the start on |
| CircleBuf.ReadIsFirsts | m5/src/base/circlebuf.cc:73-97 | the copies of a read are the first unread bytes, and the start moves by as many |
| CircleBuf.ReadLeavesBuffer | m5/src/base/circlebuf.cc:84-97 | three writes after which a read copies -1 bytes from one past the end |
| CircleBuf.CircleBuf.constructor | m5/src/base/circlebuf.cc:43-47 | an empty ring |
| CircleBuf.CircleBuf.Flush | m5/src/base/circlebuf.cc:65-71 | the history starts anew; the size stays |
| CircleBuf.CircleBuf.Write | m5/src/base/circlebuf.cc:179-214 | the ring shows the end of the history with the bytes appended, for every length; stop and start where the code leaves them |
| CircleBuf.CircleBuf.Read | m5/src/base/circlebuf.cc:73-97 | delivers the first unread bytes, as many as asked for and there, and steps over them, exactly when both copies stay inside the buffer; what `readall` shows is untouched |
| CircleBuf.CircleBuf.ReadRest | m5/src/base/circlebuf.cc:125-155 | likewise all unread bytes |
| CircleBuf.CircleBuf.ReadAll | m5/src/base/circlebuf.cc:157-165 | emits the last min(N, buflen) of the N bytes written since the last flush |
| CircleBuf.Play | m5/src/base/circlebuf.cc:65-214 | over any interleaving of writes, reads and flushes: it goes through exactly when every read is safe where it is made, otherwise it ends at the first that is not, and every `readall` until then shows the end of the history |

## Left out

- CpaAnnotator.CPA.DoDq: with negative counts queued only the signed byte sum is stated, not units.
- CpaAnnotator.CPA.SwSq: the same for trimming a queue that holds negative counts.
- CpaAnnotator.CPA.Execute: warnings and debugging output of the calls are left out, and so is switching the annotator off.
- CpaCheckpoint.Unserialize: checkpoint keys are structured values, not formatted text; what a checkpoint that no annotator wrote loads into is stated only for its parts.
- ElfLayout.Elf.ComputeSectionExtents: the section entry size, sections that are not dirty and layout controlled by the application are left out.
- ElfLayout.Elf.ResyncElf: offsets are unbounded, so overflow of 64-bit offsets is not modelled; extended numbering and the identification bytes are left out; `e_version` is the current version, as the library guarantees.
- CircleBuf.CircleBuf.Read: overflow of int lengths is not modelled; a read before anything was written delivers whatever the buffer held, which is not described further.
- FastAlloc.FastAlloc.Allocate: the debugging lists of objects in use are left out.
- DecodeBlocks.Parse: lexing, format code, output strings other than the decode block, duplicate case constants and preprocessor conditionals are not modelled; code objects are values, so sharing of one object between blocks is not captured.
- Identity of systems: a simulated system is identified by its name.
- Reading guest memory, symbol tables, the binary stream format and the key file of the annotator.
- libelf: reading and writing files, translation between file and memory form, and resources lost for malformed archives.
- The example prefetchers, the configuration scripts, formatted printing and the compressed streams.
