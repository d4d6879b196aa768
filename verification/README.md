# PawnIO, modelled and proved in Dafny

PawnIO is a kernel driver that loads Pawn AMX modules, runs them in a VM and tracks their life.
This project models the parts of it that are hard to get right and proves what they promise. The
64-bit configuration is modelled: cells and pointers of 8 bytes, name/address pairs of 16, pool
alignment of 16, images below 2^32 bytes.

| files | what they model |
|---|---|
| `Machine`, `Bytes`, `KernelStubs` | little-endian words, C strings, `strcmp`, `memmove`, `memcpy` |
| `ValArray`, `Arena`, `AmxFile`, `HeaderLayout`, `LoaderPasses`, `LoaderStages`, `Loader`, `MinimalFile`, `LoadableFile` | `loader::init`: header checks, the two passes over the name tables, the one arena and its layout, look-ups out of the arena's bytes |
| `ListEntry`, `KList`, `KListHistory` | `LIST_ENTRY` rings and `klist`, on the heap |
| `CallbackList`, `BroadcastProtocol` | the observer lists, and their reader-writer locking |
| `SlotTable`, `SlotOperations` | the native-to-AMX callback slots, one memory access per step; what a whole alloc or free comes to |
| `VmTrace`, `Lifecycle`, `LifecycleInv`, `LifecycleProof`, `LifecycleStatus`, `LifecycleOutcome`, `LifecycleItinerary`, `LifecycleUnload`, `LifecycleSamples`, `LifecycleRace`, `LifecycleRaceRun` | the file-handle protocol and the life of the VMs behind it, under any interleaving, what every request comes to, and what a destroy that races with a callback does |
| `Reentry`, `ReentryDeadlock`, `ReentryRun` | module code that calls back into the driver on its own thread, and when that hangs |
| `VmMemory`, `AmxStrings`, `DebugPrint`, `StringSamples` | strings in VM memory, name resolution, the `debug_print` format translator |

Results worth knowing before reading the proofs:

- A file is loaded if and only if it is well formed, memory and mappings are granted, **and it
  imports at least two natives**. The arena is sized as if native pointers were 16 bytes, they are
  stored in 8, and the last guard compares the string cursor with the end of the arena: the slack
  is zero for no native or one. `Arena.SlackExact`, `Loader.AmxLoader.Init` and
  `MinimalFile.WellFormedWithoutNatives` state this exactly.
- The initial registers are what the header promises if and only if `stp > hea`
  (`LoaderStages.InitialRegistersIff`); the code never compares the two.
  `LoadableFile.LoadImage` loads a module for every `stp` from 0 to 255 around a `hea` of 60; at
  `stp == hea` the stack pointer comes out as 2^64 - 8.
- Nothing makes the destruction of a VM wait for callbacks into it. If, when it begins, the module
  holds no slot and no dispatch is under way, nothing can go wrong; otherwise, and whether or not
  the module gave its slots back, there is a continuation in which a dispatch takes the mutex
  inside the freed context (`LifecycleRace.DestroySafeIff`). `LifecycleRaceRun.DispatchUsesFreedContext`
  is such a run with all slots given back. Over every run, a VM's history leaves the grammar if and
  only if a dispatch announces a call after the VM's destruction began
  (`LifecycleRace.HistoryBrokenIff`). Unless its row names that
  condition, a result about the life of VMs holds on every run, raced or not; after a race the model
  goes on as if the freed context were still readable.
- `to_amx_callback_dispatch` reads the entry point of the right allocation if and only if the slot
  still belonged to the VM when the VM's mutex was acquired
  (`SlotTable.DispatchReadsLatestIff`); `SlotTable.StaleDispatchReadsForeignEntry` is a run in
  which it did not.
- At PawnIO/amx_loader.h:468 the byte-order loop over the data segment is bounded by the code
  count. The model uses the data count; on a little-endian machine neither changes a value, and
  nothing is claimed about the literal bound.

- A module can invoke its own callback on its own thread, and a VM's mutex is not recursive. A
  thread hangs for good, in every continuation, if and only if following who is in its way (the
  callback it invoked, or the holder of the mutex it awaits) comes back to a thread already passed
  (`ReentryDeadlock.MayStepIff`); otherwise the chain ends in a thread that can step. Invoking a
  callback of the own VM always hangs; while nobody else is in an invoke, an invoke hangs if and only
  if its invoking chain already holds the mutex it needs (`ReentryDeadlock.OneStackHangsIff`).
  `ReentryRun.ModuleInvokesItself` is a run in which it happens and the handle is never closed.

State machines take every allocation result, signature verdict, observer verdict, mapping result
and the behaviour of VM code as choices of the environment. `hide` statements in proofs only keep
definitions the proof does not need away from the solver.

## Model

| member | source | states |
|---|---|---|
| Bytes.DecodeEncode | PawnIO/amx_loader.h:81-87 | reading a little-endian word back gives the value stored |
| Bytes.EncodeDecode | PawnIO/amx_loader.h:70-79 | storing what was read changes no byte, and n bytes hold less than 256^n |
| KernelStubs.StrCmp | PawnIO/kernel_stubs.c:214-220 | zero iff the two C strings are equal, negative iff the first is smaller in unsigned dictionary order; reads no byte beyond either terminator |
| KernelStubs.MemMove | PawnIO/kernel_stubs.c:47-70 | for every overlap and count the destination holds the original source bytes and every other byte is unchanged, as section 7.24.2.2 of ISO/IEC 9899:2011 asks |
| KernelStubs.MemCpy | PawnIO/kernel_stubs.c:35-44 | the destination holds the source bytes, the rest is unchanged |
| ValArray.RangeAcceptedIff | PawnIO/amx_loader.h:103-113 | under wrapping 64-bit pointers the check accepts exactly when begin <= end <= buf_size as integers and the length is a multiple of the entry size |
| ValArray.WholeIsDivisible | PawnIO/amx_loader.h:112 | the recursive notion of whole entries is divisibility |
| ValArray.EntryInside | PawnIO/amx_loader.h:115-116 | every row the loop visits lies inside the range |
| ValArray.Enter | PawnIO/amx_loader.h:95-119 | the loop runs iff the range is good, once per whole row |
| ValArray.CountValarray | PawnIO/amx_loader.h:121-143 | accepts exactly the good ranges and counts their entries |
| HeaderLayout.WordBytes | PawnIO/amx_loader.h:81-87 | a 32-bit or 16-bit word of the file, byte by byte |
| HeaderLayout.ReadHeaderOfText | PawnIO/amx_loader.h:281-298 | round trip: a header written field by field in file order, each of its own width, with anything behind it, is read back, for every header in range |
| HeaderLayout.ReadHeaderInRange | PawnIO/amx_loader.h:281-296 | every header that can be read is one that can be written |
| HeaderLayout.EntryOfText | PawnIO/amx_loader.h:342-353 | a row is an address and then the offset of its name; it is good iff a C string starts there |
| HeaderLayout.FlagBits | PawnIO/amx_loader.h:172-175 | the overlay flag is bit 0 and the sleep flag bit 3 |
| Arena.AlignUpLeast | PawnIO/amx_loader.h:89-92 | the least multiple of the alignment not below the value |
| Arena.AllocSizeDoesNotWrap | PawnIO/amx_loader.h:435-441 | for counts of any file below 2^32 bytes no operation of the size computation wraps 64 bits |
| Arena.AllocFromBufferAligned | PawnIO/amx_loader.h:145-155 | hands out the cursor, keeps it aligned and moves it past the region and no further than alignment needs |
| Arena.LayoutAligned | PawnIO/amx_loader.h:451-459 | every region starts aligned |
| Arena.LayoutDisjoint | PawnIO/amx_loader.h:435-459 | the five regions and the names are pairwise disjoint and inside the allocation, which ends exactly the slack behind them |
| Arena.SlackExact | PawnIO/amx_loader.h:575-577 | the slack is align_up(16n) - align_up(8n), positive iff there are two natives or more |
| AmxFile.LookupFirst | PawnIO/amx_loader.h:223-247 | look-up gives the address of the first row of that name, or 0 when no row has it |
| AmxFile.DataCellsExact | PawnIO/amx_loader.h:328-329 | the data segment has ceil((stp-dat)/8) cells iff stp >= hea, and room beyond the file's data iff stp != hea |
| LoaderPasses.ScanName | PawnIO/amx_loader.h:346-351 | finds the first NUL at or after the offset, or the end of the file |
| LoaderPasses.FindHost | PawnIO/amx_loader.h:384-393 | finds the first host native of that name, and one iff one is offered |
| LoaderPasses.ReadRow | PawnIO/amx_loader.h:344-353 | succeeds iff the row's name is a C string in the file, and then yields the row the file holds |
| LoaderPasses.ReadKnownRow | PawnIO/amx_loader.h:489-499 | on a counted table no failure branch is taken |
| LoaderPasses.CountNames | PawnIO/amx_loader.h:333-363 | accepts exactly the well-formed tables, counts their rows and measures their names; the total never wraps, even when names overlap |
| LoaderPasses.CountNatives | PawnIO/amx_loader.h:365-401 | accepts exactly the well-formed tables whose names the host offers; reports a missing native exactly when that is what stopped it |
| LoaderPasses.StoreEntry | PawnIO/amx_loader.h:501-505 | leaves the name pointer, the address and the NUL-terminated name in place and changes nothing else |
| LoaderPasses.FillNames | PawnIO/amx_loader.h:481-508 | two-pass agreement for publics and pubvars: every row written, none more, the cursor advanced by exactly the counted bytes, every name NUL-terminated, nothing else changed |
| LoaderPasses.FillNatives | PawnIO/amx_loader.h:510-542 | two-pass agreement for natives: every pointer is that of the first host native of the name |
| LoaderPasses.ReadBack | PawnIO/amx_loader.h:226-233 | a stored row read back through its name pointer is the row |
| LoaderStages.CheckHeader | PawnIO/amx_loader.h:278-326 | accepts exactly the good headers; each error code exactly when its check is the first to fail |
| LoaderStages.CountTables | PawnIO/amx_loader.h:333-433 | accepts exactly when all three tables are good, all natives offered and there are no libraries; which error otherwise |
| LoaderStages.FromLeCells | PawnIO/amx_loader.h:463-469 | on a little-endian machine rewriting every cell changes nothing |
| LoaderStages.CopySegments | PawnIO/amx_loader.h:461-469 | code and data are in the arena as in the file, the rest of the data segment and everything behind it zero |
| LoaderStages.FillTables | PawnIO/amx_loader.h:481-573 | after all three passes all three tables are intact, the cursor stands exactly behind the last name, the segments are untouched |
| LoaderStages.InitialRegistersIff | PawnIO/amx_loader.h:582-583 | HEA is hea - dat; the segment is exactly [dat, stp) in cells with HEA <= STP at its last cell iff stp > hea |
| Loader.AmxLoader.constructor | PawnIO/amx_loader.h:588 | a new loader owns no arena |
| Loader.AmxLoader.Carve | PawnIO/amx_loader.h:451-459 | the five pointers and counts are those of the layout |
| Loader.AmxLoader.CarvedAligned | PawnIO/amx_loader.h:453-457 | all region pointers are aligned when the pool's block is |
| Loader.CountsFromFile | PawnIO/amx_loader.h:320-433 | the counts of every acceptable file below 2^32 bytes are within the bounds of the size computation |
| LoaderPasses.NamesFit | PawnIO/amx_loader.h:355 | however names overlap in the file, the copies of a table's names take at most 2^61 bytes |
| Loader.AmxLoader.Populate | PawnIO/amx_loader.h:461-585 | succeeds iff both mappings do and there are two natives or more, and then the arena holds the file |
| Loader.AmxLoader.Build | PawnIO/amx_loader.h:435-585 | the arena is requested at its exact size; the second half of init |
| Loader.AmxLoader.Init | PawnIO/amx_loader.h:270-586 | end to end, for every buffer: success iff the file is good, memory and mappings are granted and it has two natives or more; then the arena, read through its tables, and the registers hold the file; an arena is owned exactly when the file was good and the pool granted it |
| Loader.AmxLoader.Find | PawnIO/amx_loader.h:224-233 | searching the arena's pairs by strcmp is table look-up |
| Loader.AmxLoader.GetPublic | PawnIO/amx_loader.h:223-234 | after any successful init, whose contract ties the tables to the file: the address of the first public of that name in the file, else 0 |
| Loader.AmxLoader.GetPubvar | PawnIO/amx_loader.h:236-247 | likewise for public variables |
| Loader.AmxLoader.AmxCallback | PawnIO/amx_loader.h:252-263 | index k invokes the first host native named like the file's k-th native; every other outcome exactly when its guard says so |
| MinimalFile.WellFormedWithoutNatives | PawnIO/amx_loader.h:575-577 | a concrete file passes every check and has no natives, so init refuses it |
| LoadableFile.ImageOk | PawnIO/amx_loader.h:278-433 | a concrete family of files, one for every stp byte, passes every check with two natives |
| LoadableFile.ImageRegisters | PawnIO/amx_loader.h:582-583 | for that family the registers are as promised iff stp is above hea, 60; at 60 the data segment is empty and STP is 2^64 - 8 |
| LoadableFile.LoadImage | PawnIO/amx_loader.h:270-586 | init succeeds on every file of the family, and then its register fields are as promised iff stp > hea |
| ListEntry.InitializeListHead | PawnIO/klist.h:167 | a head alone is a ring |
| ListEntry.InsertHeadList | PawnIO/klist.h:262 | the four pointer updates put the entry right behind p in the ring |
| ListEntry.RemoveEntryList | PawnIO/klist.h:292 | the two pointer updates take exactly that entry out of the ring |
| ListEntry.FixNeighbours | PawnIO/klist.h:169-171 | a head with copied links and its two fix-ups own the ring |
| ListEntry.SwapLinks | PawnIO/klist.h:355-363 | swapping two heads and the four fix-ups exchange the rings |
| KList.Pool.Allocate | PawnIO/kallocator.h:83-92 | a fresh node or a refusal that changes nothing |
| KList.Pool.Deallocate | PawnIO/kallocator.h:94-98 | only a node that is out can come back, once |
| KList.List.constructor | PawnIO/klist.h:154-161 | an empty well-formed list |
| KList.List.Begin | PawnIO/klist.h:202 | the first node, or end() |
| KList.List.Increment | PawnIO/klist.h:106-109 | the next position |
| KList.List.Decrement | PawnIO/klist.h:117-120 | the previous position, also from end() |
| KList.List.Empty | PawnIO/klist.h:218 | iff there is no node |
| KList.List.Insert | PawnIO/klist.h:255-287 | a fresh node with the value sits just before pos; refused, neither list nor pool nor any link changes and end() is returned |
| KList.List.Erase | PawnIO/klist.h:289-304 | exactly that node leaves, back to the pool once; its successor is returned |
| KList.List.EraseRange | PawnIO/klist.h:306-317 | exactly [first, last) leaves, and last is returned |
| KList.List.Clear | PawnIO/klist.h:248-253 | terminates empty with every node returned to the pool |
| KList.List.Move | PawnIO/klist.h:165-174 | move construction: same nodes, source empty, both rings well formed |
| KList.List.TakeFrom | PawnIO/klist.h:184-189 | the nodes change hands by identity, the source is left empty |
| KList.List.MoveAssign | PawnIO/klist.h:178-192 | own nodes freed, the source's taken over, the source empty; onto itself nothing |
| KList.List.Swap | PawnIO/klist.h:345-379 | exchanges the node sequences in all four emptiness cases |
| KListHistory.Perform2 | PawnIO/klist.h:248-379 | any one operation on two lists over one pool is the operation on two sequences |
| KListHistory.Run | PawnIO/klist.h:248-379 | every history of inserts, erases, range erases, clears, moves and swaps, whatever the pool answers: contents are those of the two sequences, rings stay well formed, every node is in exactly one list or freed once |
| KListHistory.Collect | PawnIO/klist.h:106-109 | ++ from begin() to end() visits the values in order |
| KListHistory.CollectBackward | PawnIO/klist.h:117-120 | -- from end() to begin() visits them in reverse |
| CallbackList.SuccessIsTopBit | PawnIO/callbacks.cpp:114 | a status is a success iff the top bit of its 32-bit word is clear |
| CallbackList.VisitsStopsAtFirstFailure | PawnIO/callbacks.cpp:112-116 | the number of callbacks run is up to and including the first failure, or all |
| CallbackList.Registry.constructor | PawnIO/callbacks.cpp:81-84 | no registrations |
| CallbackList.Registry.Add | PawnIO/callbacks.cpp:91-98 | the new registration comes first; null and no change when the pool refuses |
| CallbackList.Registry.Remove | PawnIO/callbacks.cpp:100-106 | that registration and no other leaves, every other cookie stays valid in its place; null is ignored |
| CallbackList.Registry.CallStatus | PawnIO/callbacks.cpp:108-118 | newest first, up to and including the first failure, whose status is returned; success iff all ran and passed |
| CallbackList.Registry.CallVoid | PawnIO/callbacks.cpp:120-126 | every registration, newest first |
| BroadcastProtocol.StepKeepsInv | PawnIO/callbacks.cpp:91-126 | every interleaved step keeps: writers exclude walkers, every walk is faithful to the list it started from |
| BroadcastProtocol.ListFixedDuringBroadcast | PawnIO/callbacks.cpp:108-126 | no add or remove interleaves while a broadcast holds the lock |
| BroadcastProtocol.ListHoldsLive | PawnIO/callbacks.cpp:91-106 | over every run the list holds exactly the registrations that were granted and not removed since, newest first |
| BroadcastProtocol.BroadcastExact | PawnIO/callbacks.cpp:108-126 | over every run a broadcast calls exactly the registrations granted and not removed before it took the lock, newest first, or a prefix that ends in the first failure; the list is the same all along |
| BroadcastProtocol.IteratorNeverDangles | PawnIO/callbacks.cpp:112-115 | the node under the iterator is always in the list |
| BroadcastProtocol.RemoveKeepsOthers | PawnIO/callbacks.cpp:100-106 | after a remove every other cookie still finds its registration, the removed one none |
| BroadcastProtocol.TwoBroadcasts | PawnIO/callbacks.cpp:108-126 | a run in which a status broadcast stops at its first, failing callback while a void broadcast under way at the same time calls both |
| SlotTable.StepKeepsInv | PawnIO/vm.cpp:456-526 | every atomic step of any activity keeps the table's invariant |
| SlotTable.RunKeepsInv | PawnIO/vm.cpp:456-526 | it holds in every state of every run |
| SlotTable.NullOwnerMeansNoEntry | PawnIO/vm.cpp:501-526 | a slot with null ctx always has cip 0 |
| SlotTable.LivePointersDistinct | PawnIO/vm.cpp:501-512 | live allocations have pairwise distinct slots and function pointers |
| SlotTable.LiveIntact | PawnIO/vm.cpp:501-512 | a live allocation's slot holds its VM and its entry point |
| SlotTable.SlotLeavesOnlyByOwnFree | PawnIO/vm.cpp:514-526 | an owned slot loses its owner only in the last store of a free by the same VM, and its cip changes only by that VM; a free never touches another VM's slot |
| SlotTable.DispatchReadsLatestIff | PawnIO/vm.cpp:456-473 | dispatch reads the entry point of the VM's most recent completed, live allocation of the slot iff the slot was the VM's when the mutex was acquired; it never reads between the two stores of that VM |
| SlotTable.DispatchGoesOnIff | PawnIO/vm.cpp:462-464 | dispatch survives its read of the entry point iff a live allocation fills the slot, and runs that entry; it is another VM's iff the slot was no longer the VM's at the acquire |
| SlotTable.StaleDispatchReadsForeignEntry | PawnIO/vm.cpp:457-463 | a run in which the slot changed hands before the acquire and dispatch reads the other VM's entry point |
| SlotOperations.AllocEnds | PawnIO/vm.cpp:501-512 | over every run, whatever the others do: an alloc returns 0 only if every slot has been taken at some moment since it began; otherwise it logs a slot behind slots all of which have been taken, with that slot's function pointer |
| SlotOperations.AllocAlone | PawnIO/vm.cpp:501-512 | an alloc left alone always ends; it takes the least free slot, and changes nothing iff every slot is owned |
| SlotOperations.FreeFindsSlot | PawnIO/vm.cpp:515-521 | the free of a live allocation's function pointer goes to that allocation's slot |
| SlotOperations.FreeEnds | PawnIO/vm.cpp:514-526 | when a free of the VM's own live allocation comes back, the allocation is freed and its slot empty; it never stops the machine |
| SlotOperations.DispatchOfInvoked | PawnIO/vm.cpp:475-487 | a dispatch works on the slot whose function was invoked |
| SlotOperations.DispatchLocksOwner | PawnIO/vm.cpp:457-461 | the mutex a dispatch takes is that of the VM that owned the slot when it read the slot |
| SlotOperations.HaltsIff | PawnIO/vm.cpp:459-526 | the table's operations stop the machine exactly at a free of a pointer none of the table's, a free of another VM's slot, a dispatch of a slot without VM, or one without entry point |
| SlotOperations.CanGoIff | PawnIO/vm.cpp:456-526 | inside these operations only a dispatch that awaits a mutex can be held up |
| AmxStrings.ReadCharsIff | PawnIO/vm.cpp:353-371 | the text read is, cell by cell, the low bytes of the cells from the address on, none of them NUL, up to the limit or in front of a NUL |
| AmxStrings.ReadCharsNoneIff | PawnIO/vm.cpp:354-357 | reading fails iff a cell before the limit is not mapped and all cells before it are and hold no NUL |
| AmxStrings.StopsForGood | PawnIO/vm.cpp:353-372 | once reading a string has come to its end, a larger limit reads the same |
| AmxStrings.AmxStrcpy | PawnIO/vm.cpp:350-375 | the longest prefix that fits and a NUL, nothing behind it touched, min(length, dst_len-1) returned, -1 iff a cell it needs is unmapped; with dst_len 0 the length of the string, or -1 |
| AmxStrings.GetPublicNative | PawnIO/vm.cpp:403-426 | table look-up of the string's first 32 characters; each error exactly when its test says so |
| AmxStrings.ResolveRequest | PawnIO/vm.cpp:843-863 | a request resolves iff its 32-byte name field is terminated, starts with ioctl_ and names a public with a non-zero address |
| AmxStrings.Strlen | PawnIO/kernel_stubs.c:205-211 | the index of the first NUL |
| DebugPrint.ParseTarget | PawnIO/vm.cpp:279-312 | round trip: the text written for any tokens parses back to exactly them |
| DebugPrint.MessageParses | PawnIO/vm.cpp:261-268 | the message with its prefix parses as whole tokens and has as many conversions as were written |
| DebugPrint.Append | PawnIO/vm.cpp:314-324 | a token's text and a NUL are appended inside the 1024 bytes |
| DebugPrint.Translate | PawnIO/vm.cpp:267-328 | terminates on any memory; the message translates a prefix of the format token by token, stays NUL-terminated within 1024 bytes, and ends at the NUL, before the first token that does not fit, or at the cell or escape that is wrong |
| DebugPrint.EndedUnique | PawnIO/vm.cpp:271-328 | the format in memory decides the translation: only one token sequence that fits and one way to end satisfy Translate's contract |
| DebugPrint.DebugPrintNative | PawnIO/vm.cpp:253-348 | with the tokens and the end that the format decides: access_violation iff the format runs into an unmapped cell before it ends or fills the message; prints iff it ends or is truncated, conversions <= arg_count <= min(argc-1, 64), and for each counted conversion the cell at argv + 8(i+1) holds a mapped reference; the i-th value is what that reference points to, and the unused ones are 0 |
| StringSamples.Texts | PawnIO/vm.cpp:262-300 | the two texts in letters, and that only d, i, u, o, x and X are let through as conversions |
| StringSamples.PrintFortyTwo | PawnIO/vm.cpp:253-348 | debug_print("%d", 42), cell by cell, prints "%lld" with the value 42 |
| StringSamples.CopyAb | PawnIO/vm.cpp:350-375 | amx_strcpy of "ab", cell by cell, writes both characters and the NUL and returns 2 |
| VmTrace.CreatedFirst | PawnIO/vm.cpp:808-811 | created is the first event and happens once |
| VmTrace.NothingWithoutCreated | PawnIO/vm.cpp:774-786 | a VM that was never announced has no event but frees |
| VmTrace.CallAfterPrecall | PawnIO/vm.cpp:815-819 | every call comes right after a precall that passed |
| VmTrace.CallsDoNotOverlap | PawnIO/vm.cpp:877-886 | nothing happens between a call's begin and its end |
| VmTrace.PostcallFollows | PawnIO/vm.cpp:466-472 | a postcall follows at once on the load, execute and unload paths, and never on dispatch |
| VmTrace.OnlyFreesAfterDestroyed | PawnIO/vm.cpp:922-928 | after destroyed there are only frees |
| VmTrace.FinishedShape | PawnIO/vm.cpp:808-837 | a finished history is created, then neither destroyed nor freed until the one destroyed, then frees; or nothing but frees |
| LifecycleInv.LocalStep | PawnIO/vm.cpp:726-932 | any step of a thread on a VM keeps blocks, history, mutex, mappings and slots consistent with where the thread is |
| LifecycleProof.StepKeepsInv | PawnIO/driver.cpp:147-189 | every step of every request, of the close and of dispatch keeps the protocol's invariant |
| LifecycleProof.RunKeepsInv | PawnIO/driver.cpp:147-189 | it holds in every state of every run |
| LifecycleProof.HandleSetOnce | PawnIO/driver.cpp:165-171 | FsContext changes only from null to the context of the load whose compare-exchange it is |
| LifecycleProof.HandleNeverChanges | PawnIO/driver.cpp:147-189 | once set FsContext never changes |
| LifecycleProof.ExecuteNeverSeesNull | PawnIO/driver.cpp:176-180 | an execute that saw a context reads a context again for the call |
| LifecycleProof.DestroysOnlyItsOwn | PawnIO/driver.cpp:147-171 | whoever destroys or frees a VM is the load that created it or the close of the handle that holds it |
| LifecycleProof.HolderInside | PawnIO/vm.cpp:808-926 | whoever holds a VM's mutex is at a place inside that VM, and awaits no mutex |
| LifecycleProof.MutexStays | PawnIO/vm.cpp:808-926 | no step of another thread takes a mutex from its holder |
| LifecycleProof.PartingStep | PawnIO/vm.cpp:922-926 | a destruction begins at most once per VM, and only one that begins with a slot held or a dispatch under way is a race |
| LifecycleProof.QuiescedNeverRaces | PawnIO/vm.cpp:922-926 | a VM whose callbacks were over at every destroy of it has not raced |
| LifecycleProof.TraceAccepted | PawnIO/vm.cpp:800-932 | every event before the frees happened under the VM's mutex, on every run; if the VM's callbacks were over when its destruction began, its history is a prefix of the grammar |
| LifecycleProof.NoDoubleFree | PawnIO/vm.cpp:745-798 | copy, context and arena are each allocated at most once and never freed more often |
| LifecycleProof.NoUseAfterFree | PawnIO/vm.cpp:745-932 | no use after free: wherever a load, an execute or the close stands, and wherever a dispatch stands if the destroy waited for it, the copy is out, the context is out unless not yet allocated or just freed, and the arena is out wherever functions are looked up, the mutex is awaited or held, or the VM is published |
| LifecycleProof.LiveVmOwnsItsBlocks | PawnIO/driver.cpp:165-171 | while the handle has a context and no close has come, that VM is published and its copy, context and arena are all out |
| LifecycleProof.NothingMappedAtRest | PawnIO/vm.cpp:877-903 | when a VM's mutex is free no buffer is mapped into it, whatever path executes took |
| LifecycleProof.EverythingReturned | PawnIO/driver.cpp:147-151 | after the close and with no thread left, every block of every VM ever created was freed exactly as often as allocated and no mutex or mapping is left, on every run; if the VM's callbacks were over when its destruction began, it was announced and destroyed exactly once, or never announced |
| LifecycleRace.DestroySafeIff | PawnIO/vm.cpp:922-927 | when a destruction begins, slots are back and no dispatch is under way iff no continuation lets a dispatch use the freed context, and iff no continuation breaks the VM's history |
| LifecycleRace.LateDispatch | PawnIO/vm.cpp:457-461 | with callbacks left, the VM can be destroyed and freed and a dispatch still go for its mutex |
| LifecycleRace.LateCall | PawnIO/vm.cpp:461-466 | that dispatch takes the mutex inside the freed context and announces a call into the destroyed VM |
| LifecycleRace.CleanNoDispatch | PawnIO/vm.cpp:457-461 | after a destruction that began with the callbacks over there is no dispatch on the VM |
| LifecycleRace.HistoryBrokenIff | PawnIO/vm.cpp:456-473 | over every run a VM's history is broken iff a dispatch announced a call into it after its destruction had begun |
| LifecycleRaceRun.DispatchUsesFreedContext | PawnIO/vm.cpp:457-461 | a run in which the module has given its slot back, the close destroys and frees the VM while a dispatch waits, and the dispatch then takes the freed mutex and breaks the history |
| LifecycleOutcome.RequestSucceedsIff | PawnIO/driver.cpp:147-189 | over every run, for every load, execute and close: it reports success iff nothing it asked for was refused, told from the answers alone |
| LifecycleOutcome.RefusedNeverPublished | PawnIO/vm.cpp:808-837 | once anything was refused to a load (created vetoed, main vetoed or failed, and so on) no later state has its VM as the handle's context |
| LifecycleOutcome.FailedLoadLeavesNothing | PawnIO/vm.cpp:774-837 | a load that reports failure has given every block back |
| LifecycleOutcome.HaltsIff | PawnIO/vm.cpp:459-473 | the machine stops exactly when a dispatch finds no cip or is vetoed, or its call fails |
| LifecycleItinerary.WayIsGranted | PawnIO/driver.cpp:153-190 | wherever a load or an execute is, unless it is failing, everything it has to be granted before that place has been granted, in the order of the source |
| LifecycleUnload.FlagsIff | PawnIO/vm.cpp:814-912 | a VM has a main or an unload iff its loader found one |
| LifecycleUnload.LoadSucceedsIff | PawnIO/vm.cpp:745-841 | a load reports success iff all it asks for was granted, from the empty handle to the compare-exchange, where it asks about main iff its loader found one |
| LifecycleUnload.PublishNeedsMain | PawnIO/vm.cpp:812-839 | a load gets to the compare-exchange only with created passed and, if there is a main, after a precall that passed and a call of main that ended well |
| LifecycleUnload.MainOnlyIfFound | PawnIO/vm.cpp:814 | main is called only if the loader found one |
| LifecycleUnload.ExecuteSucceedsIff | PawnIO/vm.cpp:843-906 | an execute reports success iff it was resolved, both buffers were mapped, the precall passed and the call ended well |
| LifecycleUnload.ExecuteOnHandle | PawnIO/driver.cpp:179-180 | an execute works on the VM the handle holds |
| LifecycleUnload.UnloadIff | PawnIO/vm.cpp:908-926 | whoever begins to destroy a VM has gone through its unload iff the loader found one and it is the close or a load that lost the compare-exchange |
| LifecycleSamples.EmptyHandle | PawnIO/driver.cpp:147-178 | a run: an execute on an empty handle fails, its close succeeds |
| LifecycleSamples.SecondLoad | PawnIO/driver.cpp:155-157 | a run: a load on a handle with a context fails at once |
| LifecycleSamples.TwoLoads | PawnIO/driver.cpp:155-164 | a run: two loads both find the handle empty |
| Reentry.NestedRunIsRun | PawnIO/natives_impl_windows.cpp:348-375 | every run with re-entry is a run of the handle protocol, so its safety results carry over |
| Reentry.RunKeepsNInv | PawnIO/natives_impl_windows.cpp:368-371 | over every run with re-entry the protocol's invariant holds, a thread waits for one callback at a time, and stands in module code while it does |
| Reentry.CanStepIff | PawnIO/vm.cpp:456-473 | a thread can take its next step iff the machine has not stopped, no callback it invoked is under way and it does not wait for a mutex another thread holds |
| Reentry.MutexHolderSteps | PawnIO/vm.cpp:808-926 | whoever holds a VM's mutex can take its next step iff no callback it invoked is under way |
| ReentryDeadlock.NoThreadStuck | PawnIO/vm.cpp:456-473 | over every run with re-entry, following who is in a thread's way ends in a thread that can step iff it does not come back to a thread already passed |
| ReentryDeadlock.MayStepIff | PawnIO/vm.cpp:456-473 | over every run with re-entry, some continuation lets the thread take its next step iff its chain has no loop; a thread whose chain has one hangs for good |
| ReentryDeadlock.LoopLasts | PawnIO/vm.cpp:461 | no step of anyone moves a thread in or behind a loop, or breaks the loop |
| ReentryDeadlock.HungHandleNeverCloses | PawnIO/driver.cpp:147-151 | while a request hangs in a loop no continuation closes the handle |
| ReentryDeadlock.InvokeHangsIff | PawnIO/vm.cpp:457-461 | an invoke hangs iff the mutex it needs is held and the holder already waits, directly or through others, for the invoking thread, or hangs itself |
| ReentryDeadlock.OneStackHangsIff | PawnIO/vm.cpp:457-461 | while nobody else is in an invoke, an invoke hangs iff its invoking chain already holds the mutex of the callback's VM |
| ReentryDeadlock.ReentryHangs | PawnIO/vm.cpp:457-461 | an invoke whose invoking chain holds that mutex hangs, and the invoking thread with it, whatever the others do |
| ReentryDeadlock.SelfInvokeHangs | PawnIO/vm.cpp:877-885 | module code that invokes a callback of its own VM always hangs |
| ReentryDeadlock.CrossInvokeHangs | PawnIO/vm.cpp:457-461 | two modules that invoke each other's callbacks at the same time hang with both dispatches |
| ReentryRun.ModuleInvokesItself | PawnIO/vm.cpp:457-461 | a run in which an execute invokes its own VM's callback: neither it nor the dispatch steps in any continuation, and the handle is never closed |
| LifecycleStatus.LoadSucceedsIffPublished | PawnIO/driver.cpp:155-172 | over every run a load that created a VM reports success iff that VM is the handle's context |

## Left out

- The AMX interpreter and its memory manager: `call`, `map`, `unmap` and `translate` are choices of the environment or partial maps.
- Lifecycle takes from the I/O manager, not from the driver, that IRP_MJ_CLOSE comes once, after every other request on the handle.
- Lifecycle counts a module's callback slots without saying which: whether a dispatch finds a cip after the slot was given back is a choice of the environment there; `SlotTable.DispatchGoesOnIff` says when it does, in the model of the table, which in turn destroys no VM.
- Lifecycle models one handle and statuses as success or failure; the NTSTATUS codes, `IoStatus.Information` and IOCTL_PIO_VERSION would only add easy members.
- LoaderStages.FromLeCells: models the data loop with the data count, not with the code count of PawnIO/amx_loader.h:468.
- AmxStrings.AmxStrcpy: for an empty destination it speaks of strings that end, at a NUL or an unmapped cell; on a string that goes all the way round the address space the source does not return.
- The visitors of `iter_valarray` are written out in each pass instead of being passed as lambdas.
- Single-step and break hooks: `AmxCallback` reports that they are due; calling them would only add an easy member.
- klist's fast-fail on dereferencing end(), const iterators and the unused reverse iterators.
- In `SlotTable` a callback invoked from module code is an activity of its own, which allows more interleavings than there are; `Reentry` models the nesting.
- Signature splitting and verification: one verdict of the environment.
- `arg_wrapper` argument marshalling, the hardware natives, MSR tables, `strncpy`, `ceil`, `floor`, exception stubs, assembly and the 32-bit configuration.
- Big-endian builds: `from_le` is the identity here.
