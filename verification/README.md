# OS/Z: a verified model of its core algorithms

OS/Z is a microkernel written in C. This project models its scheduler, its
memory management, its run-time linker, the file table and pipes of its FS task,
and the file system image tool with its ciphers, and proves what those parts are
for. `dafny verify dfyconfig.toml` checks all of it.

Each part has a level of values, where a call is a function on states and the
properties are lemmas, and a level of classes and methods, where the same call is
written with the fields, loops and in-place updates of the C code and proved equal
to the function.

| files | part |
|---|---|
| FreeList, Pmm, PmmRun, Losses, Requests | the allocator of physical pages: a list of free runs, first fit, coalescing, and what runs of requests do to it |
| Odometer, Queues, Sched, Pick, Share, Wake, Scheduler, SchedRun, Sleepers | the scheduler: linked queues, alarms, and `sched_pick` as a counter with mixed radices |
| PageTable, Vmm, Unmap, Text, Swap, Spaces | page tables of pages and 2M slots, with the page counters of a task; several tasks on one allocator |
| Sha256, ShaLaws, ShaExample, Primes | streaming SHA-256; what its constants and functions are, bit by bit, and a worked example |
| Gf, Sbox, Aes, Cbc, AesLaws, AesExample | table-driven AES-256 with CBC in place; its tables and rounds over GF(2^8), and worked examples |
| Image | encryption, decryption and re-keying of a whole image |
| FsImage, FsFiles, Directory | FS/Z images: files and directories written by mkfs and found by its readers |
| Linker | relocation and symbol resolution |
| Pipe, Descriptors | pipes, and the file table with its descriptors |

Units are pages where the code counts pages: frame and page numbers instead of
addresses. Locks make every call atomic. Images have sectors of 2048, 4096 or 8192
bytes, as mkfs takes them: the constants `FsImage.SEC` and `Directory.ROOM` have no
value, and what is proved holds for each of the three.

Where the code does not do what it is meant to do, the model follows the code, a
lemma says exactly when it does work, and an example shows a case where it does
not:

- `pmm_allocslot` compacts from the wrong entry after a split (pmm.c:295) and loses
  the pages before a slot that ends its run: `TakeSlotExact`, `SlotStepExact`,
  `LossExact`; `TakeSlotLossExample`.
- `pmm_free` computes the length of a block before leaving frame 0 out (pmm.c:336):
  `FreeFromZero`; `FreeFromZeroExample`.
- `sched_delay` sets no back links (sched.c:291-300), so a sleeper behind another one
  cannot be removed or woken; and waking a running task that is in no queue sets a
  cursor outside its level: `RemoveExact`, `AwakeExact`, `StepExact`;
  `RemoveBehindExample`, `AwakeBehindExample`, `AwakeStrayExample`.
- `sched_awake` turns the window in which `sched_pick` sees the alarm to the next
  sleeper before it is done with the head (sched.c:192), so an alarm goes off rightly
  only for the last sleeper: `WindowExact`, `PickExact`; `SlipExample`. A sleeper of the
  idle level is never woken and blocks the others: `WakesExact`, `IdleSleeperBlocks`;
  `IdleSleeperExample`.
- `vmm_map` has no fallback to single pages where it wants a whole slot (vmm.c:159-160),
  so it can refuse while pages are free: `Map`, `AllocSlotComplete`;
  `SlotRefusedExample`.
- `vmm_free` steps over a gap by a whole entry without realigning (vmm.c:320-332) and
  takes slots whole: `FreeExact`; `FallsShortExample`, `CutSlotExample`.
- `vmm_swaptextbuf` sets marks that are right only when one page was shared:
  `RemarkedSums`; `RemarkedExample`.
- `encrypt` accepts passphrases with checksum 0 and never clears the AES flag, the
  decrypt command has its test the wrong way round, `chcrypt` ignores a new
  passphrase given as an argument: `EncryptChoice`, `ZeroChecksumLocks`,
  `FlagLeftBehind`, `DecryptCommandInert`, `ArgumentIgnored`.
- `add_file` numbers stored sectors as if holes took no place (mkfs.c:1025-1033):
  `ReadBackExact`, `LocateExact`; `ReadBackExample`, `LocateExample`.
- `link_inode` takes what is left of a path whose directory is missing as one name
  (mkfs.c:938-949), and `locate` never finds it: `LinkAnswers`, `LinkAt`;
  `MissingDirExample`.
- `elf_rtlink` merges two relocation tables with whatever lies between them
  (elf.c:441-447), stores eight bytes wherever a relocation points and checks only
  where they begin (elf.c:455): `MergedIsUnion`, `Link`, `WrittenInside`;
  `PaddedTablesExample`, `OverlapExample`, `PastEndExample`.
- `pipe_write` keeps the lock of the reader after a direct hand-off (pipe.c:123-137) and
  uses a size as a mark: `StepProper`, `RunProper`, `StepKeeps`, `RunKeeps`;
  `StrayExample`, `MarkLoses`.
- `taskctx_workdir` and `taskctx_rootdir` release before they take (taskctx.c:111-113,
  123-125): `WorkDirExact`; `WorkDirExample`.

## Model

| member | source | states |
|---|---|---|
| `FreeList.CanonicalIsMaximalRuns` | src/core/pmm.c:355-383 | a canonical list (entries non-empty, apart, never touching, base above 0) holds exactly the maximal runs of free frames |
| `FreeList.CanonicalUnique` | src/core/pmm.c:355-383 | two canonical lists of the same frames have the same entries: the list is a function of the free set |
| `FreeList.TotalIsFreeCount` | src/core/pmm.c:215-233 | in a canonical list the sizes add up to the number of free frames |
| `FreeList.AllocComplete` | src/core/pmm.c:209-228 | first fit fails for n pages if and only if no n neighbouring frames are free anywhere |
| `FreeList.TakeFrontFree` | src/core/pmm.c:215-229 | taking the front of an entry keeps the list canonical and removes exactly the block handed out |
| `FreeList.AllocSlotComplete` | src/core/pmm.c:272-274 | a slot is refused if and only if no aligned run of 512 free frames exists |
| `FreeList.TakeSlotExact` | src/core/pmm.c:280-301 | cutting a slot out keeps the list canonical and removes exactly the slot if and only if the run does not start unaligned and end with the slot: then the compaction starts at the wrong entry |
| `FreeList.TakeSlotLossExample` | src/core/pmm.c:294-300 | frames 1 to 1023 free: the allocator takes the slot at 512 and loses the 511 frames before it |
| `FreeList.FreedKeeps` | src/core/pmm.c:355-383 | giving back a block keeps the list canonical and adds exactly the block: one merge is enough |
| `FreeList.FreeFromZero` | src/core/pmm.c:336-359 | freeing from frame 0 adds the right frames if and only if no run starts one frame behind the block, because the length is taken before frame 0 is left out |
| `FreeList.FreeFromZeroExample` | src/core/pmm.c:336-359 | frames 0 to 2 given back: the list then offers a frame nobody freed |
| `FreeList.AllocThenFree` | src/core/pmm.c:209-233 | giving a block straight back restores the free set and the runs |
| `FreeList.SlotThenFree` | src/core/pmm.c:272-304 | the same for a slot taken without a loss |
| `Requests.LossExact` | src/core/pmm.c:280-301 | some requests make the allocator lose pages if and only if a run longer than a slot ends where a slot does |
| `Requests.LeadsKeeps` | src/core/pmm.c:196-320 | requests for pages never lose any, and from a list without such a run no request does |
| `Requests.PageRefused` | src/core/pmm.c:209-228 | a page is refused if and only if none is free |
| `Requests.SlotRefusedExample` | src/core/pmm.c:272-318 | 1022 pages free in one run and no slot to be had, while 512 pages in a row are |
| `Pmm.Pmm.Alloc` | src/core/pmm.c:196-256 | the array edited in place is the first fit list, and both page counters move by the block |
| `Pmm.Pmm.AllocSlot` | src/core/pmm.c:262-320 | entries shifted, split and compacted in place are the slot list, and the counters move by 512 |
| `Pmm.Pmm.Free` | src/core/pmm.c:334-386 | extending, appending and merging in place is the freed list, and the counters move by what was freed |
| `Pmm.Pmm.CarveSlot` | src/core/pmm.c:280-301 | the split and the take behind it, compaction from the wrong entry included |
| `Pmm.Pmm.MergeOne` | src/core/pmm.c:371-380 | the first neighbour that meets the entry is merged and closed up |
| `PmmRun.StepKeeps` | src/core/pmm.c:209-233 | every allowed call keeps the list canonical, holdings apart and counted, and the set of managed frames |
| `PmmRun.SlotStepExact` | src/core/pmm.c:294-300 | taking a slot keeps all of that if and only if the allocator is not in its losing case |
| `PmmRun.RunConserves` | src/core/pmm.c:215-233 | over any run free and held frames stay the same set, free pages plus allocated pages stay the total, and the counter never passes it |
| `Losses.RunSafe` | src/core/pmm.c:209-386 | over any run in which tasks free only what they hold, slots taken in the losing case included, no frame is free and held or held twice, the counters of the tasks are right, and frames are lost at most, never invented |
| `Losses.BlocksNeverOverlap` | src/core/pmm.c:209-320 | a block or a slot handed out after any such run was free and overlaps no frame any task holds |
| `Odometer.AdvanceIncrements` | src/core/sched.c:354-366 | a sweep over the cursors adds one to a number with mixed radices, and wraps exactly at the top |
| `Odometer.CountFull` | src/core/sched.c:354-366 | in one revolution place k of level j has one turn for every setting of the lower levels |
| `Odometer.PickIsNext` | src/core/sched.c:353-367 | a pick is one increment of the odometer, the empty setting skipped |
| `Odometer.ExactShare` | src/core/sched.c:353-367 | over any revolution, from any setting, every place of level j has the same exact number of turns |
| `Sched.AddKeeps` | src/core/sched.c:98-120 | sched_add puts a task in front of the queue of its level and keeps every queue |
| `Sched.RemoveKeeps` | src/core/sched.c:125-160 | sched_remove takes a task out of whatever list it is in and leaves the others alone |
| `Sched.RemoveExact` | src/core/sched.c:134-159 | it does so if and only if the task is not asleep behind another sleeper: alarm queues have no back links |
| `Sched.RemoveBehindExample` | src/core/sched.c:134-159 | two sleepers, the second removed: the alarm queue still goes on to it |
| `Sched.AwakeKeeps` | src/core/sched.c:166-211 | sched_awake moves a waiting task to its level and makes it the next one to run |
| `Sched.AwakeExact` | src/core/sched.c:186-209 | it keeps the queues if and only if the task is neither asleep behind another sleeper nor a running task in no queue |
| `Sched.AwakeStrayExample` | src/core/sched.c:206-209 | a running task in no queue, woken: its cursor points at it, its level does not have it |
| `Sched.AwakeBehindExample` | src/core/sched.c:190-204 | two sleepers in sound queues, the second woken: it is in the ready queue and still in the alarm queue |
| `Sched.BlockKeeps` | src/core/sched.c:217-241 | sched_block moves a running task to the blocked queue and keeps every queue |
| `Sched.DelayKeeps` | src/core/sched.c:263-301 | sched_delay puts a task to sleep, keeps every queue and the alarm queue sorted |
| `Sched.SplicedSorted` | src/core/sched.c:280-300 | inserting before the first later sleeper keeps the alarm queue sorted: everyone due no later, those due at the same time included, stays in front, and everyone due later comes behind |
| `Sched.HeadDecides` | src/core/sched.c:355 | nobody in the alarm queue is due before its head, so looking at the head is enough |
| `Pick.TwoPasses` | src/core/sched.c:353-367 | the do-while of sched_pick ends after two passes whenever a level has tasks |
| `Pick.PickKeeps` | src/core/sched.c:346-386 | a pick that wakes nobody, or a head with nobody behind it, keeps every queue and runs a task of its CPU, the idle task only when all queues are empty |
| `Pick.WindowExact` | src/core/sched.c:355-357 | sched_awake on the alarm window, which it turns to the next sleeper half way through (line 192), wakes the head if and only if nobody sleeps behind it; otherwise no lists describe the memory any more |
| `Pick.PickExact` | src/core/sched.c:346-386 | sched_pick leaves memory that lists describe if and only if its alarm does not slip to the next sleeper; what a slipped pick goes on to run makes no difference |
| `Wake.SlipExample` | src/core/sched.c:354-357 | two sleepers of one level, the first due: the pick slips, and no lists describe the memory it leaves |
| `Wake.WakesExact` | src/core/sched.c:354-357 | a pick wakes and runs the head of the alarm queue if and only if it is due, above the idle level, and every level above it is empty or has had its turns; otherwise no queue changes |
| `Wake.DueIsWoken` | src/core/sched.c:73-82 | a due head above the idle level sleeps on for exactly as many clock interrupts as the levels above it have turns left, and the next one runs it |
| `Wake.LeftDecreases` | src/core/sched.c:354-366 | each pick that does not wake it takes one of those turns |
| `Wake.IdleSleeperBlocks` | src/core/sched.c:354-357 | a head of the idle level, which sched_delay accepts, is never woken by a clock interrupt and keeps everyone behind it asleep |
| `Wake.IdleSleeperExample` | src/core/sched.c:354-357 | a sleeper of the idle level in front of another: three interrupts after both were due they still sleep |
| `Share.PickTurns` | src/core/sched.c:353-386 | with the queues left alone and no alarm, a pick turns the odometer by one and runs the task under the digit |
| `Share.ExactShares` | src/core/sched.c:346-386 | over any product of (n+1) minus one picks every task of level j runs exactly product of (n+1) over the lower levels times |
| `Share.NobodyStarves` | src/core/sched.c:346-386 | so every ready task runs within that many picks |
| `Scheduler.Scheduler.Add` | src/core/sched.c:98-120 | the linked list edited in place is the list with the task in front |
| `Scheduler.Scheduler.Remove` | src/core/sched.c:125-160 | heads, cursor and neighbours updated in place are the lists without the task |
| `Scheduler.Scheduler.Awake` | src/core/sched.c:166-211 | unlinked and added in place; the cursor of the level points at the task |
| `Scheduler.Scheduler.Block` | src/core/sched.c:217-241 | moved in place from its level to the blocked queue |
| `Scheduler.Scheduler.Delay` | src/core/sched.c:263-301 | moved in place to its place among the sleepers; its alarm is usec when nobody slept on its CPU, whose clock restarts at 0, and the clock plus usec otherwise, modulo 2^64 |
| `Sleepers.DelaySleeps` | src/core/sched.c:280-281 | the same for the call on lists |
| `Sleepers.NeverEarly` | src/core/sched.c:263-301 | over any run of calls on any CPU a task put to sleep for usec is still asleep, with usec minus the time gone to go, while the clock of its CPU has moved on by less than usec, unless it is woken or removed by name |
| `Sleepers.DueOnTime` | src/core/sched.c:280-281 | for as long as it sleeps it is due if and only if the clock of its CPU has moved on by usec |
| `Sleepers.DelayThenRuns` | src/core/sched.c:263-386 | put to sleep while nobody else sleeps on its CPU, no clock interrupt before usec wakes it, and from usec on it is run at the interrupt behind the turns the levels above it have left |
| `Scheduler.Scheduler.FindPlace` | src/core/sched.c:282-289 | the walk over the alarm queue stops at the first later sleeper |
| `Scheduler.Scheduler.Pass` | src/core/sched.c:354-366 | the loop over the levels is the recursive sweep |
| `Scheduler.Scheduler.PickNext` | src/core/sched.c:346-386 | the loops, the wake-up and the cursor moves are the pick, for picks that wake nobody or a head with nobody behind it |
| `SchedRun.StepExact` | src/core/sched.c:98-386 | a call keeps the queues if and only if it is allowed: it adds no task that is in a queue, removes or wakes none from behind another sleeper, wakes no running task in no queue, and its alarm does not slip |
| `SchedRun.StepLevels` | src/core/sched.c:98-386 | no call changes the level of a task |
| `SchedRun.RunExact` | src/core/sched.c:98-386 | over any run the queues are kept, at every moment, if and only if every call is allowed |
| `SchedRun.RunKeepsQueues` | src/core/sched.c:98-386 | over any run of allowed calls every list is chained, every task sits in at most one list, the one its state, CPU and level name, and alarm queues are sorted |
| `SchedRun.NobodyOvertakes` | src/core/sched.c:98-386 | over any run sleepers of one alarm queue keep their order for as long as both sleep |
| `SchedRun.FirstComeFirst` | src/core/sched.c:280-300 | so a task put to sleep stays behind everyone who slept already and is due no later, equal wake times included |
| `Vmm.Space.Map` | src/core/vmm.c:96-195 | whatever mix of slots and pages it picks: the pages asked for get the given frames, or fresh ones that were free, up to where it stops; every other page is translated as before; success means all of them and that none was mapped; a fault means a mapped page or a table in the way of a slot, no memory means that the allocator refuses what is wanted where it stopped; a clear range that needs no slot is mapped whenever more pages are free than it can take; a whole slot at the start is refused if and only if the allocator has none; with enough slots free it also succeeds where slots come from the allocator; at the end of the core's dynamic memory it refuses, except for a range that ends with the address space; linkmem grows by the pages mapped when a frame is given and not otherwise; counters stay exact always, frames until a slot is taken in the losing case, which only a call with slots from the allocator can do |
| `Vmm.Space.MapSlots` | src/core/vmm.c:153-171 | slots up to the end of the 1G table, each clear before and right after; out of memory before the first if and only if no slot can be had |
| `Vmm.Space.MapPages` | src/core/vmm.c:178-194 | single pages up to the end of the 2M table, with a jump back even when nothing is left; no page is ever lost, and memory is short only when none is free |
| `Vmm.Space.TakePage` | src/core/vmm.c:141-143 | a frame from the allocator becomes an entry: it was free, and the books still balance |
| `Vmm.Space.TakeSlot` | src/core/vmm.c:159-161 | the same for a slot; pages are lost if and only if the allocator is in its losing case |
| `Vmm.Space.Release` | src/core/vmm.c:335-364 | a cleared entry gives its own frames back or forgets shared ones, and the books still balance |
| `Vmm.Explained` | src/core/vmm.c:141-187 | when memory is short and nothing was lost, no more pages were free than the mapping can take, or a slot was wanted that cannot be had |
| `Vmm.Enough` | src/core/vmm.c:140-187 | when more aligned runs are free than the mapping can take pages, neither a page nor a slot is refused |
| `Vmm.PageMaps` | src/core/vmm.c:178-188 | a page entry changes the translation of its page and of no other |
| `Vmm.SlotMaps` | src/core/vmm.c:153-166 | a slot entry changes the translation of its 512 pages and of no other, and none of them was mapped |
| `Vmm.TableMapsNothing` | src/core/vmm.c:140-173 | a new table translates nothing |
| `Vmm.MappedJoin` | src/core/vmm.c:136-194 | two stretches of mapping are one |
| `PageTable.BalancedTake` | src/core/vmm.c:141-161 | an entry for frames just taken keeps counters above their base by exactly what entries weigh and, until pages are lost, frames owned once and free plus owned frames the same set |
| `PageTable.BalancedLink` | src/core/vmm.c:154-157 | an entry for a shared frame keeps the same and weighs on linkmem alone |
| `PageTable.BalancedDrop` | src/core/vmm.c:335-364 | clearing an entry undoes exactly its weight and frees exactly its frames |
| `PageTable.SumRemove` | src/core/vmm.c:158-188 | the weight of all entries is that of one and of the rest, in any order |
| `PageTable.PagesAccounted` | src/core/vmm.c:141-187 | until pages are lost the free pages and the weight of all entries add up to the pages there are |
| `Spaces.OthersUntouched` | src/core/vmm.c:96-375 | what one task does with the free frames and its own leaves every other task its frames, none of them free or owned twice |
| `Spaces.Isolated` | src/core/vmm.c:96-375 | two tasks never reach one frame through pages that neither of them shares, and nobody reaches a free one so |
| `Spaces.NothingLeaks` | src/core/vmm.c:390-405 | when all tasks are gone every frame is free again |
| `Spaces.Machine.Map` | src/core/vmm.c:96-195 | vmm_map for one of several tasks on one allocator: its pages are mapped, and no other task changes |
| `Spaces.Machine.MapText` | src/core/vmm.c:201-252 | the same for vmm_maptext |
| `Spaces.Machine.Free` | src/core/vmm.c:291-375 | the same for vmm_free |
| `Spaces.Machine.Exit` | src/core/vmm.c:390-405 | a task gone: its counters are back and exactly its frames are free for the others |
| `TextSegment.MapText` | src/core/vmm.c:201-252 | the pages get the listed frames, all shared and counted in linkmem, up to where it stops; nothing else changes; success means all of them; the books balance; a clear range is mapped whenever more pages are free than tables can be missing |
| `Swap.SwapTextBuf` | src/core/vmm.c:257-286 | unless a page table is missing for a page it marks, page v shows what was on the other side, with the marks of the control block and queue pages set, an unmapped one of them becoming frame 0; with the control block linked in the buffer the books still balance |
| `Swap.ExchangedTranslation` | src/core/vmm.c:272-279 | exchanging two 1G entries exchanges the translations below them |
| `Swap.ExchangedSums` | src/core/vmm.c:272-279 | and changes no counter |
| `Swap.RemarkedSums` | src/core/vmm.c:282-284 | the three marks keep both counters right if and only if exactly one of the pages was shared |
| `Swap.RemarkedExample` | src/core/vmm.c:282-284 | three pages of the task's own: both counters are wrong afterwards |
| `Swap.RolesBalanced` | src/core/vmm.c:282-283 | the page that owns the control block and the one that links to it change roles |
| `Unmap.Free` | src/core/vmm.c:291-375 | what is left is exactly: pages outside the reach, tables with such a page, 1G tables with an entry left |
| `Unmap.FreeMiddle` | src/core/vmm.c:329-365 | the 2M entries under one 1G table, slots whole and tables by their pages |
| `Unmap.FreeLeaves` | src/core/vmm.c:346-356 | the pages of one table; the last index never cuts the walk short |
| `Unmap.FreedTranslation` | src/core/vmm.c:314-374 | a page is unmapped if and only if the walk reaches it, by itself or with its slot |
| `Unmap.FreeExact` | src/core/vmm.c:314-374 | exactly the range is unmapped if and only if it cuts no slot and nothing is mapped where the walk falls short after starting in a gap |
| `Unmap.AlignedReaches` | src/core/vmm.c:320-332 | from a 1G boundary, or from a page under a table, the walk does not fall short |
| `Unmap.FallsShortExample` | src/core/vmm.c:320-335 | a page inside the range that stays mapped |
| `Unmap.CutSlotExample` | src/core/vmm.c:335-345 | one page of a slot unmapped: the page behind it goes too |
| `Unmap.WholeWindow` | src/core/vmm.c:366-373 | unmapping the whole window leaves no entry, not even an empty table |
| `Unmap.FreeAll` | src/core/vmm.c:390-405 | after that both counters are back at their base, always, and every frame is free again unless the slot allocator lost some: no leak of its own |
| `Compression.Transform` | tools/mkfs.c:188-202 | the in-place transform is the compression function over the message schedule |
| `Sha256.Context.Update` | tools/mkfs.c:208-215 | a context that holds a message holds the longer message, however it is fed |
| `Sha256.Context.Count` | tools/mkfs.c:169 | the two-word counter adds modulo 2^64 |
| `Sha256.Context.Final` | tools/mkfs.c:216-232 | one closing block or two give the hash of the padded message |
| `Sha256.HashPieces` | tools/mkfs.c:203-232 | for every way to cut a message into pieces the digest is that of the whole message, section 6.2.2 of FIPS 180-4 |
| `Sha256.FoldAppend` | tools/mkfs.c:208-215 | hashing blocks one after the other is hashing their concatenation |
| `ShaLaws.ConstantsAreCubeRoots` | tools/mkfs.c:178-187 | round constant i is the first 32 bits behind the point of the cube root of the i-th prime, which `Primes.PrimesExact` shows the table of primes to list: section 4.2.2 of FIPS 180-4 |
| `ShaLaws.StartIsSquareRoots` | tools/mkfs.c:202-207 | the eight words a context starts with are those of the square roots of the first eight primes: section 5.3.3 of FIPS 180-4 |
| `ShaLaws.RotBits` | tools/mkfs.c:171 | bit j of a rotated word is bit j + n, counted modulo 32, of the word |
| `ShaLaws.ChBits` | tools/mkfs.c:172 | each bit of Ch is that of y or z as the bit of x says |
| `ShaLaws.MajBits` | tools/mkfs.c:173 | each bit of Maj is that of at least two of the three words |
| `ShaLaws.Ep0Bits` | tools/mkfs.c:174 | bit j is the parity of bits j + 2, j + 13 and j + 22 of the word |
| `ShaLaws.Ep1Bits` | tools/mkfs.c:175 | bit j is the parity of bits j + 6, j + 11 and j + 25 |
| `ShaLaws.Sig0Bits` | tools/mkfs.c:176 | bit j is the parity of bits j + 7 and j + 18 and, where there is one, of bit j + 3 |
| `ShaLaws.Sig1Bits` | tools/mkfs.c:177 | bit j is the parity of bits j + 17 and j + 19 and, where there is one, of bit j + 10 |
| `ShaLaws.PlusWraps` | tools/mkfs.c:192-197 | sums of words are taken modulo 2^32 |
| `ShaLaws.JoinIs` | tools/mkfs.c:191 | a schedule word is its four bytes weighed by powers of 256, the first the highest |
| `ShaLaws.BytesOfWord` | tools/mkfs.c:226-231 | the four bytes a word of the digest is written as spell the word, the most significant first |
| `ShaLaws.RoundIs` | tools/mkfs.c:195-198 | a round shifts six variables on and makes the first and the fifth from the two sums of section 6.2.2 of FIPS 180-4 |
| `ShaLaws.PaddingIs` | tools/mkfs.c:216-225 | the message, the byte 0x80, as few zeros as end a block eight bytes on, and in those the length in bits modulo 2^64, the most significant byte first |
| `ShaExample.DigestOfAbc` | tools/mkfs.c:188-232 | the digest of the three bytes "abc" is ba7816bf...f20015ad, appendix B.1 of FIPS 180-2 |
| `Sha256.PaddedLong` | tools/mkfs.c:219-222 | 56 or more bytes in the buffer: padding takes two blocks |
| `Sha256.LengthField` | tools/mkfs.c:223-225 | below 2^61 bytes the length field is the bit length, section 5.1.1 of FIPS 180-4 |
| `Sha256.PaddedWhole` | tools/mkfs.c:217-227 | the padded message is whole blocks |
| `Gf.X2Reduces` | tools/mkfs.c:240-375 | doubling, which the tables are built from, is a shift reduced by 0x1b, section 4.2.1 of FIPS 197 |
| `AesLaws.RconIs` | tools/mkfs.c:531-533 | the seven round constants are the bytes 1, 2, 4, 8, 16, 32 and 64 |
| `AesLaws.SubIsAffineInverse` | tools/mkfs.c:240-375 | the S-box takes a byte to its inverse in GF(2^8), a y whose product with it is 1, and then through the affine map of section 5.1.1 of FIPS 197; 0 goes to the image of 0 |
| `AesLaws.AffineBits` | tools/mkfs.c:240-375 | bit i of that map is the parity of five bits of the byte and of bit i of 0x63 |
| `AesLaws.MixIsProduct` | tools/mkfs.c:240-512 | the column mix is the product with 3x^3 + x^2 + x + 2 modulo x^4 + 1 over GF(2^8), and its inverse that with 11x^3 + 13x^2 + 9x + 14 |
| `AesLaws.ShiftRowsMoves` | tools/mkfs.c:578-594 | row r of column c comes from column c + r modulo 4 |
| `AesLaws.EncRoundSteps` | tools/mkfs.c:578-602 | so a table round is the four steps of section 5.1 of FIPS 197, the last one without the column mix |
| `AesLaws.CbcBlocks` | tools/mkfs.c:572-605 | cipher block k is the encryption of plain block k masked with cipher block k - 1, the first with the vector |
| `AesLaws.CbcTail` | tools/mkfs.c:572-605 | an incomplete last block stays as it is |
| `AesLaws.VectorIs` | tools/mkfs.c:540 | the vector is the 16 bytes of the key from the offset in the low four bits of its first byte |
| `AesExample.WordOfA3` | tools/mkfs.c:541-552 | word 8 of the key expansion of appendix A.3 of FIPS 197 is 9ba35411 |
| `AesExample.BlockOfC3` | tools/mkfs.c:537-605 | the key 00 01 .. 1f expanded and the block 00 11 .. ff encrypted give 8ea2b7ca...4b496089, appendix C.3 of FIPS 197 |
| `Sbox.SubInverse` | tools/mkfs.c:240-529 | the inverse S-box undoes the S-box for every byte |
| `Aes.MixInverse` | tools/mkfs.c:240-512 | InvMixColumns undoes MixColumns for every column |
| `Aes.InvMixLinear` | tools/mkfs.c:377-512 | InvMixColumns is linear, which is why keys can be mixed beforehand |
| `Aes.EncRoundIs` | tools/mkfs.c:578-594 | the table round is SubBytes, ShiftRows, MixColumns and AddRoundKey |
| `Aes.DecRoundIs` | tools/mkfs.c:613-626 | the table decryption round undoes SubBytes and ShiftRows and mixes back |
| `Aes.RoundInverse` | tools/mkfs.c:578-626 | a decryption round with the mixed key undoes an encryption round |
| `Aes.DecFollowsEnc` | tools/mkfs.c:578-638 | after j decryption rounds the state is that of encryption j rounds before the end |
| `Aes.BlockRoundTrip` | tools/mkfs.c:576-640 | decrypting an encrypted block gives the block back under every key schedule |
| `Cbc.Cipher.Init` | tools/mkfs.c:538-570 | the key gives the expanded schedule of section 5.2 of FIPS 197, its reversed and mixed form of section 5.3.5, and the initial vector at the offset in its first byte |
| `Cbc.Cipher.Expand` | tools/mkfs.c:541-552 | the expansion loop writes the words of the key expansion |
| `Cbc.Cipher.Reverse` | tools/mkfs.c:553-558 | rounds swapped end for end |
| `Cbc.Cipher.MixBack` | tools/mkfs.c:559-569 | the inner rounds through Te1 and Td are InvMixColumns of the round keys |
| `Cbc.Cipher.Enc` | tools/mkfs.c:572-605 | chaining over the whole blocks of a buffer in place, section 6.2 of NIST SP 800-38A |
| `Cbc.Cipher.Dec` | tools/mkfs.c:607-646 | dechaining in place, the cipher block kept for the next one |
| `Cbc.CbcRoundTrip` | tools/mkfs.c:572-646 | decryption restores every buffer for every key and initial vector |
| `Cbc.Cipher.EncThenDec` | tools/mkfs.c:538-646 | for every 32-byte key aes_dec after aes_enc leaves the buffer as it was |
| `Image.SectorRoundTrip` | tools/mkfs.c:694-714 | either cipher undoes itself on a sector |
| `Image.StreamIs` | tools/mkfs.c:700-714 | the stream of a sector: block k is the hash of block k - 1, the first of the vector, and of the sector number; each of its bytes, xored with that of the vector, is used once, in order |
| `Image.LittleEndian` | tools/mkfs.c:708 | the sector number is hashed with its least significant byte first |
| `Image.LineIs` | tools/mkfs.c:673 | a passphrase counts up to its first 0, CR or LF, which are the only bytes that end it |
| `Image.EncryptedImage` | tools/mkfs.c:681-721 | the encrypted image byte by byte: key xored with the hash of passphrase and magic, mark, and every sector under the stream of its own number or the chained block cipher |
| `Image.EncryptChoice` | tools/mkfs.c:681-692 | decryption will pick the cipher that was used if and only if the checksum of the passphrase is not 0, the algorithm bits are known and no earlier cipher left its flag |
| `Image.EncryptThenDecrypt` | tools/mkfs.c:686-790 | then every sector behind the superblock is restored, and the key and the mark are wiped |
| `Image.ZeroChecksumLocks` | tools/mkfs.c:681 | with a passphrase of checksum 0, such as the empty one, nothing decrypts or re-keys the image any more |
| `Image.FlagLeftBehind` | tools/mkfs.c:691 | an image that went through AES once is given to the wrong cipher after SHA-XOR |
| `Image.CommandExact` | tools/mkfs.c:2290-2308 | no encrypt, decrypt or chcrypt command changes a sector of an encrypted image, and it stays marked if and only if it is not re-keyed to a checksum of 0 |
| `Image.DecryptCommandInert` | tools/mkfs.c:2290-2308 | so no run of commands, with the right passphrases or not, gets the sectors back: the decrypt command refuses exactly the encrypted images |
| `Image.KeyKept` | tools/mkfs.c:815-841 | an accepted re-keying keeps the disk key if and only if the given passphrase has the mask of the right one |
| `Image.ArgumentIgnored` | tools/mkfs.c:827-834 | a new passphrase given as an argument is ignored |
| `Image.ChainKeeps` | tools/mkfs.c:796-846 | any chain of re-keyings keeps disk key, sectors and cipher; only the last passphrase is needed |
| `Image.EncryptRekeyDecrypt` | tools/mkfs.c:655-846 | encrypt, re-key any number of times, decrypt with the last passphrase: the sectors are back |
| `Image.Image.Encipher` | tools/mkfs.c:655-726 | the loops over keys and sectors are the encryption of the image |
| `Image.Image.Decipher` | tools/mkfs.c:731-791 | the same for decryption, refusals and wrong passphrases included |
| `Image.Image.ChangePass` | tools/mkfs.c:796-846 | the same for re-keying |
| `Image.Image.XorOne` | tools/mkfs.c:700-714 | the hash chain restarts for each sector and advances every 32 bytes |
| `FsImage.DirectoryEntry` | tools/mkfs.c:1026 | a sector number written as four bytes is read back as eight |
| `FsFiles.Writer.AddFile` | tools/mkfs.c:971-1048 | the four layouts by size, the directory and the data area written sector by sector |
| `FsFiles.Writer.Lay` | tools/mkfs.c:1022-1035 | entries count stored sectors while data keep their own place |
| `FsFiles.CopiedChunk` | tools/mkfs.c:1027-1028 | the short copy of the last sector loses nothing |
| `Directory.LinkExact` | tools/mkfs.c:927-966 | linking under existing directories keeps them proper if and only if the path is new |
| `Directory.LinkLocates` | tools/mkfs.c:927-966 | the new path leads to the inode, every path that led somewhere still does, entries are sorted and there is one more |
| `Directory.LinkAnswers` | tools/mkfs.c:938-957 | in proper directories, for any path: linking succeeds if and only if the way along its directories, entry by entry, ends at a directory with room and, unless a directory of the path is missing there, without an entry of the last name; it is refused for want of room if and only if that directory is full; and it is lost if and only if it starts at no directory or an entry has the last name |
| `Directory.LinkAt` | tools/mkfs.c:938-957 | which entry is added, and where: the last name, or, where a directory is missing, all of the path from it on |
| `Directory.MissingDirExample` | tools/mkfs.c:938-957 | "x/y" linked into an empty root: one entry with a slash in its name, never found again |
| `Directory.LeadingSlash` | tools/mkfs.c:1199-1206 | one leading slash makes no difference, alone it is the root, and behind two of them nothing is found |
| `Directory.FreshStem` | tools/mkfs.c:1207-1215 | a path is not found if and only if the last directory has no entry of that name, with or without its slash |
| `Directory.StillFound` | tools/mkfs.c:1193-1221 | every path that is found stays found when directories only gain proper entries |
| `Directory.Image.LinkInode` | tools/mkfs.c:927-966 | the recursive walk and the appended, sorted entry, with inode 0 for the root |
| `Directory.Image.Lookup` | tools/mkfs.c:1193-1221 | the loop is the recursive search, with inode 0 for the root |
| `FsFiles.ReadSd` | tools/fsZ-fuse.c:279-303 | a range through a sector directory is the bytes its entries lead to, the first piece from within its sector |
| `FsFiles.Read` | tools/fsZ-fuse.c:256-318 | any offset and size: size bytes of the file from offset on, or all there are up to its end |
| `FsImage.ReadBackExact` | tools/fsZ-fuse.c:267-318 | every byte of a file mkfs added is read back, whatever is added later, if and only if holes are off, the file is at most one sector, or no stored sector follows a hole |
| `FsImage.ReadBackExample` | tools/fsZ-fuse.c:279-303 | a sector of zeros and one byte behind it: the byte is read as 0 |
| `FsFiles.AddThenRead` | tools/fsZ-fuse.c:256-318 | added and read back: data[offset..min(offset+size, len)] |
| `FsImage.LocateExact` | src/core/fs.c:138-158 | pointer and size cover the whole file, whatever mkfs adds behind it, if and only if it has no hole; a single sector of zeros points at the superblock instead |
| `FsImage.LocateExample` | src/core/fs.c:138-158 | a file that begins with a hole is looked for in the superblock, whatever is added later |
| `Linker.MergedIsUnion` | src/core/elf.c:441-447 | for any entry size the merged relocation range holds the entries of the two tables and no others if and only if the later table begins a whole number of entries behind the start of the earlier one and not past its end; or, when it has no entry, does not make room for one |
| `Linker.PaddedTablesExample` | src/core/elf.c:441-494 | 24 bytes of entries at 240 and at 272: the second entry is read from 264 |
| `Linker.Process.Collect` | src/core/elf.c:452-494 | nameless relocations are written, eight bytes each, as base plus addend, named ones noted; one that begins outside stops it |
| `Linker.Process.Offer` | src/core/elf.c:597-605 | a definition resolves exactly the relocations of its name that still wait |
| `Linker.Process.Resolve` | src/core/elf.c:500-609 | after all symbols each relocation has had the first definition of its name in load order, then symbol order |
| `Linker.Process.Link` | src/core/elf.c:341-626 | it succeeds if and only if the file types fit, all relocations lie inside and every name is defined; then every slot holds the eight bytes of its value if and only if any two relocations agree on every byte they share; no other byte changes |
| `Linker.LinkedLoads` | src/core/elf.c:490-600 | in a linked process every slot, read as a number, is the value of its relocation |
| `Linker.SlotsHold` | src/core/elf.c:443-600 | by object and index: the eight bytes at BUF + addr + offset are addr + addend for a nameless relocation, and otherwise addr + value of the first symbol, in load order, then symbol order, that has the name and a value, modulo 2^64 |
| `Linker.OverlapExample` | src/core/elf.c:490-600 | two relocations four bytes apart: no memory holds both values |
| `Linker.WrittenInside` | src/core/elf.c:453-463 | a slot that passes the bounds check is written inside its object if and only if it begins at least eight bytes before the end |
| `Linker.PastEndExample` | src/core/elf.c:453-463 | a slot right at the end passes and is written behind the object |
| `Linker.AllResolved` | src/core/elf.c:612-623 | no relocation waits if and only if every name has a definition |
| `Pipe.StepKeeps` | src/fs/pipe.c:99-217 | a write, read, hand-off or wake-up keeps delivered plus unread bytes equal to the bytes written, and no reader waiting over unread bytes, if and only if it does not bring the buffer to the marking size |
| `Pipe.RunKeeps` | src/fs/pipe.c:99-217 | over any run that holds at every moment if and only if no write brings the buffer to the marking size |
| `Pipe.DeliveredInOrder` | src/fs/pipe.c:99-217 | the delivered bytes are then a prefix of the written ones and the rest is in the buffer |
| `Pipe.ReadGets` | src/fs/pipe.c:162-217 | a read that gets the lock and finds u unread bytes returns the first min(n, u) of them and leaves the rest unread; if there are none it returns nothing and waits; without the lock nothing changes |
| `Pipe.WriteGives` | src/fs/pipe.c:99-157 | a write with a reader waiting hands it the first min(n, u) of the unread and the written bytes, directly or through the buffer, and leaves the rest; otherwise all of them stay unread |
| `Pipe.NeverTooMuch` | src/fs/pipe.c:99-217 | over any run every delivery, buffered, served or handed over directly, goes to a task that asked and is no longer than it asked for |
| `Pipe.WrittenIs` | src/fs/pipe.c:99-157 | the bytes counted as written are those of the write calls, in order |
| `Pipe.MarkLoses` | src/fs/pipe.c:137 | a buffer of exactly 0xFFFFFFFF bytes is mistaken for a hand-off and lost |
| `Pipe.StepProper` | src/fs/pipe.c:114-155 | an event keeps bytes to reads of this pipe, and the lock away from who waits elsewhere, if and only if it does not suspend the holder of the lock in another read |
| `Pipe.RunProper` | src/fs/pipe.c:114-155 | over any run that holds at every moment if and only if no event does so |
| `Pipe.StrayExample` | src/fs/pipe.c:123-136 | a direct hand-off keeps the lock, and a later write lands in another read of that task |
| `Pipe.Channel.Write` | src/fs/pipe.c:99-157 | the fields updated step by step are the write |
| `Pipe.Channel.Read` | src/fs/pipe.c:162-217 | the same for the read, locking included; it returns the first min(s, u) of u unread bytes |
| `Pipe.Channel.TakeOut` | src/fs/pipe.c:175-211 | the same for the part behind the lock |
| `Descriptors.StepKeeps` | src/fs/taskctx.c:107-269 | every allowed call keeps: counts equal references, references name live entries, open slots are tallied, live paths differ, the table ends with a live entry |
| `Descriptors.RunKeeps` | src/fs/taskctx.c:107-269 | and so does every run |
| `Descriptors.OpenSlotsLive` | src/fs/taskctx.c:315-323 | so every open slot of every task is a valid descriptor |
| `Descriptors.WorkDirExact` | src/fs/taskctx.c:107-126 | moving a task to a directory keeps that if and only if it is not its own directory held by nobody else: the old one is released first |
| `Descriptors.WorkDirExample` | src/fs/taskctx.c:119-126 | a task alone in its directory, moved there again: the entry is freed and the task refers to nothing |
| `Descriptors.OpenTakes` | src/fs/taskctx.c:133-221 | a successful open returns a slot that was free and now names the file: the slot asked for when that is free, otherwise the lowest free one or a new one; the task has one open file more, the entry one reference more, and every other slot, entry and task is as it was; a refused one changes nothing |
| `Descriptors.CloseDrops` | src/fs/taskctx.c:223-269 | a successful close leaves the slot free and no valid descriptor, the task with one open file less, the entry with one reference less, every other slot of every task naming what it named, and, unless asked not to, no free slot at the end; a refused one changes nothing |
| `Descriptors.DirsMove` | src/fs/taskctx.c:107-126 | moving a task to a directory changes that directory of that task alone |
| `Descriptors.FileTable.Open` | src/fs/taskctx.c:131-221 | the slot asked for, the first free one or a new one, with the counts: field by field as in OpenTakes |
| `Descriptors.FileTable.Close` | src/fs/taskctx.c:223-269 | the slot freed, the reference dropped, the list cut at its end: field by field as in CloseDrops |
| `Descriptors.FileTable.WorkDir` | src/fs/taskctx.c:119-126 | the old directory released, the new one taken |
| `Descriptors.AddSound` | src/fs/fcb.c:70-93 | a path is found, put into the first hole or appended, and live entries stay where they are |
| `Descriptors.DelSound` | src/fs/fcb.c:98-129 | a dropped reference frees its entry exactly when it was the last, and cuts the table without touching live entries |
| `Descriptors.FileTable.Add` | src/fs/fcb.c:70-93 | one pass that looks for the path and remembers the first hole |
| `Descriptors.FileTable.Drop` | src/fs/fcb.c:98-129 | the count, the hole and the cut in place |

## Left out

- Vmm.Space.Map: frames and freshness are claimed only until the slot allocator has lost pages (the ghost field `lost`; it turns true only where a slot is taken in the losing case of pmm.c:295); counters and translations are claimed always.
- Vmm.Space.Map: requires that no slot reaches into the range, because the code would read the contents of such a slot as a page table (vmm.c:174-178); the range lies in one 512G window.
- TextSegment.MapText: the same requirements on its range.
- Swap.SwapTextBuf: requires no slot where the page tables of the marked pages belong, because the code would read and write the contents of the slot as one; where a table is missing the kernel stops, and nothing is said about memory then.
- Pmm.Pmm.AllocSlot: where an entry has to be cut in two, requires a free place in the array of entries, whose one page the code never checks.
- Pmm.Pmm.Free: the same where no run touches the block.
- SchedRun.RunKeepsQueues: for allowed calls, which `StepExact` and `RunExact` show to be exactly those that keep the queues; tasks have levels 0 to 7.
- Pick.PickKeeps: for picks whose alarm does not slip, which `PickExact` shows to be exactly those that keep the queues. What a slipped pick goes on to run is not modelled: the cursor of its level may be null.
- Scheduler.Scheduler.PickNext: the same; and the cooperative branch, which needs the drivers, is left out.
- Wake.DueIsWoken: for a head with nobody behind it, as `WindowExact` demands; between the interrupts nothing is added to the queues.
- Pipe.RunKeeps: memory for the buffer is always there; a failing `realloc` loses the buffer and is not modelled.
- Descriptors.FileTable.Open: access bits and exclusive access are the parameter `refused`; pipes and terminals are not opened here.
- Descriptors.FileTable.Close: closing a pipe, flushing and giving up exclusive access are left out.
- Descriptors.StepKeeps: the entry appended to the table starts with count 0; exclusive access and access bits are one parameter, `refused`; pipes, terminals, unions and devices are not opened here.
- Directory.LinkLocates: names fit their 111 bytes and sorting is any sorted permutation; a path that exists already as a file, or leads through one, is the outcome `Lost`.
- FsImage.ReadBackExact: sector numbers fit the four bytes written (`Numbers`).
- FsImage.LocateExact: the same; and sectors that hold inodes count as not the file's, whatever bytes are in them.
- Linker.Process.Link: starts from decoded tables that relocation does not overwrite; the export of core data into named symbols, address randomisation and the stack of library entry points are not modelled.
- Image.Image.Decipher: the passphrase is a parameter; the checksum of the superblock is left out.
- Image.Image.ChangePass: both passphrases are parameters; the checksum of the superblock is left out.
- Image.Image.Encipher: a sector is copied to a buffer, enciphered in place and copied back; images are whole sectors; the passphrase prompt, random key bytes and the checksum function are parameters, and the checksum of the superblock is left out.
- Page tables are maps from level and number to entries instead of frames full of words, so the sharing of table frames between spaces, the access bits other than the shared mark, zeroing and translation buffers are not captured. Callers pass the shared mark only together with a frame.
- Spaces.Machine.Map: shared mappings take any frame, as the code does; that it belongs to somebody who wants to share it is not checked. Swapping the code segment is stated for one task, by `SwapTextBuf`.
- Calls of the memory manager into the page allocator are the functions `Pmm` is proved to compute, so the array of entries is not aliased there.
- Windows onto control blocks (`LDYN_tmpmap*`, `LDYN_tcbalarm`): tasks are looked up by pid. The one window that matters, the alarm window sched.c:192 turns, is modelled (`WindowWake`).
- `sched_migrate`, `sched_hybernate`, timers, the blocked-time counters and waking a parked CPU. The idle task is task 0.
- Magic numbers of structures, entropy, debug output, kernel panics and messages.
- `vmm_page` fast paths, `vmm_new`, `vmm_init` and the walk to the root in `vmm_del`.
- Message queues, the block cache, write buffers, union lists, `taskctx_get`, `pipe_add` and `pipe_del`.
- File versions, symbolic links, unions and sector lists of FS/Z; MIME guessing; the directory walk of `fs_locate` and of the FUSE driver.
- Calendar arithmetic, security policy, drivers, user interface and build tools: they would add easy members only.
