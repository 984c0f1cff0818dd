# A verified model of the RISC-V IOMMU reference model

The reference model in `iommu_ref_model` is an executable RISC-V IOMMU in C: two-stage address
translation with hardware A/D updates, an IOATC, a command queue with ATS invalidation and fences,
fault and page-request queues, and interrupts. This project models its core in Dafny and proves what
the RISC-V IOMMU Architecture Specification and section 4.3.2, section 8.5 and chapter 5 of the RISC-V
Privileged Architecture promise of it.

Where the C code works in place, the model has methods over objects with the same loops; each is proved
against a recursive specification function, and the lemmas are about those functions. Where the code and
its comments disagree the model follows the code.

## The parts

- `Common`: page constants, the status of a memory access, optional values.
- `Bits`: masks and shifts of the C code as operations on numbers, and what its masking idioms mean.
- `PageTables`, `SecondStage`, `TwoStage`, `Translate`: page-table entries, typed memory with injected
  faults, the two nested walks and their composition. A walk is specified as a search for a leaf, which
  does not depend on the access, followed by the checks and the update at the leaf.
- `LeafRules`, `NestedRules`: what these walks do in terms of the words in memory: which leaf they come to, one
  stage alone or one through the other, when it grants an access, and what is written.
- `AdUpdates`, `MeaningPreserved`, `Superpages`: accessed/dirty updates preserve every translation and a
  repeated request changes nothing; one translation of a page is the translation of all of it.
- `Napot`, `Iotlb`, `Transparency`, `TransparentRuns`, `CoveredEdits`: the naturally aligned power-of-two
  coding, the IOTLB and its invalidations, that over all runs it is indistinguishable from walking the
  tables, and that invalidating one page covers the edit of its leaf.
- `DeviceContexts`, `Directories`, `DirectoryCaches`, `DirectoryBuilder`, `CoveredDirectoryEdits`:
  configuration checks, the two directory walks, their caches, the builder of the device directory, and
  the edits that a command for one device or one process covers.
- `DeviceIds`, `TranslationProcess`: the width test on device ids, and the whole translation process from
  the tests on a request to the answer it gets. `ProcessRules`, `ProcessWrites`, `RouteRules` say in the fields of
  the located contexts and the bits of the leaves which requests are granted, where they go, what they are
  shown, the cause they get otherwise, and what may be written.
- `IoatcRules`, `DirectoryRules`: the same for invalidations and hits, and for the directories.
- `GuestFaults`: the address that guest page faults report.
- `TableBuilder`, `TableTools`: the second-stage builder, the page allocator and the simple walk.
- `GuestTrees`, `HostPages`: tables in guest memory, seen through a second stage that grows with them.
- `ProcessBuilder`: the builder of the process directory. `FirstStageTables`, `NestedBuilder`,
  `FirstStageBuilder`: the builders of first-stage tables with and without a second stage.
- `Interrupts`, `RingMemory`, `FaultQueue`, `PageQueue`, `QueueRuns`: fault and page-request queues as
  bounded queues in memory, page-request replies, and the recursion of faults and interrupts. `Messages`,
  `PageRules`: the message of each unit, and that a masked one comes later; what becomes of a fault or a page request.
- `CommandQueue`, `CommandProcessor`, `FenceOrder`, `QueueProgress`, `QueueDevice`: the command queue as
  a state machine with a trace of its actions; what a fence guarantees over every run, when the queue
  can be stuck, the order of retirement, and agreement with memory and interrupts. `Completions`, `CommandRules`:
  from whom a completion has to come for a request to end, over every run; what each command does. `ResumeRules`:
  what releases a queue that is held up.
- `SystemRuns`: all of these in one run.
- `Msi`, `MsiTables`, `FileRules`: interrupt file numbers and the MSI page tables; which entry decides an access,
  and what the request gets.

## Where the code departs from its intent

- Device-id indices are kept in bytes in the test for ids that are too wide (`iommu_translate.c:13`,
  `iommu_ats.c:103`), so the index 0x100 passes as 0: `DeviceIds.WidthTestExactIff` says exactly when the
  test is right, `DeviceIds.AdmittedThoughWider` gives an id. The walk keeps 16 bits but looks at the low
  ones only, so such an id is located as another device and cached under its own number:
  `DeviceIds.LocatedByLowBits`, `DeviceIds.AliasOutlivesCommand`.
- IOTINVAL.GVMA never clears its match flags (`iommu_command_queue.c:470-483`): it leaves no matching
  entry but may drop others, `Iotlb.GvmaExactIff` and `Iotlb.GvmaDropsTooMuch`.
- A completion that frees tag 0 and is rejected at tag 1 returns before looking at the queue
  (`iommu_ats.c:64-79`): `QueueProgress.TornIsStuckIff`, `QueueProgress.TornRun`.
- An implicit second-stage access that sets A sets D too even when SADE is 0
  (`iommu_second_stage_trans.c:314`). A write whose first-stage leaf got its D bit only this way loses its
  translation when A is set earlier: `MeaningPreserved.TranslationPreservedIff`, with the requests of
  `MeaningPreserved.ReadTakesWriteAway`.
- A page request whose device context cannot be located is answered with "response failure" whatever the
  cause (`iommu_ats.c:169-174`). The comment further down lists causes, and the two agree exactly unless
  the cause is 268: `PageQueue.UnlocatedCode`, `PageQueue.PoisonedRoot`.
- The slot variable of a device-context fill is uninitialised (`iommu_atc.c:12-31`) and is used as it is
  exactly when every entry is valid and was last used at time 2^32 - 1: `DirectoryCaches.Cache.Fill`. What
  it holds then need not be an index of the cache, and the fill would write outside it.
- `translate_gpa` returns -1 for a Bare second stage (`translate_gpa.c:18-21`), so `add_process_context` never
  adds anything there and its own branch for Bare (`build_pdt.c:52-54`) is not reached: `ProcessBuilder.BareFails`.
- A guest page fault of an implicit access reports the address of the table, not of the entry
  (`iommu_two_stage_trans.c:394-407`): the same exactly when the index is 0, `GuestFaults.GuestFaultAddress`
  and `GuestFaults.SecondEntryFaults`.

## Model

| member | source | states |
|---|---|---|
| Bits.MaskMergeIsSplice | iommu_ref_model/libiommu/src/iommu_second_stage_trans.c:340 | merging a page base and an address with a size mask keeps the bits of the base from the size up and those of the address below |
| Bits.OrIsPlus | iommu_ref_model/libiommu/src/iommu_second_stage_trans.c:118 | `a | off` is `a + off` when the base has no bits where the offset has |
| Bits.LowIsRemainder | iommu_ref_model/libiommu/src/iommu_utils.c:13-16 | the bitwise low and high parts used throughout are remainder and quotient by a power of two |
| PageTables.Memory.ReadMemory | iommu_ref_model/test/tbapi.c:12-39 | a load reports an injected access violation, then poisoned data, and otherwise gives the word stored |
| PageTables.Memory.WriteMemory | iommu_ref_model/test/tbapi.c:56-84 | a store that is refused changes nothing; one that is not changes just its word |
| PageTables.FirstStageIndices | iommu_ref_model/libiommu/src/iommu_two_stage_trans.c:64-95 | every first-stage index of every address stays inside its one-page table |
| PageTables.SecondStageIndices | iommu_ref_model/libiommu/src/iommu_second_stage_trans.c:57-101 | every second-stage index stays inside its table, the 16 KiB root included; for Sv32x4 this needs the width test |
| PageTables.EntryAddress | iommu_ref_model/libiommu/src/iommu_device_context.c:328-332 | with the alignment the context checks enforce, ORing an offset into a table address adds it |
| SecondStage.UpperBitsMeaning | iommu_ref_model/libiommu/src/iommu_second_stage_trans.c:57-101 | the upper-bits test passes exactly for the addresses of the width of the mode (34 bits with SXL) |
| SecondStage.ExtractVpn | iommu_ref_model/libiommu/src/iommu_second_stage_trans.c:57-91 | the constant bit ranges of the code are the index fields of the format, root widening included |
| SecondStage.SuperpageCheck | iommu_ref_model/libiommu/src/iommu_second_stage_trans.c:238-269 | the fall-through switch accepts just the aligned leaves of the level and defined NAPOT codings, and leaves the size of the level |
| SecondStage.FindLeaf | iommu_ref_model/libiommu/src/iommu_second_stage_trans.c:112-182 | the loop of steps 2 to 4 ends with what the recursive search finds: the same leaf or the same fault, in at most one load a level |
| SecondStage.CheckLeaf | iommu_ref_model/libiommu/src/iommu_second_stage_trans.c:184-269 | steps 5 and 6 pass exactly when the leaf permits the access, is a user page and is aligned; that in the bits of the leaf: `LeafRules.SecondStageGrants` |
| SecondStage.UpdateLeaf | iommu_ref_model/libiommu/src/iommu_second_stage_trans.c:297-323 | the atomic update sets A, and D where the access writes or is implicit and W allows, in the leaf word only; the compare cannot fail in sequential memory |
| SecondStage.CompleteLeaf | iommu_ref_model/libiommu/src/iommu_second_stage_trans.c:184-341 | from a found leaf the code reports the result, and leaves the memory, of steps 5 to 8 |
| SecondStage.SecondStageAddressTranslation | iommu_ref_model/libiommu/src/iommu_second_stage_trans.c:8-341 | the whole second stage returns the result and leaves the memory of the recursive specification, with at most one load a level and one atomic update; that in the words of the tables: `LeafRules.SecondStageWalks` |
| TwoStage.CanonicalMeaning | iommu_ref_model/libiommu/src/iommu_two_stage_trans.c:64-111 | the masked upper-bits test accepts exactly sign-extended addresses (zero-extended for Sv32) |
| TwoStage.FindVsLeaf | iommu_ref_model/libiommu/src/iommu_two_stage_trans.c:113-208 | the first-stage loop, each entry translated by the second stage, ends with what the recursive search finds and the same memory |
| TwoStage.CheckVsLeaf | iommu_ref_model/libiommu/src/iommu_two_stage_trans.c:210-300 | permission, U/SUM, alignment and NAPOT tests pass exactly when the specification permits the access |
| TwoStage.UpdateVsLeaf | iommu_ref_model/libiommu/src/iommu_two_stage_trans.c:320-349 | the first-stage leaf update writes that word only, with A and, for writable leaves written to, D |
| TwoStage.TwoStageAddressTranslation | iommu_ref_model/libiommu/src/iommu_two_stage_trans.c:9-409 | the nested walk refines its recursive specification, result and memory, with bounded loads and atomic updates |
| Translate.MergeKeepsAddress | iommu_ref_model/libiommu/src/iommu_translate.c:348-353 | merging to the smaller size keeps the address: it is the second-stage image of the first-stage result |
| Translate.VResultFits | iommu_ref_model/libiommu/src/iommu_two_stage_trans.c:351-372 | a first-stage result fits 64 bits and its size is a page at least |
| Translate.GResultFits | iommu_ref_model/libiommu/src/iommu_second_stage_trans.c:325-341 | a second-stage result fits 56 bits and its size is a page at least |
| Translate.TranslateMiss | iommu_ref_model/libiommu/src/iommu_translate.c:267-353 | a request that misses the IOATC gets the response of the composed specification, with at most (Lvs+1)(Lg+1)-1 loads and Lvs+2 atomic updates |
| AdUpdates.TranslationOnlySetsAd | iommu_ref_model/libiommu/src/iommu_second_stage_trans.c:291-323 | a whole translation changes nothing but A and D bits of leaf words, sets them only, D only where W allows, and for a request that does not write D only in second-stage words, through implicit accesses with GADE |
| AdUpdates.GWalkFinishes | iommu_ref_model/libiommu/src/iommu_second_stage_trans.c:291-323 | a successful second-stage walk repeated finds nothing left to update and the same result |
| AdUpdates.GDoneStable | iommu_ref_model/libiommu/src/iommu_second_stage_trans.c:291-323 | later updates by any request leave a finished walk finished, with the same address and size |
| AdUpdates.VWalkAgain | iommu_ref_model/libiommu/src/iommu_two_stage_trans.c:315-349 | a successful first-stage walk repeated, then or after any later updates, changes nothing and finds the same leaf |
| AdUpdates.RepeatedTranslation | iommu_ref_model/libiommu/src/iommu_translate.c:267-353 | a successful request repeated, even after updates by other requests, leaves memory unchanged and gets the same address, size and permissions |
| MeaningPreserved.TranslationPreserved | iommu_ref_model/libiommu/src/iommu_second_stage_trans.c:291-323 | updates of the kind walks make never take a translation away: the request keeps its address, size, permissions and memory type, if its first-stage leaf is dirty in time |
| MeaningPreserved.TranslationPreservedIff | iommu_ref_model/libiommu/src/iommu_two_stage_trans.c:315-318 | a translation survives every such update exactly when its first-stage leaf is dirty in time: SADE is set, or the access needs no D bit, or memory has it set before the walk |
| MeaningPreserved.TranslationSurvivesRequest | iommu_ref_model/libiommu/src/iommu_two_stage_trans.c:315-349 | so no request takes away what another translates to |
| MeaningPreserved.SelfMapExample | iommu_ref_model/libiommu/src/iommu_second_stage_trans.c:314 | a concrete table word, leaf of both stages, for which a write succeeds and, where its A bit is set beforehand, gets page fault 15 |
| MeaningPreserved.ReadTakesWriteAway | iommu_ref_model/libiommu/src/iommu_second_stage_trans.c:297-323 | a read by another device of the VM sets A in that word, and after it the write that would have succeeded gets page fault 15 |
| Superpages.SameTranslationInPage | iommu_ref_model/libiommu/src/iommu_translate.c:348-353 | every address in the page a request was translated with gets the same outcome but for its offset, provided its guest address has the width of the mode, and exactly then |
| Superpages.PageFits | iommu_ref_model/libiommu/src/iommu_translate.c:348-353 | when the first address of a page of a successful translation fits, all do |
| Superpages.PageTranslation | iommu_ref_model/libiommu/src/iommu_translate.c:348-353 | success with a size translates every address of the aligned range to the same base plus its own offset, through the same leaves |
| Napot.MatchMeaning | iommu_ref_model/libiommu/src/iommu_utils.c:7-17 | one address matches an entry exactly when it lies in the range the entry codes |
| Napot.MatchIffRangesMeet | iommu_ref_model/libiommu/src/iommu_utils.c:7-17 | the mask test holds exactly when the two coded ranges have a page in common |
| Napot.AllOnesMatchesAll | iommu_ref_model/libiommu/src/iommu_utils.c:7-17 | an operand of all ones matches every range |
| Napot.NapotPnIsCoded | iommu_ref_model/libiommu/src/iommu_translate.c:365-366 | the code computed for a page number and size is the base with trailing ones for the size |
| Napot.CodedRoundTrip | iommu_ref_model/libiommu/src/iommu_atc.c:210-212 | decoding gives back the base and the size that were coded |
| Napot.DecodedAddress | iommu_ref_model/libiommu/src/iommu_atc.c:210-212 | a hit gives the address the fill was made from, with the requested offset |
| Iotlb.IoTlb.LookupIotlb | iommu_ref_model/libiommu/src/iommu_atc.c:150-232 | the lookup returns what the first matching entry says, ages it, and drops it when a walk is needed |
| Iotlb.IoTlb.JudgeHit | iommu_ref_model/libiommu/src/iommu_atc.c:177-225 | the tests on a matching entry give a permission fault, a forced miss or the decoded translation |
| Iotlb.DecodeHit | iommu_ref_model/libiommu/src/iommu_atc.c:210-212 | size and address decoded from the page number with trailing ones |
| Iotlb.IoTlb.CacheIotlb | iommu_ref_model/libiommu/src/iommu_atc.c:96-147 | a fill replaces the first invalid entry, or else the first least recently used, and no other |
| Iotlb.IoTlb.InvalVma | iommu_ref_model/libiommu/src/iommu_command_queue.c:371-387 | IOTINVAL.VMA drops exactly the valid entries that match and changes nothing else |
| Iotlb.IoTlb.InvalGvma | iommu_ref_model/libiommu/src/iommu_command_queue.c:470-483 | IOTINVAL.GVMA as coded, with flags carried from entry to entry |
| Iotlb.GvmaLeavesNoMatch | iommu_ref_model/libiommu/src/iommu_command_queue.c:470-483 | no matching entry survives IOTINVAL.GVMA, whatever the flags started as |
| Iotlb.GvmaExactIff | iommu_ref_model/libiommu/src/iommu_command_queue.c:470-483 | whatever the uninitialised flags start as, only matching entries go exactly when no other entry comes after entries that, with the flags, between them passed both tests |
| Iotlb.GvmaDropsTooMuch | iommu_ref_model/libiommu/src/iommu_command_queue.c:470-483 | an input for which an entry of another VM is dropped too |
| QueueRuns.OffIsSound | iommu_ref_model/libiommu/src/iommu_reg.c:367-494 | with both queues off, as after reset, nothing is queued |
| DirectoryCaches.EmptyCachesOk | iommu_ref_model/libiommu/src/iommu_atc.c:36-49 | empty directory caches are right ones to start from |
| Transparency.HitIsWalk | iommu_ref_model/libiommu/src/iommu_atc.c:177-225 | what a hit on a right entry shows, fault or translation, is what the walk shows, and the walk would change no memory |
| Transparency.AgreesStable | iommu_ref_model/libiommu/src/iommu_second_stage_trans.c:291-323 | A and D updates of other requests leave an entry right |
| Transparency.AgreesInPage | iommu_ref_model/libiommu/src/iommu_translate.c:348-374 | an entry filled from one address is right for every address of its range |
| Transparency.FillAgrees | iommu_ref_model/libiommu/src/iommu_translate.c:365-374 | the entry stored after a successful walk is right |
| Transparency.AgreesFrame | iommu_ref_model/libiommu/src/iommu_command_queue.c:371-387 | edits outside the words a translation reads leave its entry right |
| TransparentRuns.EditKeepsOk | iommu_ref_model/libiommu/src/iommu_command_queue.c:298-483 | an edit followed by a command naming every address that an entry can hold and whose tables it touches leaves only right entries |
| TransparentRuns.AskIsWalk | iommu_ref_model/libiommu/src/iommu_translate.c:281-374 | one request with the IOTLB shows what the walk shows, leaves the same memory and only right entries |
| TransparentRuns.CachedRunIsPlainRun | iommu_ref_model/libiommu/src/iommu_translate.c:267-374 | over every run of requests, edits and covering invalidations the IOTLB cannot be told from walking, memory included |
| TransparentRuns.EmptyTlbOk | iommu_ref_model/libiommu/src/iommu_atc.c:150-172 | an empty IOTLB is a right one to start from |
| TransparentRuns.TranslateIova | iommu_ref_model/libiommu/src/iommu_translate.c:267-374 | the code that looks up, walks on a miss, fills and responds does one step of the machine with the IOTLB |
| TransparentRuns.Respond | iommu_ref_model/libiommu/src/iommu_translate.c:391-484 | the response carries the address and size, coded in PPN and S too, the memory type, and the R, W and execute rights both stages and their dirty bits grant |
| TransparentRuns.CodedEntry | iommu_ref_model/libiommu/src/iommu_translate.c:365-374 | the entry stored codes the page of the request and of its translation |
| CoveredEdits.VmLeafEditIsCovered | iommu_ref_model/libiommu/src/iommu_command_queue.c:470-483 | replacing a second-stage leaf of a VM by anything is covered by IOTINVAL.GVMA with AV=1 for the page of that leaf alone, if the tables are a tree no one else reads the leaf of |
| CoveredEdits.BuiltLeafEditIsCovered | iommu_ref_model/libiommu/src/iommu_command_queue.c:470-483 | so is replacing a leaf that `add_g_stage_pte` has built |
| CoveredEdits.ProcessLeafEditIsCovered | iommu_ref_model/libiommu/src/iommu_command_queue.c:371-387 | replacing a first-stage leaf of a process, under a second stage or not, is covered by IOTINVAL.VMA with AV=1 for its page alone, naming the process if the mapping is not global |
| CoveredEdits.OtherPagesStay | iommu_ref_model/libiommu/src/iommu_command_queue.c:371-387 | that command leaves entries of other pages in place |
| Interrupts.Iommu.Write | iommu_ref_model/test/tbapi.c:56-84 | a store beyond the physical width or on an injected fault is refused and leaves memory as it was |
| Interrupts.Iommu.ReportFaultCode | iommu_ref_model/libiommu/src/iommu_faults.c:8-158 | `report_fault` does what its specification does, the interrupt it raises included; the recursion ends because each level sets a pending bit |
| Interrupts.Iommu.EnqueueCode | iommu_ref_model/libiommu/src/iommu_faults.c:123-156 | overflow, memory fault, or one record at the tail and the tail moved on |
| Interrupts.Iommu.GenerateInterruptCode | iommu_ref_model/libiommu/src/iommu_interrupt.c:27-106 | an interrupt sets its pending bit and writes, withholds or wires its message; which message: `Messages.InterruptSends` |
| Interrupts.Iommu.DoMsiCode | iommu_ref_model/libiommu/src/iommu_interrupt.c:7-26 | a message whose write fails reports one fault |
| Interrupts.Iommu.ReleasePendingCode | iommu_ref_model/libiommu/src/iommu_interrupt.c:107-120 | a withheld message is written once and no longer pending |
| Interrupts.Iommu.WriteFqcsrCode | iommu_ref_model/libiommu/src/iommu_reg.c:367-427 | starting the fault queue empties it and clears its errors; errors are cleared by writing 1 |
| Interrupts.Iommu.WritePqcsrCode | iommu_ref_model/libiommu/src/iommu_reg.c:428-494 | the same for the page queue |
| Interrupts.Iommu.WriteIpsrCode | iommu_ref_model/libiommu/src/iommu_reg.c:495-548 | each acknowledged unit signals again if its error is still there |
| Interrupts.Iommu.WriteVectorControlCode | iommu_ref_model/libiommu/src/iommu_reg.c:805-839 | unmasking a vector releases its withheld message |
| Interrupts.NextInRing | iommu_ref_model/libiommu/src/iommu_faults.c:129 | the masked successor of an index is the next slot, or 0 after the last |
| FaultQueue.ReportAppendsTwo | iommu_ref_model/libiommu/src/iommu_interrupt.c:7-106 | one reported fault appends at most two records |
| FaultQueue.InterruptAppendsTwo | iommu_ref_model/libiommu/src/iommu_interrupt.c:27-106 | one interrupt of any unit appends at most two records |
| FaultQueue.InterruptAnnounces | iommu_ref_model/libiommu/src/iommu_interrupt.c:27-106 | signalling a unit sets its pending bit if it is in error and enabled, and loses no other unit's, nested faults included |
| FaultQueue.MsiAnnounces | iommu_ref_model/libiommu/src/iommu_interrupt.c:7-26 | a failed message loses no announcement |
| FaultQueue.ReportAnnounces | iommu_ref_model/libiommu/src/iommu_faults.c:8-158 | reporting a fault loses no announcement |
| RingMemory.SlotsDistinctIff | iommu_ref_model/libiommu/src/iommu_faults.c:145 | different indices name different slots exactly when the base is aligned to the size of the queue |
| RingMemory.SlotAddress | iommu_ref_model/libiommu/src/iommu_ats.c:282 | in an aligned queue the slot address is base plus index times entry size |
| RingMemory.StoreElsewhere | iommu_ref_model/libiommu/src/iommu_faults.c:145-155 | a store outside an aligned queue leaves what software reads from it unchanged |
| RingMemory.StoreAtTail | iommu_ref_model/libiommu/src/iommu_faults.c:126-155 | a record stored at the tail of a queue that is not full appends to what software reads and overwrites nothing unread |
| RingMemory.AdvanceHead | iommu_ref_model/libiommu/src/iommu_reg.c:248-251 | moving the head forward removes just the records passed over |
| PageQueue.HandlePageRequestCode | iommu_ref_model/libiommu/src/iommu_ats.c:95-298 | the handler of page requests, device lookup with its cache included, ends in the state and with the reply of its specification |
| PageQueue.PageArrivesCode | iommu_ref_model/libiommu/src/iommu_ats.c:199-298 | an admitted request is queued, or the queue's state says which response code it gets |
| PageQueue.WritePage | iommu_ref_model/libiommu/src/iommu_ats.c:261-298 | overflow, memory fault, or one record at the tail |
| PageQueue.SendResponse | iommu_ref_model/libiommu/src/iommu_ats.c:300-372 | a response is sent only for the last request of a group that is not a stop marker |
| PageQueue.OneOfThree | iommu_ref_model/libiommu/src/iommu_ats.c:199-372 | each request is queued, answered or dropped, exactly one of these: queued exactly when one record is appended, otherwise answered exactly when it needs a response |
| PageQueue.AnswerDecodes | iommu_ref_model/libiommu/src/iommu_ats.c:336-372 | the device reads its own id, the response code and the group index out of the packed answer, and a process id only if it sent one |
| PageQueue.UnlocatedCode | iommu_ref_model/libiommu/src/iommu_ats.c:169-174 | a request whose device cannot be located is answered with response failure for every cause, and the comment gives that code too exactly unless the walk comes to a poisoned word |
| PageQueue.PoisonedIff | iommu_ref_model/libiommu/src/iommu_device_context.c:88-188 | a device is not located because of poison exactly if its walk comes to an accessible and poisoned word |
| PageQueue.PoisonedRoot | iommu_ref_model/libiommu/src/iommu_ats.c:318-327 | poison in the root entry of the device directory is such a cause |
| DeviceIds.WidthTestExactIff | iommu_ref_model/libiommu/src/iommu_ats.c:133-165 | the test for device ids too wide for the directory, made on indices kept in bytes, is right exactly unless every index it tests is 0 or 0x100 and one is 0x100 |
| DeviceIds.AdmittedThoughWider | iommu_ref_model/libiommu/src/iommu_ats.c:133-165 | it admits the id 0x8000 to a directory of one level in the base format |
| DeviceIds.WiderMeaning | iommu_ref_model/libiommu/src/iommu_translate.c:106-132 | with whole indices the test turns away exactly the 24-bit ids that do not fit the directory |
| DeviceIds.LocatedByLowBits | iommu_ref_model/libiommu/src/iommu_device_context.c:74-84 | an id that is admitted though too wide is located as the device of its low bits |
| DeviceIds.AliasOutlivesCommand | iommu_ref_model/libiommu/src/iommu_command_queue.c:262-270 | its cache entry survives the IODIR.INVAL_DDT of the device it was located as, and keeps answering with the old context |
| QueueRuns.StepKeeps | iommu_ref_model/libiommu/src/iommu_faults.c:123-158 | every step keeps in order, once each and unharmed the records not yet read of both queues |
| QueueRuns.OldestFaultsFirst | iommu_ref_model/libiommu/src/iommu_faults.c:126-155 | software reads the oldest unread fault records in order, and the queue never fills its last slot |
| QueueRuns.OldestPagesFirst | iommu_ref_model/libiommu/src/iommu_ats.c:261-298 | the same for page requests |
| QueueRuns.RunKeepsOrder | iommu_ref_model/libiommu/src/iommu_faults.c:123-158 | over every run of faults, page requests, interrupts and register writes both queues are first-in first-out (with the command queue and its fences: `SystemRuns.RunOrders`) |
| QueueRuns.ErrorStopsQueue | iommu_ref_model/libiommu/src/iommu_faults.c:32-44 | after an overflow or memory fault nothing is appended, whatever else happens, until the control register is written |
| QueueRuns.StepAnnouncesIff | iommu_ref_model/libiommu/src/iommu_reg.c:495-548 | after a step every error of an interrupt-enabled unit is pending, exactly unless the step enables interrupts over an error neither cleared nor pending |
| QueueRuns.RunAnnounces | iommu_ref_model/libiommu/src/iommu_interrupt.c:27-106 | over every run without such a step no error goes unsignalled (with writes of `cqcsr`: `SystemRuns.RunFaithful`) |
| CommandQueue.InterruptKeepsCsr | iommu_ref_model/libiommu/src/iommu_interrupt.c:27-106 | interrupts and the faults they set off leave `cqcsr` alone |
| CommandProcessor.Processor.AllocateItag | iommu_ref_model/libiommu/src/iommu_ats.c:7-25 | the first free tag is taken, and none exactly when all are busy |
| CommandProcessor.Processor.AnyPending | iommu_ref_model/libiommu/src/iommu_ats.c:26-33 | whether any tag is busy |
| CommandProcessor.Processor.DoIofenceC | iommu_ref_model/libiommu/src/iommu_command_queue.c:540-606 | a fence waits while a tag is busy, and otherwise reports a timeout or takes its effects |
| CommandProcessor.Processor.EndFence | iommu_ref_model/libiommu/src/iommu_command_queue.c:563-605 | the effects of a fence in order, stopping at a failed store |
| CommandProcessor.Processor.DoPendingIofence | iommu_ref_model/libiommu/src/iommu_command_queue.c:607-623 | a resumed fence lets the head pass if it completed, and completes a pending turn-off |
| CommandProcessor.Processor.QueueAnyBlocked | iommu_ref_model/libiommu/src/iommu_command_queue.c:624-641 | a blocked request is sent under the first free tag |
| CommandProcessor.Processor.DoPending | iommu_ref_model/libiommu/src/iommu_ats.c:34-55 | a fence with nothing to wait for is resumed, and then a blocked request |
| CommandProcessor.Processor.HandleInvalidationCompletion | iommu_ref_model/libiommu/src/iommu_ats.c:56-82 | tags are counted down in order until one is unexpected, which ends the handling at once; from whom it has to come: `Completions.ResponsesInEveryRun` |
| CommandProcessor.Processor.DoAtsTimerExpiry | iommu_ref_model/libiommu/src/iommu_ats.c:83-94 | the tags named are freed, the timeout noted and the queue resumed |
| CommandProcessor.Processor.ProcessCommands | iommu_ref_model/libiommu/src/iommu_command_queue.c:7-242 | one call takes at most the command at the head, and none while the queue is off, in error, stalled or waiting |
| CommandProcessor.Processor.ExecuteCode | iommu_ref_model/libiommu/src/iommu_command_queue.c:89-242 | each command has its effect and the head moves on, or an error bit is set |
| CommandProcessor.Processor.WriteCqbCode | iommu_ref_model/libiommu/src/iommu_reg.c:206-223 | a new base is dropped while the queue is on or busy, and empties the tail otherwise |
| CommandProcessor.Processor.WriteCqtCode | iommu_ref_model/libiommu/src/iommu_reg.c:227-229 | the tail stays below the size of the queue |
| CommandProcessor.Processor.WriteCqcsrCode | iommu_ref_model/libiommu/src/iommu_reg.c:288-366 | starting, stopping (delayed by a waiting fence), enabling and clearing as specified |
| FenceOrder.StepKeeps | iommu_ref_model/libiommu/src/iommu_command_queue.c:43-55 | every step keeps the state of the queue consistent: wait and stall exclude each other, wait implies on, busy exactly when on and enabled differ and then a fence waits, tail and head inside the queue; and it keeps the trace lawful |
| FenceOrder.RunKeeps | iommu_ref_model/libiommu/src/iommu_reg.c:288-366 | so does every run |
| FenceOrder.FreshIsConsistent | iommu_ref_model/libiommu/src/iommu_reg.c:288-366 | the state after reset is consistent |
| FenceOrder.ResumeKeeps | iommu_ref_model/libiommu/src/iommu_ats.c:34-55 | after any accepted completion or timeout nothing is held up that could go on |
| FenceOrder.FenceWaits | iommu_ref_model/libiommu/src/iommu_command_queue.c:540-606 | in a lawful trace, when a fence synchronizes, stores or lets the head pass, every earlier request was completed or timed out and every timeout reported |
| FenceOrder.FencesWaitInEveryRun | iommu_ref_model/libiommu/src/iommu_command_queue.c:540-623 | that holds in every run from reset |
| FenceOrder.TimeoutHoldsStep | iommu_ref_model/libiommu/src/iommu_command_queue.c:540-571 | whatever lets a fence go on while a timeout is unreported, its turn at the head, a completion or the timer, the fence takes no effect: the head stays, `cmd_to` is set, and only the report of the timeout joins the trace after the ended requests |
| FenceOrder.TimeoutHoldsInEveryRun | iommu_ref_model/libiommu/src/iommu_ats.c:83-94 | so in every run from reset |
| QueueProgress.StepStuckIff | iommu_ref_model/libiommu/src/iommu_ats.c:56-94 | a waiting fence has a busy tag and a blocked request finds all tags busy, after every step exactly but one kind: a completion that frees tag 0 and is then rejected at tag 1 |
| QueueProgress.TornIsStuckIff | iommu_ref_model/libiommu/src/iommu_ats.c:64-79 | the exact condition for that completion, on the message and the state before it |
| QueueProgress.RunNotStuck | iommu_ref_model/libiommu/src/iommu_ats.c:34-94 | without such completions no run is ever stuck |
| QueueProgress.TornRun | iommu_ref_model/libiommu/src/iommu_ats.c:64-79 | a run from reset of an ATS.INVAL, a fence and a completion naming both tags is stuck |
| QueueProgress.StuckStays | iommu_ref_model/libiommu/src/iommu_ats.c:64-79 | no later completion naming a tag releases it |
| QueueProgress.TimeoutResumes | iommu_ref_model/libiommu/src/iommu_ats.c:83-94 | a timeout of all busy tags releases any waiting fence and any blocked request, stuck or not |
| QueueProgress.StepRetires | iommu_ref_model/libiommu/src/iommu_command_queue.c:222-228 | a step leaves the head or retires just the command at the head |
| QueueProgress.StepInOrder | iommu_ref_model/libiommu/src/iommu_command_queue.c:222-228 | the head is the number of commands retired since the start, modulo the size, and each retirement leaves the queue one shorter |
| QueueProgress.RunInOrder | iommu_ref_model/libiommu/src/iommu_command_queue.c:222-228 | over every run in which software only queues commands they retire in order, once each |
| QueueDevice.StepFaithfulIff | iommu_ref_model/libiommu/src/iommu_command_queue.c:563-605 | memory holds the data of just the fences that took effect, and every error of an enabled unit is pending, exactly unless interrupts are enabled late |
| QueueDevice.ControlFaithfulIff | iommu_ref_model/libiommu/src/iommu_reg.c:288-366 | the exact condition for a write of `cqcsr` |
| SystemRuns.StepOrders | iommu_ref_model/libiommu/src/iommu_command_queue.c:563-605 | any step of the whole device, fences that store outside the record queues included, keeps the command queue consistent, its trace lawful and both record queues first-in first-out |
| SystemRuns.RunOrders | iommu_ref_model/libiommu/src/iommu_reg.c:206-548 | so does every run of them |
| SystemRuns.StepFaithfulIff | iommu_ref_model/libiommu/src/iommu_reg.c:288-548 | a step keeps memory in agreement with the fences that took effect and every error of an enabled unit pending, exactly unless it enables interrupts late |
| SystemRuns.RunFaithful | iommu_ref_model/libiommu/src/iommu_interrupt.c:27-106 | so in every state that a run without such a step reaches, for all three queues |
| SystemRuns.ResetStarts | iommu_ref_model/libiommu/src/iommu_reg.c:288-366 | such a run can start from reset |
| TableTools.RoundedUpIsLeast | iommu_ref_model/test/test_utils.c:536-539 | the allocator rounds up to the least multiple not below the next free page |
| TableTools.Allocator.GetFreePpn | iommu_ref_model/test/test_utils.c:532-544 | pages are handed out aligned, once each and cleared |
| TableTools.Allocator.FollowOrLink | iommu_ref_model/libtables/src/build_g_stage_pt.c:46-53 | one level of the builder: follow the entry or point it to a free page |
| TableTools.Allocator.AddGStagePte | iommu_ref_model/libtables/src/build_g_stage_pt.c:7-61 | the builder's loop over levels builds, for any address, what its specification builds with the indices of the code, which for addresses of the mode's width are those of the walk |
| TableBuilder.LinkKeepsWalks | iommu_ref_model/libtables/src/build_g_stage_pt.c:48-52 | linking an empty page changes what no address reaches |
| TableBuilder.LinkKeepsTree | iommu_ref_model/libtables/src/build_g_stage_pt.c:48-52 | and leaves the tables a tree |
| TableBuilder.IndicesTellApart | iommu_ref_model/libiommu/src/iommu_second_stage_trans.c:57-101 | addresses of the width of the mode are told apart by their table indices |
| TableBuilder.BuildIsMapUpdate | iommu_ref_model/libtables/src/build_g_stage_pt.c:45-60 | the builder acts as a map update: every address of the region now reaches the new leaf, every other what it reached before, and leaves can be placed wherever they could but below the new one |
| TableBuilder.EmptyRootIsTree | iommu_ref_model/libtables/src/build_g_stage_pt.c:44-45 | a cleared root is a tree to start from |
| TableBuilder.EmptyRootMapsNothing | iommu_ref_model/libtables/src/build_g_stage_pt.c:44-45 | in a cleared root any leaf can be placed and no address is mapped |
| TableBuilder.BuildAllIsMap | iommu_ref_model/libtables/src/build_g_stage_pt.c:45-60 | a series of mappings leaves a finite map: each address reaches the leaf last mapped over it, the others what they reached before |
| TableBuilder.BuiltFromEmpty | iommu_ref_model/libtables/src/build_g_stage_pt.c:45-60 | from a cleared root, an address is mapped exactly if some mapping covers it, by the last that does |
| TableTools.TranslateGpa | iommu_ref_model/libtables/src/translate_gpa.c:7-72 | the simple walk's loop finds, for any address, what its specification finds, returns the address itself for a Bare second stage, and leaves the result alone when it fails |
| TableTools.BeyondRoot | iommu_ref_model/libtables/src/build_g_stage_pt.c:47 | an Sv32x4 root offset beyond the root table is added, but for the bit it shares with the address of the root |
| TableTools.SimpleWalkAgrees | iommu_ref_model/libtables/src/translate_gpa.c:53-70 | wherever the second stage succeeds without NAPOT the simple walk finds the same leaf and address |
| TableTools.BuildThenTranslate | iommu_ref_model/libtables/src/build_g_stage_pt.c:45-60 | after building, the second stage and the simple walk both take every address of the region through the new leaf |
| DeviceContexts.OneFormat | iommu_ref_model/libiommu/src/iommu_device_context.c:279-322 | in an accepted context exactly one of the tests that assign the table format fires, for each stage that is not Bare |
| DeviceContexts.AcceptedIsWellDefined | iommu_ref_model/libiommu/src/iommu_device_context.c:190-377 | accepted contexts give the walks aligned roots, matching widths, defined sizes and offsets inside the tables |
| DeviceContexts.RootIndexInsideIff | iommu_ref_model/libiommu/src/iommu_device_context.c:343-352 | the 13-bit Sv32x4 root index stays inside its table exactly for addresses without bit 34 |
| Directories.LocateDeviceCode | iommu_ref_model/libiommu/src/iommu_device_context.c:88-188 | the goto loop over the device directory locates what the recursive walk locates, with the same cause on failure |
| Directories.LocateProcessCode | iommu_ref_model/libiommu/src/iommu_process_context.c:67-198 | the goto loop over the process directory, through the second stage, locates what the recursive walk locates and leaves the same memory |
| Directories.ProcessStableFrom | iommu_ref_model/libiommu/src/iommu_process_context.c:67-198 | A and D updates leave a settled process-directory walk settled, with its result |
| Directories.ProcessFinishesFrom | iommu_ref_model/libiommu/src/iommu_process_context.c:67-198 | a successful process-directory walk leaves itself settled |
| Directories.DeviceCauses | iommu_ref_model/libiommu/src/iommu_device_context.c:88-188 | a device that cannot be located has one of the causes 257, 258, 259 and 268 |
| Directories.ProcessCauses | iommu_ref_model/libiommu/src/iommu_process_context.c:67-198 | a process that cannot be located has, guest page faults aside, one of the causes 265, 266, 267 and 269 |
| TranslationProcess.RouteCode | iommu_ref_model/libiommu/src/iommu_translate.c:76-265 | steps 1 to 16 send a request to a fault, to its own address, or to the walks with a first-stage root, as specified |
| TranslationProcess.RoutedSpace | iommu_ref_model/libiommu/src/iommu_translate.c:134-265 | whatever reaches the walks has passed the configuration checks |
| TranslationProcess.TestsAdmit | iommu_ref_model/libiommu/src/iommu_translate.c:119-169 | what passes the width tests has the widths the directory caches rely on, if the byte-sized indices do not deceive |
| TranslationProcess.WalksCode | iommu_ref_model/libiommu/src/iommu_translate.c:295-353 | both stages with the MSI page tables in between |
| TranslationProcess.WithoutMsi | iommu_ref_model/libiommu/src/iommu_translate.c:303-336 | with MSI page tables off these are the two stages alone |
| TranslationProcess.TranslateRequest | iommu_ref_model/libiommu/src/iommu_translate.c:8-402 | the whole process refines its specification, result and memory; that in the fields of the located context: `ProcessRules.BothStages`, `ProcessWrites.ContextAllows` |
| TranslationProcess.EveryRequestIsAnswered | iommu_ref_model/libiommu/src/iommu_translate.c:521-592 | every ATS translation request is answered: whatever cause the process can end with is in one class, and the answer is an unreported success without rights exactly for missing or unusable entries |
| GuestFaults.GuestFaultAddress | iommu_ref_model/libiommu/src/iommu_two_stage_trans.c:115-137 | for every guest page fault of the first stage, the second stage refused the read of the entry the search ends at, or granted it without letting it be written, and the address reported is that of this very entry exactly when it is the first of its table |
| GuestFaults.SearchEnds | iommu_ref_model/libiommu/src/iommu_two_stage_trans.c:113-182 | the search stops with a guest page fault exactly when the second stage has one for the entry it ends at, reports the table of that entry, and finds a leaf only there |
| GuestFaults.RefusedWriteFaults | iommu_ref_model/libiommu/src/iommu_two_stage_trans.c:317-322 | a leaf that has to be updated gives such a fault exactly when the second stage does not let it be written |
| GuestFaults.SecondEntryFaults | iommu_ref_model/libiommu/src/iommu_two_stage_trans.c:115-137 | a walk that faults on the second entry of its root reports the first |
| DirectoryCaches.Cache.Lookup | iommu_ref_model/libiommu/src/iommu_atc.c:36-49 | the first entry of the key is found and aged |
| DirectoryCaches.Cache.Fill | iommu_ref_model/libiommu/src/iommu_atc.c:7-34 | the first free slot, or else the first least recently used one, is replaced; what the slot variable held before is used exactly when no slot is free and no entry older than 2^32 - 1 |
| DirectoryCaches.Cache.Invalidate | iommu_ref_model/libiommu/src/iommu_command_queue.c:262-270 | just the entries named are dropped |
| DirectoryCaches.LocateDeviceContext | iommu_ref_model/libiommu/src/iommu_device_context.c:88-188 | the cached locate answers from the cache or walks and fills |
| DirectoryCaches.LocateProcessContext | iommu_ref_model/libiommu/src/iommu_process_context.c:55-198 | the same for process contexts |
| DirectoryCaches.FillKeepsUnique | iommu_ref_model/libiommu/src/iommu_atc.c:7-34 | no key is ever held twice |
| DirectoryCaches.AskIsWalk | iommu_ref_model/libiommu/src/iommu_device_context.c:88-188 | one request is answered as by walking both directories, leaves the same memory and right caches |
| DirectoryCaches.CachedRunIsPlainRun | iommu_ref_model/libiommu/src/iommu_command_queue.c:262-294 | over every run with covering IODIR commands, of ids that have the widths the tests check, the directory caches cannot be told from walking |
| CoveredDirectoryEdits.AddContextIsCovered | iommu_ref_model/libiommu/src/iommu_command_queue.c:262-270 | what `add_dev_context` does to the directory is covered by IODIR.INVAL_DDT for that device alone |
| CoveredDirectoryEdits.RecordEditIsCovered | iommu_ref_model/libiommu/src/iommu_command_queue.c:288-294 | whatever is written to the record of a process is covered by IODIR.INVAL_PDT for that process alone, if no other walk ends at the record |
| CoveredDirectoryEdits.OneLevelEditIsCovered | iommu_ref_model/libiommu/src/iommu_command_queue.c:288-294 | so are the records of one-level process directories that devices do not share |
| DirectoryBuilder.AddDevContext | iommu_ref_model/libtables/src/build_ddt.c:10-50 | the builder's loop builds what its specification builds |
| DirectoryBuilder.IndicesTellApart | iommu_ref_model/libiommu/src/iommu_device_context.c:74-84 | the index split is injective on ids that fit the directory |
| DirectoryBuilder.BuildThenLocate | iommu_ref_model/libtables/src/build_ddt.c:32-49 | after `add_dev_context` the device locates the very context written if it passes the checks, every other device what it located before, and every device that could be added still can |
| DirectoryBuilder.EmptyRootIsTree | iommu_ref_model/libtables/src/build_ddt.c:28-31 | a cleared root page is a directory to start from |
| DirectoryBuilder.BuildAllIsMap | iommu_ref_model/libtables/src/build_ddt.c:32-49 | a series of additions leaves a finite map: each device locates what was last added for it |
| DirectoryBuilder.BuiltFromEmpty | iommu_ref_model/libtables/src/build_ddt.c:28-49 | from a cleared root, a device is located exactly if it was added, with its last context |
| HostPages.WalkIsStatic | iommu_ref_model/libiommu/src/iommu_second_stage_trans.c:291-341 | what a second-stage walk finds does not depend on the A and D bits that earlier walks set |
| HostPages.PlainPage | iommu_ref_model/libtables/src/translate_gpa.c:53-70 | a guest page that a walk reads through a leaf without NAPOT coding lies in one page of memory, and `translate_gpa` finds it |
| HostPages.MapPageIsMapUpdate | iommu_ref_model/libtables/src/build_vs_stage_pt.c:59-70 | handing out a page and mapping a guest page to it changes what the second stage reaches for that page only, and keeps the rest ready |
| HostPages.MapPageGrows | iommu_ref_model/libtables/src/build_g_stage_pt.c:45-60 | it changes no word but second-stage entries and words of the pages handed out |
| HostPages.NewPageRead | iommu_ref_model/libtables/src/build_pdt.c:39-51 | the new guest page is read at the new page if GADE is set, and is a guest page fault without |
| ProcessBuilder.AddProcessContext | iommu_ref_model/libtables/src/build_pdt.c:25-62 | the builder's loop builds what its specification builds |
| ProcessBuilder.BareFails | iommu_ref_model/libtables/src/translate_gpa.c:18-21 | with a Bare second stage the builder fails at once and changes nothing |
| ProcessBuilder.SearchIsStatic | iommu_ref_model/libiommu/src/iommu_process_context.c:67-198 | locating a process finds what it would if its walks set no bits |
| ProcessBuilder.IndicesTellApart | iommu_ref_model/libtables/src/build_pdt.c:17-23 | the index split is injective on process ids of the width of the directory |
| ProcessBuilder.BuildThenLocate | iommu_ref_model/libtables/src/build_pdt.c:25-62 | with GADE set, after `add_process_context` the process locates the very context written if it passes the checks, every other process what it located before, and all that could be added still can |
| ProcessBuilder.BuildAllIsMap | iommu_ref_model/libtables/src/build_pdt.c:25-62 | a series of additions leaves a finite map: each process locates what was last added for it |
| ProcessBuilder.EmptyRootIsTree | iommu_ref_model/libtables/src/build_pdt.c:25-26 | an empty root page is a directory to start from, in which any process can be added and none is located |
| ProcessBuilder.BuiltFromEmpty | iommu_ref_model/libtables/src/build_pdt.c:25-62 | from an empty root, a process is located exactly if it was added, with its last context |
| GuestTrees.LinkKeepsTree | iommu_ref_model/libtables/src/build_vs_stage_pt.c:53-76 | linking a fresh guest page keeps the tables in guest memory a tree, also where the second stage puts them |
| FirstStageTables.SearchIsStatic | iommu_ref_model/libiommu/src/iommu_two_stage_trans.c:113-232 | the first-stage search finds what it would if its second-stage walks set no bits, when the two stages share no words |
| FirstStageTables.BlockIsPath | iommu_ref_model/libiommu/src/iommu_two_stage_trans.c:64-111 | canonical addresses have the same table indices down to a level exactly if they lie in one aligned region of its size |
| NestedBuilder.AddVsStagePte | iommu_ref_model/libtables/src/build_vs_stage_pt.c:46-80 | the builder's loop builds what its specification builds |
| NestedBuilder.LinkApart | iommu_ref_model/libtables/src/build_vs_stage_pt.c:53-73 | building keeps the words of the two stages apart |
| NestedBuilder.BuildIsMapUpdate | iommu_ref_model/libtables/src/build_vs_stage_pt.c:46-80 | with GADE set the builder acts as a map update: every canonical address of the region comes to the new leaf under the nested search, every other address to what it came to before, and all is ready for more |
| NestedBuilder.EmptyRootMapsNothing | iommu_ref_model/libtables/src/build_vs_stage_pt.c:46-47 | in an empty first stage any leaf can be placed and no address is mapped |
| NestedBuilder.BuildAllIsMap | iommu_ref_model/libtables/src/build_vs_stage_pt.c:46-80 | a series of mappings leaves a finite map: each address comes to the leaf last mapped over it |
| NestedBuilder.BuiltFromEmpty | iommu_ref_model/libtables/src/build_vs_stage_pt.c:46-80 | from an empty first stage, an address is mapped exactly if some mapping covers it, by the last that does |
| FirstStageBuilder.AddSStagePte | iommu_ref_model/libtables/src/build_s_stage_pt.c:44-59 | the builder's loop builds what its specification builds |
| FirstStageBuilder.BuildIsMapUpdate | iommu_ref_model/libtables/src/build_s_stage_pt.c:44-59 | the same map update without a second stage |
| FirstStageBuilder.EmptyRootIsReady | iommu_ref_model/libtables/src/build_s_stage_pt.c:44-45 | an empty root is ready to be built on, and maps no address |
| Msi.ExtractCode | iommu_ref_model/libiommu/src/iommu_msi_trans.c:7-18 | the accumulating loop packs the bits under the mask |
| Msi.ExtractBound | iommu_ref_model/libiommu/src/iommu_msi_trans.c:7-18 | an extracted number has as many bits as the mask has ones |
| Msi.DepositExtract | iommu_ref_model/libiommu/src/iommu_msi_trans.c:7-18 | depositing the extracted bits back gives the bits under the mask |
| Msi.ExtractDeposit | iommu_ref_model/libiommu/src/iommu_msi_trans.c:7-18 | and every number of that many bits is extracted from its deposit |
| Msi.FileNumberIsInjective | iommu_ref_model/libiommu/src/iommu_msi_trans.c:50-84 | addresses of interrupt files with the same file number are in the same page |
| Msi.MsiAddressTranslation | iommu_ref_model/libiommu/src/iommu_msi_trans.c:19-206 | the MSI translation gives the outcome of its specification: not an interrupt file, a cause, an address or a notice; which entry decides: `MsiTables.OnlyItsEntry` |
| Msi.EntriesApart | iommu_ref_model/libiommu/src/iommu_msi_trans.c:84-99 | interrupt files that use one entry of an aligned MSI page table are in the same page |
| LeafRules.WalkEnds | iommu_ref_model/libiommu/src/iommu_second_stage_trans.c:112-182 | every walk comes to a leaf, to a word it cannot use, or to one it cannot load |
| LeafRules.SecondStageFinds | iommu_ref_model/libiommu/src/iommu_second_stage_trans.c:57-182 | the second stage ends at the leaf that pointers from the root lead to; at an invalid, reserved or malformed word it has a page fault, and where the load fails that failure |
| LeafRules.SecondStageLed | iommu_ref_model/libiommu/src/iommu_second_stage_trans.c:112-182 | whatever leaf it ends at is so led to, by an address of the width of the mode |
| LeafRules.FirstStageFinds | iommu_ref_model/libiommu/src/iommu_two_stage_trans.c:64-208 | without a second stage the first ends at the leaf that pointers from the root lead to, with G set if any of them has it, and at no other word |
| LeafRules.FirstStageLed | iommu_ref_model/libiommu/src/iommu_two_stage_trans.c:113-208 | whatever leaf it ends at is so led to, by a sign-extended address |
| LeafRules.SecondStageGrants | iommu_ref_model/libiommu/src/iommu_second_stage_trans.c:184-341 | at a leaf the second stage grants an access exactly if U is set, the page is aligned, the leaf has the rights the access has to hold, and A, and D where it is needed, are set or GADE lets them be set; it says where it goes and that no other word changes |
| LeafRules.FirstStageGrants | iommu_ref_model/libiommu/src/iommu_two_stage_trans.c:210-409 | at a leaf the first stage grants a request exactly if the leaf has the rights it has to hold and is a page of its privilege, is aligned, and A, and D for a write, are set or SADE lets them be set in a word that the second stage lets be written |
| LeafRules.SecondStageWalks | iommu_ref_model/libiommu/src/iommu_second_stage_trans.c:8-341 | so for the whole stage and the leaf its tables lead to |
| LeafRules.FirstStageWalks | iommu_ref_model/libiommu/src/iommu_two_stage_trans.c:9-409 | so for the whole stage without a second |
| NestedRules.NestedEnds | iommu_ref_model/libiommu/src/iommu_two_stage_trans.c:113-208 | along the tables that pointers from the root lead to, each entry read where the second stage takes its guest address, the first stage ends at a leaf, with G set if any pointer has it, and otherwise with the fault of what the last read meets |
| NestedRules.TrailEnds | iommu_ref_model/libiommu/src/iommu_two_stage_trans.c:113-208 | every walk of the first stage comes to such an end |
| NestedRules.NestedStops | iommu_ref_model/libiommu/src/iommu_two_stage_trans.c:374-409 | what a request gets whose walk ends without a leaf: a guest page fault with the address of the table, an access fault, cause 274, or a page fault |
| ProcessRules.FirstStageAlone | iommu_ref_model/libiommu/src/iommu_translate.c:267-402 | in the fields of the located device context: without a second stage a request is granted exactly when the leaf that the tables of FSC lead to holds the rights it must, is a page of its privilege, is aligned, and needs no bit set or has it set with SADE; where it goes, what it is shown, what is written, and otherwise cause 12, 13 or 15 |
| ProcessRules.FirstStageStops | iommu_ref_model/libiommu/src/iommu_two_stage_trans.c:113-208 | where those tables lead to no leaf the request gets the page fault, access fault or corruption cause of what the walk meets |
| ProcessRules.SecondStageAlone | iommu_ref_model/libiommu/src/iommu_translate.c:267-402 | without a first stage: the same of the leaf that the tables of IOHGATP lead to, its U bit and GADE, and otherwise cause 20, 21 or 23 with the address |
| ProcessRules.SecondStageStops | iommu_ref_model/libiommu/src/iommu_second_stage_trans.c:57-182 | where those tables lead to no leaf the request gets the cause of what the walk meets |
| ProcessRules.FirstLeafRefuses | iommu_ref_model/libiommu/src/iommu_two_stage_trans.c:210-349 | with both stages, a first-stage leaf that does not allow the request gives it cause 12, 13 or 15, one whose bits have to be set too unless SADE is set, and then a guest page fault unless the second stage lets the word be written; the leaf stays as it is |
| ProcessRules.FirstLeafPasses | iommu_ref_model/libiommu/src/iommu_two_stage_trans.c:315-372 | one that does passes the request on to the second stage, with A, and D for a write, set with SADE |
| ProcessRules.BothStages | iommu_ref_model/libiommu/src/iommu_translate.c:267-402 | then the second-stage leaf decides as it does alone; the request is shown the rights that both leaves hold, the smaller size, and the memory type of the first stage unless that is PMA |
| ProcessRules.AtsGetsCommonRights | iommu_ref_model/libiommu/src/iommu_translate.c:280-483 | an ATS translation request is granted whatever R, W and X the leaves have and is shown just the rights both have; an untranslated one is granted only what both have |
| ProcessWrites.WalksWrite | iommu_ref_model/libiommu/src/iommu_two_stage_trans.c:315-349 | the walks of a request write a second-stage leaf, with GADE, the first-stage leaf, with SADE, and nothing else |
| ProcessWrites.ContextAllows | iommu_ref_model/libiommu/src/iommu_translate.c:296 | in the fields of the located device context: without SADE no first-stage leaf word changes, without GADE no other |
| ProcessWrites.NothingWritten | iommu_ref_model/libiommu/src/iommu_translate.c:296-297 | without either a request that comes to its walks changes nothing |
| ProcessWrites.RouteWrites | iommu_ref_model/libiommu/src/iommu_process_context.c:91-117 | on the way there only second-stage leaves change, with GADE, when a process directory is read |
| RouteRules.BeforeTheDevice | iommu_ref_model/libiommu/src/iommu_translate.c:79-137 | what happens to a request while the IOMMU is off or its directory Bare, if its device id is too wide, or if the device is not found |
| RouteRules.WithoutProcess | iommu_ref_model/libiommu/src/iommu_translate.c:149-237 | requests that the device context does not allow get cause 260; translated ones keep their address unless T2GPA is set; without a process directory the first-stage root of the device is used, or none |
| RouteRules.WithProcess | iommu_ref_model/libiommu/src/iommu_translate.c:240-265 | a process context is used with its root and SUM bit; supervisors get cause 260 without ENS; one that cannot be located is the cause |
| RouteRules.AskedFor | iommu_ref_model/libiommu/src/iommu_translate.c:280-297 | the walks see the address and rights of the request; only ATS translation requests go untested, and only requests with a process id can be a supervisor's |
| RouteRules.MissingIsEmpty | iommu_ref_model/libiommu/src/iommu_translate.c:584-592 | page faults and guest page faults give an ATS translation request a success without rights |
| RouteRules.StopsAnswered | iommu_ref_model/libiommu/src/iommu_translate.c:546-592 | requests that are not allowed, or whose device context is missing, bad or unreadable, are unsupported; bad or unreadable process contexts abort; missing ones give a success without rights |
| RouteRules.OthersAnswered | iommu_ref_model/libiommu/src/iommu_translate.c:524-528 | any other request that stops is unsupported, and reported |
| RouteRules.FilesAnswered | iommu_ref_model/libiommu/src/iommu_translate.c:546-592 | an invalid entry of the MSI page table gives a success without rights, a bad or unreadable one aborts |
| MsiTables.IsFileIff | iommu_ref_model/libiommu/src/iommu_msi_trans.c:50-72 | an address is that of an interrupt file exactly if its page number has the bits of the pattern outside the mask |
| MsiTables.NumberIsFile | iommu_ref_model/libiommu/src/iommu_msi_trans.c:7-18 | the number extracted is the one number that, spread out under the mask, gives the bits of the page number there |
| MsiTables.OnlyItsEntry | iommu_ref_model/libiommu/src/iommu_msi_trans.c:84-99 | the outcome for file n depends on the MSI page table only at its base plus 16 n |
| MsiTables.EntryDecides | iommu_ref_model/libiommu/src/iommu_msi_trans.c:95-206 | an access goes to the page of that entry with its own offset exactly if the entry is valid, basic and without reserved bits and the access is no checked execute; to the notice page exactly if it is a valid MRIF entry |
| MsiTables.SetIndependently | iommu_ref_model/libiommu/src/iommu_msi_trans.c:84-99 | files in different pages have entries of their own: writing the one leaves what becomes of accesses to the other |
| MsiTables.OthersGoOn | iommu_ref_model/libiommu/src/iommu_msi_trans.c:38-72 | other addresses, and all with the MSI page tables off, go on to the second stage |
| FileRules.FileThroughLeaf | iommu_ref_model/libiommu/src/iommu_translate.c:309-353 | a request whose first-stage leaf takes it to file n gets what entry n gives: its page with the offset of the request, read and write but never execute rights, 4 KiB; or cause 261 or 270 for the load, 262, 263, or 1 for an execute that is tested |
| FileRules.FileAddressed | iommu_ref_model/libiommu/src/iommu_translate.c:309-353 | so for a request without a first stage to the address of file n |
| FileRules.KeepsItsAddress | iommu_ref_model/libiommu/src/iommu_translate.c:96-102 | a request that keeps its address has all rights in a page of 4 KiB |
| IoatcRules.VmaDrops | iommu_ref_model/libiommu/src/iommu_command_queue.c:298-418 | IOTINVAL.VMA drops an entry exactly if it is of the host or the VM named, of the process named and not global with PSCV, and meets the range named with AV; nothing else changes |
| IoatcRules.GvmaDropsThese | iommu_ref_model/libiommu/src/iommu_command_queue.c:419-506 | IOTINVAL.GVMA drops every entry of the VM named, and with AV those among its entries without a first stage that meet the range |
| IoatcRules.DirectoryDrops | iommu_ref_model/libiommu/src/iommu_command_queue.c:244-297 | IODIR.INVAL_DDT drops the device named, or all, and its processes; IODIR.INVAL_PDT the process named |
| IoatcRules.LookupAges | iommu_ref_model/libiommu/src/iommu_atc.c:151-232 | a lookup ages the first entry that matches, drops it if it cannot use it, and changes no other |
| IoatcRules.StaleIsDropped | iommu_ref_model/libiommu/src/iommu_atc.c:190-205 | so an entry that could not be used is not in the way of what the walk finds |
| IoatcRules.DeviceIsCached | iommu_ref_model/libiommu/src/iommu_atc.c:9-50 | a device that is located is cached in the slot given, one that is cached is aged, and no other entry changes |
| IoatcRules.CachedIsUsed | iommu_ref_model/libiommu/src/iommu_atc.c:151-232 | a translation that is cached answers the requests for its page, at the right address and without a walk |
| DirectoryRules.DeviceAccepted | iommu_ref_model/libiommu/src/iommu_device_context.c:190-377 | a device context is accepted exactly if it asks for nothing reserved or that the IOMMU does not have |
| DirectoryRules.ProcessAccepted | iommu_ref_model/libiommu/src/iommu_process_context.c:201-238 | so is a process context, the width of its first stage being that of the device |
| DirectoryRules.DeviceFound | iommu_ref_model/libiommu/src/iommu_device_context.c:97-187 | past the tables that valid entries for the parts of the id lead to, the record at 32 or 64 bytes times its last part is the context, or gives the cause |
| DirectoryRules.DeviceNotFound | iommu_ref_model/libiommu/src/iommu_device_context.c:104-149 | an entry above it that is missing, reserved or unreadable gives the cause |
| DirectoryRules.ProcessFound | iommu_ref_model/libiommu/src/iommu_process_context.c:74-198 | along the tables that valid entries for the parts of the process id lead to, each read by a load of the guest through the second stage: the record at 16 bytes times the last part is the context or gives the cause, an entry above that is missing or reserved gives 266 or 267, and a read that fails a guest page fault at its address, 265 or 269 |
| DirectoryRules.ProcessWalkEnds | iommu_ref_model/libiommu/src/iommu_process_context.c:81-160 | every walk of a process directory comes to such an end |
| DirectoryRules.ReadDirectly | iommu_ref_model/libiommu/src/iommu_process_context.c:91-117 | without a second stage each word of the directory is read where it is |
| Messages.InterruptSends | iommu_ref_model/libiommu/src/iommu_interrupt.c:27-106 | each unit, if it is enabled and not pending, sets its bit and stores exactly the address and data of the table entry of its own vector (`civ`, `fiv`, `pmiv`, `piv`), or sets that vector's pending flag if it is masked, or reports fault 273 if the store is refused; otherwise nothing happens |
| Messages.RunHolds | iommu_ref_model/libiommu/src/iommu_interrupt.c:107-120 | over every run that does not unmask a vector, a message held back stays so |
| Messages.UnmaskSendsOnce | iommu_ref_model/libiommu/src/iommu_reg.c:805-839 | unmasking the vector stores that message and clears its flag, and later writes of the mask store nothing |
| Messages.MaskedComesLater | iommu_ref_model/libiommu/src/iommu_interrupt.c:27-120 | so a message raised while its vector is masked is stored by the unmasking, after whatever run |
| Messages.FaultIsRecorded | iommu_ref_model/libiommu/src/iommu_faults.c:86-158 | a fault puts its record in the slot at the tail, without process id and privilege unless it has a process id, moves the tail on, and sends the message of `fiv` |
| Messages.FaultIsDropped | iommu_ref_model/libiommu/src/iommu_faults.c:25-90 | a fault that DTF silences, or that the queue is not in a state to take, changes nothing; causes 256 to 259, 268, 272 and 273 are not silenced |
| Messages.FaultIsLost | iommu_ref_model/libiommu/src/iommu_faults.c:126-158 | a full queue overflows, and one whose slot cannot be stored to has a memory fault; nothing is recorded |
| PageRules.RequestIsTurnedAway | iommu_ref_model/libiommu/src/iommu_ats.c:117-184 | while the IOMMU is off, without a directory, for an id too wide, a device not found or one without PRI: the fault reported and the response code, with the process id only where PRPR or response failure asks for it |
| PageRules.QueueIsDown | iommu_ref_model/libiommu/src/iommu_ats.c:199-231 | a queue that is off or whose memory has failed answers with response failure, one that has overflowed with success; nothing changes |
| PageRules.RequestMeetsQueue | iommu_ref_model/libiommu/src/iommu_ats.c:265-298 | a full queue overflows and answers with success, a refused store is a memory fault and answers with response failure; else the record, without privilege and execute bits unless it has a process id, is in the slot at the tail; in each case the page unit is signalled |
| PageRules.QueueControl | iommu_ref_model/libiommu/src/iommu_reg.c:367-494 | turning either record queue on empties it and forgets its errors; other writes clear just the errors named |
| PageRules.BaseAndHead | iommu_ref_model/libiommu/src/iommu_reg.c:233-280 | a base is moved only while its queue is off, which moves the head to 0; a head moves round the queue |
| PageRules.PendingCleared | iommu_ref_model/libiommu/src/iommu_reg.c:495-548 | without errors writing `ipsr` just clears the bits named |
| PageRules.ErrorSignalsAgain | iommu_ref_model/libiommu/src/iommu_reg.c:495-548 | a queue in error sets its bit again and sends the message of its own vector again |
| Completions.ResponsesInEveryRun | iommu_ref_model/libiommu/src/iommu_ats.c:57-83 | in every run from reset each response heard is from the device of the request last sent under its tag, segment included where the request names one, and a request not given up ends just when it has heard as many as that response says |
| Completions.OneTagCompletion | iommu_ref_model/libiommu/src/iommu_ats.c:57-83 | a completion that names one tag is unexpected exactly if no request is out under it or that request went to another device, and then nothing changes; otherwise it is heard and ends the request if the count is full |
| Completions.FromElsewhere | iommu_ref_model/libiommu/src/iommu_ats.c:71-76 | a completion from a device that no request under a named tag went to changes nothing and is reported |
| Completions.FencesWaitForDevices | iommu_ref_model/libiommu/src/iommu_command_queue.c:541-608 | in every run from reset, before a fence takes effect each request sent earlier was given up or answered by its own device as often as it says |
| CommandRules.NoneIsTakenUp | iommu_ref_model/libiommu/src/iommu_command_queue.c:43-55 | no command is taken up while the queue is off or being turned off, empty, in error, or held up |
| CommandRules.BadCommands | iommu_ref_model/libiommu/src/iommu_command_queue.c:57-243 | a command that cannot be loaded sets the memory fault bit and an illegal one the illegal bit; both stay at the head without effect |
| CommandRules.InvalGoesOut | iommu_ref_model/libiommu/src/iommu_command_queue.c:507-540 | an ATS.INVAL goes out under the first free tag, which notes whom it went to, or is kept back with none free |
| CommandRules.FenceIsHeld | iommu_ref_model/libiommu/src/iommu_command_queue.c:551-563 | a fence that meets a request still out waits with all it asks for |
| CommandRules.FenceTakesEffect | iommu_ref_model/libiommu/src/iommu_command_queue.c:565-605 | one that does not synchronizes what it names, stores its data where it says and sets the wired-interrupt bit if it asks for it, or sets the memory fault bit and stays |
| ResumeRules.NothingResumed | iommu_ref_model/libiommu/src/iommu_ats.c:35-55 | nothing is resumed while a fence waits for a tag or nothing is held up |
| ResumeRules.BlockedGoesOut | iommu_ref_model/libiommu/src/iommu_command_queue.c:625-641 | the request kept back goes out under the first free tag |
| ResumeRules.FenceResumes | iommu_ref_model/libiommu/src/iommu_command_queue.c:609-624 | a fence that waited takes effect as one that comes up with no request out; the queue waits no longer, and a turning off that it delayed is done |
| ResumeRules.TimeoutIsReported | iommu_ref_model/libiommu/src/iommu_command_queue.c:567-574 | if a request was given up since, the timeout bit is set instead, and the fence stays at the head without effect |
| ResumeRules.TimeoutGivesUp | iommu_ref_model/libiommu/src/iommu_ats.c:84-94 | a timeout ends just the requests under the tags named, is noted for the next fence, and resumes |
| ResumeRules.BaseAndTail | iommu_ref_model/libiommu/src/iommu_reg.c:206-229 | the base is moved only with the queue off, which empties it, and the tail to any slot |
| CommandRules.ControlWrite | iommu_ref_model/libiommu/src/iommu_reg.c:288-366 | turning the queue on empties it and forgets its errors, turning it off waits for a fence that waits, and nothing happens while it is being turned off |

## Left out

- Concurrent writers: memory is sequential, so the compare of an atomic update always succeeds and the return to step 2 after it is not taken.
- Byte order, and words read at one width and written at another: memory holds typed words named by address and width, and directory words, page-table words, queue records and message words are separate.
- TranslationProcess.WalksCode: `handle_virtual_interrupt_file_overlap`, a function of the platform that shrinks a superpage overlapping interrupt files, is taken to leave the size alone, and what is done with a notice of an MRIF entry is outside the model.
- The IOATC fill of ATS and T2GPA translations, and the guest address that a T2GPA response carries.
- Performance counters, QoS ids, debug translation, the Priv, Global, CXL and AMO response fields, and register fields other than those of the queues, `ipsr` and the vector masks.
- The W bit of responses that hit the IOTLB: a hit does not return the D bits it depends on.
- A pointer entry at level 0 in `translate_gpa`, where the unsigned index wraps to 255 and the code reads outside its array: the model's walk ends there.
- CommandProcessor.Processor.ProcessCommands: the load and decoding of commands are outside the model: a fetched command comes decoded, legal or not; the legality of a fence's wired interrupt is modelled.
- CommandProcessor.Processor.ExecuteCode: IOTINVAL and IODIR commands only retire here; what they do is `Iotlb.IoTlb.InvalVma`, `Iotlb.IoTlb.InvalGvma` and `DirectoryCaches.Cache.Invalidate`.
- Fence and message stores aimed at the queues themselves: the order of the queues is stated for addresses outside them.
- DirectoryCaches.Cache.Fill: a fill outside the cache, with a stale slot variable that is no index.
- TranslationProcess.TranslateRequest: the IOATC lookup and fill and the directory caches, which `TransparentRuns.TranslateIova` and `DirectoryCaches.LocateDeviceContext` have, and the response fields of MRIF entries.
- SecondStage.SecondStageAddressTranslation: for a Bare second stage only 44 page-number bits are kept, as in the code, so addresses from 2^56 on are truncated.
- Superpages.SameTranslationInPage: with SXL a first-stage superpage can reach beyond the 34-bit guest width, so addresses whose guest address does not fit fault instead; the lemma says so.
- TransparentRuns.CachedRunIsPlainRun: responses are compared by status, cause, address, size, memory type and read and execute rights, not by W, every identifier names one pair of tables, and a Bare first stage over a second stage with SXL reports at most 2^34 bytes, beyond which a page holds addresses that the 34-bit rule rejects.
- DirectoryCaches.CachedRunIsPlainRun: the ids have the width of the directories, which the tests before the walks check (`TranslationProcess.TestsAdmit`), and an edit must be followed by a command naming each process whose settled walk it changes, which includes edits that only clear A or D bits the walk had set.
- DirectoryBuilder.BuildThenLocate: the words of other kinds that clearing a page also clears are separate memories here.
- ProcessBuilder.BuildThenLocate: the tables of the directory are mapped by leaves without NAPOT coding, as the builder maps them; the next free guest page of a VM is a parameter, where the test platform keeps a table of them by GSCID.
- NestedBuilder.BuildIsMapUpdate: the same, and no word belongs to the tables of both stages.
