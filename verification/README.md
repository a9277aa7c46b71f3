# A verified model of the MIPS cycle simulator

The repository holds two simulators of a small MIPS machine. The functional one executes one instruction
after another. The cycle simulator drives the same emulator and computes how long a five-stage pipeline with an
instruction cache, a data cache, hazard stalls and exception bubbles would take. This project models
both, with the memory, the emulator and the caches below them, and proves what they promise.

## How the model is built

| file | models |
|---|---|
| Words.dfy | 32-bit words with wrap-around, signed reading, shifts and bitwise operators |
| Memory.dfy | the byte memory, as a value and as class `MemoryStore` over an array |
| Instructions.dfy | bit fields, instruction classes and hazard detectors |
| EmulatorModel.dfy | the instruction step, as a value and as class `Emulator` |
| Mips.dfy | an independent reference machine in the manner of the MIPS32 manual, and the simulation proof |
| Hazards.dfy | the detectors judged by what instructions do in the emulator |
| Dependence.dfy | which register dependences exist, and exactly which of them the detectors miss |
| Recency.dfy | one cache set as a move-to-front list: stack inclusion, reuse distance |
| CacheModel.dfy | the set-associative cache as a value, over traces of addresses |
| Competitive.dfy | LRU against every other replacement policy |
| LruCache.dfy | class `Cache` over arrays of valid bits, tags and ranks |
| Pipeline.dfy | the timing machine, one step per call of `runCycles(1)`, over any stream of instruction reports |
| History.dfy | which dynamic instruction sits where, and what each cycle was spent on |
| Retirement.dfy, Accounting.dfy, Lookups.dfy, Separation.dfy | invariants of every step of the timing machine |
| Runs.dfy | the invariants over whole runs, exact lookups, stall cycles and cycle counts, progress |
| RunHazards.dfy | dependent instructions over whole runs |
| Refinement.dfy | the timing machine with its emulator against the functional run |
| Batches.dfy | one call of `runCycles` for several cycles against as many calls for one |
| Witnesses.dfy | five programs on which separation or lookups fail |
| Functional.dfy | class `FunctionalSimulator` |
| Simulator.dfy | class `CycleSimulator`, the file-level variables of cycle.cpp as fields |

Code that works in place is modelled by classes and loops, each proved equal to a specification function; the
theorems are about those functions. The timing machine looks at the program only through what the emulator reports
per instruction, so its theorems hold for every stream of reports in which HALT, and only HALT, ends the run
(`History.Sound`); `Refinement` shows that the emulator produces such streams.

Preconditions are those without which the program divides by zero or indexes outside its tables: `ways` and
`blockSize` are at least 1, and for accesses the number of sets too (a cache too small for one set can be made but not
used). Memory has fewer than 2^32 bytes, and a file that is loaded fewer than 2^31. Cache sizes that are not powers
of two are allowed: the bit counts then round down and some sets stay unused.

## Where the code decides

The model follows the code where the code and the manual or the comments differ.

- The overflow check sits on SUBU and not on SUB, the opposite of the MIPS32 manual.
- An illegal R-type funct is reported but execution goes on; an illegal opcode goes to 0x8000.
- The detectors cover branches and arithmetic only. After an op or a load, the dependences they miss are exactly those of
  JR, of a load or store through its base register, of a store through its data register, and of an op after an op
  (`Dependence.MissedDependences`).
- Dependent instructions can end up in stages where the value is not there yet, in three ways. `xStall` and `dStall`
  count down while a data miss freezes the pipeline (`Witnesses.HazardAfterMiss`). A fetch that faults, and the bubbles
  after it, look at no hazard (`Witnesses.HazardAfterFault`). The flush after HALT ignores the stalls that HALT's own
  entry has set (`Witnesses.HazardInFlush`). `Separation.CycleSeparatesIff` says exactly which call does it, in any pipe
  state it dumps, `RunHazards.SeparationIff` which run, and `RunHazards.SeparatedIffCovered` what the counters must
  cover after each data miss and fault.
- A load or store is never looked up in the data cache if it enters MEM in the last cycle of a stall
  (`Witnesses.LoadNeverLookedUp`) or in a faulting or bubble cycle, or if it is still in IF or ID when HALT enters and is
  drained by the flush (`Witnesses.LoadDrained`, `Runs.DrainedUnasked`). `Runs.LookedUpIff` is the exact condition, for
  every instruction and every run.
- The detectors also fire for nothing: on register 0, on the rt field of BLEZ and BGTZ, on the rs field of shifts, on
  unknown functs and where the result is determined (`Dependence.FalseAlarmsIff`).
- A word access at offset 0xfffffffe or 0xffffffff from the start of the store runs on past its end, while the lower half
  on its own would wrap around to the beginning (`Memory.WordIsTwoHalves`).
- One call of `runCycles` for k cycles moves the pipeline by k cycles but the cycle counter by one, and dumps once
  (`Batches.BatchIsCalls`, `Batches.BatchCountsOnce`).
- The address 0xffffffff is the marker for "no memory access".

## Model

| member | source | states |
|---|---|---|
| Memory.MemoryStore.constructor | MemoryStore.cpp:12-16 | a fresh store holds zeros |
| Memory.MemoryStore.GetOrSetValue | MemoryStore.cpp:59-90 | any size, get or set: invalid sizes and accesses beyond the end fail; a read yields the big-endian number with missing low digits zero and leaves memory alone; a write stores exactly the bytes that lie in range, also when it fails |
| Memory.MemoryStore.GetBytes | MemoryStore.cpp:74-78 | the reading loop with its shifts and ORs computes the big-endian number, and stops at the first byte beyond the end |
| Memory.MemoryStore.SetBytes | MemoryStore.cpp:79-83 | the writing loop stores the big-endian digits of the value and keeps the bytes written before a violation |
| Memory.MemoryStore.GetMemValue | MemoryStore.cpp:92-94 | reading never changes memory |
| Memory.MemoryStore.SetMemValue | MemoryStore.cpp:96-98 | status and new memory of a write |
| Memory.MemoryStore.LoadFromFile | MemoryStore.cpp:100-124 | afterwards byte i of the file, every one of them, reads back from address i where that lies in the store, truncated to eight bits; every other address reads as before |
| Memory.LoadedWord | MemoryStore.cpp:115-118 | four bytes of the file read back as one word, the first on top |
| Memory.LoadAfterStore | MemoryStore.cpp:72-83 | reading back an in-range write gives the value modulo 2^(8 * size) |
| Memory.WordIsTwoHalves | MemoryStore.cpp:72-83 | exactly when a word write is its two half writes and a word read joins two half reads: always, also when running off the end, unless the second half wraps to the beginning of the store and finds other bytes there |
| Memory.WordIsFourBytes | MemoryStore.cpp:74-78 | a word read is four byte reads, the first byte on top |
| Memory.LastWriteWins | MemoryStore.cpp:59-98 | after any sequence of writes, failing ones included, every byte is the digit of the last write covering it, or the initial byte |
| Memory.ReadAssemblesLastWrites | MemoryStore.cpp:59-98 | a read after any sequence of writes is the big-endian assembly of the last bytes written |
| Memory.OrInByte | MemoryStore.cpp:77 | OR-ing in a shifted byte below the earlier ones adds a base-256 digit |
| Words.WordOpByBits | emulator.cpp:134-146 | the bitwise operators do to every bit what their names say |
| Words.BitNotByBits | emulator.cpp:141-143 | the complement flips each of the 32 bits |
| Instructions.FieldsAreBits | emulator.cpp:31-36 | the eight fields obtained by dividing are the ones obtained by shifting and masking |
| Instructions.DecodeIsBits | emulator.cpp:81-88 | each of the eight fields handed on to execution is its bit range of the word |
| Instructions.FieldsMakeWord | emulator.cpp:81-88 | the fields lie side by side and make up the word, the immediate and the jump index |
| Instructions.ClassesDisjoint | cycle.cpp:430-478 | loads, stores, branches and ops are disjoint classes; an empty slot and HALT are in none |
| EmulatorModel.SignExtIsXor | emulator.cpp:39-43 | the arithmetic sign extension is the test of bit 15 and the XOR with 0xffff0000 |
| EmulatorModel.Emulator.constructor | emulator.cpp:16-24 | the machine starts at PC 0 with zero registers and no pending branch |
| EmulatorModel.Emulator.ExecuteInstruction | emulator.cpp:52-288 | in place, one instruction leaves exactly the machine and the report that the step function gives |
| EmulatorModel.Emulator.Dispatch | emulator.cpp:112-286 | the switch on the opcode, updating PC, branch state, registers and memory in place, has exactly the outcome of `Execute` |
| EmulatorModel.Emulator.DispatchRType | emulator.cpp:113-183 | likewise for the switch on the funct |
| EmulatorModel.Emulator.LoadInto | emulator.cpp:240-257 | a load writes what the memory read left behind, even when the access fails |
| EmulatorModel.DinCounts | emulator.cpp:71-72 | after n steps the instruction count has grown by n |
| EmulatorModel.FaultKinds | emulator.cpp:74-78 | HALT is exactly the word 0xfeedfeed and never faults; at most one fault is reported |
| EmulatorModel.InfoAddress | emulator.cpp:240-281 | a load or store reports base register plus signed offset, register 0 counting as zero |
| Mips.AddTrapsIffOverflow | emulator.cpp:116-130 | the wrapped sign test holds exactly when the signed sum does not fit 32 bits |
| Mips.SubTrapsIffOverflow | emulator.cpp:163-178 | the wrapped sign test holds exactly when the signed difference does not fit 32 bits |
| Mips.BranchTarget | emulator.cpp:93 | a branch goes to the delay slot's address plus four times the signed immediate |
| Mips.JumpTarget | emulator.cpp:94 | masking and XOR give the 256 MB region of the delay slot joined with the index times four |
| Mips.RTypeSimulates | emulator.cpp:113-183 | every R-type instruction has the effect the reference machine gives it |
| Mips.ExecuteSimulates | emulator.cpp:112-286 | every instruction has the effect the reference machine gives it, with the same flags and addresses |
| Mips.StepSimulates | emulator.cpp:52-288 | one emulator step is one step of a machine with PC/nPC and a hard-wired register 0: the pending branch encodes nPC, in delay slots and traps too, and writes to register 0 are invisible |
| Mips.InfoSimulates | emulator.cpp:52-78 | the emulator reports the PC, instruction number, word, HALT flag, faults, effective addresses and next PC of the reference machine |
| Mips.TrapsLeaveNoBranch | emulator.cpp:122-126 | a trap leaves no pending branch and changes nothing but the PC, which becomes 0x8000; only an illegal funct continues in sequence or at the branch target |
| Mips.HandlerFetched | emulator.cpp:122-126 | after an overflow or an illegal opcode the word at address 0x8000 is fetched next |
| Mips.ShiftSteps | emulator.cpp:154-159 | SLL and SRL leave the register named by bits 16-20 times or divided by 2 to the number in bits 6-10, in the register named by bits 11-15 |
| Mips.LogicSteps | emulator.cpp:134-146 | AND, OR and NOR leave those bits of the two source registers, bit by bit |
| Mips.RunSimulates | emulator.cpp:52-288 | every run of the emulator is a run of the reference machine |
| Hazards.WritesOnlyTarget | emulator.cpp:112-265 | an op or load writes no register but the one the detectors look at, and no memory |
| Hazards.UndetectedMeansIndependent | cycle.cpp:307-371 | when no detector fires for a covered pair, the later instruction takes the same branch, trap and value whatever the earlier one's target register holds |
| Hazards.DetectorsByFields | cycle.cpp:307-371 | the delay of every pair of words, read off their bits: when each detector fires, and with what value, whether or not a dependence is behind it |
| Dependence.UnreadUnaffected | emulator.cpp:112-286 | an instruction takes the same branch, trap, address and effect whatever a register that it does not read holds |
| Dependence.DependsIff | emulator.cpp:112-286 | an instruction depends on a register exactly when it reads it and is not one of the few whose result does not depend on what it reads |
| Dependence.SeenOrOutOfSight | cycle.cpp:307-371 | what is read after an op or a load is either detected or one of four undetected kinds, never both |
| Dependence.MissedDependences | cycle.cpp:307-371 | exactly which dependences on an op or a load the detectors miss: JR, the base of a load or store, the data of a store, and an op after an op |
| Dependence.OthersIndependent | cycle.cpp:307-371 | every other undetected instruction is independent of the target register, on every machine |
| Dependence.AddressesAndJumpsMissed | cycle.cpp:307-371 | on every machine another value in the register gives JR another target, and a load or store another address, and no detector fires |
| Dependence.FalseAlarmsIff | cycle.cpp:307-371 | exactly when a detector fires without a dependence: target 0, the rt field of BLEZ and BGTZ, the rs field of a shift, an unknown funct, or a determined result |
| Functional.FunctionalSimulator.constructor | funct.cpp:13-18 | the emulator starts in the initial machine over the given memory |
| Functional.FunctionalSimulator.RunInstructions | funct.cpp:23-38 | runs the given number of instructions, 0 meaning to HALT, stopping right after the first HALT; the machine is the n-fold step |
| Functional.FunctionalSimulator.RunTillHalt | funct.cpp:42-49 | ends in the machine after exactly the instructions up to the first HALT |
| Recency.LruIsStackPrefix | cache.cpp:75-128 | on any trace a set of w ways holds the w most recently used tags in order |
| Recency.StackOrdersByUse | cache.cpp:82-88 | in front of a tag stand exactly the distinct tags used since its last use |
| Recency.ReuseDistance | cache.cpp:78-127 | a tag is present exactly when it was used and fewer than w distinct others were used since |
| Recency.LruInclusion | cache.cpp:75-128 | with more ways the list only gets longer at its old end |
| CacheModel.ShiftsInRange | cache.cpp:63-72 | offset and index bits together are fewer than 32 for every configuration |
| CacheModel.TagAndIndexNameBlock | cache.cpp:63-72 | tag and index agree exactly for addresses of the same block, and determine its number |
| CacheModel.Placement | cache.cpp:63-72 | block, set and tag of an address by division and remainder, with the largest powers of two not above block size and number of sets |
| CacheModel.PlacementByPowers | cache.cpp:63-72 | for powers of two the set is the block number modulo the number of sets |
| CacheModel.SetsFillCache | cache.cpp:30 | there are as many sets of `ways` blocks as fit into the cache size |
| CacheModel.ValidConfigIff | cache.cpp:29-31 | a configuration is admitted exactly when there is a way, a byte per block, and room for one set |
| CacheModel.HoldsAfterAccess | cache.cpp:75-128 | an accessed block is present afterwards |
| CacheModel.EveryAccessCounted | cache.cpp:129-130 | hits plus misses grow by the length of the trace |
| CacheModel.SetsAreIndependent | cache.cpp:62-132 | each set behaves as a single LRU list fed with its own accesses only |
| CacheModel.HitIffReused | cache.cpp:78-127 | an address hits after a trace exactly by the reuse-distance law of its set |
| CacheModel.SetInclusion | cache.cpp:62-132 | with equal sets and block size, every set of the less associative cache is a prefix of the other's |
| CacheModel.Inclusion | cache.cpp:62-132 | so every hit in the less associative cache is a hit in the other |
| CacheModel.MoreWaysFewerMisses | cache.cpp:62-132 | misses never increase with the number of ways |
| Competitive.LruSideStep | cache.cpp:75-128 | within a phase of at most `ways` distinct tags LRU misses each at most once |
| Competitive.SetCompetitive | cache.cpp:62-132 | per set, LRU misses at most `ways` times as often as any policy |
| Competitive.LruIsCompetitive | cache.cpp:62-132 | over any trace from a cold cache, at most `ways` times the misses of any replacement policy with the same sets and ways, off-line ones included |
| Competitive.LruIsAPolicy | cache.cpp:62-132 | LRU itself is one of those policies, with the same count of misses |
| LruCache.Cache.constructor | cache.cpp:29-49 | a new cache is cold, if it has room for a set |
| LruCache.Cache.CountBitsForPowerOfTwo | cache.cpp:52-59 | the shifting loop counts how often n can be halved |
| LruCache.Cache.Locate | cache.cpp:63-72 | index and tag of an address |
| LruCache.Cache.Access | cache.cpp:62-132 | in place, with the set invariant kept: the hit flag, the counters and every set's recency list are those of the move-to-front specification |
| LruCache.Cache.AccessSet | cache.cpp:75-128 | the set's valid prefix, rank permutation and distinct tags are kept; its list becomes the accessed tag in front, cut off at `ways`; other sets are untouched |
| LruCache.Cache.Lookup | cache.cpp:77-90 | hits exactly when a valid way has the tag, and then promotes that one way although the loop runs on |
| LruCache.Cache.AgeBelow | cache.cpp:82-86 | ages exactly the valid ways ranked before the given one |
| LruCache.Cache.CountValid | cache.cpp:93-98 | counts the valid prefix |
| LruCache.Cache.Fill | cache.cpp:101-115 | the first invalid way is filled with rank 1 and all others age |
| LruCache.Cache.Evict | cache.cpp:118-126 | exactly the way of the highest rank is overwritten and all ranks rotate |
| LruCache.PromotedRepresents | cache.cpp:82-88 | promoting a way moves its tag to the front of the list |
| LruCache.FilledRepresents | cache.cpp:102-114 | filling puts the tag in front |
| LruCache.EvictedRepresents | cache.cpp:118-126 | evicting drops the last tag and puts the new one in front |
| LruCache.FoundIffListed | cache.cpp:78-79 | a tag is found exactly when it is listed, and in one way only |
| Pipeline.LookUpOnce | cycle.cpp:209-219 | the load test and the store test together make at most one data cache access, and touch nothing but that cache and `dMiss` |
| Pipeline.StallFields | cycle.cpp:107-163 | a stall cycle moves or freezes, counts down all counters, and looks up MEM exactly when another counter is still running |
| Pipeline.EnterFields | cycle.cpp:191-259 | an entering instruction is charged to the instruction cache, MEM to the data cache, and the stalls are the ones the detectors demand |
| Retirement.NextKeepsOrder | cycle.cpp:93-131 | every call keeps "retired, then in flight" equal to the faultless instructions fetched |
| Retirement.NextKeepsTrace | cycle.cpp:93-131 | every call keeps each stage's word and address those of one dynamic instruction, and the dumps in step with retirement |
| Separation.StallSeparates | cycle.cpp:107-140 | a stall cycle without data miss keeps dependent instructions apart for all overlaps of the counters |
| Separation.IngestSeparatesIff | cycle.cpp:381-388 | an entering slot keeps the separation exactly when no hazard is uncovered in IF and ID |
| Separation.CycleSeparatesIff | cycle.cpp:93-288 | exactly when one call, whatever faults, misses and counters overlap, leaves dependent instructions apart in every pipe state it dumps, the five of a HALT call included: read off the counters and the hazards in ID and IF before it |
| Separation.FlushSeparatesIff | cycle.cpp:261-275 | exactly when all five pipe states of a HALT call keep dependents apart: no hazard is pending in IF and ID, and what then stands in ID does not wait for EX |
| Separation.CycleCovers | cycle.cpp:93-275 | one call: covered hazards keep dependents apart, stay covered unless the call charges a data miss or is a fault's, and once uncovered do not become covered again before dependents have met |
| Separation.CycleSeparates | cycle.cpp:107-259 | every fault-free call without data miss keeps the separation |
| Accounting.CycleSteady | cycle.cpp:107-163 | every call keeps the bounds of the counters, and a pending data miss's block is present |
| Accounting.NextLedger | cycle.cpp:133-159 | every call keeps paid plus owed cycles equal to latency times misses, for both caches |
| Accounting.NextBalanced | cycle.cpp:284-288 | every call is a fetch, a stall or a bubble, and HALT adds four |
| Accounting.NextStallsBounded | cycle.cpp:206-259 | every call keeps the bound on stall cycles |
| Accounting.NextAdds | cycle.cpp:107-259 | every call makes the stall cycles spent and due grow by exactly the longest delay a fetch sets, or by what a data miss charged in a stall lasts beyond the other counters |
| Lookups.NextOnce | cycle.cpp:142-154 | every call keeps lookups in program order, and missed instructions in order and pairwise different |
| Lookups.NextDCache | cycle.cpp:142-154 | every call keeps the data cache equal to LRU fed the true addresses of the instructions looked up |
| Lookups.NextICache | cycle.cpp:206-207 | every call keeps the instruction cache equal to LRU fed the PCs of the faultless instructions |
| Lookups.NextWaits | cycle.cpp:142-159 | every call keeps a pending data miss that of an instruction which has been looked up |
| Lookups.NextPassesBy | cycle.cpp:142-219 | every call keeps an instruction passed by that entered MEM without a lookup |
| Lookups.EntryLookup | cycle.cpp:142-275 | exactly which instructions have been looked up after one more call: those from before, and the one in EX if the call moves it to MEM and is a faultless fetch or a stall with another counter left, and it is a load or store with an address; nothing that the flush moves |
| Lookups.RepeatsDoNotMatter | cache.cpp:62-132 | asking again for the instruction asked for last only adds hits: contents and misses are those of the list without repetitions |
| Lookups.NoLookupCycles | cycle.cpp:93-101 | bubble and faulting cycles and the last stall cycle make no lookup |
| Lookups.LooksUpWhileRunning | cycle.cpp:142-154 | a stall consults the data cache exactly when afterwards a counter other than `dMiss` is still running |
| Runs.RunInvariant | cycle.cpp:392-400 | all of the above hold after any number of calls |
| Runs.RetiresInOrder | cycle.cpp:261-275 | in-order, exactly-once retirement over any run: the WB column without empty slots is the faultless non-nop instructions in fetch order, ending in HALT |
| Runs.AddressesFollowInstructions | cycle.cpp:195-219 | every stage carries the address of its own instruction, and every lookup used it |
| Runs.ICacheIgnoresTiming | cycle.cpp:206-207 | the instruction cache depends on no stall |
| Runs.MissesOncePerInstruction | cycle.cpp:142-219 | each dynamic load or store misses at most once, and data misses are at most the loads and stores |
| Runs.LookupsInOrder | cycle.cpp:142-219 | lookups come in program order, and contents and misses of the data cache are those of LRU asked once per instruction looked up |
| Runs.LookedUpIff | cycle.cpp:142-275 | for every instruction and any number of calls: it has been looked up exactly if some call before HALT was returned moved it from EX to MEM, that call was a faultless fetch or a stall with another counter left, and it is a load or store with an address |
| Runs.EntryDecides | cycle.cpp:142-219 | the call that moves an instruction from EX to MEM decides for the whole rest of the run whether it is looked up |
| Runs.DrainedUnasked | cycle.cpp:261-275 | what is in IF or ID when HALT enters is in no call looked up |
| Runs.SkippedForever | cycle.cpp:142-219 | an instruction in MEM that has not been looked up never is, however long the run |
| Runs.LatencyConserved | cycle.cpp:107-163 | cycles frozen plus `dMiss` are latency times data misses, likewise for instruction misses; the counters stay within their bounds |
| Runs.CyclesAccountedFor | cycle.cpp:93-101 | at HALT the cycle count is instructions plus stalls plus two bubbles per overflow and one per illegal instruction plus 4 |
| Runs.CyclesBounded | cycle.cpp:80-289 | N instructions take at least N cycles and at most N * (1 + max(iLatency, 2)) plus dLatency per load or store, plus 4 at HALT |
| Runs.MissesCostCycles | cycle.cpp:133-159 | stall cycles are at least those of the instruction misses and those of the data misses; at HALT the cycle count is at least instructions, bubbles, drain and the latency of the instruction misses, which LRU on the program's PCs alone determines, or of the data misses |
| Runs.StallsExact | cycle.cpp:107-259 | the stall cycles of any run, exactly, as a sum over its calls |
| Runs.CyclesExact | cycle.cpp:80-289 | the cycle count at HALT, exactly: instructions, fault bubbles, the stall cycles added, and 4, less what HALT's own entry leaves due |
| Runs.StutterDecreases | cycle.cpp:93-163 | a call that executes no instruction makes (except, iMiss + dStall + xStall, dMiss) smaller |
| Runs.HaltsInTime | cycle.cpp:392-400 | when the stream reaches HALT the machine halts within the bound |
| RunHazards.HazardsSeparated | cycle.cpp:240-259 | over any fault-free run without data misses, before HALT, dependent instructions are never in stages that cannot forward |
| RunHazards.SeparationIff | cycle.cpp:93-288 | exactly when dependent instructions stand apart in all pipe states a run dumps, faults, misses and the flush included: when every call starts in a state that meets the one-call condition |
| RunHazards.SeparatedIffCovered | cycle.cpp:93-288 | for any run up to a call that is no stall: dependents stand apart in all it dumps exactly when after every call that charged a data miss or let a fault's empty slot enter the counters covered the hazards in the pipeline, and at HALT what then stands in ID does not wait for EX |
| RunHazards.CoverageSuffices | cycle.cpp:93-288 | coverage after every such call keeps dependents apart and what is in the pipeline covered |
| RunHazards.CoverageNeeded | cycle.cpp:93-288 | where dependents stayed apart and the counters cover what is in the pipeline, they did so after every such call |
| Refinement.ReportUnused | cycle.cpp:93-163 | a bubble or stall cycle does not depend on the emulator |
| Refinement.Coupled | cycle.cpp:169-191 | after any number of calls the emulator is the functional machine after as many instructions as were fetched |
| Refinement.CycleHaltIsFunctionalHalt | cycle.cpp:261-275 | a halted cycle run ends in the machine in which the functional run halts, after the same number of instructions |
| Refinement.FunctionalHaltIsCycleHalt | cycle.cpp:392-400 | when the functional run halts, the cycle run halts within the cycle bound in the same machine |
| Refinement.HaltsIff | cycle.cpp:392-400 | the cycle run halts if and only if the functional run does |
| Refinement.SomeProgramHalts | emulator.cpp:74-78 | a program whose first word is HALT halts after one instruction |
| Refinement.CachesDoNotMatter | cycle.cpp:67-75 | halted runs of one program under any two cache configurations end in the same machine |
| Refinement.TrueAddress | cycle.cpp:195-197 | the address that enters the pipeline is the effective address in the functional run |
| Refinement.HasAddressIff | cycle.cpp:195-219 | the data cache has something to ask for exactly for the six load and store opcodes with a base plus signed offset other than 0xffffffff |
| Refinement.LookedUpByAddress | cycle.cpp:142-275 | exactly which instructions of a program the data cache is asked for, by opcode, effective address and the call that moves them to MEM |
| Refinement.HaltedRun | cycle.cpp:261-288 | of a halted program: the cycle count lies between the least its instructions, faults and misses take and the bound, the WB column shows the faultless instructions in order, and the instruction cache has seen their PCs |
| Batches.StoppedStays | cycle.cpp:261-275 | once HALT has left the loop of a call, nothing follows |
| Batches.BatchOfOne | cycle.cpp:80-289 | a call for one cycle is one step of the timing machine and halts exactly when that fetches HALT |
| Batches.BatchIsCalls | cycle.cpp:80-289 | a call for n cycles ends in the pipeline, counters, caches and emulator of n calls for one cycle, and agrees with them on HALT |
| Batches.BatchCountsOnce | cycle.cpp:284-288 | however many cycles a call is for, cycle counter and dumps grow by one, and by four more at HALT |
| Witnesses.HazardAfterMiss | cycle.cpp:107-140 | a program, over any registers, any data cache with latency 1 and no instruction latency, that has after six calls a branch in EX and the addition it depends on in MEM |
| Witnesses.HazardInFlush | cycle.cpp:261-275 | a program without misses or faults that dumps a branch in EX with the addition it depends on in MEM while HALT is flushed |
| Witnesses.HazardAfterFault | cycle.cpp:171-189 | a program in which an illegal instruction lets a branch into EX while the addition it depends on is in MEM |
| Witnesses.LoadNeverLookedUp | cycle.cpp:142-159 | a program with a load that has an address, reaches MEM in the last cycle of an instruction miss and is in no call looked up, whatever the data cache |
| Witnesses.LoadDrained | cycle.cpp:261-275 | a program with a load right before HALT that has an address and is in no call looked up, whatever the data cache |
| Simulator.CycleSimulator.constructor | cycle.cpp:67-75 | starts cold, at cycle 0, over the initial machine |
| Simulator.CycleSimulator.IngestPipeline | cycle.cpp:381-388 | every stage moves on by one and the cycle is stamped |
| Simulator.CycleSimulator.IngestBuffer | cycle.cpp:373-379 | the addresses move on by one |
| Simulator.CycleSimulator.ShiftStalled | cycle.cpp:107-131 | in place, the shift of a stall cycle |
| Simulator.CycleSimulator.StallCycle | cycle.cpp:107-163 | in place, a stall cycle |
| Simulator.CycleSimulator.AccessDataForMem | cycle.cpp:209-219 | the data cache is consulted for MEM |
| Simulator.CycleSimulator.DetectHazards | cycle.cpp:240-259 | the stall counters after a fetch |
| Simulator.CycleSimulator.EnterInstruction | cycle.cpp:191-259 | in place, a faultless instruction enters |
| Simulator.CycleSimulator.FlushPipeline | cycle.cpp:261-275 | in place, the four turns of the flush |
| Simulator.CycleSimulator.FetchCycle | cycle.cpp:169-275 | in place, the emulator steps and its report decides what enters |
| Simulator.CycleSimulator.RunCycles | cycle.cpp:80-289 | a call for any number of cycles, 0 meaning until HALT, takes timing machine and emulator through that many turns of the specification, dumps and counts once, and returns HALT exactly when it fetched it |
| Simulator.CycleSimulator.RunTillHalt | cycle.cpp:392-400 | from any state whose calls reach HALT, also after an earlier HALT: returns HALT with timing machine and emulator where those calls leave them |
| Simulator.LoadImage | sim_cycle.cpp:85-86 | a memory of 65536 bytes, the image at address 0 and zeros behind it |
| Simulator.HaltImage | sim_cycle.cpp:85-89 | an image that begins with the bytes fe ed fe ed halts after one instruction |
| Simulator.RunFunctional | sim_funct.cpp:22-26 | the functional simulator on an image ends in the machine of its run |
| Simulator.RunCycle | sim_cycle.cpp:85-89 | the cycle simulator on an image ends in the machine of the functional run, with the cycle count within its bounds and the WB column equal to the retired instructions |
| Simulator.RunBoth | cycle.cpp:392-400 | both simulators, run on one image under any cache configurations, agree on registers, memory, PC and instruction count |

## Left out

- Functional.FunctionalSimulator.RunInstructions: for 0 instructions, that is until HALT, only programs that halt;
  a method here ends. `Runs` and `Mips` cover runs that never halt.
- Functional.FunctionalSimulator.RunTillHalt: only programs that halt, for the same reason.
- Simulator.CycleSimulator.RunCycles: for 0 cycles, only states from which HALT is reached, for the same reason.
- Simulator.CycleSimulator.RunTillHalt: only states from which HALT is reached, for the same reason.
- Simulator.RunFunctional: only images whose run halts, for the same reason.
- Simulator.RunCycle: only images whose run halts, for the same reason.
- Simulator.RunBoth: only images whose run halts, for the same reason.
- Wrap-around of the counters `cycleCount`, `din`, `hits`, `misses`, `dMiss` and of ranks after 2^32 steps: they are
  unbounded numbers.
- Console and file output apart from the dumped pipe states, which are a sequence here: register, memory, cache and
  statistics dumps, and the disassembler.
- Argument and configuration parsing, opening the image file, and `prepareMemory`.
- The fields of the instruction report that repeat operand bits, and the unused statistics fields.
- The `readWrite` and `cacheType` parameters, which the cache ignores, and the unused random generator.
- Pointer ownership and signed overflow as undefined behaviour: sums and differences wrap.
