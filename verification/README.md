# RSP and RDP emulation: a verified model

This project models, in Dafny, the parts of an N64 emulator core whose correctness is not visible from
one function at a time, and proves what they promise.

* **The RSP recompiler** (`Words`, `Dmem`, `Isa`, `HostCode`, `RegCache`, `RegCacheProofs`, `CacheRuns`,
  `RegisterCache`, `Emitter`, `MemoryEmitter`, `Region`, `Recompiler`, `RegionCompiler`, and the proofs in
  `InstrProofs`, `BranchProofs`, `SlotProofs`, `StepProofs`, `HandlerProofs`, `SlotOutcome`, `CompiledRun`,
  `Simulation`, `Runs`, `DelaySlotCases`, `Instructions`). The generated code is a small instruction set over host registers, `sr[0..32]`, the
  delay-slot fields and two stack slots; the reference is a stepper with a program counter and a pending
  target. All scalar instructions are modelled, with the register cache, the load and store templates,
  local gotos, slots carried over block ends, latent slots, exits and the thunks.
* **The code cache** (`CodeCache`, `CodeIdentity`, `CachedRuns`): dirty bits, the compare pass, the hash table, and runs
  whose blocks are fetched through it.
* **The worker pool** (`WorkerPool`): every interleaving of the main thread and n - 1 workers over a mutex,
  two condition variables and the done bits, spurious wake-ups included.
* **Command processing** (`CommandStream`, `CommandIngest`, `RdpLists`, `VideoDispatch`, `DispatchLists`,
  `WorkerReplay`): the incremental parser, the buffered list processor, and the processor and the pool as one system over a shared buffer.
* **Checksums and copies** (`Crc`, `CrcTables`, `CrcReflected`, `CrcResidue`, `UnswapCopy`).
* **The RSP interpreter** (`SpDma`, `VectorTransfer`, `QuadTransfer`, `Transpose`, `RunTask`,
  `ControlFlow`).

`Lockstep` and `Bits` hold what several of these share.

`dafny verify dfyconfig.toml` checks everything; no proof needs a raised limit.

## Conventions

* Words are natural numbers below 2^32 and wrap-around is written out. A 64-bit host register is the pair
  of its halves. Checksum registers are rows of 32 bits, least significant first. Memory that the
  program keeps byte-swapped is kept byte-swapped here; only the little-endian host layout is modelled,
  except for the checksums, which are proved for both.
* Coprocessor handlers and vector operations are uninterpreted functions of the state their call sites
  flush; a call destroys every caller-saved host register. Host registers: any number of at least three,
  of which at least three are caller-saved.
* What two sides of a proof share is also stated in plain numbers: the instruction set (`Instructions`, `ControlFlow`), where a region
  ends (`Region.StaticEndExact`), command lengths (`RdpLists`, `DispatchLists`), DMA addresses (`SpDma.WritesInNumbers`) and checksums
  (`CrcResidue`).
* The allocator's assertions clear an `ok` flag; `CacheRefinesFile` and `FrontWf` prove it stays set.
* IMEM does not change during a compiled run: the DMA handler asks `run` to return after it has written to
  IMEM, and `CodeCache` covers what happens between runs. Code is fetched only while nothing is marked, which is
  what that return and the call of invalidate_code at the start of `run` provide.
* `WRAPS` wraps some functions of `RegCache`, `Recompiler` and `CompiledRun` in a recursion that does nothing
  but keep proofs from unfolding generated code they only pass around.
* Where the program does not do what it seems to promise, the model follows the program, shows an input,
  and states exactly when the promise holds: the two delay-slot cases (`Runs.StepExact`, with programs in
  `DelaySlotCases`), the resume path of the list processor (`VideoDispatch.CollectAllExact`), SDV at place 3
  (`VectorTransfer.SdvExact`), SQV at places other than 0, 2, 4 and 6 (`QuadTransfer.StoreThenLoadQuad`, `QuadAtPlaceEight`), SP memory
  written above 8 MiB (`SpDma.RoundTripExact`, `WordAtLimit`), and the interpreter's two main loops (`RunTask.RunsExact`).
* A region, its hash and its code are related by the words of the region. The hash is not assumed to be
  injective: `FetchAfterRun` says that a fetch is current or that two regions actually met share a hash.
* A vector register has sixteen bytes of room behind it (VR_STATIC_WRAPAROUND, mupen64plus-rsp-cxd4/vu/vu.h:34-38).
* A branch in a delay slot is called undefined at mupen64plus-rsp-paraLLEl/debug_rsp.cpp:378; the recompiler supports it,
  and the model includes it, except for the one combination that `Diverts` describes.

## Model

| member | source | states |
|---|---|---|
| `Runs.RunSim` | mupen64plus-rsp-paraLLEl/rsp_jit.cpp:1795-1945 | for every clean program entered anywhere, after every number of steps, the chained compiled blocks and the one-instruction (pc, pending target) stepper are in the same state (registers, memory, pending slot, exit mode and pc) and have visited the same words |
| `Runs.RunExact` | mupen64plus-rsp-paraLLEl/rsp_jit.cpp:516-644 | for any program: the first n compiled steps agree with the stepper if and only if none of them is one of the two delay-slot cases of `Diverts` |
| `Runs.StepExact` | mupen64plus-rsp-paraLLEl/rsp_jit.cpp:549-559 | one compiled step agrees with the reference step if and only if it is neither a taken conditional branch in the slot of an unconditional one nor a goto into the slot of a BLEZ $0 |
| `Runs.EnteredRun` | mupen64plus-rsp-paraLLEl/rsp_jit.cpp:374-446 | entering through the thunk with any registers, memory and pending slot starts such a run |
| `Runs.SlotFlagOnlyOnEntry` | mupen64plus-rsp-paraLLEl/rsp_jit.cpp:654-718 | in a run of any program, clean or not: no goto without a label is ever met, control stays inside compiled regions, and has_delay_slot is 0 in front of every instruction but the first of a block, and at every exit |
| `Runs.OrdinaryIsClean` | mupen64plus-rsp-paraLLEl/rsp_jit.cpp:1848-1878 | a program with no branch in a delay slot and no branch into the slot of a BLEZ $0 is clean, whatever regions it is cut into |
| `DelaySlotCases.BranchIsForgotten` | mupen64plus-rsp-paraLLEl/rsp_jit.cpp:553-559 | J 4; BEQ $0, $0, 7 entered at word 0 with any registers: the two runs agree for one step and not for two; then the reference goes to word 7 and the compiled program to word 5 |
| `DelaySlotCases.SlotIsEnteredSideways` | mupen64plus-rsp-paraLLEl/rsp_jit.cpp:1308-1328 | a program that jumps over BLEZ $0 and then branches into its slot, entered at word 0 with any registers: the two runs agree for three steps and not for four; then the compiled slot jumps to word 7 although nothing is pending, and the reference goes on with word 4 |
| `Runs.MatchUnique` | mupen64plus-rsp-paraLLEl/rsp_jit.cpp:1988-2287 | a machine stands for at most one reference state, so agreement is not vacuous |
| `Simulation.StepSim` | mupen64plus-rsp-paraLLEl/rsp_jit.cpp:1795-1918 | the code of one instruction with its delay-slot code, label, block end, latent-slot code and thunks does the reference step, up to the pending branch the generated code goes on with |
| `Simulation.LocalHasLabel` | mupen64plus-rsp-paraLLEl/rsp_jit.cpp:608-634 | every local goto names an instruction of the region for which a label is emitted, and it is the branch's target word |
| `Simulation.GotoSim` | mupen64plus-rsp-paraLLEl/rsp_jit.cpp:1821-1827 | a goto arrives at a label with everything in memory, the condition clear and an empty cache, and with nothing pending unless the slot belongs to a BLEZ $0 |
| `Simulation.InheritSim` | mupen64plus-rsp-paraLLEl/rsp_jit.cpp:1759-1793 | a slot pending at block entry is resolved after the first instruction; a branch there becomes the new pending slot |
| `Simulation.EnterSim` | mupen64plus-rsp-paraLLEl/rsp_jit.cpp:374-446 | entering a block clears the condition and keeps registers, memory and the pending slot |
| `Simulation.ReturnSim` | mupen64plus-rsp-paraLLEl/rsp_jit.cpp:1920-1945 | `run` returns on BREAK, DMA and flag checks with the reference pc, and enters again on any other mode |
| `CompiledRun.FrontWf` | mupen64plus-rsp-paraLLEl/rsp_jit.cpp:1795-1879 | in front of every instruction of every region no allocation has failed, no lock is left, no register is cached twice and register 0 is not dirty |
| `RegionCompiler.JitRegion` | mupen64plus-rsp-paraLLEl/rsp_jit.cpp:1795-1891 | the compiling loop produces, for each instruction, the end of the block and the inherited slot, exactly the code the run executes |
| `RegionCompiler.ListingAt` | mupen64plus-rsp-paraLLEl/rsp_jit.cpp:1819-1879 | instruction i of the compiled listing is the code specified for instruction i |
| `StepProofs.InstrSim` | mupen64plus-rsp-paraLLEl/rsp_jit.cpp:851-1696 | the code of any instruction falls through having done the reference effect and recorded its branch outcome, or returns with the right pc exactly when BREAK or a coprocessor handler asks for it |
| `SlotOutcome.SlotCodeSim` | mupen64plus-rsp-paraLLEl/rsp_jit.cpp:1855-1877 | where the delay-slot code of any instruction sends control, in terms of the branch that was pending |
| `SlotProofs.ExitSim` | mupen64plus-rsp-paraLLEl/rsp_jit.cpp:654-718 | leaving inside or outside a delay slot stores the pending target or the next word, and clears has_delay_slot |
| `HandlerProofs.BranchSlotSim` | mupen64plus-rsp-paraLLEl/rsp_jit.cpp:581-644 | a conditional slot jumps, locally or through the thunk, exactly when the condition is set; it clears the condition and flushes first |
| `HandlerProofs.JumpSlotSim` | mupen64plus-rsp-paraLLEl/rsp_jit.cpp:581-644 | an unconditional slot always goes to its target with everything in memory and the condition clear |
| `HandlerProofs.DoubleBranchSim` | mupen64plus-rsp-paraLLEl/rsp_jit.cpp:516-579 | two branches in a row: if the first is taken its target is entered with the second one pending, otherwise control falls through |
| `HandlerProofs.EndOfBlockSim` | mupen64plus-rsp-paraLLEl/rsp_jit.cpp:480-514 | running off a block enters the next word with the pending branch carried in the CPU state |
| `HandlerProofs.LatentSim` | mupen64plus-rsp-paraLLEl/rsp_jit.cpp:1759-1793 | the inherited target is entered with the first instruction's own branch pending |
| `HandlerProofs.LatentCheckSim` | mupen64plus-rsp-paraLLEl/rsp_jit.cpp:1855-1865 | after the first instruction the latent code is taken exactly when has_delay_slot is set |
| `HandlerProofs.LabelSim` | mupen64plus-rsp-paraLLEl/rsp_jit.cpp:1821-1827 | a label flushes and starts with an empty cache without changing any register |
| `BranchProofs.KeepSlotSim` | mupen64plus-rsp-paraLLEl/rsp_jit.cpp:1002-1009 | a second branch in a row finds the first one's condition and indirect target saved |
| `BranchProofs.BranchCode` | mupen64plus-rsp-paraLLEl/rsp_jit.cpp:1011-1054 | after a branch the condition register holds its outcome, the indirect target is saved and the link register is written |
| `BranchProofs.BranchEffect` | mupen64plus-rsp-paraLLEl/rsp_jit.cpp:1137-1362 | what is recorded of a branch (target, indirect, conditional) encodes the reference outcome |
| `InstrProofs.DataInstr` | mupen64plus-rsp-paraLLEl/rsp_jit.cpp:912-1135 | every instruction without control flow does its reference effect on registers, memory and coprocessors |
| `InstrProofs.TargetsAgree` | mupen64plus-rsp-paraLLEl/rsp_jit.cpp:1698-1757 | the byte-address target of code generation, the word-address target of the marking pass and the signed-offset target of the reference are the same word for every instruction word |
| `Instructions.AddSub` | mupen64plus-rsp-paraLLEl/rsp_jit.cpp:1073-1085 | a step on rs*2^21 + rt*2^16 + rd*2^11 + sa*2^6 + f puts (rs + rt) mod 2^32 into rd for f = 32, 33 and (rs - rt) mod 2^32 for f = 34, 35, and does nothing else; register 0 reads as 0 and is not written |
| `Instructions.AndOrXor` | mupen64plus-rsp-paraLLEl/rsp_jit.cpp:1087-1103 | f = 36, 37, 38: each bit of the result is the and, or, exclusive or of the operands' bits |
| `Instructions.NotOr` | mupen64plus-rsp-paraLLEl/rsp_jit.cpp:1105-1117 | f = 39: a bit is set exactly when it is clear in both operands |
| `Instructions.ShiftByAmount` | mupen64plus-rsp-paraLLEl/rsp_jit.cpp:921-952 | f = 0, 2, 3: rt times 2^sa modulo 2^32, rt divided by 2^sa, and the signed value of rt divided by 2^sa and rounded down |
| `Instructions.ShiftByRegister` | mupen64plus-rsp-paraLLEl/rsp_jit.cpp:954-1000 | f = 4, 6, 7: the same by the value of rs modulo 32 |
| `Instructions.SetLess` | mupen64plus-rsp-paraLLEl/rsp_jit.cpp:1119-1130 | f = 42, 43: 1 if rs is less than rt, as signed and as unsigned numbers, else 0 |
| `Instructions.Immediates` | mupen64plus-rsp-paraLLEl/rsp_jit.cpp:1364-1430 | opcodes 8 to 11 and 15: sum with the signed immediate modulo 2^32, signed and unsigned comparison with it, and the immediate times 2^16 |
| `Instructions.ImmediateBits` | mupen64plus-rsp-paraLLEl/rsp_jit.cpp:1394-1420 | opcodes 12 to 14: bit by bit with the unsigned immediate |
| `Instructions.Loads` | mupen64plus-rsp-paraLLEl/rsp_jit.cpp:1548-1597 | opcodes 32 to 39: the signed or unsigned number made of the big-endian bytes from (rs + offset) mod 4096 on, which the host keeps at address ^ 3 |
| `Instructions.Stores` | mupen64plus-rsp-paraLLEl/rsp_jit.cpp:1599-1627 | opcodes 40, 41, 43: the low 1, 2 or 4 bytes of rt, most significant first, from that address on, and no other byte changes |
| `Instructions.ComparingBranches` | mupen64plus-rsp-paraLLEl/rsp_jit.cpp:1270-1362 | opcodes 4 to 7: word (pc + 1 + offset) mod 1024 becomes pending if rs = rt, rs <> rt, rs <= 0, rs > 0 as signed numbers, else nothing does |
| `Instructions.SignBranches` | mupen64plus-rsp-paraLLEl/rsp_jit.cpp:1137-1228 | opcode 1: rs < 0 and rs >= 0; codes 16 and 17 write (4*pc + 8) mod 4096 to register 31 whether taken or not; the other codes do nothing |
| `Instructions.Jumps` | mupen64plus-rsp-paraLLEl/rsp_jit.cpp:1230-1268 | opcodes 2 and 3: the target modulo 1024 becomes pending, opcode 3 links |
| `Instructions.RegisterJumps` | mupen64plus-rsp-paraLLEl/rsp_jit.cpp:1011-1054 | f = 8, 9: the word of the old value of rs becomes pending, f = 9 links to rd |
| `Instructions.Breaks` | mupen64plus-rsp-paraLLEl/rsp_jit.cpp:1056-1061 | f = 13: the run stops in mode 2 at the pending target or the next word |
| `Instructions.SystemMoves` | mupen64plus-rsp-paraLLEl/rsp_jit.cpp:1432-1480 | opcode 16: the handlers get the register numbers and the value of rt; the run stops in modes 2, 3 and 4 and goes on in any other |
| `Instructions.VectorMoves` | mupen64plus-rsp-paraLLEl/rsp_jit.cpp:1482-1546 | opcode 18: moves from and to the vector unit, and vector operations |
| `Instructions.VectorTransfers` | mupen64plus-rsp-paraLLEl/rsp_jit.cpp:1629-1696 | opcodes 50 and 58: twelve transfers, of which LWC2 lacks number 10 |
| `Instructions.ReservedFunction` | mupen64plus-rsp-paraLLEl/rsp_jit.cpp:1132-1135 | the other function codes do nothing |
| `Instructions.ReservedOpcode` | mupen64plus-rsp-paraLLEl/rsp_jit.cpp:1690-1696 | neither do the other opcodes |
| `Emitter.UnarySim` | mupen64plus-rsp-paraLLEl/rsp_jit.cpp:919-952 | register := op(register, immediate) computes the 32-bit result in a host register of 64 bits, with all locks released |
| `Emitter.BinarySim` | mupen64plus-rsp-paraLLEl/rsp_jit.cpp:1073-1103 | register := op(register, register), likewise |
| `Emitter.ShiftRegSim` | mupen64plus-rsp-paraLLEl/rsp_jit.cpp:954-1000 | variable shifts use the low five bits and lock at most three registers |
| `Emitter.NorSim` | mupen64plus-rsp-paraLLEl/rsp_jit.cpp:1105-1117 | NOR is the complement of OR |
| `MemoryEmitter.LoadTemplateSim` | mupen64plus-rsp-paraLLEl/rsp_jit.cpp:780-849 | a load reads big-endian bytes at the wrapped address, on the aligned fast path and through the unaligned helper |
| `MemoryEmitter.StoreTemplateSim` | mupen64plus-rsp-paraLLEl/rsp_jit.cpp:720-775 | a store writes big-endian bytes at the wrapped address on both paths |
| `MemoryEmitter.CallSim` | mupen64plus-rsp-paraLLEl/rsp_jit.cpp:332-354 | a handler call sees and changes only what its call site flushed, and destroys only caller-saved registers |
| `Words.AluRefines` | mupen64plus-rsp-paraLLEl/rsp_jit.cpp:919-1135 | on operands with the extension the template asks for, the low half of the host result is the 32-bit result, and comparisons leave sign-extended results |
| `Dmem.AlignedLoad` | mupen64plus-rsp-paraLLEl/rsp_jit.cpp:815-820 | an aligned host load at the flipped address reads the big-endian value |
| `Dmem.AlignedStore` | mupen64plus-rsp-paraLLEl/rsp_jit.cpp:750-755 | an aligned host store at the flipped address leaves the big-endian bytes |
| `CacheRuns.CacheRefinesFile` | mupen64plus-rsp-paraLLEl/rsp_jit.cpp:1988-2287 | over any legal sequence of cache calls: one live entry per register, clean entries equal memory, extensions truthful, no assertion of the allocator fails, and a full flush leaves exactly the plain register file in memory |
| `CacheRuns.FetchStep` | mupen64plus-rsp-paraLLEl/rsp_jit.cpp:2046-2087 | a load returns the register's value in the wanted extension; locked registers stay where they are with their values |
| `CacheRuns.AssignStep` | mupen64plus-rsp-paraLLEl/rsp_jit.cpp:2089-2113 | a write changes that register alone and moves no locked register |
| `CacheRuns.CallStep` | mupen64plus-rsp-paraLLEl/rsp_jit.cpp:1988-2287 | every legal cache call keeps the cache faithful and leaves every locked register in its host register, with its value unless the call is about it |
| `RegCacheProofs.RegisterAvailable` | mupen64plus-rsp-paraLLEl/rsp_jit.cpp:2018-2027 | with at most two locks out, three host registers are enough for find_register |
| `RegCacheProofs.FindRegisterExact` | mupen64plus-rsp-paraLLEl/rsp_jit.cpp:1988-2027 | find_register takes the register's own entry, else the first free one, else the first least recently used unlocked one, else none |
| `RegCacheProofs.LoadSim` | mupen64plus-rsp-paraLLEl/rsp_jit.cpp:2115-2213 | each of the three loads brings in the register, converts its extension if needed, evicts only unlocked entries and writes dirty ones back |
| `RegCacheProofs.ModifySim` | mupen64plus-rsp-paraLLEl/rsp_jit.cpp:2089-2113 | a reserved register may take any value; everything else keeps its meaning |
| `RegCacheProofs.ImmediateSim` | mupen64plus-rsp-paraLLEl/rsp_jit.cpp:2038-2044 | an immediate is recorded as sign-extended |
| `RegCacheProofs.FlushAllSim` | mupen64plus-rsp-paraLLEl/rsp_jit.cpp:2223-2236 | a full flush empties the cache and makes `sr` the abstract file |
| `RegCacheProofs.FlushCallerSavedSim` | mupen64plus-rsp-paraLLEl/rsp_jit.cpp:2238-2251 | flushing caller-saved registers empties those and changes no meaning |
| `RegCacheProofs.FlushOneSim` | mupen64plus-rsp-paraLLEl/rsp_jit.cpp:2259-2270 | flushing one register drops it and changes no meaning |
| `RegCacheProofs.UnlockMeaning` | mupen64plus-rsp-paraLLEl/rsp_jit.cpp:2215-2221 | unlocking gives back one lock and nothing else |
| `RegisterCaches.RegisterCache.FindAnyRegister` | mupen64plus-rsp-paraLLEl/rsp_jit.cpp:1988-2027 | the three scans return the live entry, else the first free one, else the least recently used unlocked one |
| `RegisterCaches.RegisterCache.LoadRegister` | mupen64plus-rsp-paraLLEl/rsp_jit.cpp:2046-2087 | the in-place load is the load on values, code included |
| `RegisterCaches.RegisterCache.ModifyRegister` | mupen64plus-rsp-paraLLEl/rsp_jit.cpp:2089-2113 | the in-place modify is the modify on values |
| `RegisterCaches.RegisterCache.ImmediateRegister` | mupen64plus-rsp-paraLLEl/rsp_jit.cpp:2038-2044 | likewise for immediates |
| `RegisterCaches.RegisterCache.UnlockRegister` | mupen64plus-rsp-paraLLEl/rsp_jit.cpp:2215-2221 | likewise for unlocking |
| `RegisterCaches.RegisterCache.FlushWindow` | mupen64plus-rsp-paraLLEl/rsp_jit.cpp:2223-2236 | likewise for the full flush; the timestamp restarts |
| `RegisterCaches.RegisterCache.FlushCallerSave` | mupen64plus-rsp-paraLLEl/rsp_jit.cpp:2238-2251 | likewise for caller-saved registers |
| `RegisterCaches.RegisterCache.FlushRegister` | mupen64plus-rsp-paraLLEl/rsp_jit.cpp:2259-2270 | likewise for one register |
| `RegisterCaches.RegisterCache.ResetAll` | mupen64plus-rsp-paraLLEl/rsp_jit.cpp:2253-2257 | every entry becomes empty |
| `Region.AnalyzeStaticEnd` | mupen64plus-rsp-paraLLEl/rsp_jit.cpp:109-232 | the scanning loop returns the end of the region as the scan function defines it and as the words give it (IsStaticEnd) |
| `Region.StaticEndExact` | mupen64plus-rsp-paraLLEl/rsp_jit.cpp:109-232 | for every memory, start and limit: with j the first JR, JALR, BREAK, J or JAL that no direct branch or jump in front of it leads past below the limit, the end is j + 1 for BREAK and min(j + 2, limit) otherwise; it is the limit if there is no such j |
| `Region.EntryInWords` | mupen64plus-rsp-paraLLEl/rsp_jit.cpp:1698-1757 | an instruction is an entry exactly when the word of some direct branch or jump of the region names it |
| `Region.EndDeterminedByRegion` | mupen64plus-rsp-paraLLEl/rsp_jit.cpp:109-232 | pc < r <= end, and any memory that agrees on [pc, r) gives the same r |
| `Region.BranchesStayInside` | mupen64plus-rsp-paraLLEl/rsp_jit.cpp:126-229 | every direct branch before the stopping instruction with a target in [pc, end) targets below r |
| `Region.MarkBlockEntries` | mupen64plus-rsp-paraLLEl/rsp_jit.cpp:1698-1757 | an entry is marked exactly when some direct branch of the region targets it |
| `Region.LimitFormula` | mupen64plus-rsp-paraLLEl/rsp_jit.cpp:456-459 | the byte arithmetic of the limit is the end of the next code block, within IMEM |
| `CodeCache.FetchAfterRun` | mupen64plus-rsp-paraLLEl/rsp_jit.cpp:448-469 | after any run of marked DMA writes, outside writes, compare passes, run starts and fetches, a fetch returns code of the region's present words, or two regions that were met share a hash |
| `CodeCache.CoherentStep` | mupen64plus-rsp-paraLLEl/rsp_jit.cpp:44-66 | every allowed event keeps: code in unmarked blocks shows the compared copy, and a changed block is marked together with the one before it |
| `CodeCache.FetchIsCurrent` | mupen64plus-rsp-paraLLEl/rsp_jit.cpp:448-469 | with nothing marked and no collision the fetched code is the present region's |
| `CodeCache.CachedAfterDrop` | mupen64plus-rsp-paraLLEl/rsp_jit.cpp:51-66 | dropping the dirty blocks makes the compared copy equal to IMEM everywhere |
| `CodeCache.MarkIsShift` | mupen64plus-rsp-paraLLEl/rsp_jit.cpp:48-48 | the bits of (0x3 << i) >> 1 are those of block i and of the block before it |
| `CodeCache.SameRegion` | mupen64plus-rsp-paraLLEl/rsp_jit.cpp:448-469 | a memory that shows the words of a whole region has that region there |
| `CodeCache.HashImem` | mupen64plus-rsp-paraLLEl/rsp_jit.cpp:69-81 | the hashing loop is FNV-1 over position, length and words, modulo 2^64 |
| `CodeCache.HashOfOne` | mupen64plus-rsp-paraLLEl/rsp_jit.cpp:69-81 | the hash of the single word 1 at position 1 is 0xD949AD186C0C4E40 |
| `CodeCache.CodeStore.InvalidateImem` | mupen64plus-rsp-paraLLEl/rsp_jit.cpp:44-49 | the compare pass marks each changed block and its predecessor |
| `CodeCache.CodeStore.InvalidateCode` | mupen64plus-rsp-paraLLEl/rsp_jit.cpp:51-66 | exactly the marked blocks lose their code and are copied, and the marks are cleared |
| `CodeCache.CodeStore.GetJitBlock` | mupen64plus-rsp-paraLLEl/rsp_jit.cpp:448-469 | looks up, reuses by hash, or compiles the region of the masked pc |
| `CodeIdentity.SameCode` | mupen64plus-rsp-paraLLEl/rsp_jit.cpp:1795-1918 | the code of every instruction is a function of the words of its region |
| `CodeIdentity.SameStep` | mupen64plus-rsp-paraLLEl/rsp_jit.cpp:1795-1945 | two memories with the same region run it alike: instruction bodies, labels and gotos, the end of the block, the latent slot and the exits |
| `CachedRuns.CachedRunIsCurrent` | mupen64plus-rsp-paraLLEl/rsp_jit.cpp:374-469 | from any coherent cache with nothing marked, running any number of steps with every entered block fetched through it is the run of the words now in IMEM, and the cache stays coherent with nothing marked; or two different regions that were met share a hash |
| `CachedRuns.CachedRunSim` | mupen64plus-rsp-paraLLEl/rsp_jit.cpp:374-469 | so on a clean program the run through the cache follows the one-instruction stepper from any registers, memory and pending slot |
| `CachedRuns.SessionIsCurrent` | mupen64plus-rsp-paraLLEl/rsp_jit.cpp:1920-1945 | from power-on, after any mix of whole runs, DMA and outside writes, compare passes and run starts, the next run is the run of the words then in IMEM and on a clean program follows the stepper; or two different regions met since power-on share a hash |
| `WorkerPool.StepKeeps` | mupen64plus-video-angrylion/parallel_al.cpp:91-131 | every atomic step of every thread keeps the barrier invariant: done bits, mutex ownership, task numbers and what each worker has run |
| `WorkerPool.ReturnedMeansDone` | mupen64plus-video-angrylion/parallel_al.cpp:59-74 | when the constructor or the k-th run has returned, every worker has run tasks 0 to k exactly once, in order, and the main thread tasks 1 to k |
| `WorkerPool.NoOvertaking` | mupen64plus-video-angrylion/parallel_al.cpp:101-123 | a worker inside a task runs the posted one, and every worker has finished the one before |
| `WorkerPool.TaskIsStable` | mupen64plus-video-angrylion/parallel_al.cpp:65-67 | m_task is replaced only while no worker is about to call it or inside it |
| `WorkerPool.ShutdownRunsNothing` | mupen64plus-video-angrylion/parallel_al.cpp:42-57 | after the destructor every thread has left having run exactly the posted tasks |
| `WorkerPool.NeverStuck` | mupen64plus-video-angrylion/parallel_al.cpp:101-131 | while a call is in progress some thread can take a step without a spurious wake-up: no wake-up is lost |
| `WorkerPool.CallsReturn` | mupen64plus-video-angrylion/parallel_al.cpp:59-74 | from every reachable state the call in progress can be finished, and no scheduling takes more than Rank steps before it returns |
| `WorkerPool.SpuriousCost` | mupen64plus-video-angrylion/parallel_al.cpp:118-130 | a spurious wake-up adds at most two steps to that bound |
| `WorkerPool.MaskIsAll` | mupen64plus-video-angrylion/parallel_al.cpp:21-26 | the done mask has exactly the bits of workers 1 to n - 1, for every n up to 64 |
| `CommandIngest.ChunkingIsInvisible` | mupen64plus-video-paraLLEl/rdp_command_ingest.hpp:46-118 | cutting a list that fits into any pieces enqueues the same commands, raises the same interrupts in the same order and leaves the same words pending |
| `CommandIngest.FeedConserves` | mupen64plus-video-paraLLEl/rdp_command_ingest.hpp:58-114 | words in are the words of complete commands, in order, plus the words pending |
| `CommandIngest.FeedValid` | mupen64plus-video-paraLLEl/rdp_command_ingest.hpp:54-56 | the buffer stays within 0x7FFF words and the pending words are a strict prefix of one command |
| `CommandIngest.ListsDelivered` | mupen64plus-video-paraLLEl/rdp_command_ingest.hpp:46-118 | with the actual length table and effects, however a list is cut: its words are complete commands and the pending rest, every command of opcode 8 or more is enqueued once, in order, when there is a frontend, and every SyncFull raises exactly one interrupt |
| `RdpLists.ListDelivered` | mupen64plus-video-paraLLEl/rdp_command_ingest.hpp:39-114 | any list of commands of 4 + 8*shade + 8*texture + 2*depth words (opcodes 8 to 15), 2 words (0x24, 0x25) or 1 word, cut anyhow and fed to an empty buffer: exactly the commands of opcode 8 or more are enqueued, whole and in order, each 0x29 waits in synchronous mode and raises one interrupt, and nothing is pending |
| `RdpLists.ListInMemory` | mupen64plus-video-paraLLEl/rdp_command_ingest.hpp:46-87 | the list is the 64-bit words between the 24-bit addresses, from DMEM or DRAM, going round at the end of either |
| `CommandIngest.Ingest.Process` | mupen64plus-video-paraLLEl/rdp_command_ingest.hpp:30-119 | the copying and parsing loops do one step of that specification, clear FREEZE, and move the DPC registers exactly when a list was accepted |
| `CommandIngest.Ingest.Copy` | mupen64plus-video-paraLLEl/rdp_command_ingest.hpp:61-87 | the copying loop appends the words at the masked addresses |
| `CommandIngest.Ingest.ParseBuffer` | mupen64plus-video-paraLLEl/rdp_command_ingest.hpp:89-117 | parses off complete commands and resets the buffer exactly when nothing is left |
| `CommandStream.ParseResumes` | mupen64plus-video-paraLLEl/rdp_command_ingest.hpp:89-99 | parsing may stop anywhere and be resumed with what was left |
| `CommandStream.ParseConserves` | mupen64plus-video-paraLLEl/rdp_command_ingest.hpp:89-114 | every word is in exactly one complete command or left over, in order |
| `VideoDispatch.ListsInOrder` | mupen64plus-video-angrylion/n64video.c:244-344 | for any lists that never overrun a pending command, with or without worker threads: what has run (batches as their commands, SYNC_FULL as a sync) followed by the buffered commands is exactly the decoded stream with every SYNC_FULL in its place, none lost and none repeated, and the buffer stays below 1024 commands |
| `VideoDispatch.SyncStandsInPlace` | mupen64plus-video-angrylion/n64video.c:310-316 | a SYNC_FULL in the log is one of the stream, and what has run before it is exactly the commands and syncs before that one |
| `VideoDispatch.WorkersSeeStream` | mupen64plus-video-angrylion/n64video.c:129-145 | with workers, the batches joined and followed by the buffered commands are the decoded stream without SYNC_FULL |
| `WorkerReplay.EveryWorkerRanTheLog` | mupen64plus-video-angrylion/n64video.c:129-145 | the processor and the pool as one system, in which a flush posts the buffer and goes on only when the pool has returned, and each thread reads the shared buffer at the moment it runs: between commands, whatever the interleaving, every worker and the main thread have run exactly the batches of the log, in order, and the log is that of the dispatched commands |
| `WorkerReplay.EveryWorkerRanTheStream` | mupen64plus-video-angrylion/n64video.c:129-145 | and so, with the buffered commands still to come, every thread has run the decoded stream without SYNC_FULL |
| `WorkerReplay.NextKeeps` | mupen64plus-video-angrylion/n64video.c:129-145 | every step of the processor or of a thread keeps: what was posted is what was logged, plus the batch in flight; what each thread has run is what its tasks stand for; nobody is inside a task unless the processor is inside parallel_run |
| `WorkerReplay.BufferIsQuiet` | mupen64plus-video-angrylion/n64video.c:287-329 | while the processor may write to the command buffer, no thread is about to read it or reading it |
| `VideoDispatch.CollectAllExact` | mupen64plus-video-angrylion/n64video.c:256-284 | lists are collected as one uncut stream if and only if none of them goes past the end of a command that was pending when it began |
| `VideoDispatch.CollectExact` | mupen64plus-video-angrylion/n64video.c:274-275 | the same for one list: the resume path loads the whole length less one, not the remaining length |
| `VideoDispatch.OverrunLoses` | mupen64plus-video-angrylion/n64video.c:274-287 | a list that goes past loses the pending command and everything after it |
| `VideoDispatch.SubmitKeepsOrder` | mupen64plus-video-angrylion/n64video.c:310-329 | one command, however it is dispatched, extends what has run and is buffered by exactly itself; after SYNC_FULL and after commands that ask for synchronisation nothing is buffered |
| `DispatchLists.SubmitInNumbers` | mupen64plus-video-angrylion/n64video.c:310-331 | a command whose bits 24 to 29 are 0x29 flushes what is buffered and runs; any other is buffered, and flushed with the rest when it is the 1024th or one that asks for it; without workers every command runs at once |
| `DispatchLists.ListsInNumbers` | mupen64plus-video-angrylion/n64video.c:256-284 | with the lengths of the command table, lists of whole commands are collected into exactly them, and what has run followed by what is buffered has one mark for each command, in order, a sync for 0x29 |
| `VideoDispatch.SubmitAllAppend` | mupen64plus-video-angrylion/n64video.c:244-344 | processing lists one after the other is processing their commands joined |
| `VideoDispatch.FlushKeepsOrder` | mupen64plus-video-angrylion/n64video.c:129-145 | a flush moves the buffer to the end of what has been executed |
| `VideoDispatch.Processor.ProcessList` | mupen64plus-video-angrylion/n64video.c:244-344 | the list loop collects and submits as specified; a crashed pipeline leaves everything as it is |
| `VideoDispatch.Processor.FlushBuffer` | mupen64plus-video-angrylion/n64video.c:136-145 | hands the buffered commands to the workers and empties the buffer |
| `VideoDispatch.Processor.Complete` | mupen64plus-video-angrylion/n64video.c:310-329 | the dispatch of one complete command |
| `Crc.LookupLaw` | libretro/brumme_crc.c:104-112 | the bitwise recurrence shifts the upper bytes down and adds the table entry of the low byte |
| `Crc.ShiftsLinear` | libretro/brumme_crc.c:104-112 | the generated tables are linear over XOR |
| `Crc.SliceLaw` | libretro/brumme_crc.c:144-148 | four lookups in tables 0 to 3 shift a whole word by four bytes |
| `Crc.SixteenLaw` | libretro/brumme_crc.c:199-218 | sixteen lookups are four words one after the other |
| `Crc.ChecksumChains` | libretro/brumme_crc.c:115-125 | checksums chain over concatenation |
| `CrcResidue.ResidueOf` | libretro/brumme_crc.c:116-125 | any buffer followed by the four bytes of its checksum leaves the register of 32 ones shifted out, for every generator, buffer and previous value |
| `CrcResidue.SlicedResidue` | libretro/brumme_crc.c:66-67 | for the polynomial of the sliced tables that is 0x00EE8F7E |
| `CrcResidue.RfcResidue` | libretro/libretro_crc.c:38-45 | for the generator of RFC 1952 it is 0xDEBB20E3 |
| `CrcTables.BuildTables` | libretro/brumme_crc.c:93-113 | table s holds each byte shifted through s + 1 bytes |
| `CrcTables.OneByte` | libretro/brumme_crc.c:116-125 | the bytewise loop computes the bitwise checksum of any buffer from any previous value |
| `CrcTables.FourAtOnce` | libretro/brumme_crc.c:128-160 | so does slicing by four, in the little- and the big-endian form |
| `CrcTables.SixteenAtOnce` | libretro/brumme_crc.c:163-231 | so does slicing by sixteen, in both forms |
| `CrcTables.OrderLaw` | libretro/brumme_crc.c:137-149 | a word loaded big-endian and a swapped register add up to the swapped little-endian sum |
| `CrcReflected.ReflectSteps` | libretro/libretro_crc.c:24-36 | reflection turns the left-shifting recurrence into the right-shifting one with the reflected generator |
| `CrcReflected.GeneratorsReflect` | libretro/libretro_crc.c:4-4 | 0x04C11DB7 and 0xEDB88320 are each other's reflection |
| `CrcReflected.Reflect` | libretro/libretro_crc.c:8-22 | the loop reverses the low bits |
| `CrcReflected.BuildTable` | libretro/libretro_crc.c:24-36 | every entry is its byte shifted through eight steps of the 0xEDB88320 recurrence |
| `CrcReflected.Calculate` | libretro/libretro_crc.c:38-45 | the CRC-32 of section 8 of RFC 1952, for every buffer |
| `UnswapCopy.UnswapCopyWrap` | Graphics/image_convert.h:143-192 | the three phases, with the code's running source and destination indices, do what the byte loop does, for all offsets, all lengths and every ring of at least four bytes |
| `UnswapCopy.Arrives` | Graphics/image_convert.h:143-192 | with at most one turn of the ring every byte arrives unswapped at its place |
| `UnswapCopy.OthersStay` | Graphics/image_convert.h:143-192 | no other destination byte is touched |
| `SpDma.RoundTrip` | mupen64plus-rsp-cxd4/su.c:225-298 | for every length, count, skip and 8-aligned addresses whose rows, after the address is cut to 24 bits, lie below 8 MiB, writing SP memory out and reading it back with the same registers leaves it unchanged |
| `SpDma.RoundTripExact` | mupen64plus-rsp-cxd4/su.c:225-298 | for every request at all: SP memory comes back unchanged if and only if each of its words was zero, or is not covered, or is last read from a DRAM slot below 8 MiB |
| `SpDma.WordAtLimit` | mupen64plus-rsp-cxd4/su.c:247-252 | one row of eight bytes at 8 MiB: a word that is not zero does not come back |
| `SpDma.SlotsDistinct` | mupen64plus-rsp-cxd4/su.c:286-287 | distinct words of any request have distinct DRAM slots, even when the stride is not a multiple of eight and when the rows wrap round at 16 MiB |
| `SpDma.DmaWrite` | mupen64plus-rsp-cxd4/su.c:263-298 | the nested loops, rows from the last to the first, do the specified writes and terminate |
| `SpDma.DmaRead` | mupen64plus-rsp-cxd4/su.c:225-262 | the nested loops do the specified reads; addresses above the limit read as zero |
| `SpDma.WritesInNumbers` | mupen64plus-rsp-cxd4/su.c:263-298 | for rows of 8 to 4096 bytes, 1 to 256 rows and any skip: DRAM word ((dram + r*(bytes + skip) + 8*j) mod 2^24)/8 gets SP word ((cache + r*bytes + 8*j) mod 2^13)/8 |
| `SpDma.WritesNothingElse` | mupen64plus-rsp-cxd4/su.c:263-298 | and no other word of DRAM changes |
| `SpDma.ReadsInNumbers` | mupen64plus-rsp-cxd4/su.c:225-262 | a word of SP memory gets the DRAM word of the lowest row that covers it, or zero from 8 MiB on |
| `SpDma.ReadsNothingElse` | mupen64plus-rsp-cxd4/su.c:225-262 | and a word that no row covers stays |
| `VectorTransfer.Ldv` | mupen64plus-rsp-cxd4/su.c:634-718 | for every address and even element the eight-way switch moves logical byte (addr + i) mod 4096 to byte e + i of the register, into the room behind it from byte 16 on, and touches nothing else; odd elements do nothing |
| `VectorTransfer.Sdv` | mupen64plus-rsp-cxd4/su.c:760-848 | the mirror image for stores; odd elements and elements above 8 first copy the register into the room behind it and then store byte by byte, which goes round in the register; at addr & 7 == 3 bytes 6 and 7 come from element 6 |
| `VectorTransfer.SdvExact` | mupen64plus-rsp-cxd4/su.c:812-812 | the store is the mirror of the load if and only if addr & 7 is not 3 or the halfword taken instead is the same |
| `VectorTransfer.SdvPlaceThree` | mupen64plus-rsp-cxd4/su.c:804-813 | element 2 at place 3 with a register for which it is not |
| `VectorTransfer.StoreThenLoad` | mupen64plus-rsp-cxd4/su.c:634-848 | for every element and address: SDV then LDV leaves the registers unchanged if and only if addr & 7 is not 3, or the store went byte by byte, or the halfword taken instead is the same |
| `VectorTransfer.SqvBytes` | mupen64plus-rsp-cxd4/su.c:1497-1509 | SQV with an element other than 0: the bytes up to the end of the 16-byte block are the register's bytes from the element on, going round after sixteen, and no other byte changes |
| `VectorTransfer.PlaceIsAddress` | mupen64plus-rsp-cxd4/su.c:643-660 | the host byte used is that of the logical address, going round at 4 KiB |
| `QuadTransfer.LoadQuad` | mupen64plus-rsp-cxd4/su.c:1351-1489 | LQV at an even address and LRV sixteen bytes on load exactly the sixteen bytes from the address on |
| `QuadTransfer.StoreThenLoadQuad` | mupen64plus-rsp-cxd4/su.c:1490-1617 | SQV, SRV, LQV, LRV give the register back if and only if addr & 15 is 0, 2, 4 or 6 or memory already held the part that is not stored; otherwise that part comes from memory |
| `QuadTransfer.QuadAtPlaceEight` | mupen64plus-rsp-cxd4/su.c:1547-1549 | a register of ones stored and loaded back at address 8 over a memory of zeros loses its first half |
| `QuadTransfer.SqvZero` | mupen64plus-rsp-cxd4/su.c:1510-1550 | SQV with element 0 stores only at those places and leaves memory alone elsewhere |
| `QuadTransfer.Lqv` | mupen64plus-rsp-cxd4/su.c:1351-1424 | the halfwords up to the end of the block, for every even element and address; what goes past lane 7 lands in the room behind the register |
| `QuadTransfer.Lrv` | mupen64plus-rsp-cxd4/su.c:1425-1489 | the halfwords from the start of the block |
| `QuadTransfer.Srv` | mupen64plus-rsp-cxd4/su.c:1552-1617 | the mirror image of LRV |
| `QuadTransfer.FromIsAddress` | mupen64plus-rsp-cxd4/su.c:1366-1379 | the host halfword used is that of the logical address, going round at 4 KiB |
| `Transpose.TransposeBlock` | mupen64plus-rsp-cxd4/su.c:1623-1673 | eight STV with element 2k into eight distinct rows and eight LTV with element 2*((8-k)%8) replace an 8x8 block of halfwords by its transpose |
| `Transpose.Stv` | mupen64plus-rsp-cxd4/su.c:1651-1673 | a row is a diagonal of the eight registers; illegal operands are refused |
| `Transpose.Ltv` | mupen64plus-rsp-cxd4/su.c:1623-1645 | a row goes to a diagonal of the eight registers; illegal operands are refused |
| `RunTask.TasksAgree` | mupen64plus-rsp-cxd4/su.c:2004-2144 | from any program counter and any left-over temp_PC, the static-PC loop executes the same instructions in the same states (link values included) as the two-stage scheduler, as long as no step is one of `Differs` |
| `RunTask.RunsExact` | mupen64plus-rsp-cxd4/su.c:2123-2139 | the first n steps of the two loops agree if and only if none of them is a reserved REGIMM code or, in a delay slot whose pending target is not the next word, a taken branch or a link |
| `RunTask.StepExact` | mupen64plus-rsp-cxd4/su.c:300-350 | one step, with the code's own targets and links (SLOT_OFF, LINK_OFF, FIT_IMEM) for J, JAL, JR, JALR, BEQ, BNE, BLEZ, BGTZ and the REGIMM branches |
| `RunTask.StaleJump` | mupen64plus-rsp-cxd4/su.c:1834-1838 | a reserved REGIMM code makes the static loop jump, after the next instruction, to whatever temp_PC was left over; the scheduler goes on |
| `ControlFlow.ComparingBranch` | mupen64plus-rsp-cxd4/su.c:313-350 | BEQ, BNE, BLEZ, BGTZ in front of an ordinary slot: the loop visits the word, its slot, and (pc + 4 + 4*imm) mod 4096 if rs = rt, rs <> rt, rs <= 0, rs > 0, else (pc + 8) mod 4096 |
| `ControlFlow.SignBranch` | mupen64plus-rsp-cxd4/su.c:1812-1838 | BLTZ and BGEZ likewise |
| `ControlFlow.LinkBranch` | mupen64plus-rsp-cxd4/su.c:1812-1838 | BLTZAL and BGEZAL link (pc + 8) mod 4096 to register 31 in any case, before the register is tested |
| `ControlFlow.Jump` | mupen64plus-rsp-cxd4/su.c:302-311 | J and JAL lead to four times the target modulo 4096, JAL links |
| `ControlFlow.RegisterJump` | mupen64plus-rsp-cxd4/su.c:1749-1757 | JR and JALR lead to the register, masked to a word of IMEM; JALR links to rd and clears register 0 before it reads it |

## Left out

- Machine code emission, executable memory and the assembly of the thunks: replaced by the instruction set in `HostCode`; the thunks are the functions `Thunk`, `Entered` and `Left`.
- Vector arithmetic and coprocessor registers: uninterpreted, see above. The SP_STATUS bookkeeping after BREAK in `run` is not modelled.
- 32-bit hosts of the recompiler, where the extension states collapse.
- rsp_dma_read of the recompiler's own coprocessor: `CodeCache.DmaWrite` is one word of it, with its marking; the address arithmetic is not modelled.
- Reserved vector opcodes and unknown opcodes print a message; here they do nothing.
- CommandIngest.Ingest.Process: the hooks are a log of what was enqueued, waited for and raised; absent callbacks (null pointers) other than the frontend are not modelled.
- VideoDispatch.Processor.ProcessList: reading words from DMEM or RDRAM is a parameter (the list), and so is the length table, of which DispatchLists has the actual one; dumping and the Z-buffer address sent to the video interface are left out. The buffer is a row of commands, so a row that outgrows its command is described by what it swallows and not by the memory it would overwrite.
- QuadTransfer.SqvZero: the byte loop for an element other than 0 is `VectorTransfer.SqvBytes`, over memory seen as bytes.
- SpDma.RoundTrip: the busy bits and the warning about crossing from DMEM to IMEM are left out; requests that reach 8 MiB are in SpDma.RoundTripExact.
- RunTask.TasksAgree: the program counter stored at exit is not compared, because the two loops differ in it by design; instructions other than branches and jumps are uninterpreted apart from halting. A scheduler left in a slot by BREAK is not followed into the next task.
- WorkerReplay.EveryWorkerRanTheLog: the destructor of the pool and the configuration without workers are not part of the joint system; WorkerPool.ShutdownRunsNothing and VideoDispatch.ListsInOrder cover them.
- WorkerPool.CallsReturn: memory ordering is sequentially consistent; exceptions thrown by a task are not modelled.
- The other vector loads and stores (LBV, LSV, LLV, LPV to LFV and their stores), DWordInterleaveWrap and the pixel helpers would only add easy members.
- Renderers, frame and frontend code, options, debug printing, the disassembler and the tools.
