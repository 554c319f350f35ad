# A Dafny model of the RV32IM pipeline and its multiply/divide unit

The repository holds a five-stage in-order RV32IM core in SystemVerilog (`rtl/core_top_pipelined.sv`) with
macro-op fusion of five instruction pairs, a deferred second register write, two load-use interlocks and a
34-cycle iterative multiply/divide unit, and beside it a single-cycle core (`rtl/core_top.sv`) with a
combinational multiply/divide. This project models both cores cycle by cycle and proves that the pipelined one
does, on every supported run and after every number of cycles, exactly what the single-cycle one does; that
the iterative unit computes the M extension; and that the single-cycle core executes the base ISA. The radix
printer of the CoreMark port and its inverse are a second, independent part.

`dafny verify dfyconfig.toml` checks the whole project.

## How the model is built

* A clock edge is a function `Pipeline.Tick` from the values of all registers to their next values: every
  right-hand side reads the old state. FUSION_EN, ISOL_EN and BR_CMP_EN are fields of `Cfg`, the program is an
  arbitrary word array. The class `PipelinedCore` is the same core with its banks, register file, CSR file,
  operand gates, multiply/divide unit and data memory as objects updated in place; its `Clock` is proved to be
  one `Tick`. The single-cycle core, the iterative unit, the register file, the CSR file, the banks and the
  gates are classes in the same way.
* Words are naturals below 2^32 with the wrap-around written out; a bit slice is a quotient and a remainder by
  literal powers of two.
* `Sequential.SeqStep` is one step of `core_top`, extended with CSRRW, CSRRS and CSRRC as section 9.1 of the
  RISC-V Unprivileged ISA 20191213 defines them, because `core_top` has no CSRs.
* `Refinement` gives every stage a token: how many sequential instructions have left WB, MEM and EX, and
  whether EX holds a bubble, one instruction or a fused pair. The invariant `Inv` ties each stage boundary to
  the sequential state at its token, and one `Tick` preserves it (`FreezePreserves`, `AdvancePreserves`).

| file | content |
|---|---|
| `Words.dfy`, `Arithmetic.dfy`, `Iteration.dfy` | machine words; small nonlinear facts; a step taken n times |
| `Isa.dfy`, `AluMeaning.dfy`, `IsaReference.dfy` | decoder, immediates and ALU; the ISA as an encoder and a meaning, and the core against it |
| `MulDiv.dfy`, `MulDivProofs.dfy`, `MulDivCorrect.dfy` | both multiply/divide units, loop invariants, whole operations, the M extension |
| `Memory.dfy`, `RegFile.dfy`, `CoreTop.dfy`, `Sequential.dfy` | byte array and word array memories, registers, the single-cycle core |
| `PipelineRegs.dfy`, `Fusion.dfy`, `Pipeline.dfy`, `PipelinedCore.dfy` | banks, hazard unit, CSR file, gates, fusion detector, the clock edge as a function and as a class |
| `FusedPairs.dfy`, `FromReset.dfy`, `SideConditions.dfy` | each slot against the instructions it stands for; the first cycles after reset; pairs that go wrong from there |
| `FusionExact.dfy` | exactly what fuses, from instruction fields and in-flight destinations; idioms 1 and 2 from reset |
| `Refinement.dfy`, `Runs.dfy`, `Issue.dfy` | invariant, whole-run refinement, program order and operands |
| `Control.dfy` | an invariant of flags and tokens that every program keeps |
| `Protocols.dfy`, `Progress.dfy`, `Latency.dfy` | freeze and deferred-write timing, exact waiting times, load-use and redirect latency |
| `Counters.dfy`, `CsrPorts.dfy`, `Isolation.dfy` | what is counted, what software reads at each CSR address, what isolation changes and holds |
| `Region.dfy`, `RegionProgram.dfy` | the FISOL flag cycle by cycle; against the program, and what BOUND protects |
| `Printf.dfy` | `number` and `skip_atoi` |

## What a program must satisfy

The control theorems (`Control`, `Protocols`, `Latency`, the liveness of `Progress`, the placeholder, the fusion counter)
hold from reset on any program: traps, UART stores, crossing accesses and harmful pairs included. Theorems that compare
with the sequential machine assume `Runs.Covered`: every slot that has been in EX so far was a supported one. Nothing is
asked of instructions that have not left decode, so a program that ends outside the supported subset is covered up to
there. A slot is supported if each of its instructions meets `Refinement.StepOk`:

* it is fetched from an aligned address of the 128 KB region and is still the one loaded there (the pipeline's
  instruction memory does not see stores);
* it is legal, and a CSR instruction names mepc, mcause, mtval or mtvec;
* a load or store stays inside one memory word of the region (every naturally aligned access does), and no
  store goes to the UART register at 0x8000_0000;

and if a pair that did fuse meets `PairOk` on the sequential state: AUIPC+JALR has two different destinations; so has
ADD/ADDI+LW, or the loaded word is its own address; and a comparison fused with a branch is a true SLT, SLTU, SLTI or
SLTIU whose destination is not x0, or whose outcome is false, or whose branch leads to the next word. Except for
the multiplications that match the comparison pattern, this is exact (`Refinement.PairInEx`). `Refinement.PairSafe` is a
condition on the two words alone that implies it.

In terms of the program alone, `Runs.ProgramCovers` derives this from the first k sequential steps; results about
k steps of a program assume its conclusion, `Runs.CoversFirst`. Pairs inside a
FISOL.BOUND region need no condition (`RegionProgram.BoundProtects`), as long as no jump passes over a BOUND or OFF.
`SideConditions.LoopIsSupported` shows that the assumptions can be met for ever.

The condition on pairs is not a convenience. `FusedPairs` states for each idiom exactly when the fused slot means
what the two instructions mean, and `SideConditions` follows pairs that break it from reset through their
interlocks to the wrong register or address. In particular `auipc ra; jalr ra, ra`, the usual far call, leaves the
far base in `ra` instead of the return address when fused.

## Where the code and its documentation differ

The model follows the code.

* `docs/spec/04_part8_microarchitecture.md:115` describes unaligned accesses as served in hardware;
  `rtl/core_top_pipelined.sv:528-575` serves them only within one word. `Memory.LoadAgreesExactly` and
  `Memory.StoreAgreesExactly` say exactly which offsets work.
* `docs/spec/04_part8_microarchitecture.md:43` says that the fusion detector fails safe and never to an
  incorrect behaviour; the pairs described above match, pass their interlocks and go wrong
  (`SideConditions.CallReached`, `AddressReached`, `MisbranchReached`, `HighMultiplyReached`).
* A FISOL.BOUND or FISOL.OFF that a taken branch squashes in decode still switches the fusion flag
  (`rtl/core_top_pipelined.sv:180-187` does not look at the flush). `RegionProgram.SquashReached` is an instance
  from reset, and `RegionProgram.RegionInProgramTerms` and `RegionByProgram` give the exact conditions.
* `docs/spec/04_part8_microarchitecture.md:68` gives one load-use stall cycle; `rtl/hazard_unit.sv:66-82` has two
  (`Latency.LoadUseTiming` in any state, `LoadUseStalls` on any run, `LoadUseReached` an instance from reset).
* `docs/spec/04_part8_microarchitecture.md:76` resolves JAL and JALR in ID with a bubble of one cycle;
  `rtl/core_top_pipelined.sv:461` resolves them in EX, and three issue cycles are lost (`Latency.JumpsResolveInEx`).
* `docs/spec/04_part8_microarchitecture.md:75` gives a taken branch a flush of two cycles; three issue cycles are lost
  (`Latency.RedirectPenalty`).
* The comment `rtl/csr_file.sv:38` calls the fusion counter reserved; it is connected and counts fused pairs.

## Model

| member | source | states |
|---|---|---|
| `MulDivProofs.MulInvariant` | rtl/muldiv_iter.sv:105-114 | after k shift-add steps the accumulator is (low k bits of A) * B * 2^(32-k) plus the unread upper bits of A; each step stays within 64 bits |
| `MulDivProofs.MulDone` | rtl/muldiv_iter.sv:105-114 | 32 steps give the exact 64-bit product of the magnitudes |
| `MulDivProofs.DivInvariant` | rtl/muldiv_iter.sv:116-129 | after k restoring steps the upper half is the remainder and the low bits the quotient of the dividend's top k bits, with the unread bits between |
| `MulDivProofs.ShiftLosesNothing` | rtl/muldiv_iter.sv:120-121 | for every dividend, divisor and k below 32 the partial remainder is below 2^k, so the 64-bit left shift drops no set bit |
| `MulDivProofs.DivDone` | rtl/muldiv_iter.sv:116-129 | 32 steps leave quotient and remainder of the magnitudes in the two halves |
| `MulDivCorrect.StartAccepts` | rtl/muldiv_iter.sv:72-103 | a start pulse with the gate open on a ready unit latches operands, signs and special cases for exactly this operation |
| `MulDivCorrect.ClosedStart` | rtl/muldiv_iter.sv:72-103 | a start with the gate closed keeps the previous operand and operation and latches everything else alike |
| `MulDivCorrect.RunningAdvances` | rtl/muldiv_iter.sv:105-135 | while running, the next state is the same whatever the inputs, further start pulses included |
| `MulDivCorrect.ResultCorrect` | rtl/muldiv_iter.sv:141-169 | when done, the output multiplexer with its sign fix-ups gives the combinational unit's result for all eight operations |
| `MulDivCorrect.IterativeEqualsCombinational` | rtl/muldiv_iter.sv:61-169 | one start edge and 33 edges with arbitrary inputs: busy in every cycle between, done exactly then, and the result equals the combinational unit's for all operands |
| `MulDivCorrect.MultiplyMeetsIsa` | rtl/muldiv.sv:16-44 | MUL, MULH, MULHSU and MULHU are the low and high halves of the product (section 7.1 of the Unprivileged ISA 20191213) |
| `MulDivCorrect.DivideMeetsIsa` | rtl/muldiv.sv:25-47 | signed quotient and remainder satisfy the division identity, round toward zero, the remainder has the dividend's sign (section 7.2) |
| `MulDivCorrect.UnsignedDivideMeetsIsa` | rtl/muldiv.sv:35-48 | the unsigned division identity with a remainder below the divisor |
| `MulDivCorrect.SpecialCasesMeetIsa` | rtl/muldiv.sv:26-36 | division by zero and signed overflow give the values of Table 7.1 |
| `MulDivIter.IterativeUnit.Clock` | rtl/muldiv_iter.sv:61-139 | the unit updated register by register in place is one step of the machine the theorems are about |
| `MulDivIter.IterativeUnit.Output` | rtl/muldiv_iter.sv:141-169 | the in-place unit's result port is the output multiplexer of its state |
| `AluMeaning.ShiftsMeetIsa` | rtl/alu.sv:15-20 | the shifts are multiplication modulo 2^32 and flooring division by 2^shamt, unsigned and signed |
| `AluMeaning.WordGateDigits` | rtl/alu.sv:18-22 | for digits x and y of the operands, each of the 32 digits of XOR is the remainder of x + y by 2, of AND its quotient, of OR that of x + y + 1, and of AND-NOT that of x + 1 - y |
| `AluMeaning.GatesAdd` | rtl/alu.sv:18-22 | XOR plus twice AND is the sum of the operands, OR plus AND is that sum too, AND-NOT plus AND is the first operand, and AND is the number of the common digits |
| `IsaReference.Fields` | rtl/decoder.sv:30-33 | every field of an encoded word is read back |
| `IsaReference.BTypeImmediate` | rtl/imm_gen.sv:12-13 | the scattered branch offset is reassembled to the encoded one |
| `IsaReference.JTypeImmediate` | rtl/imm_gen.sv:16-17 | likewise the jump offset |
| `IsaReference.CoreImplementsIsa` | rtl/core_top.sv:48-149 | for every machine state and every FISOL or RV32IM instruction, FENCE included and ECALL and EBREAK excepted, encode it, decode it and execute it: pc, registers and memory are those of its ISA meaning on signed numbers |
| `IsaReference.SequentialImplementsIsa` | rtl/core_top.sv:48-149 | the sequential machine does the same and leaves the CSRs alone |
| `IsaReference.SequentialImplementsCsrs` | rtl/decoder.sv:116-120 | opcode 0x73 with funct3 1, 2 and 3 is CSRRW, CSRRS and CSRRC at every address: the old value goes to rd, and 0x305, 0x341, 0x342 or 0x343 takes the operand, the sum less the common digits, or itself less the common digits |
| `IsaReference.FisolDecodes` | rtl/decoder.sv:109-115 | opcode 0x0B with funct3 0 is FISOL.BOUND, with funct3 1 FISOL.OFF, and neither does anything else |
| `IsaReference.IllegalWords` | rtl/decoder.sv:109-123 | exactly SYSTEM with another funct3 and custom-0 with a funct3 above 1 decode as illegal |
| `IsaReference.UnknownWords` | rtl/decoder.sv:58-123 | a word with any other opcode than the eleven known ones changes only the pc and does not trap |
| `IsaReference.RegisterWords` | rtl/decoder.sv:52-69 | under any funct7 but 1, bit 5 of funct7 alone tells SUB from ADD and SRA from SRL |
| `IsaReference.ImmediateWords` | rtl/decoder.sv:70-83 | immediate arithmetic for every 12-bit field: shifts look at its low five bits and at bit 10 |
| `IsaReference.ReservedBranches` | rtl/core_top.sv:89-97 | branches with funct3 2 or 3 are never taken |
| `IsaReference.ReservedJumps` | rtl/decoder.sv:99-102 | JALR is the same under any funct3 |
| `IsaReference.ReservedAccesses` | rtl/decoder.sv:84-92 | loads with funct3 3, 6 or 7 read a word; stores look at two bits of funct3, and 3 stores a word |
| `CoreTop.SingleCycleCore.Clock` | rtl/core_top.sv:48-149 | the clocked core with pc, register and byte arrays updated in place takes the sequential step |
| `Sequential.StepsAlike` | rtl/core_top.sv:48-149 | apart from CSR instructions, one step of the sequential machine is one clock of that core |
| `CoreTop.SingleCycleCore.MemWrite` | rtl/core_top.sv:114-125 | the width-dependent byte stores in place |
| `CoreTop.SingleCycleCore.Writeback` | rtl/core_top.sv:100-136 | the writeback multiplexer with late load extension reads the addressed bytes |
| `RegFile.ReadThrough` | rtl/regfile_pipelined.sv:12-17 | the bypassed read port returns what the register holds after this cycle's write |
| `RegFile.ReadsBack` | rtl/regfile.sv:11-18 | a register reads what was last written to it, the others what they held, and x0 zero whatever is written |
| `RegFile.RegisterFile.Clock` | rtl/regfile_pipelined.sv:18-20 | the register array in place; x0 is never written |
| `RegFile.RegisterFile.ReadPort` | rtl/regfile_pipelined.sv:12-17 | the in-place array's read port sees the write of the same cycle |
| `Memory.LoadAgrees` | rtl/core_top_pipelined.sv:524-534 | a load through shifted byte lanes returns what the byte array would, for every memory and width, inside one word |
| `Memory.StoreAgrees` | rtl/core_top_pipelined.sv:546-575 | a store through shifted byte enables leaves exactly the byte array's bytes, inside one word |
| `Memory.RunsAgree` | rtl/core_top_pipelined.sv:528-575 | any sequence of such loads and stores reads the same values and ends with the same bytes |
| `Memory.LoadAgreesExactly` | rtl/core_top_pipelined.sv:524-534 | below the last word, the lanes serve a load for every memory if and only if it stays inside one word |
| `Memory.StoreAgreesExactly` | rtl/core_top_pipelined.sv:546-575 | likewise for a store and all data |
| `Memory.LanesLoad` | rtl/core_top_pipelined.sv:524-617 | every load through the lanes, crossing ones included: the bytes from the lane up with zeros above the word, and for a word the whole word whatever the lane |
| `Memory.LanesStore` | rtl/core_top_pipelined.sv:546-575 | every store through the lanes, byte by byte: the bytes from the lane up that exist, all four for a word, and nothing else |
| `Memory.LoadMeansValue` | rtl/core_top.sv:100-112 | a load is the little-endian value of its bytes, zero- or sign-extended |
| `Memory.StoreThenLoad` | rtl/core_top.sv:100-125 | loading what was stored gives its low bytes back, and every byte outside the access is kept |
| `PipelineRegs.StageReg.Clock` | rtl/pipeline_regs.sv:24-254 | a bank clears, holds or loads, and clear wins over stall |
| `CsrFile.CsrRegisters.Clock` | rtl/csr_file.sv:46-89 | a trap wins over the software write; every counter takes its own event |
| `CsrPorts.SoftwarePorts` | rtl/csr_file.sv:59-103 | after a software write to any address, the port reads the data at that address if it is 0x305, 0x341, 0x342 or 0x343, and at every other address, the counters' included, what it read before |
| `CsrPorts.ResetPorts` | rtl/csr_file.sv:46-58 | after reset 0x305 reads 0x8000_1000, every other address zero, and fetch starts at 0x8000_0000 |
| `CsrPorts.TrapPorts` | rtl/csr_file.sv:59-66 | in the cycle after an illegal instruction in EX, 0x341, 0x342 and 0x343 read its address, 2 and the instruction, and the front end is at what 0x305 read |
| `CsrPorts.CounterPorts` | rtl/csr_file.sv:80-100 | on any program, modulo 2^32, 0xB00 reads the cycles since reset, 0xB03 the multiplications and divisions started, 0xB04 the cycles that are not frozen under ISOL_EN, less those with a branch in EX under BR_CMP_EN, and 0xB05 the fused pairs issued |
| `CsrPorts.MulDivPort` | rtl/csr_file.sv:80-80 | on supported runs 0xB03 reads the multiplications and divisions among the sequential instructions executed, plus the one in EX once started |
| `CsrPorts.GatesClosedExactly` | rtl/core_top_pipelined.sv:374-391 | on any program the operand gates are closed if and only if ISOL_EN is set and no multiplication or division has started in this cycle or one of the 33 before |
| `IsolGate.OperandGate.Clock` | rtl/isol_gate.sv:35-38 | the gate samples while enabled and holds otherwise |
| `IsolGate.HoldsLastOperand` | rtl/isol_gate.sv:35-44 | over any history, a closed gate drives the operand of the last cycle in which it was open |
| `FusionExact.FusesExactly` | rtl/core_top_pipelined.sv:128-212 | for any two words in decode, given by their opcode numbers and fields: each of the five idioms fuses if and only if FUSION_EN is set, no FISOL region is active, the lookahead is valid, the fields are the idiom's, and no slot in EX, MEM or WB writes the registers of its interlock |
| `FusionExact.EveryWordIsPacked` | rtl/core_top_pipelined.sv:108-126 | every word is the packing of its fields |
| `FusionExact.UpperPairReached` | rtl/core_top_pipelined.sv:128-221 | LUI+ADDI and AUIPC+ADDI, for every destination and immediates, at the start of any program leave decode as one slot in cycle 2, 0xB05 then reads 1, and the slot drains to the sum of the immediates in one register write |
| `PipelinedCore.PipelinedCore.Clock` | rtl/core_top_pipelined.sv:47-640 | all banks, memories and units updated in place are one `Tick` of the state machine |
| `PipelinedCore.PipelinedCore.constructor` | rtl/core_top_pipelined.sv:56-58 | the reset values, with registers and memory arbitrary |
| `PipelinedCore.PipelinedCore.PoweredUpIsReset` | rtl/core_top_pipelined.sv:56-58 | the constructed core is in the reset state that every run theorem starts from |
| `PipelinedCore.PipelinedCore.Settle` | rtl/core_top_pipelined.sv:355-468 | the combinational network read off the fields gives the wires of the state |
| `PipelinedCore.PipelinedCore.WriteLanes` | rtl/core_top_pipelined.sv:568-575 | the byte-enabled memory write in place |
| `FusedPairs.SingleMeaning` | rtl/core_top_pipelined.sv:362-516 | an unfused slot with right operands does in EX, MEM and WB one sequential step: next pc, registers, memory, CSRs |
| `FusedPairs.LuiAddiMeaning` | rtl/core_top_pipelined.sv:128-221 | idiom 1 equals its two instructions for all operands |
| `FusedPairs.AuipcAddiMeaning` | rtl/core_top_pipelined.sv:136-221 | idiom 2 equals its two instructions for all operands |
| `FusedPairs.AuipcJalrMeaning` | rtl/core_top_pipelined.sv:144-305 | idiom 3 always jumps right, and leaves the right registers if and only if its two destinations differ |
| `FusedPairs.CmpBranchMeaning` | rtl/core_top_pipelined.sv:151-323 | idiom 4 on a true comparison always writes right, and continues right if and only if the destination is not x0, or the comparison is false, or the branch leads to the next instruction anyway |
| `FusedPairs.AddLoadMeaning` | rtl/core_top_pipelined.sv:191-323 | idiom 5 always loads from the right address, and leaves the right registers if and only if the destinations differ or the loaded word is its own address |
| `SideConditions.CallReached` | rtl/core_top_pipelined.sv:634-636 | from reset, the standard far call passes its interlock and fuses, and in cycle 7 ra holds the far base; in order it holds the return address |
| `SideConditions.AddressReached` | rtl/core_top_pipelined.sv:634-636 | from reset, `addi a0,a0,0; lw a0,0(a0)` passes its interlock and fuses, and in cycle 7 a0 holds the address; in order it holds the loaded word |
| `SideConditions.CompareIntoZeroMisbranches` | rtl/core_top_pipelined.sv:151-157 | at every pc, `slti x0,x0,1; beq x0,x0,8` is taken in order and not taken fused |
| `SideConditions.MisbranchReached` | rtl/core_top_pipelined.sv:151-157 | from reset, that pair fuses and decode holds the fall-through word, where in order execution is at the branch target |
| `SideConditions.MulBranchMeaning` | rtl/core_top_pipelined.sv:151-157 | MULHSU or MULHU with a branch matches idiom 4; the outcome, flushed or completed, is the pair's meaning exactly when sum and product lead to the same place and a taken branch loses no write |
| `SideConditions.MulBranchFlushed` | rtl/core_top_pipelined.sv:461-468 | the taken outcome: when the operand sum decides for taken, the multiplication is flushed in the cycle it starts and reaches no later stage |
| `SideConditions.MulBranchCompletes` | rtl/core_top_pipelined.sv:374-393 | the not-taken outcome: otherwise the slot is held 34 cycles without redirecting and then leaves for MEM with the product, the front end unmoved behind the pair |
| `SideConditions.HighMultiplyReached` | rtl/core_top_pipelined.sv:461-468 | from reset, MULHU+BEQ with 2^31 in both factors fuses, is flushed, and drains to unchanged registers at the branch target; in order a0 holds 2^30 and the branch falls through |
| `Refinement.OperandAtIssue` | rtl/core_top_pipelined.sv:347-360 | an operand latched from the bypassed register file and then forwarded from MEM or WB is the register's sequential value |
| `Refinement.CsrForwarding` | rtl/core_top_pipelined.sv:441-448 | the CSR value in EX is the one all older instructions leave, through MEM, WB or the file |
| `Refinement.MulDivLeaving` | rtl/core_top_pipelined.sv:374-393 | a multiplication or division leaves EX with the combinational unit's result of its operands |
| `Refinement.ExMeaning` | rtl/core_top_pipelined.sv:362-516 | draining the slot in EX takes the sequential state over exactly the instructions it stands for |
| `Refinement.PairInEx` | rtl/core_top_pipelined.sv:191-323 | draining a fused pair whose first instruction is no multiplication is worth its two instructions if and only if the pair meets `PairOk` on the sequential state |
| `Refinement.FrozenStep` | rtl/hazard_unit.sv:74-82 | a frozen cycle changes nothing but the unit, the gates and the counters |
| `Refinement.FrontPreserved` | rtl/core_top_pipelined.sv:56-88 | the front end holds consecutive instructions or bubbles through holds, flushes and the skip after a fusion |
| `Refinement.FrontPcAdvances` | rtl/core_top_pipelined.sv:461-468 | the next address to leave decode moves over exactly what left, or to the redirect target |
| `Refinement.PendPreserved` | rtl/core_top_pipelined.sv:245-261 | at most one deferred write is in flight and everything behind it is a bubble |
| `Refinement.PortWrites` | rtl/core_top_pipelined.sv:634-636 | the single write port performs the firing write and the WB write without displacing either |
| `Refinement.FreezePreserves` | rtl/core_top_pipelined.sv:374-393 | the invariant survives a frozen cycle |
| `Refinement.AdvancePreserves` | rtl/core_top_pipelined.sv:47-640 | the invariant survives every other cycle, with the tokens moved on |
| `Runs.Simulation` | rtl/core_top_pipelined.sv:47-640 | the invariant holds after every number of cycles in which every slot in EX was supported |
| `Runs.ProgramCovers` | rtl/core_top_pipelined.sv:47-640 | a program whose first k sequential steps are supported, and start no pair on which fusion goes wrong, puts only supported slots into EX while at most k instructions have issued |
| `FromReset.BothFetch` | rtl/core_top_pipelined.sv:47-65 | while memory holds the program, both machines fetch at every aligned address of the region the image's word of that number |
| `Runs.WholeRunRefinement` | rtl/core_top_pipelined.sv:47-640 | after any number of cycles, registers, CSRs and memory are the sequential machine's at the instructions retired and stored so far, and draining MEM and WB gives its whole state at the instructions executed so far, with FUSION_EN on or off; nothing is asked of instructions still in or before decode or EX |
| `Runs.InOrderOperands` | rtl/core_top_pipelined.sv:347-360 | in every cycle of a supported run an unfused instruction in EX has its sequential operands and CSR value |
| `Control.CtlAlways` | rtl/core_top_pipelined.sv:47-640 | in every cycle of every program: consecutive fetch, at most one deferred write with bubbles behind it, carried by exactly the slots of idioms 3 and 5, bubbles harmless, and the multiply/divide unit consistent and never busy beside a deferred write |
| `Issue.IssueInOrder` | rtl/core_top_pipelined.sv:56-88 | each issue takes the sequential machine's next instruction, alone or with the following one, exactly once; nothing from a squashed path enters EX; after a pair the front end goes on behind it |
| `Issue.PlaceholderNeverSelected` | rtl/core_top_pipelined.sv:508-516 | in every reachable cycle of every program no EX operand takes the 0xDEADBEEF of a load in MEM |
| `Protocols.FreezeDiscipline` | rtl/core_top_pipelined.sv:374-393 | on any program a multiplication or division that starts freezes exactly 34 cycles and starts once; without a redirect every bank is held and the unit ends with the result of the operands it started with, and with one the slot is flushed at once |
| `Protocols.DeferredWriteTimeline` | rtl/core_top_pipelined.sv:245-261 | on any program an idiom 3 or 5 issue holds the front end for exactly four cycles, fires once in the fourth when WB writes nothing, and is in the register file in the fifth |
| `Protocols.SideEffectsOnce` | rtl/core_top_pipelined.sv:568-575 | on any program, under any freeze, a MEM entry stores on exactly one edge, the register write port writes the WB entry or the firing deferred write once, and without a trap a WB entry writes its CSR on exactly one edge |
| `Protocols.StoresOrPrints` | rtl/core_top_pipelined.sv:568-575 | a store to 0x8000_0000 leaves the data memory alone, and every other store inside one word is the byte array's |
| `Progress.WaitDrops` | rtl/hazard_unit.sv:66-82 | in any state of the control invariant, a cycle issues if and only if `Wait` is zero, and otherwise `Wait` (freeze, deferred-write, load and refill cycles) drops by exactly one and the address that issues next stays |
| `Progress.NextIssue` | rtl/hazard_unit.sv:66-82 | on any program, from any cycle, the next issue comes after exactly `Wait` cycles, at most 36, and is the instruction at the redirect target or the front end's next address |
| `Progress.IssuesEvery` | rtl/hazard_unit.sv:66-82 | a program with k supported steps has issued k instructions after at most 37 * k cycles |
| `Control.Unfreezes` | rtl/muldiv_iter.sv:105-135 | on any program no freeze lasts longer than 34 cycles |
| `Progress.EveryInstructionRetires` | rtl/core_top_pipelined.sv:47-640 | a program with k + 1 supported steps has retired k instructions after 37 * (k + 3) cycles, whatever comes behind them |
| `Progress.ReachesEveryInstruction` | rtl/core_top_pipelined.sv:47-640 | a program with k + 1 supported steps reaches, within 37 * (k + 1) cycles, a cycle whose drained registers, CSRs and memory are those of the sequential machine after at least k instructions |
| `Latency.LoadUseTiming` | rtl/hazard_unit.sv:66-82 | in any state where only a load in EX holds decode, decode is held in that cycle and the next with its instruction kept, and not in the third |
| `Latency.WaitsInDecode` | rtl/hazard_unit.sv:66-82 | on any program an instruction in decode that is not flushed stays there, stalled, for exactly `Wait` cycles and then issues |
| `Latency.LoadUseStalls` | rtl/hazard_unit.sv:66-82 | on any program the instruction behind a load of one of its register fields waits in decode exactly two cycles, or four if the load carries a deferred write, and issues in the next |
| `Latency.LoadUseReached` | rtl/hazard_unit.sv:66-82 | from reset, `lw t0,0(a0); addi t0,t0,1` stalls in cycles 3 and 4 and the addition issues in cycle 5 |
| `Latency.RedirectPenalty` | rtl/core_top_pipelined.sv:56-88 | on any program the next issue after a redirect is the instruction at the target, exactly 3 cycles later; 6 if the redirecting slot carries a deferred write; 36 if it freezes |
| `Latency.LongestWaitReached` | rtl/core_top_pipelined.sv:461-468 | the bound of 36 is met: from reset, MULHU+BEQ with 2^31 in both factors lets nothing issue from cycle 3 to 38 |
| `Latency.JumpsResolveInEx` | rtl/core_top_pipelined.sv:461-468 | on any program an unfused JAL or JALR redirects not in its decode cycle but in the next, and the next issue, of its target, comes four cycles after its own |
| `Counters.FusionEvent` | rtl/core_top_pipelined.sv:226-226 | on any program the fusion event pulses exactly when a fused pair enters EX |
| `Counters.FusionCounter` | rtl/csr_file.sv:86-87 | on any program mhpmcounter5 is the number of fused pairs issued and mcycle the number of cycles, modulo 2^32 |
| `Counters.MulDivCounter` | rtl/csr_file.sv:80-80 | mhpmcounter3 is, modulo 2^32, the number of multiplications and divisions among the sequential instructions executed, plus the one in EX once started |
| `Counters.IssuedIsSlotsPlusPairs` | rtl/core_top_pipelined.sv:226-226 | on any program the instructions issued and not flushed in EX are the slots plus one for each fused pair, less those of slots flushed while freezing; so the count is slots plus pairs if and only if no slot was flushed so |
| `Counters.CoveredFlushesNothing` | rtl/core_top_pipelined.sv:226-226 | on supported runs it is slots plus pairs |
| `Region.NoFusionInside` | rtl/core_top_pipelined.sv:208-212 | while the FISOL flag is set no idiom fuses |
| `Region.RegionStep` | rtl/core_top_pipelined.sv:180-187 | a fusion flag that agrees with the program's BOUND and OFF instructions still agrees after the next cycle if and only if no redirect squashes a BOUND or OFF in decode |
| `Region.RegionExactly` | rtl/core_top_pipelined.sv:180-187 | over whole runs the flag is the program's up to a cycle if and only if no redirect before it squashes a BOUND or OFF in decode |
| `RegionProgram.SquashReached` | rtl/core_top_pipelined.sv:180-187 | from reset, `beq x0,x0,8` jumps over a BOUND; the flag is set though the program is in no region |
| `RegionProgram.SquashInProgramTerms` | rtl/core_top_pipelined.sv:180-187 | a mark is squashed exactly when the sequential instruction in EX is an unfused jump, the word behind it changes the region, and no load in MEM writes one of that word's register fields |
| `RegionProgram.RegionInProgramTerms` | rtl/core_top_pipelined.sv:180-187 | over whole runs the flag is the program's if and only if that never happens |
| `RegionProgram.RegionByProgram` | rtl/core_top_pipelined.sv:180-187 | the flag is right in every cycle if and only if none of the sequential instructions jumps over a mark that changes the region; for programs in which the instruction before such a jump loads no register that the mark's fields name and the jump's do not, and, with FUSION_EN and outside a region, ends no idiom pattern with the jump |
| `RegionProgram.BoundProtects` | rtl/core_top_pipelined.sv:208-212 | with such a flag, pairs on which fusion goes wrong are harmless between BOUND and OFF: the refinement then needs its condition on pairs only outside |
| `Isolation.StartOpensGates` | rtl/core_top_pipelined.sv:374-391 | a start pulse opens the operand gates, so the unit samples the forwarded operands |
| `Isolation.SameExResult` | rtl/csr_file.sv:91-103 | two such runs differ in EX if and only if the instruction there reads different isolation counts from the CSR file |
| `Isolation.IsolationIsTransparent` | rtl/core_top_pipelined.sv:374-391 | runs of any program differing only in ISOL_EN and BR_CMP_EN, and not reading mhpmcounter4, agree cycle for cycle on everything but the hold registers and that counter |
| `Isolation.HoldRegisters` | rtl/isol_gate.sv:35-44 | on any run the hold registers are what the gates' whole history of enables and forwarded operands leaves |
| `Isolation.ClosedGatesHold` | rtl/core_top_pipelined.sv:374-391 | while the gates are closed the unit's operand inputs stay at the forwarded operands of the last cycle in which they were open |
| `Isolation.UnopenedGatesHold` | rtl/core_top_pipelined.sv:374-391 | before the gates first open, the inputs are the power-up values |
| `Printf.ValueOfLowFirst` | sw/bench/coremark_port/ee_printf.c:102-106 | the digits produced evaluate back to the number, in every base |
| `Printf.Convert` | sw/bench/coremark_port/ee_printf.c:96-107 | the conversion loop leaves exactly those digits in the buffer, at most 32 of the 66 places |
| `Printf.Pad` | sw/bench/coremark_port/ee_printf.c:112-114 | a padding loop writes the width still wanted and leaves it negative, so that a later one writes nothing |
| `Printf.PutHead` | sw/bench/coremark_port/ee_printf.c:112-131 | leading spaces, sign, prefix and zeros in place |
| `Printf.PutBackwards` | sw/bench/coremark_port/ee_printf.c:134-135 | the digits copied out in reverse |
| `Printf.Number` | sw/bench/coremark_port/ee_printf.c:52-140 | null exactly for a base outside 2..36 with the buffer untouched; otherwise the text that `PrintedValue` spells out is written at the pointer, nothing else changes, and the pointer moves behind it |
| `Printf.TextLength` | sw/bench/coremark_port/ee_printf.c:66-137 | the text has max(size, sign + prefix + max(precision, digit count)) characters |
| `Printf.PrintedValue` | sw/bench/coremark_port/ee_printf.c:66-137 | the text, character by character, for every base, flag set, width and precision: '-', '+', ' ' or nothing exactly as SIGN, PLUS, SPACE and the number say, "0x" or "0" under HEX_PREP, a numeral of the exact length that evaluates to the magnitude in letters of the case asked for, and the remaining width as zeros, leading or trailing spaces |
| `Printf.SkipAtoi` | sw/bench/coremark_port/ee_printf.c:43-50 | reads the longest run of digits and returns its value as an int |
| `Printf.DecimalRoundTrip` | sw/bench/coremark_port/ee_printf.c:43-140 | what is printed in base 10 without flags or padding is read back, for every 32-bit number and whatever follows |

## Left out

- IsaReference.CoreImplementsIsa: does not cover ECALL and EBREAK, because `core_top` has no traps and steps over them; `IsaReference.EnvironmentCalls` says what each core does.
- Trap entry in the refinement: an illegal instruction is modelled in `Pipeline.Tick`, but `core_top` has no traps, and a trap can collide with a CSR write in flight.
- Reads and writes of the read-only counters in the refinement: they are forwarded as if written and have no sequential counterpart; their contents have their own theorems in `Counters`.
- Stores to the UART register: `Pipeline.Stored` drops them as the code does, `core_top` does not, and the output device is not part of this model.
- Self-modifying code: the pipeline fetches from a memory that stores never reach.
- Reads outside the 128 KB byte array of `core_top` are undefined in the hardware; `Memory.ReadByte` returns zero. The pipeline's word index wraps, as in the code.
- Asynchronous reset and power-up values: runs start from the reset state with registers, memory and unreset flip-flops arbitrary.
- The debug ports, the carried instruction words of MEM and WB and the carried FISOL flags, which feed only debug ports.
- RegionProgram.RegionByProgram: a load before the jump that decides by its own timing whether the mark is squashed, and a pattern that ends in the jump and may or may not pass its interlock; both depend on what is in flight, and `RegionProgram.RegionInProgramTerms` covers them in those terms.
- `Printf.Number`: `size` and `precision` are unbounded integers, and negating the smallest long wraps as the target's instruction does, where the C standard leaves it undefined. The flag bits are a record.
- `Printf.SkipAtoi`: the accumulation wraps at 32 bits at each operation, where the C standard leaves overflow undefined.
- Variadic parsing, address and floating-point printing of `ee_printf.c`.
- `trap_unit.sv` as a module of its own: its three assignments are `Pipeline.TrapOf` and `CsrFile.NextCsrs`.
- `orfs_run/rtl`, test benches, generators and build scripts.
