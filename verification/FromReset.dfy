/** The first cycles after reset, on any program: what is in decode in the third cycle, and what follows
    when a pair issues there. */
module FromReset {
  import opened Words
  import opened Isa
  import opened Memory
  import opened PipelineRegs
  import opened Fusion
  import opened Pipeline
  import opened CoreTop
  import opened Sequential
  import opened FusedPairs
  import opened Refinement
  import opened Runs
  import RF = RegFile
  import Csr = CsrFile
  import MDI = MulDivIter

  // ---------------------------------------------------------------- the pipeline

  /** Nothing behind EX writes, loads, stores or is deferred, and the multiply/divide unit is idle. */
  predicate QuietBack(c: Core, regs: RF.Regs) {
    && (c.mem.regWrite ==> c.mem.rd == 0) && (c.wb.regWrite ==> c.wb.rd == 0)
    && !c.mem.memRead && !c.mem.memWrite && !c.mem.isCsr && !c.wb.isCsr
    && !c.mem.pend.valid && !c.wb.pend.valid && !c.fire.valid
    && c.md.phase == MDI.Idle && !c.md.busy && !c.md.done && c.regs == regs
  }

  /** Nothing in EX either. */
  predicate Calm(c: Core, regs: RF.Regs) {
    QuietBack(c, regs) && Inert(c.ex) && !c.pendActive && !c.bound
  }

  /** With nothing to forward, the latched operands are the operands. */
  lemma QuietOperands(c: Core, regs: RF.Regs)
    requires QuietBack(c, regs)
    ensures FwdA(c) == c.ex.rs1Data && FwdB(c) == c.ex.rs2Data
  {
    hide MemForward, WbValue;
  }

  lemma CalmWires(c: Core, regs: RF.Regs)
    requires Calm(c, regs)
    ensures !Redirect(c) && !Freeze(c) && !StallFront(c) && !FlushEx(c) && !FlushId(c) && !MulDivStart(c)
    ensures PortWe(c) ==> PortAddr(c) == 0
  {
    hide FwdA, FwdB, BranchTaken, Alu, Rs1Of, Rs2Of, PortData;
  }

  /** What decode holds in a calm state issues with its operands read straight from the registers. */
  lemma CalmIssues(m: Machine, c: Core, regs: RF.Regs)
    requires Calm(c, regs)
    ensures var d, k, w := Tick(m, c), FuseKind(m.cfg, c), c.id.instr;
            && d.ex == Slot(k, c.id, RF.Read(regs, Rs1Of(w)), RF.Read(regs, Rs2Of(w)))
            && QuietBack(d, regs) && d.pendActive == Defers(k)
            && d.pc == Add(c.pc, 4)
            && d.id == (if k != Single then ID_BUBBLE else IfId(c.fetch.pc, c.fetch.instr, c.fetch.next, true))
            && d.fetch == FetchReg(c.pc, InstrAt(m.imem, c.pc), InstrAt(m.imem, Add(c.pc, 4)))
            && d.bound == Decode(w).isBound
  {
    hide FwdA, FwdB, Slot, FuseKind, Rs1Of, Rs2Of, Decode, InstrAt, Add, Redirect, Freeze, StallFront, FlushEx, FlushId,
         ExResult, MemResult, PortWe, PortAddr, PortData, Stored, MulDivStart, Inert, MDI.Next, MulDivInputs,
         Csr.NextCsrs,
         Csr.NextCounters, IsolActive, FusionActive, Index, Offset, Lane;
    CalmWires(c, regs);
    CalmBanks(c, regs);
    CalmUnit(m.cfg, c, regs);
  }

  lemma CalmBanks(c: Core, regs: RF.Regs)
    requires Calm(c, regs)
    ensures var x, y := ExResult(c), MemResult(c.mem);
            && (x.regWrite ==> x.rd == 0) && !x.memRead && !x.memWrite && !x.isCsr && !x.pend.valid
            && (y.regWrite ==> y.rd == 0) && !y.isCsr && !y.pend.valid
  {
    hide FwdA, FwdB, CsrValue, MDI.Result, AluOf, CsrOperation;
  }

  lemma CalmUnit(cfg: Cfg, c: Core, regs: RF.Regs)
    requires Calm(c, regs)
    ensures var u := MDI.Next(c.md, MulDivInputs(cfg, c)); u.phase == MDI.Idle && !u.busy && !u.done
  {
    hide FwdA, FwdB;
  }

  /** Bubbles in decode keep the pipeline calm. */
  lemma CalmStays(m: Machine, c: Core, regs: RF.Regs)
    requires Calm(c, regs) && c.id.instr == NOP && c.id.next == NOP
    ensures var d := Tick(m, c);
            && Calm(d, regs) && d.pc == Add(c.pc, 4)
            && d.id == IfId(c.fetch.pc, c.fetch.instr, c.fetch.next, true)
            && d.fetch == FetchReg(c.pc, InstrAt(m.imem, c.pc), InstrAt(m.imem, Add(c.pc, 4)))
  {
    hide QuietBack, FuseKind, Tick, InstrAt, Add, AddResult, Opcode, Funct3, Rs1Of, Rs2Of, RdOf, Imm;
    CalmIssues(m, c, regs);
    NopNeverFuses(m.cfg, c);
    NopDecodes();
  }

  lemma NopDecodes()
    ensures Decode(NOP) == IDLE_CTRL.(regWrite := true, srcBImm := true) && RdOf(NOP) == 0
    ensures Opcode(NOP) == OP_OPIMM && Funct3(NOP) == 0
  {
    DecodeAddi(NOP);
  }

  /** After two cycles the first two words of the program are in decode, and nothing else is under way. */
  lemma TwoCyclesIn(m: Machine, s: Core)
    requires IsReset(s)
    ensures var c := Run(m, s, 2);
            && Calm(c, s.regs)
            && c.id == IfId(MEM_BASE, m.imem[0], m.imem[1], true)
            && c.fetch == FetchReg(MEM_BASE + 4, m.imem[1], m.imem[2]) && c.pc == MEM_BASE + 8
  {
    hide Calm, Run, Tick;
    RunTicks(m, s, 0);
    RunTicks(m, s, 1);
    CalmAtReset(s);
    CalmStays(m, s, s.regs);
    FirstWords(m.imem);
    CalmStays(m, Run(m, s, 1), s.regs);
  }

  lemma CalmAtReset(s: Core)
    requires IsReset(s)
    ensures Calm(s, s.regs)
  {
  }

  lemma FirstWords(imem: WordMem)
    ensures Add(MEM_BASE, 4) == MEM_BASE + 4 && Add(MEM_BASE + 4, 4) == MEM_BASE + 8
    ensures InstrAt(imem, MEM_BASE) == imem[0] && InstrAt(imem, MEM_BASE + 4) == imem[1]
    ensures InstrAt(imem, MEM_BASE + 8) == imem[2]
  {
  }

  // ---------------------------------------------------------------- a deferred write, on any program

  /** While the front end waits for a deferred write, the write moves one stage per cycle. */
  lemma PendStep(m: Machine, c: Core)
    requires c.pendActive && c.md.phase == MDI.Idle && !c.md.busy && !c.md.done && !c.ex.ctrl.isMulDiv
    ensures var d := Tick(m, c);
            && d.ex == EX_BUBBLE && d.mem.pend == c.ex.pend && d.wb.pend == c.mem.pend && d.fire == c.wb.pend
            && d.md.phase == MDI.Idle && !d.md.busy && !d.md.done && d.pendActive == !c.fire.valid
            && (c.fire.valid ==> d.regs == RF.Write(c.regs, true, c.fire.addr, c.fire.data))
  {
    hide FwdA, FwdB, Slot, FuseKind, Decode, InstrAt, Redirect, LoadInEx, LoadInMem, AluOf, CsrOperation, CsrValue,
         MDI.Result, Stored, Csr.NextCsrs, Csr.NextCounters, IdOperand, WbValue, RF.Write, Index, Offset, Lane, PcNext,
         NextFetch, NextId, NextBound;
  }

  /** Four cycles after its slot is in EX, a deferred write is in the register file. */
  lemma DeferredWriteLands(m: Machine, c: Core, regs: RF.Regs)
    requires QuietBack(c, regs) && c.pendActive && c.ex.pend.valid && !c.ex.ctrl.isMulDiv
    ensures Run(m, c, 3).fire == c.ex.pend
    ensures Run(m, c, 4).regs == RF.Write(Run(m, c, 3).regs, true, c.ex.pend.addr, c.ex.pend.data)
  {
    hide Run, Tick, RF.Write;
    RunTicks(m, c, 0);
    PendStep(m, c);
    RunTicks(m, c, 1);
    PendStep(m, Run(m, c, 1));
    RunTicks(m, c, 2);
    PendStep(m, Run(m, c, 2));
    RunTicks(m, c, 3);
    PendStep(m, Run(m, c, 3));
  }

  // ---------------------------------------------------------------- the sequential machine

  lemma WordFetch(imem: WordMem, off: Word)
    requires off < 0x2_0000 && off % 4 == 0
    ensures ReadWord(BytesOf(imem), off) == imem[Index(off)]
  {
    hide BytesOf, ReadByte, ByteAt, Pack;
    OffsetParts(off, 0);
    ByteOfArray(imem, off, 0);
    ByteOfArray(imem, off, 1);
    ByteOfArray(imem, off, 2);
    ByteOfArray(imem, off, 3);
    UnpackedWord(imem[Index(off)]);
  }

  /** As long as memory holds the program, the sequential machine fetches at every aligned address of the region
      what the pipeline does: the word of the image with that number. */
  lemma BothFetch(m: Machine, c: Cpu)
    requires 0x8000_0000 <= c.pc < 0x8002_0000 && c.pc % 4 == 0 && c.mem == BytesOf(m.imem)
    ensures Fetch(c) == InstrAt(m.imem, c.pc) == m.imem[(c.pc - 0x8000_0000) / 4]
  {
    hide BytesOf, ReadWord;
    WordFetch(m.imem, Offset(c.pc));
  }

  /** The same first two words, executed in order. */
  lemma TwoInstructionsIn(m: Machine, s: Core, a: Arch)
    requires SameStart(s, a) && s.dmem == m.imem
    requires var w, n := m.imem[0], m.imem[1];
             && !Decode(w).isCsr && !Decode(n).isCsr && !Decode(w).memWrite
             && !Decode(w).isJal && !Decode(w).isJalr && !Decode(w).isBranch
    ensures SeqRun(a, 1).cpu == Exec(a.cpu, m.imem[0])
    ensures SeqRun(a, 2).cpu == TwoSteps(a.cpu, m.imem[0], m.imem[1])
  {
    hide Decode, BytesOf, IsReset, ReadWord, NextRegs, BranchTaken, SeqRun;
    WordFetch(m.imem, 0);
    WordFetch(m.imem, 4);
    assert Offset(MEM_BASE) == 0 && Offset(MEM_BASE + 4) == 4 && Index(0) == 0 && Index(4) == 1;
    SeqRunSteps(a, 0);
    SeqRunSteps(a, 1);
    assert Exec(a.cpu, m.imem[0]).pc == MEM_BASE + 4;
  }
}
