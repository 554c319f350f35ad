/** Why the assumptions on adjacent pairs are needed, with concrete programs, and that they can be met. */
module SideConditions {
  import opened Words
  import opened Isa
  import opened Memory
  import opened PipelineRegs
  import opened Fusion
  import opened Pipeline
  import opened CoreTop
  import opened Sequential
  import opened FusedPairs
  import opened Refinement
  import opened Runs
  import opened Control
  import opened Protocols
  import opened FromReset
  import RF = RegFile
  import MDI = MulDivIter
  import MDC = MulDivCorrect
  import Comb = MulDivComb

  // ---------------------------------------------------------------- idiom 3: the standard far call

  /** `auipc ra, 0` and `jalr ra, 0(ra)`. */
  const CALL_UPPER: Word := 0x97
  const CALL_JUMP: Word := 0x80E7

  /** The pair that assemblers emit for `call` matches, and its fused form leaves the far base in the
      return-address register instead of the link. */
  lemma CallLosesItsLink(c: Cpu, a: Word, b: Word, fb: Word, md: Word, cv: Word, dmem: WordMem)
    ensures Pattern3(CALL_UPPER, CALL_JUMP)
    ensures var x := ResultOf(PairSlot(AuipcJalr, c.pc, CALL_UPPER, CALL_JUMP, a, b), c.pc, fb, md, cv);
            && TwoSteps(c, CALL_UPPER, CALL_JUMP).regs[1] == Add(c.pc, 8)
            && Drained(x, dmem, c.regs)[1] == c.pc
  {
    hide Decode, Imm, Add, Alu, LoadLanes;
    CallFields();
    DecodeUpper(CALL_UPPER);
    DecodeJalr(CALL_JUMP);
    AddAssociates(c.pc, 4, 4);
    FourAndFour();
    AddZero(c.pc);
    AluAdds(c.pc, 0);
  }

  /** From reset the interlock is clear and the pair fuses; seven cycles in, ra holds the far base, where in
      order it holds the return address. */
  lemma CallReached(m: Machine, s: Core, a: Arch)
    requires SameStart(s, a) && s.dmem == m.imem && m.cfg.fusionEn
    requires m.imem[0] == CALL_UPPER && m.imem[1] == CALL_JUMP
    ensures var c := Run(m, s, 2); FuseKind(m.cfg, c) == AuipcJalr && !StallFront(c) && !FlushEx(c)
    ensures Run(m, s, 7).regs[1] == MEM_BASE
    ensures SeqRun(a, 2).cpu.regs[1] == MEM_BASE + 8
  {
    hide Run, SeqRun, Decode, IsReset, BytesOf, StallFront, FlushEx, FuseKind, TwoSteps;
    CallIssues(m, s);
    CallLands(m, s);
    CallInOrder(m, s, a);
  }

  lemma CallIssues(m: Machine, s: Core)
    requires IsReset(s) && m.cfg.fusionEn && m.imem[0] == CALL_UPPER && m.imem[1] == CALL_JUMP
    ensures var c, d := Run(m, s, 2), Run(m, s, 3);
            && FuseKind(m.cfg, c) == AuipcJalr && !StallFront(c) && !FlushEx(c)
            && QuietBack(d, s.regs) && d.pendActive && d.ex.pend == Pend(true, 1, MEM_BASE) && !d.ex.ctrl.isMulDiv
  {
    hide Run, Calm, QuietBack, IsReset, StallFront, FlushEx, FuseKind, Slot, RF.Read, Rs1Of, Rs2Of;
    var c := Run(m, s, 2);
    TwoCyclesIn(m, s);
    CalmWires(c, s.regs);
    CalmClear(c, s.regs, 1);
    CallFuses(m.cfg, c);
    CalmIssues(m, c, s.regs);
    CallSlot(c.id, RF.Read(s.regs, Rs1Of(c.id.instr)), RF.Read(s.regs, Rs2Of(c.id.instr)));
    RunIsTick(m, s, 2);
  }

  lemma CallSlot(id: IfId, a: Word, b: Word)
    requires id == IfId(MEM_BASE, CALL_UPPER, CALL_JUMP, true)
    ensures var ex := Slot(AuipcJalr, id, a, b); ex.pend == Pend(true, 1, MEM_BASE) && !ex.ctrl.isMulDiv
  {
    hide Decode, Imm, ImmI, Opcode, Funct3, Rs1Of, Rs2Of, CsrAddrOf, AddResult, ImmB;
    CallFields();
    DecodeUpper(CALL_UPPER);
    AddZero(MEM_BASE);
  }

  lemma CallLands(m: Machine, s: Core)
    requires IsReset(s) && m.cfg.fusionEn && m.imem[0] == CALL_UPPER && m.imem[1] == CALL_JUMP
    ensures Run(m, s, 7).regs[1] == MEM_BASE
  {
    hide Run, QuietBack, IsReset, StallFront, FlushEx, FuseKind;
    CallIssues(m, s);
    DeferredWriteLands(m, Run(m, s, 3), s.regs);
    RunAdds(m, s, 3, 4);
  }

  lemma CallInOrder(m: Machine, s: Core, a: Arch)
    requires SameStart(s, a) && s.dmem == m.imem && m.imem[0] == CALL_UPPER && m.imem[1] == CALL_JUMP
    ensures SeqRun(a, 2).cpu.regs[1] == MEM_BASE + 8
  {
    hide SeqRun, Decode, IsReset, BytesOf, TwoSteps, ResultOf, Drained, PairSlot, ImmI, ImmU, Imm;
    CallFields();
    DecodeUpper(CALL_UPPER);
    DecodeJalr(CALL_JUMP);
    TwoInstructionsIn(m, s, a);
    CallLosesItsLink(a.cpu, 0, 0, 0, 0, 0, m.imem);
    AddWraps(MEM_BASE, 8);
  }

  lemma CallFuses(cfg: Cfg, c: Core)
    requires cfg.fusionEn && !c.bound && c.id == IfId(MEM_BASE, CALL_UPPER, CALL_JUMP, true)
    requires Clear(c.ex, c.mem, c.wb, 1)
    ensures FuseKind(cfg, c) == AuipcJalr
  {
    hide Clear, Opcode, Funct3, RdOf, Rs1Of, ImmI;
    CallFields();
  }

  lemma CalmClear(c: Core, regs: RF.Regs, r: Reg)
    requires Calm(c, regs) && r != 0
    ensures Clear(c.ex, c.mem, c.wb, r) && !c.bound
  {
  }

  lemma CallFields()
    ensures Opcode(CALL_UPPER) == OP_AUIPC && RdOf(CALL_UPPER) == 1 && ImmU(CALL_UPPER) == 0
    ensures Opcode(CALL_JUMP) == OP_JALR && RdOf(CALL_JUMP) == Rs1Of(CALL_JUMP) == 1 && ImmI(CALL_JUMP) == 0
    ensures Funct3(CALL_JUMP) == 0
  {
  }

  // ---------------------------------------------------------------- idiom 5: one destination

  /** `addi a0, a0, 0` and `lw a0, 0(a0)`. */
  const MOVE_ADDRESS: Word := 0x5_0513
  const LOAD_OVER_IT: Word := 0x5_2503

  /** Unless the loaded word is its own address, the address overwrites it. */
  lemma AddressOverwritesLoad(c: Cpu, b: Word, fb: Word, md: Word, cv: Word, dmem: WordMem)
    requires BytesOf(dmem) == c.mem && Fits(Offset(c.regs[10]), 2)
    ensures Pattern5(MOVE_ADDRESS, LOAD_OVER_IT)
    ensures var addr := c.regs[10];
            var x := ResultOf(PairSlot(AddLoad, c.pc, MOVE_ADDRESS, LOAD_OVER_IT, addr, b), addr, fb, md, cv);
            && TwoSteps(c, MOVE_ADDRESS, LOAD_OVER_IT).regs[10] == LoadBytes(c.mem, Offset(addr), 2, false)
            && Drained(x, dmem, c.regs)[10] == addr
  {
    hide Decode, Imm, Add, Alu, LoadLanes, LoadBytes, BytesOf, Fits, Offset;
    MoveFields();
    var addr := c.regs[10];
    DecodeAddi(MOVE_ADDRESS);
    DecodeLw(LOAD_OVER_IT);
    AluAdds(addr, 0);
    AddZero(addr);
  }

  /** From reset with a real register in use: the pair fuses, and seven cycles in a0 holds the address, where
      in order it holds the loaded word. */
  lemma AddressReached(m: Machine, s: Core, a: Arch)
    requires SameStart(s, a) && s.dmem == m.imem && m.cfg.fusionEn && Fits(Offset(s.regs[10]), 2)
    requires m.imem[0] == MOVE_ADDRESS && m.imem[1] == LOAD_OVER_IT
    ensures var c := Run(m, s, 2); FuseKind(m.cfg, c) == AddLoad && !StallFront(c) && !FlushEx(c)
    ensures Run(m, s, 7).regs[10] == s.regs[10]
    ensures SeqRun(a, 2).cpu.regs[10] == LoadBytes(BytesOf(s.dmem), Offset(s.regs[10]), 2, false)
  {
    hide Run, SeqRun, Decode, IsReset, BytesOf, StallFront, FlushEx, FuseKind, TwoSteps, LoadBytes, Offset, Fits;
    MoveIssues(m, s);
    MoveLands(m, s);
    MoveInOrder(m, s, a);
  }

  lemma MoveIssues(m: Machine, s: Core)
    requires IsReset(s) && m.cfg.fusionEn && m.imem[0] == MOVE_ADDRESS && m.imem[1] == LOAD_OVER_IT
    ensures var c, d := Run(m, s, 2), Run(m, s, 3);
            && FuseKind(m.cfg, c) == AddLoad && !StallFront(c) && !FlushEx(c)
            && QuietBack(d, s.regs) && d.pendActive && d.ex.pend == Pend(true, 10, s.regs[10]) && !d.ex.ctrl.isMulDiv
  {
    hide Run, Calm, QuietBack, IsReset, StallFront, FlushEx, FuseKind, Slot, Rs1Of, Rs2Of, Opcode, Funct3, RdOf, ImmI,
         Tick;
    var c := Run(m, s, 2);
    TwoCyclesIn(m, s);
    CalmWires(c, s.regs);
    CalmClear(c, s.regs, 10);
    MoveFuses(m.cfg, c);
    CalmIssues(m, c, s.regs);
    MoveFields();
    MoveSlot(c.id, s.regs[10], RF.Read(s.regs, Rs2Of(c.id.instr)));
    RunIsTick(m, s, 2);
  }

  lemma MoveFuses(cfg: Cfg, c: Core)
    requires cfg.fusionEn && !c.bound && c.id == IfId(MEM_BASE, MOVE_ADDRESS, LOAD_OVER_IT, true)
    requires Clear(c.ex, c.mem, c.wb, 10)
    ensures FuseKind(cfg, c) == AddLoad
  {
    hide Clear, Opcode, Funct3, Funct7, RdOf, Rs1Of, Rs2Of, ImmI;
    MoveFields();
  }

  lemma MoveSlot(id: IfId, a: Word, b: Word)
    requires id == IfId(MEM_BASE, MOVE_ADDRESS, LOAD_OVER_IT, true)
    ensures var ex := Slot(AddLoad, id, a, b); ex.pend == Pend(true, 10, a) && !ex.ctrl.isMulDiv
  {
    hide Decode, Imm, ImmI, Opcode, Funct3, Rs1Of, Rs2Of, CsrAddrOf, ImmB, ImmU, Add;
    MoveFields();
    DecodeAddi(MOVE_ADDRESS);
    AddZero(a);
  }

  lemma MoveLands(m: Machine, s: Core)
    requires IsReset(s) && m.cfg.fusionEn && m.imem[0] == MOVE_ADDRESS && m.imem[1] == LOAD_OVER_IT
    ensures Run(m, s, 7).regs[10] == s.regs[10]
  {
    hide Run, QuietBack, IsReset, StallFront, FlushEx, FuseKind;
    MoveIssues(m, s);
    DeferredWriteLands(m, Run(m, s, 3), s.regs);
    RunAdds(m, s, 3, 4);
  }

  lemma MoveInOrder(m: Machine, s: Core, a: Arch)
    requires SameStart(s, a) && s.dmem == m.imem && Fits(Offset(s.regs[10]), 2)
    requires m.imem[0] == MOVE_ADDRESS && m.imem[1] == LOAD_OVER_IT
    ensures SeqRun(a, 2).cpu.regs[10] == LoadBytes(BytesOf(s.dmem), Offset(s.regs[10]), 2, false)
  {
    hide SeqRun, Decode, IsReset, BytesOf, TwoSteps, ResultOf, Drained, PairSlot, ImmI, LoadBytes, Offset, Fits, Imm;
    MoveFields();
    DecodeAddi(MOVE_ADDRESS);
    DecodeLw(LOAD_OVER_IT);
    TwoInstructionsIn(m, s, a);
    AddressOverwritesLoad(a.cpu, 0, 0, 0, 0, s.dmem);
  }

  lemma MoveFields()
    ensures Opcode(MOVE_ADDRESS) == OP_OPIMM && Funct3(MOVE_ADDRESS) == 0
    ensures RdOf(MOVE_ADDRESS) == Rs1Of(MOVE_ADDRESS) == 10 && ImmI(MOVE_ADDRESS) == 0
    ensures Opcode(LOAD_OVER_IT) == OP_LOAD && Funct3(LOAD_OVER_IT) == 2
    ensures RdOf(LOAD_OVER_IT) == Rs1Of(LOAD_OVER_IT) == 10 && ImmI(LOAD_OVER_IT) == 0
  {
  }

  // ---------------------------------------------------------------- idiom 4: comparison into x0

  /** `slti x0, x0, 1` and `beq x0, x0, 8`: always taken in order, never taken fused. */
  const COMPARE_NOWHERE: Word := 0x10_2013
  const BRANCH_ALWAYS: Word := 0x463

  lemma CompareIntoZeroMisbranches(c: Cpu, a: Word, b: Word, mtvec: Word)
    ensures Pattern4(COMPARE_NOWHERE, BRANCH_ALWAYS)
    ensures var ex := PairSlot(CmpBranch, c.pc, COMPARE_NOWHERE, BRANCH_ALWAYS, a, b);
            && TwoSteps(c, COMPARE_NOWHERE, BRANCH_ALWAYS).pc == Add(Add(c.pc, 4), 8)
            && NextFetchPc(ex, 0, 0, mtvec, Add(c.pc, 8)) == Add(c.pc, 8)
  {
    hide Decode, Imm, Add;
    NowhereFields();
    DecodeCompare(COMPARE_NOWHERE);
    DecodeBranch(BRANCH_ALWAYS);
  }

  /** From reset the pair fuses and falls through to the third word, where in order the branch is taken. */
  lemma MisbranchReached(m: Machine, s: Core, a: Arch)
    requires SameStart(s, a) && s.dmem == m.imem && m.cfg.fusionEn
    requires m.imem[0] == COMPARE_NOWHERE && m.imem[1] == BRANCH_ALWAYS
    ensures var c := Run(m, s, 2); FuseKind(m.cfg, c) == CmpBranch && !StallFront(c) && !FlushEx(c)
    ensures Run(m, s, 4).id.pc == MEM_BASE + 8 && Run(m, s, 4).id.instr == m.imem[2]
    ensures SeqRun(a, 2).cpu.pc == MEM_BASE + 12
  {
    hide Run, SeqRun, Decode, IsReset, BytesOf, StallFront, FlushEx, FuseKind, TwoSteps;
    NowhereIssues(m, s);
    NowhereFallsThrough(m, s);
    NowhereInOrder(m, s, a);
  }

  lemma NowhereIssues(m: Machine, s: Core)
    requires IsReset(s) && m.cfg.fusionEn && m.imem[0] == COMPARE_NOWHERE && m.imem[1] == BRANCH_ALWAYS
    ensures var c, d := Run(m, s, 2), Run(m, s, 3);
            && FuseKind(m.cfg, c) == CmpBranch && !StallFront(c) && !FlushEx(c)
            && QuietBack(d, s.regs) && !d.pendActive && d.id == ID_BUBBLE
            && d.ex == PairSlot(CmpBranch, MEM_BASE, COMPARE_NOWHERE, BRANCH_ALWAYS, 0, d.ex.rs2Data) && d.ex.rs1Data == 0
            && d.fetch == FetchReg(MEM_BASE + 8, m.imem[2], InstrAt(m.imem, Add(MEM_BASE + 8, 4)))
  {
    hide Run, Calm, QuietBack, IsReset, StallFront, FlushEx, FuseKind, Slot, Rs1Of, Rs2Of, InstrAt, Add, Opcode, Funct3,
         RdOf, Imm, ImmB, Tick;
    var c := Run(m, s, 2);
    TwoCyclesIn(m, s);
    FirstWords(m.imem);
    CalmWires(c, s.regs);
    CalmClear(c, s.regs, 1);
    NowhereFuses(m.cfg, c);
    CalmIssues(m, c, s.regs);
    NowhereFields();
    SlotFields(CmpBranch, c.id, 0, RF.Read(s.regs, Rs2Of(c.id.instr)));
    RunIsTick(m, s, 2);
  }

  lemma NowhereFuses(cfg: Cfg, c: Core)
    requires cfg.fusionEn && !c.bound && c.id == IfId(MEM_BASE, COMPARE_NOWHERE, BRANCH_ALWAYS, true)
    ensures FuseKind(cfg, c) == CmpBranch
  {
    hide Clear, Clear5, Opcode, Funct3, RdOf, Rs1Of, Rs2Of, ImmI, Imm;
    NowhereFields();
  }

  lemma NowhereFallsThrough(m: Machine, s: Core)
    requires IsReset(s) && m.cfg.fusionEn && m.imem[0] == COMPARE_NOWHERE && m.imem[1] == BRANCH_ALWAYS
    ensures Run(m, s, 4).id.pc == MEM_BASE + 8 && Run(m, s, 4).id.instr == m.imem[2]
  {
    hide Run, IsReset, StallFront, FlushEx, FuseKind, PairSlot, InstrAt, Add, Tick, QuietBack;
    NowhereIssues(m, s);
    var d := Run(m, s, 3);
    QuietOperands(d, s.regs);
    NowhereWires(d);
    RunIsTick(m, s, 3);
    NoStallBehindBubble(d, s.regs);
    FrontEndSteps(m, d);
    NopNeverFuses(m.cfg, d);
  }

  lemma NowhereWires(d: Core)
    requires d.ex == PairSlot(CmpBranch, MEM_BASE, COMPARE_NOWHERE, BRANCH_ALWAYS, 0, d.ex.rs2Data) && FwdA(d) == 0
    ensures !Redirect(d) && !d.ex.ctrl.isMulDiv && !d.ex.ctrl.memRead
  {
    hide Decode, Imm, Add, FwdA, FwdB, ImmB, CsrAddrOf, Rs1Of, Rs2Of, RdOf;
    NowhereFields();
    DecodeCompare(COMPARE_NOWHERE);
  }

  lemma NoStallBehindBubble(d: Core, regs: RF.Regs)
    requires QuietBack(d, regs) && !d.pendActive && !Redirect(d) && !d.ex.ctrl.isMulDiv && !d.ex.ctrl.memRead
    ensures !StallFront(d) && !FlushId(d)
  {
    hide Redirect, Rs1Of, Rs2Of;
  }

  lemma NowhereInOrder(m: Machine, s: Core, a: Arch)
    requires SameStart(s, a) && s.dmem == m.imem && m.imem[0] == COMPARE_NOWHERE && m.imem[1] == BRANCH_ALWAYS
    ensures SeqRun(a, 2).cpu.pc == MEM_BASE + 12
  {
    hide SeqRun, Decode, IsReset, BytesOf, TwoSteps, PairSlot, Imm, NextFetchPc, Add, ImmB, Opcode, Funct3, RdOf,
         Rs1Of, Rs2Of;
    NowhereFields();
    DecodeCompare(COMPARE_NOWHERE);
    DecodeBranch(BRANCH_ALWAYS);
    TwoInstructionsIn(m, s, a);
    CompareIntoZeroMisbranches(a.cpu, 0, 0, 0);
    HighSum();
  }

  lemma NowhereFields()
    ensures Opcode(COMPARE_NOWHERE) == OP_OPIMM && Funct3(COMPARE_NOWHERE) == 2
    ensures RdOf(COMPARE_NOWHERE) == Rs1Of(COMPARE_NOWHERE) == 0 && Imm(COMPARE_NOWHERE) == 1
    ensures Opcode(BRANCH_ALWAYS) == OP_BRANCH && Funct3(BRANCH_ALWAYS) == 0
    ensures Rs1Of(BRANCH_ALWAYS) == Rs2Of(BRANCH_ALWAYS) == 0 && ImmB(BRANCH_ALWAYS) == 8
  {
  }

  // ---------------------------------------------------------------- idiom 4: a high multiplication

  predicate TestsZero(n: Word, v: Word) { if Funct3(n) == 1 then v != 0 else v == 0 }

  /** What the fused pair of a multiplication and a branch amounts to: the branch is decided on the sum
      of the operands, and a taken branch flushes the multiplication. */
  function MulBranchOutcome(c: Cpu, ex: IdEx, x: ExMem, fa: Word, fb: Word, dmem: WordMem): Cpu {
    if RedirectOf(ex, fa, fb) then Cpu(ex.fuse4.target, c.regs, c.mem)
    else Cpu(Add(c.pc, 8), Drained(x, dmem, c.regs), c.mem)
  }

  /** MULHSU and MULHU match the comparison pattern.  The outcome is then right exactly when the sum and
      the product (zero if it goes to x0) lead to the same place, and a taken branch loses no write. */
  lemma MulBranchMeaning(c: Cpu, w: Word, n: Word, a: Word, b: Word, fa: Word, fb: Word, md: Word, cv: Word,
                         dmem: WordMem)
    requires Pattern4(w, n) && Decode(w).isMulDiv
    requires fa == OperandA(c, w) && fb == OperandB(c, w) && md == Comb.Result(fa, fb, Funct3(w))
    ensures var ex := PairSlot(CmpBranch, c.pc, w, n, a, b);
            var product := if RdOf(w) == 0 then 0 else md;
            && (RedirectOf(ex, fa, fb) <==> TestsZero(n, Add(fa, fb)))
            && (MulBranchOutcome(c, ex, ResultOf(ex, fa, fb, md, cv), fa, fb, dmem) == TwoSteps(c, w, n)
                <==> (TestsZero(n, Add(fa, fb)) == TestsZero(n, product) || ImmB(n) == 4)
                     && (TestsZero(n, Add(fa, fb)) ==> RdOf(w) == 0 || c.regs[RdOf(w)] == md))
  {
    hide Decode, Imm, ImmB, Add, RdOf, Rs1Of, Rs2Of, Opcode, LoadLanes, Alu, Comb.Result;
    DecodeShape(w);
    DecodeBranch(n);
    AluAdds(fa, fb);
    AddAssociates(c.pc, 4, 4);
    FourAndFour();
    OnlyFour(Add(c.pc, 4), ImmB(n));
    var c1 := Exec(c, w);
    assert c1.pc == Add(c.pc, 4) && c1.mem == c.mem;
    assert c1.regs == RF.Write(c.regs, true, RdOf(w), md);
    assert OperandA(c1, n) == if RdOf(w) == 0 then 0 else md;
    assert OperandB(c1, n) == 0;
  }

  /** The flush: in the very cycle the unit starts, the slot is replaced by a bubble and reaches no later
      stage, while the front end goes to the branch target. */
  lemma MulBranchFlushed(m: Machine, s: Core, pc: Word, w: Word, n: Word)
    requires s.ex == PairSlot(CmpBranch, pc, w, n, s.ex.rs1Data, s.ex.rs2Data)
    requires Pattern4(w, n) && Decode(w).isMulDiv && !s.md.busy && !s.md.done
    requires TestsZero(n, Add(FwdA(s), FwdB(s)))
    ensures var s' := Tick(m, s);
            && s'.ex == EX_BUBBLE && s'.mem == s.mem && s'.wb == s.wb
            && s'.pc == Add(Add(pc, 4), ImmB(n))
  {
    hide Decode, Imm, ImmB, Add, RdOf, Rs1Of, Rs2Of, Opcode, Alu, FwdA, FwdB, FuseKind, Tick, ExResult, MemResult,
         FlushId, FlushEx, StallFront, Freeze, Slot, IdOperand, NextFetch, NextId, NextEx;
    SlotOfMulBranch(pc, w, n, s.ex.rs1Data, s.ex.rs2Data);
    AluAdds(FwdA(s), FwdB(s));
    assert Redirect(s) && MulDivActive(s) && Target(s) == Add(Add(pc, 4), ImmB(n));
    hide Redirect, MulDivActive, Target;
    FlushIsRedirect(s);
    NewExSlot(m.cfg, s);
    FrontEndSteps(m, s);
    BanksBehindEx(m, s);
  }

  lemma SlotOfMulBranch(pc: Word, w: Word, n: Word, a: Word, b: Word)
    requires Pattern4(w, n) && Decode(w).isMulDiv
    ensures var ex := PairSlot(CmpBranch, pc, w, n, a, b);
            && ex.ctrl == IDLE_CTRL.(regWrite := true, isMulDiv := true)
            && ex.fuse4 == Fuse4(true, Funct3(n) == 1, Add(Add(pc, 4), ImmB(n)))
  {
    hide Decode, Imm, ImmB, Add, RdOf, Rs1Of, Rs2Of, Opcode, Funct7;
    DecodeShape(w);
  }

  lemma BanksBehindEx(m: Machine, s: Core)
    ensures Tick(m, s).ex == NextEx(m.cfg, s)
    ensures Freeze(s) ==> Tick(m, s).mem == s.mem && Tick(m, s).wb == s.wb
  {
    hide NextEx, Freeze, ExResult, MemResult;
  }

  /** The slot starts the unit, and redirects as the sum decides. */
  lemma MulSlotWires(c: Core, pc: Word, w: Word, n: Word)
    requires c.ex == PairSlot(CmpBranch, pc, w, n, c.ex.rs1Data, c.ex.rs2Data)
    requires Pattern4(w, n) && Decode(w).isMulDiv
    ensures c.ex.ctrl.isMulDiv && !c.ex.ctrl.illegal && !c.ex.ctrl.isCsr
    ensures Redirect(c) <==> TestsZero(n, Add(FwdA(c), FwdB(c)))
    ensures MDC.Ready(c.md) && !c.md.done ==> MulDivStart(c)
  {
    hide Decode, Imm, ImmB, Add, RdOf, Rs1Of, Rs2Of, Opcode, Alu, FwdA, FwdB, LoadInEx, LoadInMem;
    SlotOfMulBranch(pc, w, n, c.ex.rs1Data, c.ex.rs2Data);
    AluAdds(FwdA(c), FwdB(c));
  }

  /** The not-taken outcome on the pipeline: after the freeze the slot moves to MEM with the product as its
      result, and the front end, held since the pair issued, goes on behind the pair. */
  lemma MulBranchCompletes(m: Machine, c: Core, pc: Word, w: Word, n: Word, cv: Word)
    requires c.ex == PairSlot(CmpBranch, pc, w, n, c.ex.rs1Data, c.ex.rs2Data)
    requires Pattern4(w, n) && Decode(w).isMulDiv && MDC.Ready(c.md) && !c.md.done && !c.fire.valid
    requires !TestsZero(n, Add(FwdA(c), FwdB(c)))
    ensures SameBanks(c, Run(m, c, 34)) && !Redirect(Run(m, c, 34)) && !Freeze(Run(m, c, 34))
    ensures Run(m, c, 35).mem
         == ResultOf(c.ex, FwdA(c), FwdB(c), Comb.Result(FwdA(c), FwdB(c), c.ex.mulDivOp), cv)
  {
    hide Run, FwdA, FwdB, Redirect, Freeze, Tick, TestsZero, MDC.Running, MDC.Ready, Pattern4, Decode, PairSlot,
         SameBanks,
         TokRun, Add, ResultOf, Comb.Result, MDI.Result, CsrValue;
    MulSlotWires(c, pc, w, n);
    SlotHeld(m, c, 34);
    var d := Run(m, c, 34);
    SameSlot(c, d);
    MDC.ResultCorrect(d.md, FwdA(c), FwdB(c), c.ex.mulDivOp);
    RunIsTick(m, c, 34);
    LeavesForMem(m, d);
    CsrValueUnused(c.ex, FwdA(c), FwdB(c), MDI.Result(d.md), CsrValue(d), cv);
  }

  lemma LeavesForMem(m: Machine, d: Core)
    requires !Freeze(d)
    ensures Tick(m, d).mem == ResultOf(d.ex, FwdA(d), FwdB(d), MDI.Result(d.md), CsrValue(d))
  {
    hide Freeze, ResultOf, FwdA, FwdB, MDI.Result, CsrValue;
  }

  lemma CsrValueUnused(ex: IdEx, fa: Word, fb: Word, md: Word, cv: Word, cv': Word)
    requires !ex.ctrl.isCsr
    ensures ResultOf(ex, fa, fb, md, cv) == ResultOf(ex, fa, fb, md, cv')
  {
    hide AluOf;
  }

  /** `mulhu a0, a1, a2` and `beq a0, x0, 8`. */
  const HIGH_MULTIPLY: Word := 0x2C5_B533
  const BRANCH_IF_ZERO: Word := 0x5_0463

  lemma HighFields()
    ensures Opcode(HIGH_MULTIPLY) == OP_OP && Funct3(HIGH_MULTIPLY) == 3 && Funct7(HIGH_MULTIPLY) == 1
    ensures RdOf(HIGH_MULTIPLY) == 10 && Rs1Of(HIGH_MULTIPLY) == 11 && Rs2Of(HIGH_MULTIPLY) == 12
    ensures Opcode(BRANCH_IF_ZERO) == OP_BRANCH && Funct3(BRANCH_IF_ZERO) == 0
    ensures Rs1Of(BRANCH_IF_ZERO) == 10 && Rs2Of(BRANCH_IF_ZERO) == 0 && ImmB(BRANCH_IF_ZERO) == 8
  {
  }

  lemma HighDecodes()
    ensures Decode(HIGH_MULTIPLY) == IDLE_CTRL.(regWrite := true, isMulDiv := true)
    ensures Pattern4(HIGH_MULTIPLY, BRANCH_IF_ZERO)
  {
    hide Opcode, Funct3, Funct7, RdOf, Rs1Of, Rs2Of;
    HighFields();
  }

  /** From reset with 2^31 in both factors: the sum is zero and the product is not.  The pair fuses, the
      multiplication is flushed in its first cycle and no stage will write a0; the front end is at the
      branch target.  In order a0 holds the product and the branch falls through. */
  lemma HighMultiplyReached(m: Machine, s: Core, a: Arch)
    requires SameStart(s, a) && s.dmem == m.imem && m.cfg.fusionEn
    requires m.imem[0] == HIGH_MULTIPLY && m.imem[1] == BRANCH_IF_ZERO
    requires s.regs[11] == 0x8000_0000 && s.regs[12] == 0x8000_0000
    ensures var c := Run(m, s, 2); FuseKind(m.cfg, c) == CmpBranch && !StallFront(c) && !FlushEx(c)
    ensures Run(m, s, 4).ex == EX_BUBBLE && Run(m, s, 4).pc == MEM_BASE + 12 && DrainedRegs(Run(m, s, 4)) == s.regs
    ensures SeqRun(a, 2).cpu.pc == MEM_BASE + 8 && SeqRun(a, 2).cpu.regs[10] == 0x4000_0000
  {
    hide Run, SeqRun, IsReset, BytesOf, StallFront, FlushEx, FuseKind, DrainedRegs;
    HighIssues(m, s);
    HighFlushed(m, s);
    HighInOrder(m, s, a);
  }

  lemma HighIssues(m: Machine, s: Core)
    requires IsReset(s) && m.cfg.fusionEn && m.imem[0] == HIGH_MULTIPLY && m.imem[1] == BRANCH_IF_ZERO
    ensures var c, d := Run(m, s, 2), Run(m, s, 3);
            && FuseKind(m.cfg, c) == CmpBranch && !StallFront(c) && !FlushEx(c) && QuietBack(d, s.regs)
            && d.ex == PairSlot(CmpBranch, MEM_BASE, HIGH_MULTIPLY, BRANCH_IF_ZERO, s.regs[11], s.regs[12])
            && d.ex.rs1Data == s.regs[11] && d.ex.rs2Data == s.regs[12]
  {
    hide Run, Calm, QuietBack, IsReset, StallFront, FlushEx, FuseKind, Slot, Rs1Of, Rs2Of, InstrAt, Add, Opcode, Funct3,
         Funct7, RdOf, Imm, ImmB, Tick, Decode;
    var c := Run(m, s, 2);
    TwoCyclesIn(m, s);
    CalmWires(c, s.regs);
    CalmClear(c, s.regs, 1);
    HighFuses(m.cfg, c);
    CalmIssues(m, c, s.regs);
    HighFields();
    SlotFields(CmpBranch, c.id, s.regs[11], s.regs[12]);
    RunIsTick(m, s, 2);
  }

  lemma HighFuses(cfg: Cfg, c: Core)
    requires cfg.fusionEn && !c.bound && c.id == IfId(MEM_BASE, HIGH_MULTIPLY, BRANCH_IF_ZERO, true)
    ensures FuseKind(cfg, c) == CmpBranch
  {
    hide Clear, Clear5, Opcode, Funct3, Funct7, RdOf, Rs1Of, Rs2Of, ImmI, Imm;
    HighFields();
  }

  lemma HighFlushed(m: Machine, s: Core)
    requires IsReset(s) && m.cfg.fusionEn && m.imem[0] == HIGH_MULTIPLY && m.imem[1] == BRANCH_IF_ZERO
    requires s.regs[11] == 0x8000_0000 && s.regs[12] == 0x8000_0000
    ensures Run(m, s, 4).ex == EX_BUBBLE && Run(m, s, 4).pc == MEM_BASE + 12 && DrainedRegs(Run(m, s, 4)) == s.regs
  {
    hide Run, Calm, IsReset, StallFront, FlushEx, FuseKind, PairSlot, Tick, FwdA, FwdB, Decode, Pattern4, Opcode,
         Funct7,
         Freeze, DrainedRegs, Add, ImmB, Funct3, RdOf, Rs1Of, Rs2Of;
    HighIssues(m, s);
    var d := Run(m, s, 3);
    QuietOperands(d, s.regs);
    HighFields();
    HighDecodes();
    HighSum();
    MulBranchFlushed(m, d, MEM_BASE, HIGH_MULTIPLY, BRANCH_IF_ZERO);
    MulSlotWires(d, MEM_BASE, HIGH_MULTIPLY, BRANCH_IF_ZERO);
    RunIsTick(m, s, 3);
    StartFreezes(d);
    FrozenBack(m, d);
    QuietDrains(d, Run(m, s, 4), s.regs);
  }

  lemma HighSum()
    ensures Add(0x8000_0000, 0x8000_0000) == 0 && Add(Add(MEM_BASE, 4), 8) == MEM_BASE + 12
  {
  }

  lemma QuietDrains(d: Core, e: Core, regs: RF.Regs)
    requires QuietBack(d, regs) && SameBack(d, e) && e.regs == WritePend(d.regs, d.fire)
    ensures DrainedRegs(e) == regs
  {
    hide WbValue, MemValue;
  }

  lemma HighInOrder(m: Machine, s: Core, a: Arch)
    requires SameStart(s, a) && s.dmem == m.imem && m.imem[0] == HIGH_MULTIPLY && m.imem[1] == BRANCH_IF_ZERO
    requires s.regs[11] == 0x8000_0000 && s.regs[12] == 0x8000_0000
    ensures SeqRun(a, 2).cpu.pc == MEM_BASE + 8 && SeqRun(a, 2).cpu.regs[10] == 0x4000_0000
  {
    hide SeqRun, IsReset, BytesOf, Decode, Opcode, Funct3, Funct7, RdOf, Rs1Of, Rs2Of, Imm, ImmB, Alu, Comb.High,
         LoadBytes;
    HighFields();
    HighDecodes();
    DecodeBranch(BRANCH_IF_ZERO);
    TwoInstructionsIn(m, s, a);
    assert Comb.High(0x8000_0000 * 0x8000_0000) == 0x4000_0000 by { HighProduct(); }
  }

  lemma HighProduct()
    ensures Comb.High(0x8000_0000 * 0x8000_0000) == 0x4000_0000
  {
  }

  // ---------------------------------------------------------------- the assumptions can be met

  /** `lui t0, 1; addi t0, t0, 1; mul t1, t0, t0; jal x0, -12`: a fused pair, a multiplication and a jump,
      forever. */
  function LoopWord(k: int): Word {
    if k == 0 then 0x12B7 else if k == 1 then 0x12_8293 else if k == 2 then 0x252_8333 else 0xFF5F_F06F
  }

  predicate HoldsLoop(imem: WordMem) {
    imem[0] == LoopWord(0) && imem[1] == LoopWord(1) && imem[2] == LoopWord(2) && imem[3] == LoopWord(3)
  }

  lemma LoopFetch(imem: WordMem, c: Cpu, k: int)
    requires HoldsLoop(imem) && c.mem == BytesOf(imem) && 0 <= k < 4 && c.pc == MEM_BASE + 4 * k
    ensures Offset(c.pc) == 4 * k && InstrAt(imem, c.pc) == Fetch(c) == LoopWord(k)
    ensures k < 3 ==> InstrAt(imem, Add(c.pc, 4)) == LoopWord(k + 1)
  {
    hide BytesOf, ByteAt, Pack, LoopWord;
    assert Index(Offset(c.pc)) == k;
    WordFetch(imem, 4 * k);
  }

  lemma LoopFields(k: int)
    requires 0 <= k < 4
    ensures var w := LoopWord(k);
            && Opcode(w) == (if k == 0 then OP_LUI else if k == 1 then OP_OPIMM else if k == 2 then OP_OP else OP_JAL)
            && (k == 0 || k == 1 ==> RdOf(w) == 5) && (k == 1 ==> Funct3(w) == 0 && Rs1Of(w) == 5)
            && (k == 2 ==> Funct7(w) == 1) && (k == 3 ==> ImmJ(w) == ToWord(-12))
  {
    if k == 0 { assert Opcode(0x12B7) == OP_LUI; }
    else if k == 1 { assert Opcode(0x12_8293) == OP_OPIMM; }
    else if k == 2 { assert Opcode(0x252_8333) == OP_OP; }
    else { assert Opcode(0xFF5F_F06F) == OP_JAL; }
  }

  lemma LoopDecodes(k: int, n: Word)
    requires 0 <= k < 4 && (k < 3 ==> n == LoopWord(k + 1))
    ensures var d := Decode(LoopWord(k));
            && !d.illegal && !d.isCsr && !d.memRead && !d.memWrite && !d.isBranch && !d.isJalr && (d.isJal <==> k == 3)
    ensures k == 3 ==> Imm(LoopWord(k)) == ToWord(-12)
    ensures PairSafe(LoopWord(k), n) && (k == 0 ==> Pattern1(LoopWord(k), n))
  {
    hide LoopWord, Opcode, Funct3, Funct7, RdOf, Rs1Of, Rs2Of, ImmJ, ImmI, AluOpOf, Bit30, ToWord;
    LoopFields(k);
    if k < 3 { LoopFields(k + 1); }
  }

  predicate InLoop(imem: WordMem, c: Cpu, k: int) {
    0 <= k < 4 && c.pc == MEM_BASE + 4 * k && c.mem == BytesOf(imem)
  }

  lemma LoopStep(m: Machine, b: Arch, k: int)
    requires HoldsLoop(m.imem) && InLoop(m.imem, b.cpu, k)
    ensures StepOk(m, b) && PairOkAt(m, b) && InLoop(m.imem, SeqStep(b).cpu, (k + 1) % 4)
  {
    hide Decode, Imm, BytesOf, InstrAt, Fetch, LoopWord, HoldsLoop, PairSafe, PairOk, Alu, BranchTaken, RdData, Offset, NextRegs;
    LoopFetch(m.imem, b.cpu, k);
    LoopDecodes(k, InstrAt(m.imem, Add(b.cpu.pc, 4)));
    SafePairIsOk(b.cpu, LoopWord(k), InstrAt(m.imem, Add(b.cpu.pc, 4)));
  }

  lemma {:induction false} LoopRuns(m: Machine, a: Arch, k: nat)
    requires HoldsLoop(m.imem) && InLoop(m.imem, a.cpu, 0)
    ensures InLoop(m.imem, SeqRun(a, k).cpu, k % 4) && StepOk(m, SeqRun(a, k)) && PairOkAt(m, SeqRun(a, k))
  {
    hide HoldsLoop, InLoop, StepOk, SeqStep, PairOkAt, SeqRun;
    SeqRunSteps(a, if k > 0 then k - 1 else 0);
    if k > 0 {
      LoopRuns(m, a, k - 1);
      LoopStep(m, SeqRun(a, k - 1), (k - 1) % 4);
    }
    LoopStep(m, SeqRun(a, k), k % 4);
  }

  /** Some program satisfies every assumption of the refinement for ever. */
  lemma LoopIsSupported(m: Machine, s: Core, a: Arch, n: nat)
    requires HoldsLoop(m.imem) && SameStart(s, a) && s.dmem == m.imem
    ensures Supported(m, a, n) && PairsOk(m, a, n) && CoversFirst(m, s, a, n)
  {
    hide StepOk, PairOkAt, SeqRun, IsReset, BytesOf, HoldsLoop, CoversFirst;
    forall k | 0 <= k < n
      ensures StepOk(m, SeqRun(a, k)) && PairOkAt(m, SeqRun(a, k))
    {
      LoopRuns(m, a, k);
    }
    ProgramCovers(m, s, a, n);
  }
}
