/** The pipeline refines the sequential machine: tokens say which program instructions each stage holds,
    and an invariant ties every stage to the sequential run at that instruction. */
module Refinement {
  import opened Words
  import opened Isa
  import opened Memory
  import opened PipelineRegs
  import opened Fusion
  import opened Pipeline
  import opened CoreTop
  import opened Sequential
  import opened FusedPairs
  import Hazard
  import RF = RegFile
  import Csr = CsrFile
  import MDI = MulDivIter
  import MDC = MulDivCorrect
  import Comb = MulDivComb
  import Gate = IsolGate

  // ---------------------------------------------------------------- tokens

  datatype SlotTok = Bubble | Holds(kind: Kind)

  function Count(t: SlotTok): nat {
    match t
    case Bubble => 0
    case Holds(k) => if k == Single then 1 else 2
  }

  /** `idReal` and `ifReal`: the stage holds a fetched instruction, not a bubble.  Instructions before
      `retired` have left WB, those before `memStart` have left MEM, those before `exStart` have left EX;
      the next `Count(slot)` are in EX.  `mdStep` counts edges since the last multiply/divide started. */
  datatype Tok = Tok(idReal: bool, ifReal: bool, slot: SlotTok, retired: nat, memStart: nat, exStart: nat, mdStep: nat)

  const TOK_RESET: Tok := Tok(false, false, Bubble, 0, 0, 0, 0)

  function NextSlot(cfg: Cfg, s: Core, t: Tok): SlotTok {
    if FlushEx(s) then Bubble
    else if Freeze(s) then t.slot
    else if t.idReal then Holds(FuseKind(cfg, s))
    else Bubble
  }

  function NextTok(cfg: Cfg, s: Core, t: Tok): Tok {
    Tok(
      if FlushId(s) then false else if StallFront(s) then t.idReal
      else if FuseKind(cfg, s) != Single then false else t.ifReal,
      if FlushId(s) then false else if StallFront(s) then t.ifReal else true,
      NextSlot(cfg, s, t),
      if Freeze(s) then t.retired else t.memStart,
      if Freeze(s) then t.memStart else t.exStart,
      if Freeze(s) then t.exStart else t.exStart + Count(t.slot),
      if MulDivStart(s) then 0 else t.mdStep + 1)
  }

  // ---------------------------------------------------------------- assumptions on the program

  /** What the fusion detector takes for granted about an adjacent pair: that the deferred write is not
      overwritten in order, or comes to the same, and that the comparison is one and decides the branch. */
  predicate PairOk(c: Cpu, w: Word, n: Word) {
    && (Pattern3(w, n) ==> RdOf(n) != RdOf(w))
    && (Pattern4(w, n) ==> !Decode(w).isMulDiv && (RdOf(w) != 0 || AluResult(c, w) == 0 || ImmB(n) == 4))
    && (Pattern5(w, n) ==> RdOf(n) != RdOf(w) || PairLoad(c, w) == PairAddress(c, w))
  }

  /** What a compiler can check to be sure of it. */
  predicate PairSafe(w: Word, n: Word) {
    && (Pattern3(w, n) || Pattern5(w, n) ==> RdOf(n) != RdOf(w))
    && (Pattern4(w, n) ==> !Decode(w).isMulDiv && RdOf(w) != 0)
  }

  lemma SafePairIsOk(c: Cpu, w: Word, n: Word)
    requires PairSafe(w, n)
    ensures PairOk(c, w, n)
  {
    hide Pattern3, Pattern4, Pattern5, Decode, RdOf, AluResult, ImmB, PairLoad, PairAddress;
  }

  /** The sequential machine is about to execute an instruction within the supported subset: fetched from
      an aligned address in the region and unchanged since loading, legal, its CSR (if any) one of the
      four writable ones, its data access within one word of the region and no UART store. */
  ghost predicate StepOk(m: Machine, a: Arch) {
    && Offset(a.cpu.pc) < 0x2_0000 && Offset(a.cpu.pc) % 4 == 0
    && Fetch(a.cpu) == InstrAt(m.imem, a.cpu.pc)
    && Regular(a.cpu, Fetch(a.cpu))
  }

  /** The next instruction and the word behind it may be fused. */
  predicate PairOkAt(m: Machine, a: Arch) {
    PairOk(a.cpu, InstrAt(m.imem, a.cpu.pc), InstrAt(m.imem, Add(a.cpu.pc, 4)))
  }

  function Advance(a: Arch, t: SlotTok): Arch {
    match t
    case Bubble => a
    case Holds(k) => if k == Single then SeqStep(a) else SeqStep(SeqStep(a))
  }

  /** Every instruction of a slot is supported, and a pair that did fuse is a harmless one. */
  ghost predicate SlotAllowed(m: Machine, a: Arch, t: SlotTok) {
    && (t != Bubble ==> StepOk(m, a))
    && (Count(t) == 2 ==> StepOk(m, SeqStep(a)) && PairOkAt(m, a))
  }

  // ---------------------------------------------------------------- invariant

  /** The front end holds consecutive instructions. */
  ghost predicate FrontOk(imem: WordMem, s: Core, idReal: bool, ifReal: bool) {
    && (idReal ==> ifReal)
    && (if idReal
        then s.id == IfId(s.id.pc, InstrAt(imem, s.id.pc), InstrAt(imem, Add(s.id.pc, 4)), true)
             && s.fetch.pc == Add(s.id.pc, 4)
        else s.id.instr == NOP && s.id.next == NOP)
    && (if ifReal
        then s.fetch == FetchReg(s.fetch.pc, InstrAt(imem, s.fetch.pc), InstrAt(imem, Add(s.fetch.pc, 4)))
             && s.pc == Add(s.fetch.pc, 4)
        else s.fetch == FETCH_BUBBLE)
  }

  /** The address of the next instruction to leave decode. */
  function FrontPc(s: Core, idReal: bool, ifReal: bool): Word {
    if idReal then s.id.pc else if ifReal then s.fetch.pc else s.pc
  }

  function After(pc: Word, t: SlotTok): Word {
    match t
    case Bubble => pc
    case Holds(k) => if k == Single then Add(pc, 4) else Add(pc, 8)
  }

  /** A slot that changes nothing: a cleared bank, or the bubble instruction. */
  predicate Inert(ex: IdEx) {
    && (ex.ctrl.regWrite ==> ex.rd == 0)
    && !ex.ctrl.memRead && !ex.ctrl.memWrite && ex.ctrl.source == FromAlu
    && !ex.ctrl.isMulDiv && !ex.ctrl.isBranch && !ex.ctrl.isJal && !ex.ctrl.isJalr
    && !ex.ctrl.illegal && !ex.ctrl.isCsr && !ex.pend.valid && !ex.fuse4.valid
  }

  predicate KindPattern(k: Kind, w: Word, n: Word) {
    match k
    case Single => true
    case LuiAddi => Pattern1(w, n)
    case AuipcAddi => Pattern2(w, n)
    case AuipcJalr => Pattern3(w, n)
    case CmpBranch => Pattern4(w, n)
    case AddLoad => Pattern5(w, n)
  }

  /** Operands as the slot's kind uses them. */
  ghost predicate OperandsOk(k: Kind, a: Arch, w: Word, ex: IdEx, fa: Word, fb: Word) {
    match k
    case AuipcJalr => fa == Add(a.cpu.pc, ImmU(w))
    case AddLoad =>
      && fa == OperandA(a.cpu, w) == ex.rs1Data && fb == OperandB(a.cpu, w)
      && (Opcode(w) == OP_OP ==> ex.rs2Data == fb)
    case _ => fa == OperandA(a.cpu, w) && fb == OperandB(a.cpu, w)
  }

  /** The EX bank holds the slot for the instructions the sequential machine executes next. */
  ghost predicate ExOk(m: Machine, s: Core, t: SlotTok, a: Arch) {
    match t
    case Bubble => Inert(s.ex)
    case Holds(k) =>
      var w, n := InstrAt(m.imem, a.cpu.pc), InstrAt(m.imem, Add(a.cpu.pc, 4));
      && s.ex == PairSlot(k, a.cpu.pc, w, n, s.ex.rs1Data, s.ex.rs2Data)
      && KindPattern(k, w, n)
      && (k != Single ==> m.cfg.fusionEn)
      && OperandsOk(k, a, w, s.ex, FwdA(s), FwdB(s))
  }

  /** The multiply/divide unit is idle, or runs on the operands of the unfused slot in EX. */
  ghost predicate MdOk(s: Core, t: Tok) {
    if s.md.busy || s.md.done
    then s.ex.ctrl.isMulDiv && t.slot == Holds(Single)
         && MDC.Running(s.md, FwdA(s), FwdB(s), s.ex.mulDivOp, t.mdStep)
    else MDC.Ready(s.md)
  }

  /** At most one deferred write is in flight, and everything behind it is a bubble. */
  predicate PendOk(s: Core, t: SlotTok) {
    && s.pendActive == (s.ex.pend.valid || s.mem.pend.valid || s.wb.pend.valid || s.fire.valid)
    && (s.mem.pend.valid || s.wb.pend.valid || s.fire.valid ==> t == Bubble)
    && (s.mem.pend.valid ==> !s.ex.ctrl.regWrite && !s.wb.pend.valid && !s.fire.valid)
    && (s.wb.pend.valid ==> !s.mem.regWrite && !s.fire.valid)
    && (s.wb.pend.valid ==> !s.ex.ctrl.regWrite)
    && (s.fire.valid ==> !s.wb.regWrite)
    && (s.ex.pend.valid ==> !s.mem.pend.valid && !s.wb.pend.valid && !s.fire.valid)
  }

  function WritePend(regs: RF.Regs, p: Pend): RF.Regs { RF.Write(regs, p.valid, p.addr, p.data) }

  /** Registers, memory and CSRs at each stage boundary are the sequential machine's. */
  ghost predicate ArchOk(s: Core, aW: Arch, aM: Arch, aE: Arch) {
    && aW.cpu.regs == WritePend(s.regs, s.fire)
    && aM.cpu.regs == WritePend(RF.Write(aW.cpu.regs, s.wb.regWrite, s.wb.rd, WbValue(s.wb, s.raw, s.rawLane)), s.wb.pend)
    && aE.cpu.regs == Drained(s.mem, s.dmem, aM.cpu.regs)
    && aM.cpu.mem == BytesOf(s.dmem)
    && aE.cpu.mem == BytesOf(Stored(s.mem, s.dmem))
    && aW.csrs == s.csr.csrs
    && aM.csrs == Csr.WriteCsr(aW.csrs, s.wb.isCsr, s.wb.csrAddr, s.wb.mulDivResult)
    && aE.csrs == Csr.WriteCsr(aM.csrs, s.mem.isCsr, s.mem.csrAddr, s.mem.mulDivResult)
  }

  /** A slot whose result is a load says so to the hazard unit. */
  predicate LoadsMarked(s: Core) {
    s.ex.ctrl.source == FromMem ==> s.ex.ctrl.memRead
  }

  ghost predicate Inv(m: Machine, s: Core, t: Tok, aW: Arch, aM: Arch, aE: Arch) {
    && FrontOk(m.imem, s, t.idReal, t.ifReal)
    && FrontPc(s, t.idReal, t.ifReal) == After(aE.cpu.pc, t.slot)
    && ExOk(m, s, t.slot, aE)
    && MdOk(s, t)
    && PendOk(s, t.slot)
    && ArchOk(s, aW, aM, aE)
  }

  // ---------------------------------------------------------------- the slot in EX

  lemma ExFacts(m: Machine, s: Core, t: SlotTok, a: Arch, fa: Word, fb: Word)
    requires ExOk(m, s, t, a) && SlotAllowed(m, a, t)
    ensures s.ex.ctrl.isMulDiv ==> t == Holds(Single) && !RedirectOf(s.ex, fa, fb)
    ensures t == Bubble ==> !RedirectOf(s.ex, fa, fb)
    ensures LoadsMarked(s) && !s.ex.ctrl.illegal
    ensures s.ex.pend.valid <==> t.Holds? && Defers(t.kind)
  {
    hide Decode, Imm, ImmI, ImmB, ImmU, Add, Alu, RdOf, Rs1Of, Rs2Of, Opcode, Funct3, Funct7, InstrAt, FwdA, FwdB,
         BranchTaken, Fetch, Fits, AluResult, OperandA, OperandB, SeqStep;
    if t.Holds? {
      var w := InstrAt(m.imem, a.cpu.pc);
      DecodeShape(w);
      DecodeUpper(w);
      if t.kind == AddLoad { DecodeAddKind(w); }
    }
  }

  /** A fused pair is two steps of the single-cycle core with the CSRs untouched. */
  lemma PairIsTwoSteps(m: Machine, a: Arch, k: Kind, w: Word, n: Word)
    requires k != Single && KindPattern(k, w, n) && (k == CmpBranch ==> !Decode(w).isMulDiv)
    requires StepOk(m, a) && StepOk(m, SeqStep(a))
    requires w == InstrAt(m.imem, a.cpu.pc) && n == InstrAt(m.imem, Add(a.cpu.pc, 4))
    ensures SeqStep(SeqStep(a)) == Arch(TwoSteps(a.cpu, w, n), a.csrs)
    ensures SeqStep(a) == Arch(Exec(a.cpu, w), a.csrs) && Fetch(SeqStep(a).cpu) == n
  {
    hide Imm, ImmI, ImmB, ImmU, Add, Alu, RdOf, Rs1Of, Rs2Of, InstrAt, Offset, RdData, Fetch,
         BranchTaken, Fits, AluResult, OperandA, OperandB, NextRegs, NextMem, PairOk, Regular, Decode;
    FirstOfPair(k, w, n);
    assert Exec(a.cpu, w).pc == Add(a.cpu.pc, 4);
  }

  /** The first instruction of a pair falls through, and neither instruction is a CSR access. */
  lemma FirstOfPair(k: Kind, w: Word, n: Word)
    requires k != Single && KindPattern(k, w, n) && (k == CmpBranch ==> !Decode(w).isMulDiv)
    ensures !Decode(w).isCsr && !Decode(w).isJal && !Decode(w).isJalr && !Decode(w).isBranch && !Decode(n).isCsr
  {
    hide Imm, ImmI, ImmB, ImmU, RdOf, Rs1Of, Rs2Of, Opcode, Funct3, Funct7, AluOpOf, Bit30;
  }

  /** The CSR read in EX sees every older CSR write: through MEM, through WB, or in the file. */
  lemma CsrForwarding(s: Core, aW: Arch, aM: Arch, aE: Arch)
    requires ArchOk(s, aW, aM, aE) && Csr.Writable(s.ex.csrAddr)
    ensures CsrValue(s) == Csr.ReadCsr(aE.csrs, s.ex.csrAddr)
  {
    hide Drained, WritePend, WbValue, BytesOf, Stored;
  }

  /** What one slot is worth: program counter, registers, memory and CSRs once it has drained. */
  ghost predicate ResultMeans(s: Core, t: SlotTok, a: Arch, a': Arch, x: ExMem, dmem: WordMem) {
    && a'.cpu.pc == (if Redirect(s) then Target(s) else After(a.cpu.pc, t))
    && a'.cpu.regs == Drained(x, dmem, a.cpu.regs)
    && a'.cpu.mem == BytesOf(Stored(x, dmem))
    && a'.csrs == Csr.WriteCsr(a.csrs, x.isCsr, x.csrAddr, x.mulDivResult)
  }

  lemma BubbleMeaning(m: Machine, s: Core, a: Arch, dmem: WordMem)
    requires Inert(s.ex) && BytesOf(dmem) == a.cpu.mem
    ensures ResultMeans(s, Bubble, a, a, ExResult(s), dmem)
  {
    hide FwdA, FwdB, CsrValue, Alu, BranchTaken, MDI.Result;
  }

  /** The multiply/divide result leaving EX is the combinational unit's. */
  lemma MulDivLeaving(s: Core, t: Tok)
    requires MdOk(s, t) && s.ex.ctrl.isMulDiv && !MulDivActive(s)
    ensures MDI.Result(s.md) == Comb.Result(FwdA(s), FwdB(s), s.ex.mulDivOp)
  {
    hide FwdA, FwdB, MDI.Result, Comb.Result;
    assert s.md.done && t.mdStep == 33;
    MDC.ResultCorrect(s.md, FwdA(s), FwdB(s), s.ex.mulDivOp);
  }

  lemma SingleInEx(m: Machine, s: Core, t: Tok, aW: Arch, aM: Arch, aE: Arch)
    requires t.slot == Holds(Single)
    requires ExOk(m, s, t.slot, aE) && StepOk(m, aE) && MdOk(s, t) && ArchOk(s, aW, aM, aE)
    requires !MulDivActive(s)
    ensures ResultMeans(s, t.slot, aE, SeqStep(aE), ExResult(s), Stored(s.mem, s.dmem))
  {
    hide FwdA, FwdB, MDC.Running, ResultOf, CsrValue, Fetch, InstrAt, Offset, Drained, ExecArch, Decode, PairOk,
         Stored, Csr.WriteCsr, Imm, RedirectOf, TargetOf, MDI.Result, MulDivActive, BytesOf, Regular, RdOf, Rs1Of,
         Rs2Of, Funct3, CsrAddrOf, AddResult, Csr.Writable, WbValue, Comb.Result, Csr.ReadCsr, Add, ImmB, ImmI, ImmU;
    var w, n := InstrAt(m.imem, aE.cpu.pc), InstrAt(m.imem, Add(aE.cpu.pc, 4));
    if Decode(w).isMulDiv { MulDivLeaving(s, t); }
    if Decode(w).isCsr { WritableCsr(aE.cpu, w); CsrForwarding(s, aW, aM, aE); }
    SingleMeaning(aE, w, n, s.ex.rs1Data, s.ex.rs2Data, FwdA(s), FwdB(s), MDI.Result(s.md), CsrValue(s),
                  Stored(s.mem, s.dmem), s.csr.csrs.mtvec);
  }

  lemma WritableCsr(c: Cpu, w: Word)
    requires Regular(c, w) && Decode(w).isCsr
    ensures Csr.Writable(CsrAddrOf(w))
  {
  }

  /** Draining a fused pair is worth its two instructions if and only if the pair is a harmless one. */
  lemma PairInEx(m: Machine, s: Core, k: Kind, a: Arch, dmem: WordMem)
    requires k != Single && ExOk(m, s, Holds(k), a) && StepOk(m, a) && StepOk(m, SeqStep(a))
    requires k == CmpBranch ==> !Decode(InstrAt(m.imem, a.cpu.pc)).isMulDiv
    requires BytesOf(dmem) == a.cpu.mem
    ensures ResultMeans(s, Holds(k), a, SeqStep(SeqStep(a)), ExResult(s), dmem) <==> PairOkAt(m, a)
  {
    hide FwdA, FwdB, ResultOf, CsrValue, Fetch, InstrAt, Offset, Drained, ExecArch, Decode, SeqStep, TwoSteps,
         Csr.WriteCsr, Imm, RedirectOf, TargetOf, MDI.Result, BytesOf, RdOf, Rs1Of, PairSlot, PairLoad,
         Rs2Of, Funct3, CsrAddrOf, AddResult, ImmI, ImmB, ImmU, Add, OperandA, OperandB, Fits, Pattern1, Pattern2,
         Pattern3, Pattern4, Pattern5, AluResult, MemValue, StoreLanes, Opcode, PairAddress, Regular;
    var w, n := InstrAt(m.imem, a.cpu.pc), InstrAt(m.imem, Add(a.cpu.pc, 4));
    var fa, fb, md, cv, mtvec := FwdA(s), FwdB(s), MDI.Result(s.md), CsrValue(s), s.csr.csrs.mtvec;
    var d1, d2 := s.ex.rs1Data, s.ex.rs2Data;
    PairIsTwoSteps(m, a, k, w, n);
    NoCsrWrite(a.csrs, ExResult(s));
    OnePattern(k, w, n);
    match k
    case LuiAddi => LuiAddiMeaning(a.cpu, w, n, d1, d2, fa, fb, md, cv, dmem, mtvec);
    case AuipcAddi => AuipcAddiMeaning(a.cpu, w, n, d1, d2, fa, fb, md, cv, dmem, mtvec);
    case AuipcJalr => AuipcJalrMeaning(a.cpu, w, n, d1, d2, fa, fb, md, cv, dmem, mtvec);
    case CmpBranch => CmpBranchMeaning(a.cpu, w, n, d1, d2, fa, fb, md, cv, dmem, mtvec);
    case AddLoad =>
      AddLoadInRegion(m, a, w, n);
      AddLoadMeaning(a.cpu, w, n, d1, d2, fa, fb, md, cv, dmem, mtvec);
  }

  /** The patterns exclude each other. */
  lemma OnePattern(k: Kind, w: Word, n: Word)
    requires k != Single && KindPattern(k, w, n)
    ensures Pattern3(w, n) <==> k == AuipcJalr
    ensures Pattern4(w, n) <==> k == CmpBranch
    ensures Pattern5(w, n) <==> k == AddLoad
  {
    hide RdOf, Rs1Of, Rs2Of, ImmI, Funct7;
  }

  lemma HarmlessCompare(m: Machine, a: Arch, k: Kind)
    requires PairOkAt(m, a) && KindPattern(k, InstrAt(m.imem, a.cpu.pc), InstrAt(m.imem, Add(a.cpu.pc, 4)))
    ensures k == CmpBranch ==> !Decode(InstrAt(m.imem, a.cpu.pc)).isMulDiv
  {
    hide InstrAt, Decode, Add, RdOf, Pattern1, Pattern2, Pattern3, Pattern4, Pattern5, AluResult, ImmB, PairLoad,
         PairAddress;
  }

  lemma SlotPattern(m: Machine, s: Core, k: Kind, a: Arch)
    requires ExOk(m, s, Holds(k), a)
    ensures KindPattern(k, InstrAt(m.imem, a.cpu.pc), InstrAt(m.imem, Add(a.cpu.pc, 4)))
  {
    hide InstrAt, FwdA, FwdB, OperandsOk, PairSlot, KindPattern, Add;
  }

  lemma NoCsrWrite(c: Csr.Csrs, x: ExMem)
    ensures !x.isCsr ==> Csr.WriteCsr(c, x.isCsr, x.csrAddr, x.mulDivResult) == c
  {
  }

  /** The load of idiom 5 is regular as the second of two steps. */
  lemma AddLoadInRegion(m: Machine, a: Arch, w: Word, n: Word)
    requires Pattern5(w, n) && StepOk(m, SeqStep(a))
    requires SeqStep(a).cpu == Exec(a.cpu, w) && Fetch(SeqStep(a).cpu) == n
    ensures Fits(Offset(PairAddress(a.cpu, w)), 2)
  {
    hide SeqStep, Exec, Fetch, InstrAt, PairOk, AluResult, PairAddress, Fits, Offset, Decode, Opcode, Funct3, RdOf,
         Rs1Of, ImmI, Funct7;
    DecodeLw(n);
    PairAddressIs(a.cpu, w, n);
  }

  lemma MemoryBeforeEx(s: Core, aW: Arch, aM: Arch, aE: Arch)
    requires ArchOk(s, aW, aM, aE)
    ensures BytesOf(Stored(s.mem, s.dmem)) == aE.cpu.mem
  {
  }

  lemma BubbleIsInert(m: Machine, s: Core, a: Arch)
    ensures ExOk(m, s, Bubble, a) ==> Inert(s.ex)
  {
  }

  /** Draining the slot now in EX takes the architectural state over the instructions it stands for. */
  lemma ExMeaning(m: Machine, s: Core, t: Tok, aW: Arch, aM: Arch, aE: Arch)
    requires ExOk(m, s, t.slot, aE) && SlotAllowed(m, aE, t.slot) && MdOk(s, t) && ArchOk(s, aW, aM, aE)
    requires !MulDivActive(s)
    ensures ResultMeans(s, t.slot, aE, Advance(aE, t.slot), ExResult(s), Stored(s.mem, s.dmem))
  {
    hide ArchOk, ExOk, MdOk, StepOk, ResultMeans, SeqStep, ExResult, Stored, MulDivActive, PairOkAt, KindPattern, Decode;
    MemoryBeforeEx(s, aW, aM, aE);
    BubbleIsInert(m, s, aE);
    if t.slot == Bubble {
      BubbleMeaning(m, s, aE, Stored(s.mem, s.dmem));
    } else if t.slot.kind == Single {
      SingleInEx(m, s, t, aW, aM, aE);
    } else {
      SlotPattern(m, s, t.slot.kind, aE);
      HarmlessCompare(m, aE, t.slot.kind);
      PairInEx(m, s, t.slot.kind, aE, Stored(s.mem, s.dmem));
    }
  }

  // ---------------------------------------------------------------- frozen cycles

  /** A frozen cycle changes nothing but the multiply/divide unit, the operand gates and the counters. */
  lemma FrozenStep(m: Machine, s: Core)
    requires Freeze(s) && !Redirect(s) && !s.fire.valid && !s.ex.ctrl.illegal
    ensures Tick(m, s) ==
      s.(csr := Csr.File(s.csr.csrs, Tick(m, s).csr.counters), md := MDI.Next(s.md, MulDivInputs(m.cfg, s)),
         holdA := Tick(m, s).holdA, holdB := Tick(m, s).holdB)
  {
    hide Redirect, MDI.Next, MulDivInputs, FuseKind, FwdA, FwdB, InstrAt, Slot, IdOperand, ExResult, Stored, Decode,
         WbValue, MulDivActive, LoadInEx, LoadInMem, Target, MemResult, Csr.NextCounters, Gate.Output;
  }

  lemma FreezeMeansMulDiv(m: Machine, s: Core, t: Tok, a: Arch)
    requires Freeze(s) && ExOk(m, s, t.slot, a) && SlotAllowed(m, a, t.slot) && MdOk(s, t) && PendOk(s, t.slot)
    ensures t.slot == Holds(Single) && !Redirect(s) && !s.fire.valid && !s.ex.ctrl.illegal && s.ex.ctrl.isMulDiv
    ensures !s.pendActive
  {
    hide ExOk, SlotAllowed, RedirectOf, FwdA, FwdB, MDC.Running, LoadInEx, LoadInMem;
    ExFacts(m, s, t.slot, a, FwdA(s), FwdB(s));
  }

  lemma MulDivRuns(m: Machine, s: Core, t: Tok)
    requires MulDivActive(s) && MdOk(s, t) && t.slot == Holds(Single) && s.ex.ctrl.isMulDiv
    ensures var u := MDI.Next(s.md, MulDivInputs(m.cfg, s));
            && (u.busy || u.done)
            && MDC.Running(u, FwdA(s), FwdB(s), s.ex.mulDivOp, if MulDivStart(s) then 0 else t.mdStep + 1)
  {
    hide FwdA, FwdB, MDI.Next, MDC.Running;
    RunningFlags(s.md, FwdA(s), FwdB(s), s.ex.mulDivOp, t.mdStep);
    if s.md.busy {
      MDC.RunningAdvances(s.md, FwdA(s), FwdB(s), s.ex.mulDivOp, t.mdStep, MulDivInputs(m.cfg, s));
      RunningFlags(MDI.Next(s.md, MulDivInputs(m.cfg, s)), FwdA(s), FwdB(s), s.ex.mulDivOp, t.mdStep + 1);
    } else {
      MDC.StartAccepts(s.md, FwdA(s), FwdB(s), s.ex.mulDivOp);
      RunningFlags(MDI.Next(s.md, MulDivInputs(m.cfg, s)), FwdA(s), FwdB(s), s.ex.mulDivOp, 0);
    }
  }

  lemma RunningFlags(u: MDI.Unit, a: Word, b: Word, op: Bits3, j: nat)
    ensures MDC.Running(u, a, b, op, j) ==> u.busy == (j < 33) && u.done == (j == 33) && (u.done ==> u.phase == MDI.Idle)
  {
  }

  lemma FreezePreserves(m: Machine, s: Core, t: Tok, aW: Arch, aM: Arch, aE: Arch)
    requires Inv(m, s, t, aW, aM, aE) && SlotAllowed(m, aE, t.slot) && Freeze(s)
    ensures Inv(m, Tick(m, s), NextTok(m.cfg, s, t), aW, aM, aE)
  {
    hide SlotAllowed, Tick, RedirectOf, MDC.Running, MDI.Next, InstrAt, Slot, PairSlot, Decode, KindPattern, OperandsOk,
         Drained, BytesOf, Stored, WbValue, LoadInEx, LoadInMem, MulDivInputs, FuseKind, Csr.WriteCsr, RF.Write, Alu,
         MemForward, Hazard.Select, Inert, Add;
    FreezeMeansMulDiv(m, s, t, aE);
    FrozenStep(m, s);
    MulDivRuns(m, s, t);
    FrozenOperands(s, Tick(m, s));
  }

  lemma FrozenOperands(s: Core, s': Core)
    requires s'.ex == s.ex && s'.mem == s.mem && s'.wb == s.wb && s'.raw == s.raw && s'.rawLane == s.rawLane
    ensures FwdA(s') == FwdA(s) && FwdB(s') == FwdB(s)
  {
  }

  // ---------------------------------------------------------------- advancing cycles: retirement

  lemma WbValueOfMem(m: ExMem, dmem: WordMem)
    ensures WbValue(MemResult(m), dmem[Index(Offset(m.aluResult))], Lane(Offset(m.aluResult))) == MemValue(m, dmem)
  {
    hide Index, Offset, Lane, Extract;
  }

  /** What an advancing cycle does to the banks behind EX and to the architectural storage. */
  lemma AdvancingStep(m: Machine, s: Core)
    requires !Freeze(s)
    ensures var s' := Tick(m, s);
            && s'.mem == ExResult(s) && s'.wb == MemResult(s.mem) && s'.fire == s.wb.pend
            && s'.dmem == Stored(s.mem, s.dmem)
            && s'.raw == s.dmem[Index(Offset(s.mem.aluResult))] && s'.rawLane == Lane(Offset(s.mem.aluResult))
            && s'.regs == RF.Write(s.regs, PortWe(s), PortAddr(s), PortData(s))
            && (!s.ex.ctrl.illegal ==>
                  s'.csr.csrs == Csr.WriteCsr(s.csr.csrs, s.wb.isCsr, s.wb.csrAddr, s.wb.mulDivResult))
            && s'.md == MDI.Next(s.md, MulDivInputs(m.cfg, s))
            && s'.pendActive == NextPendActive(m.cfg, s)
            && s'.ex == NextEx(m.cfg, s)
  {
    hide ExResult, MemResult, Stored, RF.Write, PortWe, PortAddr, PortData, Csr.WriteCsr, MDI.Next, MulDivInputs,
         NextPendActive, NextEx, Freeze, PcNext, NextFetch, NextId, NextBound, Gate.Output, Csr.NextCounters,
         Index, Offset, Lane;
  }

  /** The single write port performs every write: when the deferred write fires, WB has none. */
  lemma PortWrites(s: Core)
    requires !Freeze(s) && (s.fire.valid ==> !s.wb.regWrite)
    ensures RF.Write(s.regs, PortWe(s), PortAddr(s), PortData(s))
         == RF.Write(WritePend(s.regs, s.fire), s.wb.regWrite, s.wb.rd, WbValue(s.wb, s.raw, s.rawLane))
  {
    hide WbValue, Freeze;
  }

  lemma ArchAdvances(m: Machine, s: Core, aW: Arch, aM: Arch, aE: Arch, a': Arch, t: SlotTok)
    requires !Freeze(s) && !s.ex.ctrl.illegal && (s.fire.valid ==> !s.wb.regWrite)
    requires ArchOk(s, aW, aM, aE)
    requires ResultMeans(s, t, aE, a', ExResult(s), Stored(s.mem, s.dmem))
    ensures ArchOk(Tick(m, s), aM, aE, a')
  {
    hide Freeze, Tick, ExResult, Stored, PortWe, PortAddr, PortData, WbValue, MemValue, MDI.Next, MulDivInputs,
         NextPendActive, NextEx, RF.Write, Csr.WriteCsr, BytesOf, Redirect, Target, After, Index, Offset, Lane;
    AdvancingStep(m, s);
    PortWrites(s);
    WbValueOfMem(s.mem, s.dmem);
  }

  lemma MulDivRests(m: Machine, s: Core, t: Tok)
    requires MdOk(s, t) && !MulDivActive(s)
    ensures var u := MDI.Next(s.md, MulDivInputs(m.cfg, s)); !u.busy && !u.done && MDC.Ready(u)
  {
    hide FwdA, FwdB, MDC.Running;
    RunningFlags(s.md, FwdA(s), FwdB(s), s.ex.mulDivOp, t.mdStep);
  }

  // ---------------------------------------------------------------- advancing cycles: front end

  lemma NopNeverFuses(cfg: Cfg, s: Core)
    requires s.id.instr == NOP && s.id.next == NOP
    ensures FuseKind(cfg, s) == Single
  {
    hide Clear, Clear5, RdOf, Rs1Of, Rs2Of, ImmI, Funct7;
    assert Opcode(NOP) == OP_OPIMM && Funct3(NOP) == 0;
  }

  lemma FrontEndSteps(m: Machine, s: Core)
    ensures Tick(m, s).pc == PcNext(s) && Tick(m, s).fetch == NextFetch(m.imem, s) && Tick(m, s).id == NextId(m.cfg, s)
  {
    hide PcNext, NextFetch, NextId;
  }

  lemma TwoFours(pc: Word)
    ensures Add(Add(pc, 4), 4) == Add(pc, 8)
  {
  }

  /** Consecutive fetch survives every cycle: hold, flush, advance, and the skip after a fusion. */
  lemma FrontPreserved(m: Machine, s: Core, t: Tok)
    requires FrontOk(m.imem, s, t.idReal, t.ifReal)
    ensures FrontOk(m.imem, Tick(m, s), NextTok(m.cfg, s, t).idReal, NextTok(m.cfg, s, t).ifReal)
  {
    hide Tick, InstrAt, FuseKind, Add, StallFront, FlushId, Redirect, Target, NextSlot, Freeze;
    FrontEndSteps(m, s);
    if !t.idReal { NopNeverFuses(m.cfg, s); }
    FlushIsRedirect(s);
  }

  lemma FlushIsRedirect(s: Core)
    ensures FlushId(s) <==> Redirect(s)
    ensures FlushEx(s) <==> Redirect(s) || (StallFront(s) && !Freeze(s))
    ensures Freeze(s) ==> StallFront(s)
    ensures Freeze(s) <==> MulDivActive(s)
  {
    hide Redirect, LoadInEx, LoadInMem, MulDivActive;
  }

  /** The next address to leave decode moves over exactly what leaves it, or to the redirect target. */
  lemma FrontPcAdvances(m: Machine, s: Core, t: Tok)
    requires FrontOk(m.imem, s, t.idReal, t.ifReal)
    requires !Freeze(s)
    ensures var t' := NextTok(m.cfg, s, t);
            FrontPc(Tick(m, s), t'.idReal, t'.ifReal)
            == if Redirect(s) then Target(s) else After(FrontPc(s, t.idReal, t.ifReal), t'.slot)
  {
    hide Tick, InstrAt, FuseKind, Add, StallFront, FlushId, FlushEx, Freeze, Redirect, Target;
    FrontEndSteps(m, s);
    if !t.idReal { NopNeverFuses(m.cfg, s); }
    FlushIsRedirect(s);
    TwoFours(s.id.pc);
  }

  // ---------------------------------------------------------------- advancing cycles: deferred writes

  lemma NewExSlot(cfg: Cfg, s: Core)
    ensures FlushEx(s) ==> NextEx(cfg, s) == EX_BUBBLE
    ensures !FlushEx(s) && !Freeze(s) ==>
      NextEx(cfg, s) == Slot(FuseKind(cfg, s), s.id, IdOperand(s, Rs1Of(s.id.instr)), IdOperand(s, Rs2Of(s.id.instr)))
  {
    hide FlushEx, Freeze, Slot, FuseKind, IdOperand, Rs1Of, Rs2Of;
  }

  lemma PendStalls(s: Core)
    ensures s.pendActive ==> StallFront(s)
  {
    hide Redirect, LoadInEx, LoadInMem, MulDivActive;
  }

  lemma PendPreserved(m: Machine, s: Core, t: Tok)
    requires !Freeze(s)
    requires PendOk(s, t.slot) && (!t.idReal ==> FuseKind(m.cfg, s) == Single)
    ensures PendOk(Tick(m, s), NextSlot(m.cfg, s, t))
  {
    hide Freeze, FlushEx, StallFront, Redirect, FuseKind, IdOperand, ExResult, Stored, RF.Write, PortWe, PortAddr,
         PortData,
         Csr.WriteCsr, MDI.Next, MulDivInputs, NextEx, Tick, RdOf, Rs1Of, Rs2Of, FarBase, AddResult, SlotImm, SlotCtrl,
         Index, Offset, Lane, Decode, Imm, ImmB, Add;
    AdvancingStep(m, s);
    NewExSlot(m.cfg, s);
    FlushIsRedirect(s);
    PendStalls(s);
    ExResultFlags(s);
  }

  lemma ExResultFlags(s: Core)
    ensures ExResult(s).pend == s.ex.pend && ExResult(s).regWrite == s.ex.ctrl.regWrite && ExResult(s).rd == s.ex.rd
    ensures ExResult(s).source == s.ex.ctrl.source
    ensures MemResult(s.mem).pend == s.mem.pend && MemResult(s.mem).regWrite == s.mem.regWrite
    ensures MemResult(s.mem).rd == s.mem.rd
  {
    hide FwdA, FwdB, CsrValue, MDI.Result, AluOf, CsrOperation;
  }

  // ---------------------------------------------------------------- advancing cycles: issue

  /** Nothing is deferred when an instruction leaves decode, so the registers it must see are the
      register file after this edge with the two banks ahead of it applied. */
  lemma RegistersAtIssue(m: Machine, s: Core, t: Tok, aM: Arch, aE: Arch, a': Arch)
    requires !Freeze(s) && !FlushEx(s) && !s.ex.ctrl.illegal && PendOk(s, t.slot)
    requires ArchOk(Tick(m, s), aM, aE, a')
    ensures var s' := Tick(m, s);
            && a'.cpu.regs == RF.Write(RF.Write(s'.regs, s'.wb.regWrite, s'.wb.rd, WbValue(s'.wb, s'.raw, s'.rawLane)),
                                       s'.mem.regWrite, s'.mem.rd, MemValue(s'.mem, s'.dmem))
            && s'.regs == RF.Write(s.regs, PortWe(s), PortAddr(s), PortData(s))
            && s'.mem.regWrite == s.ex.ctrl.regWrite && s'.mem.rd == s.ex.rd && s'.mem.source == s.ex.ctrl.source
            && s'.wb.regWrite == s.mem.regWrite && s'.wb.rd == s.mem.rd
            && !s.pendActive
  {
    hide Freeze, FlushEx, StallFront, Redirect, NextPendActive, ExResult, Stored, PortWe, PortAddr, PortData,
         WbValue, MemValue,
         Csr.WriteCsr, MDI.Next, MulDivInputs, NextEx, Tick, BytesOf, Index, Offset, Lane;
    AdvancingStep(m, s);
    FlushIsRedirect(s);
    PendStalls(s);
    ExResultFlags(s);
  }

  lemma NoLoadUse(s: Core)
    requires !Freeze(s) && !FlushEx(s) && s.ex.ctrl.memRead && s.ex.rd != 0
    ensures s.ex.rd != Rs1Of(s.id.instr) && s.ex.rd != Rs2Of(s.id.instr)
  {
    hide Redirect, LoadInMem, MulDivActive, Rs1Of, Rs2Of;
  }

  /** The operand latched at issue, once forwarded in EX, is the register's sequential value; the load
      placeholder is never the selected input. */
  lemma OperandAtIssue(m: Machine, s: Core, t: Tok, aM: Arch, aE: Arch, a': Arch, r: Reg)
    requires !Freeze(s) && !FlushEx(s) && !s.ex.ctrl.illegal && PendOk(s, t.slot) && LoadsMarked(s)
    requires ArchOk(Tick(m, s), aM, aE, a')
    requires r == Rs1Of(s.id.instr) || r == Rs2Of(s.id.instr)
    ensures Forwarded(Tick(m, s), r, IdOperand(s, r)) == RF.Read(a'.cpu.regs, r)
    ensures var s' := Tick(m, s);
            Hazard.Select(r, s'.mem.rd, s'.mem.regWrite, s'.wb.rd, s'.wb.regWrite) == Hazard.FromMemStage
            ==> s'.mem.source != FromMem
  {
    hide Freeze, FlushEx, StallFront, Redirect, PortWe, PortAddr, PortData, WbValue, ArchOk, PendOk, Tick, Rs1Of, Rs2Of,
         MemForward;
    RegistersAtIssue(m, s, t, aM, aE, a');
    if s.ex.ctrl.memRead && s.ex.rd != 0 { NoLoadUse(s); }
  }

  /** With EX and MEM not writing `r`, the register file already has its value. */
  lemma SettledOperand(m: Machine, s: Core, t: Tok, aM: Arch, aE: Arch, a': Arch, r: Reg, data: Word)
    requires !Freeze(s) && !FlushEx(s) && !s.ex.ctrl.illegal && PendOk(s, t.slot)
    requires ArchOk(Tick(m, s), aM, aE, a') && Clear(s.ex, s.mem, s.wb, r)
    ensures IdOperand(s, r) == RF.Read(a'.cpu.regs, r)
    ensures Forwarded(Tick(m, s), r, data) == data
  {
    hide Freeze, FlushEx, StallFront, Redirect, PortWe, PortAddr, PortData, WbValue, MemValue, ArchOk, PendOk, Tick,
         MemForward;
    RegistersAtIssue(m, s, t, aM, aE, a');
  }

  lemma DetectedPattern(cfg: Cfg, s: Core)
    ensures KindPattern(FuseKind(cfg, s), s.id.instr, s.id.next)
    ensures FuseKind(cfg, s) != Single ==> cfg.fusionEn
    ensures FuseKind(cfg, s) == AuipcJalr ==> Clear(s.ex, s.mem, s.wb, RdOf(s.id.instr))
    ensures FuseKind(cfg, s) == AddLoad ==> Clear5(s.id.instr, s.ex, s.mem, s.wb)
  {
    hide Clear, Clear5, Pattern1, Pattern2, Pattern3, Pattern4, Pattern5;
  }

  lemma SlotFields(k: Kind, id: IfId, a: Word, b: Word)
    ensures Slot(k, id, a, b) == PairSlot(k, id.pc, id.instr, id.next, Slot(k, id, a, b).rs1Data, Slot(k, id, a, b).rs2Data)
    ensures Slot(k, id, a, b).rs2Data == b && Slot(k, id, a, b).rs2 == Rs2Of(id.instr)
    ensures k == AuipcJalr ==> Slot(k, id, a, b).rs1Data == Add(id.pc, ImmU(id.instr)) && Slot(k, id, a, b).rs1 == RdOf(id.instr)
    ensures k != AuipcJalr ==> Slot(k, id, a, b).rs1Data == a && Slot(k, id, a, b).rs1 == Rs1Of(id.instr)
  {
    hide SlotImm, SlotCtrl, RdOf, Rs1Of, Rs2Of, Decode, Funct3, CsrAddrOf, Add, ImmB, ImmU, AddResult;
  }

  /** An instruction or pair leaving decode makes a correct EX slot for the sequential state there. */
  lemma IssueEstablishes(m: Machine, s: Core, t: Tok, aM: Arch, aE: Arch, a': Arch)
    requires !Freeze(s) && !FlushEx(s) && !s.ex.ctrl.illegal && PendOk(s, t.slot) && LoadsMarked(s)
    requires ArchOk(Tick(m, s), aM, aE, a')
    requires FrontOk(m.imem, s, t.idReal, t.ifReal) && t.idReal && s.id.pc == a'.cpu.pc
    ensures ExOk(m, Tick(m, s), Holds(FuseKind(m.cfg, s)), a')
  {
    hide Freeze, FlushEx, StallFront, Redirect, ArchOk, PendOk, LoadsMarked, Tick, Slot, PairSlot, FuseKind, IdOperand,
         Rs1Of, Rs2Of, RdOf, Add, ImmU, InstrAt, Forwarded, NextEx, KindPattern, Opcode, Clear, ExResult, Stored,
         RF.Write, RF.Read, NextPendActive, Csr.WriteCsr, MDI.Next, MulDivInputs, Index, Offset, Lane;
    var k, w := FuseKind(m.cfg, s), s.id.instr;
    var d1, d2 := IdOperand(s, Rs1Of(w)), IdOperand(s, Rs2Of(w));
    AdvancingStep(m, s);
    NewExSlot(m.cfg, s);
    SlotFields(k, s.id, d1, d2);
    DetectedPattern(m.cfg, s);
    OperandAtIssue(m, s, t, aM, aE, a', Rs1Of(w));
    OperandAtIssue(m, s, t, aM, aE, a', Rs2Of(w));
    if k == AuipcJalr { SettledOperand(m, s, t, aM, aE, a', RdOf(w), Add(s.id.pc, ImmU(w))); }
    if k == AddLoad {
      SettledOperand(m, s, t, aM, aE, a', Rs1Of(w), d1);
      if Opcode(w) == OP_OP { SettledOperand(m, s, t, aM, aE, a', Rs2Of(w), d2); }
    }
  }

  lemma BubbleIssues(m: Machine, s: Core, t: Tok, a': Arch)
    requires !Freeze(s) && !s.ex.ctrl.illegal && FrontOk(m.imem, s, t.idReal, t.ifReal)
    requires FlushEx(s) || !t.idReal
    ensures ExOk(m, Tick(m, s), Bubble, a')
  {
    hide Freeze, FlushEx, Redirect, Tick, IdOperand, InstrAt, ExResult, Stored, FuseKind,
         RF.Write, NextPendActive, Csr.WriteCsr, MDI.Next, MulDivInputs, Index, Offset, Lane, NextEx, Add, AddResult;
    AdvancingStep(m, s);
    NewExSlot(m.cfg, s);
    if !t.idReal { NopNeverFuses(m.cfg, s); DecodeAddi(NOP); }
  }

  // ---------------------------------------------------------------- one cycle

  lemma AdvancePreserves(m: Machine, s: Core, t: Tok, aW: Arch, aM: Arch, aE: Arch)
    requires Inv(m, s, t, aW, aM, aE) && SlotAllowed(m, aE, t.slot) && !Freeze(s)
    ensures Inv(m, Tick(m, s), NextTok(m.cfg, s, t), aM, aE, Advance(aE, t.slot))
  {
    hide FrontOk, ExOk, MdOk, PendOk, ArchOk, SlotAllowed, Tick, Advance, FwdA, FwdB, FrontPc, Add, LoadsMarked,
         FlushEx, FlushId, StallFront, MulDivActive, Freeze, FuseKind, Redirect, Target, Stored, ExResult, MDI.Next;
    var a' := Advance(aE, t.slot);
    ExFacts(m, s, t.slot, aE, FwdA(s), FwdB(s));
    FlushIsRedirect(s);
    ExMeaning(m, s, t, aW, aM, aE);
    FiringDisplacesNothing(s, t.slot);
    ArchAdvances(m, s, aW, aM, aE, a', t.slot);
    FrontPreserved(m, s, t);
    FrontPcAdvances(m, s, t);
    NoFusionOfBubbles(m, s, t);
    PendPreserved(m, s, t);
    MulDivAtRest(m, s, t);
    if FlushEx(s) || !t.idReal {
      BubbleIssues(m, s, t, a');
    } else {
      IssueAddress(s, t, aE);
      IssueEstablishes(m, s, t, aM, aE, a');
    }
  }

  lemma FiringDisplacesNothing(s: Core, t: SlotTok)
    requires PendOk(s, t)
    ensures s.fire.valid ==> !s.wb.regWrite
  {
  }

  lemma NoFusionOfBubbles(m: Machine, s: Core, t: Tok)
    requires FrontOk(m.imem, s, t.idReal, t.ifReal)
    ensures !t.idReal ==> FuseKind(m.cfg, s) == Single
  {
    hide InstrAt, FuseKind;
    if !t.idReal { NopNeverFuses(m.cfg, s); }
  }

  lemma MulDivAtRest(m: Machine, s: Core, t: Tok)
    requires MdOk(s, t) && !MulDivActive(s) && !Freeze(s) && !s.ex.ctrl.illegal
    ensures MdOk(Tick(m, s), NextTok(m.cfg, s, t))
  {
    hide Freeze, Tick, MulDivActive, ExResult, Stored, RF.Write, NextPendActive, Csr.WriteCsr, MDI.Next,
         MulDivInputs, NextEx,
         MDC.Running, FwdA, FwdB, Index, Offset, Lane, NextSlot;
    AdvancingStep(m, s);
    MulDivRests(m, s, t);
  }

  lemma IssueAddress(s: Core, t: Tok, aE: Arch)
    requires FrontPc(s, t.idReal, t.ifReal) == After(aE.cpu.pc, t.slot) && t.idReal
    ensures s.id.pc == After(aE.cpu.pc, t.slot)
  {
  }
}
