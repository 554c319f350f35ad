/** Exactly when two adjacent words fuse, in terms of their fields and of what is in flight, and what LUI+ADDI and
    AUIPC+ADDI do from reset. */
module FusionExact {
  import opened Words
  import opened Isa
  import opened Memory
  import opened Fusion
  import opened Pipeline
  import opened FusedPairs
  import opened Refinement
  import opened Runs
  import opened FromReset
  import opened SideConditions
  import opened IsaReference
  import opened Counters
  import opened CsrPorts
  import RF = RegFile
  import Csr = CsrFile
  import MDI = MulDivIter

  /** Every word is the packing of its fields. */
  lemma EveryWordIsPacked(w: Word)
    ensures w == Pack32(w % 0x80, (w / 0x80) % 0x20, (w / 0x1000) % 8, (w / 0x8000) % 0x20, (w / 0x10_0000) % 0x20,
                        w / 0x200_0000)
  {
    var q1 := w / 0x80;
    var q2 := q1 / 0x20;
    var q3 := q2 / 8;
    var q4 := q3 / 0x20;
    assert w / 0x1000 == q2 && w / 0x8000 == q3 && w / 0x10_0000 == q4 && w / 0x200_0000 == q4 / 0x20;
  }

  /** A slot in EX, MEM or WB writes `r`. */
  predicate InFlight(c: Core, r: Reg) {
    || (c.ex.ctrl.regWrite && c.ex.rd == r)
    || (c.mem.regWrite && c.mem.rd == r)
    || (c.wb.regWrite && c.wb.rd == r)
  }

  /** What leaves decode, for any two words there (every word is a packing): the pair of the opcodes, the
      registers that have to agree, and the registers that nothing in flight may write, with FUSION_EN, outside a
      FISOL region and with a valid lookahead word. */
  lemma FusesExactly(cfg: Cfg, c: Core, op: int, rd: Reg, f3: Bits3, rs1: Reg, rs2: Reg, f7: int,
                     op': int, rd': Reg, f3': Bits3, rs1': Reg, rs2': Reg, f7': int)
    requires 0 <= op < 0x80 && 0 <= f7 < 0x80 && 0 <= op' < 0x80 && 0 <= f7' < 0x80
    requires c.id.instr == Pack32(op, rd, f3, rs1, rs2, f7) && c.id.next == Pack32(op', rd', f3', rs1', rs2', f7')
    ensures var k, on := FuseKind(cfg, c), cfg.fusionEn && !c.bound && c.id.lookahead;
            && (k == LuiAddi <==>
                  on && op == 0x37 && op' == 0x13 && f3' == 0 && rd != 0 && rd' == rs1' == rd && !InFlight(c, rd))
            && (k == AuipcAddi <==>
                  on && op == 0x17 && op' == 0x13 && f3' == 0 && rd != 0 && rd' == rs1' == rd && !InFlight(c, rd))
            && (k == AuipcJalr <==>
                  on && op == 0x17 && op' == 0x67 && f3' == 0 && rd != 0 && rs1' == rd && !InFlight(c, rd))
            && (k == CmpBranch <==>
                  on && (op == 0x33 || op == 0x13) && (f3 == 2 || f3 == 3) && op' == 0x63 && (f3' == 0 || f3' == 1)
                  && rs1' == rd && rs2' == 0)
            && (k == AddLoad <==>
                  on && f3 == 0 && (op == 0x13 || (op == 0x33 && f7 == 0)) && op' == 0x03 && f3' == 2
                  && rd != 0 && rs1' == rd && rs2' == 0 && f7' == 0
                  && !InFlight(c, rs1) && (op == 0x33 ==> !InFlight(c, rs2)))
  {
    hide Pack32, Opcode, Funct3, Funct7, RdOf, Rs1Of, Rs2Of, ImmI;
    Fields(op, rd, f3, rs1, rs2, f7);
    Fields(op', rd', f3', rs1', rs2', f7');
    ZeroOffset(op', rd', f3', rs1', rs2', f7');
    AtMostOneIdiom(cfg.fusionEn && !c.bound, c.id, c.ex, c.mem, c.wb);
  }

  lemma ZeroOffset(op: int, rd: Reg, f3: Bits3, rs1: Reg, rs2: Reg, f7: int)
    requires 0 <= op < 0x80 && 0 <= f7 < 0x80
    ensures ImmI(Pack32(op, rd, f3, rs1, rs2, f7)) == 0 <==> rs2 == 0 && f7 == 0
  {
    hide Pack32;
    TopTwelve(op, rd, f3, rs1, rs2, f7);
  }

  // ---------------------------------------------------------------- idioms 1 and 2, from reset

  /** The upper immediate of a pair with ADDI, and the kind it fuses to. */
  function UpperWord(pcRelative: bool, rd: Reg, upper: Imm20): Word {
    Encode(if pcRelative then Auipc(rd, upper) else Lui(rd, upper))
  }

  function UpperKind(pcRelative: bool): Kind { if pcRelative then AuipcAddi else LuiAddi }

  /** The sum of both immediates, and of the address for AUIPC. */
  function UpperSum(pcRelative: bool, upper: Imm20, imm: Imm12): Word {
    ToWord((if pcRelative then 0x8000_0000 else 0) + upper * 0x1000 + imm)
  }

  /** LUI+ADDI and AUIPC+ADDI at the start of any program: in cycle 2 they leave decode as one slot, the fusion
      counter at 0xB05 then reads 1, and draining that slot writes the sum of the two immediates, in one register
      write. */
  lemma UpperPairReached(m: Machine, s: Core, pcRelative: bool, rd: Reg, upper: Imm20, imm: Imm12)
    requires IsReset(s) && m.cfg.fusionEn && rd != 0
    requires m.imem[0] == UpperWord(pcRelative, rd, upper) && m.imem[1] == Encode(OpImm(AAdd, rd, rd, imm))
    ensures var c := Run(m, s, 2); FuseKind(m.cfg, c) == UpperKind(pcRelative) && !StallFront(c) && !FlushEx(c)
    ensures Csr.ReadPort(Run(m, s, 3).csr, 0xB05) == 1
    ensures DrainedRegs(Run(m, s, 4)) == RF.Write(s.regs, true, rd, UpperSum(pcRelative, upper, imm))
  {
    hide Run, IsReset, QuietBack, StallFront, FlushEx, FlushId, Freeze, FuseKind, DrainedRegs, UpperWord, Encode,
         UpperSum, Csr.ReadPort, Tick, PairSlot, Drained, ExResult;
    UpperIssues(m, s, pcRelative, rd, upper, imm);
    UpperCounts(m, s);
    UpperFields(pcRelative, rd, upper, imm);
    RunIsTick(m, s, 3);
    UpperSlot(Run(m, s, 3), Run(m, s, 4).dmem, s.regs, pcRelative, m.imem[0], m.imem[1], upper, imm);
    QuietExecutes(m, Run(m, s, 3), s.regs);
  }

  lemma UpperFields(pcRelative: bool, rd: Reg, upper: Imm20, imm: Imm12)
    ensures var w, n := UpperWord(pcRelative, rd, upper), Encode(OpImm(AAdd, rd, rd, imm));
            && Opcode(w) == (if pcRelative then OP_AUIPC else OP_LUI) && RdOf(w) == rd && ImmU(w) == upper * 0x1000
            && Opcode(n) == OP_OPIMM && Funct3(n) == 0 && RdOf(n) == Rs1Of(n) == rd && ImmI(n) == ToWord(imm)
  {
    hide Opcode, RdOf, Rs1Of, Funct3, ImmU, ImmI, UType, IType, SignExtend12, ToWord, Bits12;
    UTypeFields(if pcRelative then 0x17 else 0x37, rd, upper);
    ITypeFields(0x13, rd, 0, rd, Bits12(imm));
    ExtendsSign(imm);
  }

  lemma UpperIssues(m: Machine, s: Core, pcRelative: bool, rd: Reg, upper: Imm20, imm: Imm12)
    requires IsReset(s) && m.cfg.fusionEn && rd != 0
    requires m.imem[0] == UpperWord(pcRelative, rd, upper) && m.imem[1] == Encode(OpImm(AAdd, rd, rd, imm))
    ensures var c, d, w, n := Run(m, s, 2), Run(m, s, 3), m.imem[0], m.imem[1];
            && FuseKind(m.cfg, c) == UpperKind(pcRelative) && !StallFront(c) && !FlushEx(c) && !FlushId(c) && !Freeze(c)
            && QuietBack(d, s.regs)
            && d.ex == PairSlot(UpperKind(pcRelative), 0x8000_0000, w, n, d.ex.rs1Data, d.ex.rs2Data)
  {
    hide Run, Calm, QuietBack, IsReset, StallFront, FlushEx, FlushId, Freeze, FuseKind, Slot, Rs1Of, Rs2Of, InstrAt,
         Add, Opcode, Funct3, RdOf, ImmU, ImmI, Tick, UpperWord, Encode, Decode;
    var c, k := Run(m, s, 2), UpperKind(pcRelative);
    TwoCyclesIn(m, s);
    CalmWires(c, s.regs);
    CalmClear(c, s.regs, rd);
    UpperFields(pcRelative, rd, upper, imm);
    UpperFuses(m.cfg, c, pcRelative);
    CalmIssues(m, c, s.regs);
    SlotFields(k, c.id, RF.Read(s.regs, Rs1Of(c.id.instr)), RF.Read(s.regs, Rs2Of(c.id.instr)));
    RunIsTick(m, s, 2);
  }

  lemma UpperFuses(cfg: Cfg, c: Core, pcRelative: bool)
    requires cfg.fusionEn && !c.bound && c.id.lookahead && Opcode(c.id.instr) == (if pcRelative then OP_AUIPC else OP_LUI)
    requires Opcode(c.id.next) == OP_OPIMM && Funct3(c.id.next) == 0 && RdOf(c.id.instr) != 0
    requires RdOf(c.id.next) == Rs1Of(c.id.next) == RdOf(c.id.instr) && Clear(c.ex, c.mem, c.wb, RdOf(c.id.instr))
    ensures FuseKind(cfg, c) == UpperKind(pcRelative)
  {
    hide Clear, Opcode, Funct3, Funct7, RdOf, Rs1Of, Rs2Of, ImmI;
  }

  /** Nothing fuses before the first word is in decode. */
  lemma UpperCounts(m: Machine, s: Core)
    requires IsReset(s) && FusionActive(m.cfg, Run(m, s, 2))
    ensures Csr.ReadPort(Run(m, s, 3).csr, 0xB05) == 1
  {
    hide Run, IsReset, FusionActive, FuseKind, IsolActive, MulDivStart, Tick, Calm, InstrAt;
    RunIsTick(m, s, 0);
    RunIsTick(m, s, 1);
    RunIsTick(m, s, 2);
    AtReset(m, s);
    CalmAtReset(s);
    EmptyAtReset(s);
    CalmStays(m, s, s.regs);
    NothingFuses(m.cfg, s);
    NothingFuses(m.cfg, Run(m, s, 1));
    CountersTick(m, s);
    CountersTick(m, Run(m, s, 1));
    CountersTick(m, Run(m, s, 2));
    PortFields(Run(m, s, 3).csr);
  }

  lemma EmptyAtReset(s: Core)
    requires IsReset(s)
    ensures s.id.instr == NOP && s.id.next == NOP && s.fetch.instr == NOP && s.fetch.next == NOP
  {
  }

  lemma NothingFuses(cfg: Cfg, c: Core)
    requires c.id.instr == NOP && c.id.next == NOP
    ensures !FusionActive(cfg, c)
  {
    hide FuseKind, Freeze, FlushEx;
    NopNeverFuses(cfg, c);
  }

  /** With nothing behind EX, one more cycle leaves only the EX slot to drain. */
  lemma QuietExecutes(m: Machine, d: Core, regs: RF.Regs)
    requires QuietBack(d, regs) && !d.ex.ctrl.isMulDiv
    ensures DrainedRegs(Tick(m, d)) == Drained(ExResult(d), Tick(m, d).dmem, regs)
  {
    hide ExResult, Stored, Tick, WbValue, MemValue, Redirect, LoadInEx, LoadInMem, Csr.WriteCsr, MDI.Next, MulDivInputs,
         NextPendActive, NextEx, Index, Offset, Lane;
    AdvancingStep(m, d);
  }

  lemma UpperSlot(d: Core, dmem: WordMem, regs: RF.Regs, pcRelative: bool, w: Word, n: Word, upper: Imm20, imm: Imm12)
    requires d.ex == PairSlot(UpperKind(pcRelative), 0x8000_0000, w, n, d.ex.rs1Data, d.ex.rs2Data)
    requires Opcode(w) == (if pcRelative then OP_AUIPC else OP_LUI) && ImmU(w) == upper * 0x1000 && ImmI(n) == ToWord(imm)
    ensures !d.ex.ctrl.isMulDiv
    ensures Drained(ExResult(d), dmem, regs) == RF.Write(regs, true, RdOf(w), UpperSum(pcRelative, upper, imm))
  {
    hide Opcode, RdOf, Rs1Of, Rs2Of, ImmU, ImmI, ImmB, Funct3, CsrAddrOf, Decode, Alu, ToWord, Add, FwdA, FwdB, CsrValue,
         MDI.Result, AddResult;
    DecodeUpper(w);
    Wraps(upper * 0x1000, imm);
    WrapsWord(0x8000_0000, Add(upper * 0x1000, ToWord(imm)));
    AluAdds(0x8000_0000, Add(upper * 0x1000, ToWord(imm)));
    Wraps(0x8000_0000, upper * 0x1000 + imm);
  }
}
