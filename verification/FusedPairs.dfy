/** A slot leaving EX against the instructions it stands for, idiom by idiom. */
module FusedPairs {
  import opened Words
  import opened Isa
  import opened Memory
  import opened PipelineRegs
  import opened Fusion
  import opened Pipeline
  import opened CoreTop
  import opened Sequential
  import RF = RegFile
  import CsrFile
  import MulDivComb

  /** The value a slot in MEM will write back, loads included. */
  function MemValue(x: ExMem, dmem: WordMem): Word {
    if x.source == FromMem then LoadLanes(dmem, Offset(x.aluResult), x.memWidth, x.memUnsigned)
    else MemForward(x)
  }

  /** Registers once a slot and then its deferred second write have drained. */
  function Drained(x: ExMem, dmem: WordMem, regs: RF.Regs): RF.Regs {
    RF.Write(RF.Write(regs, x.regWrite, x.rd, MemValue(x, dmem)), x.pend.valid, x.pend.addr, x.pend.data)
  }

  function PairSlot(k: Kind, pc: Word, w: Word, n: Word, a: Word, b: Word): IdEx {
    Slot(k, IfId(pc, w, n, true), a, b)
  }

  /** Both instructions of a pair on the single-cycle core. */
  function TwoSteps(c: Cpu, w: Word, n: Word): Cpu { Exec(Exec(c, w), n) }

  /** The program counter the front end continues at. */
  function NextFetchPc(ex: IdEx, fa: Word, fb: Word, mtvec: Word, after: Word): Word {
    if RedirectOf(ex, fa, fb) then TargetOf(ex, fa, mtvec) else after
  }

  // ---------------------------------------------------------------- arithmetic

  lemma AddAssociates(a: Word, b: Word, c: Word)
    ensures Add(Add(a, b), c) == Add(a, Add(b, c))
  {
    hide Add;
    AddWraps(a, b);
    AddWraps(b, c);
    AddWraps(Add(a, b), c);
    AddWraps(a, Add(b, c));
  }

  /** At most one wrap. */
  lemma AddWraps(a: Word, b: Word)
    ensures Add(a, b) == if a + b >= 0x1_0000_0000 then a + b - 0x1_0000_0000 else a + b
  {
  }

  lemma AddZero(a: Word)
    ensures Add(a, 0) == a && Add(0, a) == a
  {
  }

  lemma WritesCommute(regs: RF.Regs, r1: Reg, v1: Word, r2: Reg, v2: Word)
    requires r1 != r2
    ensures RF.Write(RF.Write(regs, true, r1, v1), true, r2, v2)
         == RF.Write(RF.Write(regs, true, r2, v2), true, r1, v1)
  {
  }

  lemma LastWriteWins(regs: RF.Regs, r: Reg, v1: Word, v2: Word)
    ensures RF.Write(RF.Write(regs, true, r, v1), true, r, v2) == RF.Write(regs, true, r, v2)
  {
  }

  // ---------------------------------------------------------------- decoded control of each opcode

  lemma DecodeUpper(w: Word)
    ensures Opcode(w) == OP_LUI ==> Decode(w) == IDLE_CTRL.(regWrite := true, source := FromImm)
    ensures Opcode(w) == OP_AUIPC ==> Decode(w) == IDLE_CTRL.(regWrite := true, srcAPc := true, srcBImm := true)
    ensures Opcode(w) == OP_LUI || Opcode(w) == OP_AUIPC ==> Imm(w) == ImmU(w)
  {
  }

  lemma DecodeAddi(w: Word)
    requires Opcode(w) == OP_OPIMM && Funct3(w) == 0
    ensures Decode(w) == IDLE_CTRL.(regWrite := true, srcBImm := true) && Imm(w) == ImmI(w)
  {
  }

  lemma DecodeAdd(w: Word)
    requires Opcode(w) == OP_OP && Funct3(w) == 0 && Funct7(w) == 0
    ensures Decode(w) == IDLE_CTRL.(regWrite := true)
  {
    assert w < 0x200_0000;
  }

  lemma DecodeJalr(w: Word)
    requires Opcode(w) == OP_JALR
    ensures Decode(w) == IDLE_CTRL.(regWrite := true, isJalr := true, source := FromLink, srcBImm := true)
    ensures Imm(w) == ImmI(w)
  {
  }

  lemma DecodeLw(w: Word)
    requires Opcode(w) == OP_LOAD && Funct3(w) == 2
    ensures Decode(w) == IDLE_CTRL.(regWrite := true, memRead := true, srcBImm := true, source := FromMem)
    ensures Imm(w) == ImmI(w)
  {
  }

  lemma DecodeBranch(w: Word)
    requires Opcode(w) == OP_BRANCH
    ensures Decode(w) == IDLE_CTRL.(isBranch := true) && Imm(w) == ImmB(w)
  {
  }

  /** A comparison in the register form with any funct7 but 1, or in the immediate form. */
  lemma DecodeCompare(w: Word)
    requires (Opcode(w) == OP_OP && Funct7(w) != 1) || Opcode(w) == OP_OPIMM
    requires Funct3(w) == 2 || Funct3(w) == 3
    ensures Decode(w) == IDLE_CTRL.(regWrite := true, srcBImm := Opcode(w) == OP_OPIMM,
                                    aluOp := if Funct3(w) == 2 then ASlt else ASltu)
  {
  }

  // ---------------------------------------------------------------- idiom 1: LUI + ADDI

  lemma LuiAddiMeaning(c: Cpu, w: Word, n: Word, a: Word, b: Word, fa: Word, fb: Word, md: Word, cv: Word,
                       dmem: WordMem, mtvec: Word)
    requires Pattern1(w, n)
    ensures var ex := PairSlot(LuiAddi, c.pc, w, n, a, b);
            var x := ResultOf(ex, fa, fb, md, cv);
            && TwoSteps(c, w, n) == Cpu(NextFetchPc(ex, fa, fb, mtvec, Add(c.pc, 8)), Drained(x, dmem, c.regs), c.mem)
            && !x.memWrite && !x.isCsr && !RedirectOf(ex, fa, fb)
  {
    hide Decode, Imm, ImmI, ImmU, Add, RdOf, Rs1Of, Rs2Of, Opcode, Funct3, LoadLanes, Alu;
    DecodeUpper(w);
    DecodeAddi(n);
    LastWriteWins(c.regs, RdOf(w), ImmU(w), Add(ImmU(w), ImmI(n)));
    AddAssociates(c.pc, 4, 4);
    FourAndFour();
    AluAdds(ImmU(w), ImmI(n));
  }

  lemma FourAndFour()
    ensures Add(4, 4) == 8
  {
  }

  lemma AluAdds(a: Word, b: Word)
    ensures Alu(a, b, AAdd) == Add(a, b)
  {
  }

  // ---------------------------------------------------------------- idiom 2: AUIPC + ADDI

  lemma AuipcAddiMeaning(c: Cpu, w: Word, n: Word, a: Word, b: Word, fa: Word, fb: Word, md: Word, cv: Word,
                         dmem: WordMem, mtvec: Word)
    requires Pattern2(w, n)
    ensures var ex := PairSlot(AuipcAddi, c.pc, w, n, a, b);
            var x := ResultOf(ex, fa, fb, md, cv);
            && TwoSteps(c, w, n) == Cpu(NextFetchPc(ex, fa, fb, mtvec, Add(c.pc, 8)), Drained(x, dmem, c.regs), c.mem)
            && !x.memWrite && !x.isCsr && !RedirectOf(ex, fa, fb)
  {
    hide Decode, Imm, ImmI, ImmU, Add, RdOf, Rs1Of, Rs2Of, Opcode, Funct3, LoadLanes, Alu;
    DecodeUpper(w);
    DecodeAddi(n);
    var base := Add(c.pc, ImmU(w));
    AluAdds(c.pc, ImmU(w));
    AluAdds(c.pc, Add(ImmU(w), ImmI(n)));
    AluAdds(base, ImmI(n));
    AddAssociates(c.pc, ImmU(w), ImmI(n));
    LastWriteWins(c.regs, RdOf(w), base, Add(base, ImmI(n)));
    AddAssociates(c.pc, 4, 4);
    FourAndFour();
  }

  // ---------------------------------------------------------------- idiom 3: AUIPC + JALR

  /** The link and the far base never coincide: one is 8 past the pair, the other a multiple of 4096. */
  lemma LinkIsNotBase(pc: Word, w: Word)
    ensures Add(pc, ImmU(w)) != Add(pc, 8)
  {
    assert ImmU(w) % 0x1000 == 0;
  }

  /** The fused far jump continues at the right address, and leaves the right registers exactly when
      its two destinations differ: the deferred write of the base always comes last. */
  lemma AuipcJalrMeaning(c: Cpu, w: Word, n: Word, a: Word, b: Word, fa: Word, fb: Word, md: Word, cv: Word,
                         dmem: WordMem, mtvec: Word)
    requires Pattern3(w, n) && fa == Add(c.pc, ImmU(w))
    ensures var ex := PairSlot(AuipcJalr, c.pc, w, n, a, b);
            var x := ResultOf(ex, fa, fb, md, cv);
            && TwoSteps(c, w, n).pc == NextFetchPc(ex, fa, fb, mtvec, Add(c.pc, 8))
            && TwoSteps(c, w, n).mem == c.mem
            && !x.memWrite && !x.isCsr && x.pend.valid && x.source != FromMem
            && (TwoSteps(c, w, n).regs == Drained(x, dmem, c.regs) <==> RdOf(n) != RdOf(w))
  {
    hide Decode, Imm, ImmI, ImmU, Add, RdOf, Rs1Of, Rs2Of, Opcode, Funct3, LoadLanes, Alu;
    DecodeUpper(w);
    DecodeJalr(n);
    var base := Add(c.pc, ImmU(w));
    AluAdds(c.pc, ImmU(w));
    AddAssociates(c.pc, 4, 4);
    FourAndFour();
    LinkIsNotBase(c.pc, w);
    var link := Add(Add(c.pc, 4), 4);
    if RdOf(n) != RdOf(w) {
      WritesCommute(c.regs, RdOf(w), base, RdOf(n), link);
    } else {
      assert TwoSteps(c, w, n).regs[RdOf(w)] == link;
    }
  }

  // ---------------------------------------------------------------- idiom 4: SLT[I][U] + BEQ/BNE with x0

  /** The fused comparison writes its destination and branches on the comparator's output.  That is the
      pair's meaning exactly when the destination is a real register, or the comparison is false, or the
      branch leads to the next instruction anyway. */
  lemma CmpBranchMeaning(c: Cpu, w: Word, n: Word, a: Word, b: Word, fa: Word, fb: Word, md: Word, cv: Word,
                         dmem: WordMem, mtvec: Word)
    requires Pattern4(w, n) && !Decode(w).isMulDiv
    requires fa == OperandA(c, w) && fb == OperandB(c, w)
    ensures var ex := PairSlot(CmpBranch, c.pc, w, n, a, b);
            var x := ResultOf(ex, fa, fb, md, cv);
            && TwoSteps(c, w, n).regs == Drained(x, dmem, c.regs)
            && TwoSteps(c, w, n).mem == c.mem
            && !x.memWrite && !x.isCsr && !x.pend.valid && x.source != FromMem
            && (TwoSteps(c, w, n).pc == NextFetchPc(ex, fa, fb, mtvec, Add(c.pc, 8))
                <==> RdOf(w) != 0 || AluResult(c, w) == 0 || ImmB(n) == 4)
  {
    assert Funct7(w) == 1 && Opcode(w) == OP_OP ==> Decode(w).isMulDiv;
    DecodeCompare(w);
    DecodeBranch(n);
    CmpBranchCases(c, w, n, a, b, fa, fb, md, cv, dmem, mtvec);
  }

  lemma CmpBranchCases(c: Cpu, w: Word, n: Word, a: Word, b: Word, fa: Word, fb: Word, md: Word, cv: Word,
                       dmem: WordMem, mtvec: Word)
    requires Pattern4(w, n)
    requires Decode(w) == IDLE_CTRL.(regWrite := true, srcBImm := Opcode(w) == OP_OPIMM,
                                     aluOp := if Funct3(w) == 2 then ASlt else ASltu)
    requires Decode(n) == IDLE_CTRL.(isBranch := true) && Imm(n) == ImmB(n)
    requires fa == OperandA(c, w) && fb == OperandB(c, w)
    ensures var ex := PairSlot(CmpBranch, c.pc, w, n, a, b);
            var x := ResultOf(ex, fa, fb, md, cv);
            && TwoSteps(c, w, n).regs == Drained(x, dmem, c.regs)
            && TwoSteps(c, w, n).mem == c.mem
            && !x.memWrite && !x.isCsr && !x.pend.valid && x.source != FromMem
            && (TwoSteps(c, w, n).pc == NextFetchPc(ex, fa, fb, mtvec, Add(c.pc, 8))
                <==> RdOf(w) != 0 || AluResult(c, w) == 0 || ImmB(n) == 4)
  {
    hide Decode, Imm, ImmB, Add, RdOf, Rs1Of, Rs2Of, Opcode, Funct3, LoadLanes, Alu;
    AddAssociates(c.pc, 4, 4);
    FourAndFour();
    var c1 := Exec(c, w);
    assert c1.pc == Add(c.pc, 4);
    assert OperandA(c1, n) == if RdOf(w) != 0 then AluResult(c, w) else 0;
    assert OperandB(c1, n) == 0;
    OnlyFour(Add(c.pc, 4), ImmB(n));
  }

  lemma OnlyFour(pc: Word, imm: Word)
    ensures Add(pc, imm) == Add(pc, 4) <==> imm == 4
  {
  }

  // ---------------------------------------------------------------- idiom 5: ADD/ADDI + LW

  /** The address computed by the first instruction of idiom 5. */
  function PairAddress(c: Cpu, w: Word): Word {
    if Opcode(w) == OP_OP then Add(OperandA(c, w), OperandB(c, w)) else Add(OperandA(c, w), Imm(w))
  }

  lemma PairAddressIs(c: Cpu, w: Word, n: Word)
    requires Pattern5(w, n)
    ensures AluResult(Exec(c, w), n) == PairAddress(c, w)
  {
    hide Decode, Imm, ImmI, Add, Alu, LoadBytes, RdOf, Rs1Of, Rs2Of, Opcode, Funct3, Funct7;
    DecodeAddKind(w);
    DecodeLw(n);
    AluAdds(OperandA(c, w), if Opcode(w) == OP_OP then OperandB(c, w) else Imm(w));
    AluAdds(PairAddress(c, w), 0);
    AddZero(PairAddress(c, w));
  }

  /** The word the second instruction of idiom 5 loads. */
  function PairLoad(c: Cpu, w: Word): Word { LoadBytes(c.mem, Offset(PairAddress(c, w)), 2, false) }

  /** The fused load reads the pair's address, and leaves the right registers exactly when the two
      destinations differ or the loaded word happens to be its own address. */
  lemma AddLoadMeaning(c: Cpu, w: Word, n: Word, a: Word, b: Word, fa: Word, fb: Word, md: Word, cv: Word,
                       dmem: WordMem, mtvec: Word)
    requires Pattern5(w, n)
    requires fa == a == OperandA(c, w)
    requires Opcode(w) == OP_OP ==> fb == b == OperandB(c, w)
    requires BytesOf(dmem) == c.mem && Fits(Offset(PairAddress(c, w)), 2)
    ensures var ex := PairSlot(AddLoad, c.pc, w, n, a, b);
            var x := ResultOf(ex, fa, fb, md, cv);
            && TwoSteps(c, w, n).pc == NextFetchPc(ex, fa, fb, mtvec, Add(c.pc, 8))
            && TwoSteps(c, w, n).mem == c.mem
            && x.aluResult == AluResult(Exec(c, w), n) == PairAddress(c, w)
            && !x.memWrite && !x.isCsr && x.pend.valid && !RedirectOf(ex, fa, fb)
            && (TwoSteps(c, w, n).regs == Drained(x, dmem, c.regs)
                <==> RdOf(n) != RdOf(w) || PairLoad(c, w) == PairAddress(c, w))
  {
    hide Decode, Imm, ImmI, Add, Alu, LoadLanes, LoadBytes, BytesOf, Fits, Offset, RdOf, Rs1Of, Rs2Of,
         Opcode, Funct3, Funct7;
    DecodeAddKind(w);
    DecodeLw(n);
    var addr := PairAddress(c, w);
    AluAdds(OperandA(c, w), if Opcode(w) == OP_OP then OperandB(c, w) else Imm(w));
    AluAdds(addr, 0);
    AddZero(addr);
    AddAssociates(c.pc, 4, 4);
    FourAndFour();
    LoadAgrees(dmem, Offset(addr), 2, false);
    var loaded := LoadLanes(dmem, Offset(addr), 2, false);
    if RdOf(n) != RdOf(w) {
      WritesCommute(c.regs, RdOf(w), addr, RdOf(n), loaded);
    } else {
      assert TwoSteps(c, w, n).regs[RdOf(w)] == loaded;
      LastWriteWins(c.regs, RdOf(w), addr, loaded);
      LastWriteWins(c.regs, RdOf(w), loaded, addr);
    }
  }

  lemma DecodeAddKind(w: Word)
    requires (Opcode(w) == OP_OP && Funct3(w) == 0 && Funct7(w) == 0) || (Opcode(w) == OP_OPIMM && Funct3(w) == 0)
    ensures Decode(w) == IDLE_CTRL.(regWrite := true, srcBImm := Opcode(w) == OP_OPIMM)
  {
    if Opcode(w) == OP_OP { DecodeAdd(w); } else { DecodeAddi(w); }
  }

  // ---------------------------------------------------------------- one instruction

  /** Which control signals exclude each other. */
  lemma DecodeShape(w: Word)
    ensures Decode(w).source == FromMem <==> Decode(w).memRead
    ensures Decode(w).isMulDiv ==> Decode(w) == IDLE_CTRL.(regWrite := true, isMulDiv := true)
    ensures Decode(w).isCsr ==> Decode(w) == IDLE_CTRL.(regWrite := true, isCsr := true)
    ensures Decode(w).isCsr ==> 1 <= Funct3(w) <= 3
    ensures !(Decode(w).isJal && Decode(w).isJalr) && (Decode(w).isBranch ==> !Decode(w).isJal && !Decode(w).isJalr)
    ensures Decode(w).memRead || Decode(w).memWrite ==>
      !Decode(w).isBranch && !Decode(w).isJal && !Decode(w).isJalr && !Decode(w).illegal
  {
    hide Decode, Opcode, Funct3;
    AccessShape(w);
    SpecialShape(w);
    JumpShape(w);
  }

  lemma AccessShape(w: Word)
    ensures Decode(w).source == FromMem <==> Decode(w).memRead
    ensures Decode(w).memRead || Decode(w).memWrite ==>
      !Decode(w).isBranch && !Decode(w).isJal && !Decode(w).isJalr && !Decode(w).illegal
  {
    hide Opcode, Funct3, Funct7, Bit30, AluOpOf;
  }

  lemma SpecialShape(w: Word)
    ensures Decode(w).isMulDiv ==> Decode(w) == IDLE_CTRL.(regWrite := true, isMulDiv := true)
    ensures Decode(w).isCsr ==> Decode(w) == IDLE_CTRL.(regWrite := true, isCsr := true) && 1 <= Funct3(w) <= 3
  {
    hide Opcode, Funct3, Funct7, Bit30, AluOpOf;
  }

  lemma JumpShape(w: Word)
    ensures !(Decode(w).isJal && Decode(w).isJalr) && (Decode(w).isBranch ==> !Decode(w).isJal && !Decode(w).isJalr)
  {
    hide Opcode, Funct3, Funct7, Bit30, AluOpOf;
  }

  /** The assumptions under which one instruction means the same in both cores. */
  ghost predicate Regular(c: Cpu, w: Word) {
    && !Decode(w).illegal
    && (Decode(w).isCsr ==> CsrFile.Writable(CsrAddrOf(w)))
    && (Decode(w).memRead || Decode(w).memWrite ==> Fits(Offset(AluResult(c, w)), Decode(w).memWidth))
    && (Decode(w).memWrite ==> AluResult(c, w) != UART_TXDATA)
  }

  /** An unfused slot whose operands, multiply/divide result and CSR value are right does in EX, MEM and
      WB what the sequential machine does in one step. */
  lemma SingleMeaning(a: Arch, w: Word, n: Word, d1: Word, d2: Word, fa: Word, fb: Word, md: Word, cv: Word,
                      dmem: WordMem, mtvec: Word)
    requires Regular(a.cpu, w)
    requires fa == OperandA(a.cpu, w) && fb == OperandB(a.cpu, w)
    requires Decode(w).isMulDiv ==> md == MulDivComb.Result(fa, fb, Funct3(w))
    requires Decode(w).isCsr ==> cv == CsrFile.ReadCsr(a.csrs, CsrAddrOf(w))
    requires BytesOf(dmem) == a.cpu.mem
    ensures var ex := PairSlot(Single, a.cpu.pc, w, n, d1, d2);
            var x := ResultOf(ex, fa, fb, md, cv);
            ExecArch(a, w).cpu.pc == NextFetchPc(ex, fa, fb, mtvec, Add(a.cpu.pc, 4))
    ensures var ex := PairSlot(Single, a.cpu.pc, w, n, d1, d2);
            var x := ResultOf(ex, fa, fb, md, cv);
            ExecArch(a, w).cpu.regs == Drained(x, dmem, a.cpu.regs)
    ensures var ex := PairSlot(Single, a.cpu.pc, w, n, d1, d2);
            var x := ResultOf(ex, fa, fb, md, cv);
            ExecArch(a, w).cpu.mem == BytesOf(Stored(x, dmem))
    ensures var ex := PairSlot(Single, a.cpu.pc, w, n, d1, d2);
            var x := ResultOf(ex, fa, fb, md, cv);
            ExecArch(a, w).csrs == CsrFile.WriteCsr(a.csrs, x.isCsr, x.csrAddr, x.mulDivResult)
  {
    hide Decode, Imm, Add, Alu, LoadLanes, LoadBytes, StoreLanes, StoreBytes, BytesOf, Fits, Offset, RdOf, Rs1Of,
         Rs2Of, Opcode, Funct3, Funct7, MulDivComb.Result, BranchTaken, CsrAddrOf,
         CsrFile.ReadCsr, CsrFile.Writable, WordGate;
    DecodeShape(w);
    var d := Decode(w);
    if d.memRead { LoadAgrees(dmem, Offset(AluResult(a.cpu, w)), d.memWidth, d.memUnsigned); }
    if d.memWrite { StoreAgrees(dmem, Offset(AluResult(a.cpu, w)), d.memWidth, fb); }
  }
}
