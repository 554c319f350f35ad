/** The macro-op fusion detector in the decode stage of rtl/core_top_pipelined.sv. */
module Fusion {
  import opened Words
  import opened Isa
  import opened PipelineRegs

  /** What leaves decode: one instruction, or one of the five fused pairs. */
  datatype Kind = Single | LuiAddi | AuipcAddi | AuipcJalr | CmpBranch | AddLoad

  // ---------------------------------------------------------------- patterns over two instruction words

  predicate Pattern1(w: Word, n: Word) {
    Opcode(w) == OP_LUI && Opcode(n) == OP_OPIMM && Funct3(n) == 0
    && RdOf(w) != 0 && RdOf(n) == RdOf(w) && Rs1Of(n) == RdOf(w)
  }

  predicate Pattern2(w: Word, n: Word) {
    Opcode(w) == OP_AUIPC && Opcode(n) == OP_OPIMM && Funct3(n) == 0
    && RdOf(w) != 0 && RdOf(n) == RdOf(w) && Rs1Of(n) == RdOf(w)
  }

  predicate Pattern3(w: Word, n: Word) {
    Opcode(w) == OP_AUIPC && Opcode(n) == OP_JALR && Funct3(n) == 0
    && RdOf(w) != 0 && Rs1Of(n) == RdOf(w)
  }

  /** funct7 of the comparison is not looked at, and neither is its destination being x0. */
  predicate Pattern4(w: Word, n: Word) {
    (Opcode(w) == OP_OP || Opcode(w) == OP_OPIMM) && (Funct3(w) == 2 || Funct3(w) == 3)
    && Opcode(n) == OP_BRANCH && (Funct3(n) == 0 || Funct3(n) == 1)
    && Rs1Of(n) == RdOf(w) && Rs2Of(n) == 0
  }

  predicate Pattern5(w: Word, n: Word) {
    ((Opcode(w) == OP_OP && Funct3(w) == 0 && Funct7(w) == 0) || (Opcode(w) == OP_OPIMM && Funct3(w) == 0))
    && Opcode(n) == OP_LOAD && Funct3(n) == 2
    && RdOf(w) != 0 && Rs1Of(n) == RdOf(w) && ImmI(n) == 0
  }

  // ---------------------------------------------------------------- interlocks

  /** No instruction in EX, MEM or WB writes `r`. */
  predicate Clear(ex: IdEx, mem: ExMem, wb: MemWb, r: Reg) {
    !(ex.ctrl.regWrite && ex.rd == r) && !(mem.regWrite && mem.rd == r) && !(wb.regWrite && wb.rd == r)
  }

  predicate Clear5(w: Word, ex: IdEx, mem: ExMem, wb: MemWb) {
    Clear(ex, mem, wb, Rs1Of(w)) && (Opcode(w) == OP_OP ==> Clear(ex, mem, wb, Rs2Of(w)))
  }

  /** The five `fuse_idiom` wires; `on` is FUSION_EN and not inside a FISOL.BOUND region. */
  predicate Fuse1(on: bool, id: IfId, ex: IdEx, mem: ExMem, wb: MemWb) {
    on && id.lookahead && Pattern1(id.instr, id.next) && Clear(ex, mem, wb, RdOf(id.instr))
  }

  predicate Fuse2(on: bool, id: IfId, ex: IdEx, mem: ExMem, wb: MemWb) {
    on && id.lookahead && Pattern2(id.instr, id.next) && Clear(ex, mem, wb, RdOf(id.instr))
  }

  predicate Fuse3(on: bool, id: IfId, ex: IdEx, mem: ExMem, wb: MemWb) {
    on && id.lookahead && Pattern3(id.instr, id.next) && Clear(ex, mem, wb, RdOf(id.instr))
  }

  predicate Fuse4Wire(on: bool, id: IfId) {
    on && id.lookahead && Pattern4(id.instr, id.next)
  }

  predicate Fuse5(on: bool, id: IfId, ex: IdEx, mem: ExMem, wb: MemWb) {
    on && id.lookahead && Pattern5(id.instr, id.next) && Clear5(id.instr, ex, mem, wb)
  }

  function Detect(on: bool, id: IfId, ex: IdEx, mem: ExMem, wb: MemWb): Kind {
    if Fuse1(on, id, ex, mem, wb) then LuiAddi
    else if Fuse2(on, id, ex, mem, wb) then AuipcAddi
    else if Fuse3(on, id, ex, mem, wb) then AuipcJalr
    else if Fuse4Wire(on, id) then CmpBranch
    else if Fuse5(on, id, ex, mem, wb) then AddLoad
    else Single
  }

  /** The wires are mutually exclusive, so reading them in any order gives the same kind. */
  lemma AtMostOneIdiom(on: bool, id: IfId, ex: IdEx, mem: ExMem, wb: MemWb)
    ensures Fuse1(on, id, ex, mem, wb) <==> Detect(on, id, ex, mem, wb) == LuiAddi
    ensures Fuse2(on, id, ex, mem, wb) <==> Detect(on, id, ex, mem, wb) == AuipcAddi
    ensures Fuse3(on, id, ex, mem, wb) <==> Detect(on, id, ex, mem, wb) == AuipcJalr
    ensures Fuse4Wire(on, id) <==> Detect(on, id, ex, mem, wb) == CmpBranch
    ensures Fuse5(on, id, ex, mem, wb) <==> Detect(on, id, ex, mem, wb) == AddLoad
  {
    hide Clear, RdOf, Rs1Of, Rs2Of, ImmI, Opcode, Funct3, Funct7;
  }

  // ---------------------------------------------------------------- the slot handed to EX

  /** `id_pc + fusion_imm20`. */
  function FarBase(id: IfId): Word { Add(id.pc, ImmU(id.instr)) }

  function AddResult(w: Word, a: Word, b: Word): Word {
    if Opcode(w) == OP_OP then Add(a, b) else Add(a, Imm(w))
  }

  function SlotCtrl(k: Kind, c: Ctrl): Ctrl {
    if k == AuipcJalr then c.(regWrite := true, source := FromLink, isJalr := true)
    else if k == AddLoad then c.(memRead := true, memWidth := 2, source := FromMem)
    else c
  }

  function SlotImm(k: Kind, w: Word, n: Word): Word {
    if k == AuipcJalr then ImmI(n)
    else if k == LuiAddi || k == AuipcAddi then Add(ImmU(w), ImmI(n))
    else Imm(w)
  }

  predicate Defers(k: Kind) { k == AuipcJalr || k == AddLoad }

  /** The inputs of the ID/EX bank for kind `k`, with register-file operands `a` and `b`. */
  function Slot(k: Kind, id: IfId, a: Word, b: Word): IdEx {
    var w, n := id.instr, id.next;
    IdEx(
      if k == AuipcJalr then Add(id.pc, 4) else id.pc,
      if k == AuipcJalr then FarBase(id) else a,
      b,
      SlotImm(k, w, n),
      if k == AuipcJalr then RdOf(w) else Rs1Of(w),
      Rs2Of(w),
      if Defers(k) then RdOf(n) else RdOf(w),
      w,
      SlotCtrl(k, Decode(w)),
      Funct3(w),
      Funct3(w) % 4,
      CsrAddrOf(w),
      Pend(Defers(k), RdOf(w), if k == AuipcJalr then FarBase(id) else AddResult(w, a, b)),
      Fuse4(k == CmpBranch, Funct3(n) % 2 == 1, Add(Add(id.pc, 4), ImmB(n))))
  }
}
