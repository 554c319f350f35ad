/** rtl/pipeline_regs.sv: the register banks between the five stages. */
module PipelineRegs {
  import opened Words
  import opened Isa
  import opened Memory

  /** A deferred second register write travelling with a fused pair. */
  datatype Pend = Pend(valid: bool, addr: Reg, data: Word)

  /** The branch half of a fused compare-and-branch. */
  datatype Fuse4 = Fuse4(valid: bool, bne: bool, target: Word)

  datatype FetchReg = FetchReg(pc: Word, instr: Word, next: Word)

  datatype IfId = IfId(pc: Word, instr: Word, next: Word, lookahead: bool)

  datatype IdEx = IdEx(
    pc: Word, rs1Data: Word, rs2Data: Word, imm: Word, rs1: Reg, rs2: Reg, rd: Reg, instr: Word,
    ctrl: Ctrl, mulDivOp: Bits3, csrOp: Bits2, csrAddr: int, pend: Pend, fuse4: Fuse4)

  datatype ExMem = ExMem(
    aluResult: Word, mulDivResult: Word, rs2Data: Word, pcPlus4: Word, imm: Word, rd: Reg,
    regWrite: bool, memRead: bool, memWrite: bool, memWidth: Bits2, source: Source, memUnsigned: bool,
    isMulDiv: bool, isCsr: bool, csrAddr: int, pend: Pend)

  datatype MemWb = MemWb(
    aluResult: Word, mulDivResult: Word, pcPlus4: Word, imm: Word, rd: Reg,
    regWrite: bool, source: Source, isMulDiv: bool, isCsr: bool, csrAddr: int,
    memWidth: Bits2, memUnsigned: bool, pend: Pend)

  const NO_PEND: Pend := Pend(false, 0, 0)

  const FETCH_BUBBLE: FetchReg := FetchReg(MEM_BASE, NOP, NOP)
  const ID_BUBBLE: IfId := IfId(0, NOP, NOP, false)
  const EX_BUBBLE: IdEx :=
    IdEx(0, 0, 0, 0, 0, 0, 0, NOP, IDLE_CTRL, 0, 0, 0, NO_PEND, Fuse4(false, false, 0))
  const MEM_BUBBLE: ExMem :=
    ExMem(0, 0, 0, 0, 0, 0, false, false, false, 2, FromAlu, false, false, false, 0, NO_PEND)
  const WB_BUBBLE: MemWb :=
    MemWb(0, 0, 0, 0, 0, false, FromAlu, false, false, 0, 0, false, NO_PEND)

  /** A bank after one edge: clear wins over stall. */
  function Loaded<T>(q: T, stall: bool, clear: bool, bubble: T, d: T): T {
    if clear then bubble else if stall then q else d
  }

  class StageReg<T> {
    var q: T
    const bubble: T

    constructor (bubble: T)
      ensures q == bubble && this.bubble == bubble
    {
      q, this.bubble := bubble, bubble;
    }

    method Clock(stall: bool, clear: bool, d: T)
      modifies this
      ensures q == Loaded(old(q), stall, clear, bubble, d)
    {
      if clear { q := bubble; } else if !stall { q := d; }
    }
  }
}

/** rtl/hazard_unit.sv. */
module Hazard {
  import opened Words

  /** Forward selects 00, 01 and 10. */
  datatype Forward = FromRegister | FromMemStage | FromWbStage

  function Select(exRs: Reg, memRd: Reg, memWrites: bool, wbRd: Reg, wbWrites: bool): Forward {
    if memWrites && memRd != 0 && memRd == exRs then FromMemStage
    else if wbWrites && wbRd != 0 && wbRd == exRs then FromWbStage
    else FromRegister
  }

  predicate LoadUse(loads: bool, rd: Reg, rs1: Reg, rs2: Reg) {
    loads && rd != 0 && (rd == rs1 || rd == rs2)
  }

  datatype Controls = Controls(stallFront: bool, freeze: bool, flushId: bool, flushEx: bool)

  function Control(loadUse: bool, loadUseMem: bool, redirect: bool, mulDivBusy: bool, pendStall: bool): Controls {
    Controls(loadUse || loadUseMem || mulDivBusy || pendStall,
             mulDivBusy,
             redirect,
             redirect || (!mulDivBusy && (loadUse || loadUseMem || pendStall)))
  }
}

/** rtl/csr_file.sv: four writable registers and four counters. */
module CsrFile {
  import opened Words

  const CSR_MTVEC := 0x305
  const CSR_MEPC := 0x341
  const CSR_MCAUSE := 0x342
  const CSR_MTVAL := 0x343
  const CSR_MCYCLE := 0xB00
  const CSR_MULDIV_ACTIVE := 0xB03
  const CSR_ISOL_ACTIVE := 0xB04
  const CSR_FUSION_ACTIVE := 0xB05

  datatype Csrs = Csrs(mepc: Word, mcause: Word, mtval: Word, mtvec: Word)

  datatype Counters = Counters(mulDiv: Word, isol: Word, fusion: Word, cycle: Word)

  datatype File = File(csrs: Csrs, counters: Counters)

  const RESET: File := File(Csrs(0, 0, 0, 0x8000_1000), Counters(0, 0, 0, 0))

  /** The registers software can both read and write. */
  predicate Writable(addr: int) {
    addr == CSR_MEPC || addr == CSR_MCAUSE || addr == CSR_MTVAL || addr == CSR_MTVEC
  }

  function ReadCsr(c: Csrs, addr: int): Word {
    if addr == CSR_MEPC then c.mepc
    else if addr == CSR_MCAUSE then c.mcause
    else if addr == CSR_MTVAL then c.mtval
    else if addr == CSR_MTVEC then c.mtvec
    else 0
  }

  function WriteCsr(c: Csrs, we: bool, addr: int, data: Word): Csrs {
    if !we then c
    else if addr == CSR_MEPC then c.(mepc := data)
    else if addr == CSR_MCAUSE then c.(mcause := data)
    else if addr == CSR_MTVAL then c.(mtval := data)
    else if addr == CSR_MTVEC then c.(mtvec := data)
    else c
  }

  function ReadPort(f: File, addr: int): Word {
    if addr == CSR_MULDIV_ACTIVE then f.counters.mulDiv
    else if addr == CSR_ISOL_ACTIVE then f.counters.isol
    else if addr == CSR_FUSION_ACTIVE then f.counters.fusion
    else if addr == CSR_MCYCLE then f.counters.cycle
    else ReadCsr(f.csrs, addr)
  }

  /** What the port reads after a write: one of the four registers takes the data, and nothing else changes,
      whatever the address. */
  lemma WriteThenRead(f: File, addr: int, data: Word, other: int)
    ensures ReadPort(File(WriteCsr(f.csrs, true, addr, data), f.counters), other)
         == if Writable(addr) && other == addr then data else ReadPort(f, other)
  {
    if !Writable(addr) { OtherWritesDropped(f, addr, data); }
  }

  /** A write to an address that is not one of the four, the counters' included, is dropped. */
  lemma OtherWritesDropped(f: File, addr: int, data: Word)
    requires !Writable(addr)
    ensures WriteCsr(f.csrs, true, addr, data) == f.csrs
  {
  }

  /** A trap request: `mcause` 2, illegal instruction. */
  datatype Trap = NoTrap | Trap(pc: Word, instr: Word)

  function NextCsrs(c: Csrs, trap: Trap, we: bool, addr: int, data: Word): Csrs {
    match trap
    case Trap(pc, instr) => c.(mepc := pc, mcause := 2, mtval := instr)
    case NoTrap => WriteCsr(c, we, addr, data)
  }

  function NextCounters(n: Counters, mulDiv: bool, isol: bool, fusion: bool): Counters {
    Counters(if mulDiv then Add(n.mulDiv, 1) else n.mulDiv,
             if isol then Add(n.isol, 1) else n.isol,
             if fusion then Add(n.fusion, 1) else n.fusion,
             Add(n.cycle, 1))
  }

  class CsrRegisters {
    var mepc: Word
    var mcause: Word
    var mtval: Word
    var mtvec: Word
    var mulDivCnt: Word
    var isolCnt: Word
    var fusionCnt: Word
    var cycleCnt: Word

    ghost function Contents(): File
      reads this
    {
      File(Csrs(mepc, mcause, mtval, mtvec), Counters(mulDivCnt, isolCnt, fusionCnt, cycleCnt))
    }

    constructor ()
      ensures Contents() == RESET
    {
      mepc, mcause, mtval, mtvec := 0, 0, 0, 0x8000_1000;
      mulDivCnt, isolCnt, fusionCnt, cycleCnt := 0, 0, 0, 0;
    }

    method Read(addr: int) returns (v: Word)
      ensures v == ReadPort(Contents(), addr)
    {
      if addr == CSR_MEPC { v := mepc; }
      else if addr == CSR_MCAUSE { v := mcause; }
      else if addr == CSR_MTVAL { v := mtval; }
      else if addr == CSR_MTVEC { v := mtvec; }
      else if addr == CSR_MULDIV_ACTIVE { v := mulDivCnt; }
      else if addr == CSR_ISOL_ACTIVE { v := isolCnt; }
      else if addr == CSR_FUSION_ACTIVE { v := fusionCnt; }
      else if addr == CSR_MCYCLE { v := cycleCnt; }
      else { v := 0; }
    }

    method Clock(trap: Trap, we: bool, addr: int, data: Word, mulDiv: bool, isol: bool, fusion: bool)
      modifies this
      ensures Contents() == File(NextCsrs(old(Contents()).csrs, trap, we, addr, data),
                                 NextCounters(old(Contents()).counters, mulDiv, isol, fusion))
    {
      if trap.Trap? {
        mepc, mcause, mtval := trap.pc, 2, trap.instr;
      } else if we {
        if addr == CSR_MEPC { mepc := data; }
        else if addr == CSR_MCAUSE { mcause := data; }
        else if addr == CSR_MTVAL { mtval := data; }
        else if addr == CSR_MTVEC { mtvec := data; }
      }
      if mulDiv { mulDivCnt := Add(mulDivCnt, 1); }
      if isol { isolCnt := Add(isolCnt, 1); }
      if fusion { fusionCnt := Add(fusionCnt, 1); }
      cycleCnt := Add(cycleCnt, 1);
    }
  }
}

/** rtl/isol_gate.sv: transparent while enabled, holding while not. */
module IsolGate {
  import opened Words

  function Output(en: bool, d: Word, hold: Word): Word {
    if en then d else hold
  }

  /** The inputs of one cycle. */
  datatype Sample = Sample(en: bool, d: Word)

  /** The hold register after a history of cycles. */
  function HeldAfter(ins: seq<Sample>, hold: Word): Word {
    if ins == [] then hold
    else Output(ins[|ins| - 1].en, ins[|ins| - 1].d, HeldAfter(ins[..|ins| - 1], hold))
  }

  lemma HeldNext(ins: seq<Sample>, en: bool, d: Word, hold: Word)
    ensures HeldAfter(ins + [Sample(en, d)], hold) == Output(en, d, HeldAfter(ins, hold))
  {
    assert (ins + [Sample(en, d)])[..|ins|] == ins;
  }

  /** What a closed gate drives is the operand of the last cycle in which it was open. */
  lemma {:induction false} HoldsLastOperand(ins: seq<Sample>, hold: Word, k: nat)
    requires k < |ins| && ins[k].en && forall j | k < j < |ins| :: !ins[j].en
    ensures HeldAfter(ins, hold) == ins[k].d
    decreases |ins|
  {
    var rest := ins[..|ins| - 1];
    if k < |ins| - 1 {
      assert rest[k] == ins[k] && forall j | k < j < |rest| :: rest[j] == ins[j];
      HoldsLastOperand(rest, hold, k);
    }
  }

  /** A gate that was never open keeps its initial value. */
  lemma {:induction false} HoldsInitial(ins: seq<Sample>, hold: Word)
    requires forall j | 0 <= j < |ins| :: !ins[j].en
    ensures HeldAfter(ins, hold) == hold
    decreases |ins|
  {
    if ins != [] { HoldsInitial(ins[..|ins| - 1], hold); }
  }

  class OperandGate {
    var hold: Word

    constructor (hold: Word)
      ensures this.hold == hold
    {
      this.hold := hold;
    }

    method Drive(en: bool, d: Word) returns (q: Word)
      ensures q == Output(en, d, hold)
    {
      q := if en then d else hold;
    }

    method Clock(en: bool, d: Word)
      modifies this
      ensures hold == Output(en, d, old(hold))
    {
      if en { hold := d; }
    }
  }
}
