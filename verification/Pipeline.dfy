/** rtl/core_top_pipelined.sv: the five-stage core as a state machine, one `Tick` per clock edge. */
module Pipeline {
  import opened Words
  import opened Isa
  import opened Memory
  import opened PipelineRegs
  import opened Fusion
  import opened Iteration
  import Hazard
  import RF = RegFile
  import Csr = CsrFile
  import Gate = IsolGate
  import MDI = MulDivIter

  datatype Cfg = Cfg(fusionEn: bool, isolEn: bool, brCmpEn: bool)

  /** Parameters and the instruction memory. */
  datatype Machine = Machine(cfg: Cfg, imem: WordMem)

  datatype Core = Core(
    pc: Word, fetch: FetchReg, id: IfId, bound: bool,
    ex: IdEx, mem: ExMem, wb: MemWb, raw: Word, rawLane: Bits2,
    fire: Pend, pendActive: bool,
    regs: RF.Regs, dmem: WordMem, csr: Csr.File,
    md: MDI.Unit, holdA: Word, holdB: Word)

  /** The state released from reset; registers, data memory and the unreset flip-flops are arbitrary. */
  ghost predicate IsReset(s: Core) {
    && s.pc == MEM_BASE && s.fetch == FETCH_BUBBLE && s.id == ID_BUBBLE && !s.bound
    && s.ex == EX_BUBBLE && s.mem == MEM_BUBBLE && s.wb == WB_BUBBLE
    && !s.fire.valid && !s.pendActive && s.csr == Csr.RESET && s.md == MDI.RESET
  }

  function InstrAt(imem: WordMem, pc: Word): Word { imem[Index(Offset(pc))] }

  // ---------------------------------------------------------------- EX operands

  /** The MEM-stage forwarding multiplexer; a load has no value there yet. */
  function MemForward(mem: ExMem): Word {
    match mem.source
    case FromAlu => if mem.isMulDiv then mem.mulDivResult else mem.aluResult
    case FromMem => 0xDEAD_BEEF
    case FromLink => mem.pcPlus4
    case FromImm => mem.imm
  }

  /** The writeback multiplexer. */
  function WbValue(wb: MemWb, raw: Word, lane: Bits2): Word {
    match wb.source
    case FromAlu => if wb.isMulDiv then wb.mulDivResult else wb.aluResult
    case FromMem => Extract(raw, lane, wb.memWidth, wb.memUnsigned)
    case FromLink => wb.pcPlus4
    case FromImm => wb.imm
  }

  function Forwarded(s: Core, rs: Reg, data: Word): Word {
    match Hazard.Select(rs, s.mem.rd, s.mem.regWrite, s.wb.rd, s.wb.regWrite)
    case FromMemStage => MemForward(s.mem)
    case FromWbStage => WbValue(s.wb, s.raw, s.rawLane)
    case FromRegister => data
  }

  function FwdA(s: Core): Word { Forwarded(s, s.ex.rs1, s.ex.rs1Data) }
  function FwdB(s: Core): Word { Forwarded(s, s.ex.rs2, s.ex.rs2Data) }

  // ---------------------------------------------------------------- EX datapath on resolved operands

  function AluOf(ex: IdEx, fa: Word, fb: Word): Word {
    Alu(if ex.ctrl.srcAPc then ex.pc else fa, if ex.ctrl.srcBImm then ex.imm else fb, ex.ctrl.aluOp)
  }

  predicate Fuse4Taken(ex: IdEx, fa: Word, fb: Word) {
    if ex.fuse4.bne then AluOf(ex, fa, fb) != 0 else AluOf(ex, fa, fb) == 0
  }

  predicate RedirectOf(ex: IdEx, fa: Word, fb: Word) {
    || (ex.ctrl.isBranch && BranchTaken(Funct3(ex.instr), fa, fb))
    || (ex.fuse4.valid && Fuse4Taken(ex, fa, fb))
    || ex.ctrl.isJal || ex.ctrl.isJalr || ex.ctrl.illegal
  }

  function TargetOf(ex: IdEx, fa: Word, mtvec: Word): Word {
    if ex.ctrl.illegal then mtvec
    else if ex.ctrl.isJalr then Add(fa, ex.imm) - Add(fa, ex.imm) % 2
    else if ex.fuse4.valid then ex.fuse4.target
    else Add(ex.pc, ex.imm)
  }

  function CsrOperation(op: Bits2, prior: Word, a: Word): Word {
    if op == 1 then a
    else if op == 2 then WordGate(Or, prior, a)
    else if op == 3 then WordGate(AndNot, prior, a)
    else 0
  }

  /** The inputs of the EX/MEM bank. */
  function ResultOf(ex: IdEx, fa: Word, fb: Word, mulDiv: Word, csrValue: Word): ExMem {
    var c := ex.ctrl;
    ExMem(if c.isCsr then csrValue else AluOf(ex, fa, fb),
          if c.isCsr then CsrOperation(ex.csrOp, csrValue, fa) else mulDiv,
          fb, Add(ex.pc, 4), ex.imm, ex.rd,
          c.regWrite, c.memRead, c.memWrite, c.memWidth, c.source, c.memUnsigned,
          c.isMulDiv, c.isCsr, ex.csrAddr, ex.pend)
  }

  // ---------------------------------------------------------------- multiply/divide start and freeze

  predicate MulDivStart(s: Core) { s.ex.ctrl.isMulDiv && !s.md.busy && !s.md.done }
  predicate MulDivActive(s: Core) { s.md.busy || MulDivStart(s) }
  predicate IsolActive(cfg: Cfg, s: Core) {
    cfg.isolEn && !MulDivActive(s) && !(cfg.brCmpEn && s.ex.ctrl.isBranch)
  }
  predicate GateOpen(cfg: Cfg, s: Core) { !cfg.isolEn || MulDivActive(s) }

  function MulDivInputs(cfg: Cfg, s: Core): MDI.Inputs {
    MDI.Inputs(MulDivStart(s), MulDivActive(s),
               Gate.Output(GateOpen(cfg, s), FwdA(s), s.holdA),
               Gate.Output(GateOpen(cfg, s), FwdB(s), s.holdB),
               s.ex.mulDivOp)
  }

  // ---------------------------------------------------------------- CSR access in EX

  function CsrValue(s: Core): Word {
    if s.mem.isCsr && s.mem.csrAddr == s.ex.csrAddr then s.mem.mulDivResult
    else if s.wb.isCsr && s.wb.csrAddr == s.ex.csrAddr then s.wb.mulDivResult
    else Csr.ReadPort(s.csr, s.ex.csrAddr)
  }

  function TrapOf(s: Core): Csr.Trap {
    if s.ex.ctrl.illegal then Csr.Trap(s.ex.pc, s.ex.instr) else Csr.NoTrap
  }

  // ---------------------------------------------------------------- redirect and hazards

  predicate Redirect(s: Core) { RedirectOf(s.ex, FwdA(s), FwdB(s)) }
  function Target(s: Core): Word { TargetOf(s.ex, FwdA(s), s.csr.csrs.mtvec) }

  predicate LoadInEx(s: Core) {
    Hazard.LoadUse(s.ex.ctrl.memRead, s.ex.rd, Rs1Of(s.id.instr), Rs2Of(s.id.instr))
  }
  predicate LoadInMem(s: Core) {
    Hazard.LoadUse(s.mem.memRead, s.mem.rd, Rs1Of(s.id.instr), Rs2Of(s.id.instr))
  }

  function Controls(s: Core): Hazard.Controls {
    Hazard.Control(LoadInEx(s), LoadInMem(s), Redirect(s), MulDivActive(s), s.pendActive)
  }

  predicate StallFront(s: Core) { Controls(s).stallFront }
  predicate Freeze(s: Core) { Controls(s).freeze }
  predicate FlushId(s: Core) { Controls(s).flushId }
  predicate FlushEx(s: Core) { Controls(s).flushEx }

  function FuseKind(cfg: Cfg, s: Core): Kind {
    Detect(cfg.fusionEn && !s.bound, s.id, s.ex, s.mem, s.wb)
  }

  /** `fusion_active`, the event counted in mhpmcounter5. */
  predicate FusionActive(cfg: Cfg, s: Core) {
    FuseKind(cfg, s) != Single && !Freeze(s) && !FlushEx(s)
  }

  // ---------------------------------------------------------------- register-file write port

  function PortWe(s: Core): bool { if s.fire.valid then true else s.wb.regWrite && !Freeze(s) }
  function PortAddr(s: Core): Reg { if s.fire.valid then s.fire.addr else s.wb.rd }
  function PortData(s: Core): Word {
    if s.fire.valid then s.fire.data else WbValue(s.wb, s.raw, s.rawLane)
  }

  function IdOperand(s: Core, r: Reg): Word { RF.ReadThrough(s.regs, PortWe(s), PortAddr(s), PortData(s), r) }

  // ---------------------------------------------------------------- next state

  function PcNext(s: Core): Word {
    if Redirect(s) then Target(s) else if StallFront(s) then s.pc else Add(s.pc, 4)
  }

  function NextFetch(imem: WordMem, s: Core): FetchReg {
    Loaded(s.fetch, StallFront(s), FlushId(s), FETCH_BUBBLE,
           FetchReg(s.pc, InstrAt(imem, s.pc), InstrAt(imem, Add(s.pc, 4))))
  }

  function NextId(cfg: Cfg, s: Core): IfId {
    Loaded(s.id, StallFront(s), FlushId(s) || (FuseKind(cfg, s) != Single && !StallFront(s)), ID_BUBBLE,
           IfId(s.fetch.pc, s.fetch.instr, s.fetch.next, !FlushId(s)))
  }

  function NextBound(s: Core): bool {
    if StallFront(s) then s.bound
    else if Decode(s.id.instr).isBound then true
    else if Decode(s.id.instr).isOff then false
    else s.bound
  }

  function NextEx(cfg: Cfg, s: Core): IdEx {
    Loaded(s.ex, Freeze(s), FlushEx(s), EX_BUBBLE,
           Slot(FuseKind(cfg, s), s.id, IdOperand(s, Rs1Of(s.id.instr)), IdOperand(s, Rs2Of(s.id.instr))))
  }

  function ExResult(s: Core): ExMem {
    ResultOf(s.ex, FwdA(s), FwdB(s), MDI.Result(s.md), CsrValue(s))
  }

  function MemResult(m: ExMem): MemWb {
    MemWb(m.aluResult, m.mulDivResult, m.pcPlus4, m.imm, m.rd, m.regWrite, m.source, m.isMulDiv,
          m.isCsr, m.csrAddr, m.memWidth, m.memUnsigned, m.pend)
  }

  /** The data memory with the MEM-stage store applied; stores to the UART register are dropped. */
  function Stored(mem: ExMem, dmem: WordMem): WordMem {
    if mem.memWrite && mem.aluResult != UART_TXDATA
    then StoreLanes(dmem, Offset(mem.aluResult), mem.memWidth, mem.rs2Data)
    else dmem
  }

  function NextPendActive(cfg: Cfg, s: Core): bool {
    if Defers(FuseKind(cfg, s)) && !StallFront(s) && !FlushEx(s) then true
    else if s.fire.valid then false
    else s.pendActive
  }

  function NextCsr(cfg: Cfg, s: Core): Csr.File {
    Csr.File(Csr.NextCsrs(s.csr.csrs, TrapOf(s), s.wb.isCsr && !Freeze(s), s.wb.csrAddr, s.wb.mulDivResult),
             Csr.NextCounters(s.csr.counters, MulDivStart(s), IsolActive(cfg, s), FusionActive(cfg, s)))
  }

  /** One clock edge. */
  function Tick(m: Machine, s: Core): Core {
    Core(
      PcNext(s), NextFetch(m.imem, s), NextId(m.cfg, s), NextBound(s),
      NextEx(m.cfg, s),
      Loaded(s.mem, Freeze(s), false, MEM_BUBBLE, ExResult(s)),
      Loaded(s.wb, Freeze(s), false, WB_BUBBLE, MemResult(s.mem)),
      if Freeze(s) then s.raw else s.dmem[Index(Offset(s.mem.aluResult))],
      if Freeze(s) then s.rawLane else Lane(Offset(s.mem.aluResult)),
      if Freeze(s) then s.fire else s.wb.pend,
      NextPendActive(m.cfg, s),
      RF.Write(s.regs, PortWe(s), PortAddr(s), PortData(s)),
      if Freeze(s) then s.dmem else Stored(s.mem, s.dmem),
      NextCsr(m.cfg, s),
      MDI.Next(s.md, MulDivInputs(m.cfg, s)),
      Gate.Output(GateOpen(m.cfg, s), FwdA(s), s.holdA),
      Gate.Output(GateOpen(m.cfg, s), FwdB(s), s.holdB))
  }

  function ClockEdge(m: Machine): Core -> Core { (c: Core) => Tick(m, c) }

  /** The state after `n` cycles. */
  function Run(m: Machine, s: Core, n: nat): Core {
    Iterate(ClockEdge(m), s, n)
  }

  lemma RunTicks(m: Machine, s: Core, n: nat)
    ensures Run(m, s, 0) == s && Run(m, s, n + 1) == Tick(m, Run(m, s, n))
  {
    hide Tick;
    IterateStep(ClockEdge(m), s, n);
  }
}
