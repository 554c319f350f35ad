/** rtl/core_top_pipelined.sv as clocked hardware: its register banks, register file, CSR file, operand
    gates, multiply/divide unit and data memory are updated in place, and one `Clock` is one `Tick`. */
module PipelinedCore {
  import opened Words
  import opened Isa
  import opened Memory
  import opened PipelineRegs
  import opened Fusion
  import opened Pipeline
  import Hazard
  import RF = RegFile
  import Csr = CsrFile
  import Gate = IsolGate
  import MDI = MulDivIter

  /** The combinational outputs sampled at a clock edge. */
  datatype Wires = Wires(
    controls: Hazard.Controls, redirect: bool, pcNext: Word, kind: Kind, fusionActive: bool,
    start: bool, isolActive: bool, gateOpen: bool, fwdA: Word, fwdB: Word, unitInputs: MDI.Inputs,
    portWe: bool, portAddr: Reg, portData: Word, slot: IdEx, result: ExMem)

  ghost function WiresOf(cfg: Cfg, s: Core): Wires {
    Wires(Controls(s), Redirect(s), PcNext(s), FuseKind(cfg, s), FusionActive(cfg, s),
          MulDivStart(s), IsolActive(cfg, s), GateOpen(cfg, s), FwdA(s), FwdB(s), MulDivInputs(cfg, s),
          PortWe(s), PortAddr(s), PortData(s),
          Slot(FuseKind(cfg, s), s.id, IdOperand(s, Rs1Of(s.id.instr)), IdOperand(s, Rs2Of(s.id.instr))),
          ExResult(s))
  }

  // ---------------------------------------------------------------- the parts of a clock edge

  ghost function AfterFetch(imem: WordMem, s: Core, w: Wires): Core {
    var c := w.controls;
    s.(pc := if w.redirect || !c.stallFront then w.pcNext else s.pc,
       fetch := Loaded(s.fetch, c.stallFront, c.flushId, FETCH_BUBBLE,
                       FetchReg(s.pc, InstrAt(imem, s.pc), InstrAt(imem, Add(s.pc, 4)))),
       id := Loaded(s.id, c.stallFront, c.flushId || (w.kind != Single && !c.stallFront), ID_BUBBLE,
                    IfId(s.fetch.pc, s.fetch.instr, s.fetch.next, !c.flushId)))
  }

  ghost function AfterFlags(s: Core, w: Wires): Core {
    var c, d := w.controls, Decode(s.id.instr);
    s.(bound := if c.stallFront then s.bound else d.isBound || (!d.isOff && s.bound),
       pendActive := (Defers(w.kind) && !c.stallFront && !c.flushEx) || (!s.fire.valid && s.pendActive))
  }

  ghost function AfterBanks(s: Core, w: Wires): Core {
    var c := w.controls;
    s.(fire := if c.freeze then s.fire else s.wb.pend,
       wb := Loaded(s.wb, c.freeze, false, WB_BUBBLE, MemResult(s.mem)),
       mem := Loaded(s.mem, c.freeze, false, MEM_BUBBLE, w.result),
       ex := Loaded(s.ex, c.freeze, c.flushEx, EX_BUBBLE, w.slot))
  }

  ghost function AfterRegisters(s: Core, w: Wires): Core {
    s.(regs := RF.Write(s.regs, w.portWe, w.portAddr, w.portData))
  }

  ghost function AfterCsrs(s: Core, w: Wires): Core {
    s.(csr := Csr.File(Csr.NextCsrs(s.csr.csrs, TrapOf(s), s.wb.isCsr && !w.controls.freeze, s.wb.csrAddr,
                                    s.wb.mulDivResult),
                       Csr.NextCounters(s.csr.counters, w.start, w.isolActive, w.fusionActive)))
  }

  ghost function AfterUnit(s: Core, w: Wires): Core {
    s.(md := MDI.Next(s.md, w.unitInputs),
       holdA := Gate.Output(w.gateOpen, w.fwdA, s.holdA),
       holdB := Gate.Output(w.gateOpen, w.fwdB, s.holdB))
  }

  ghost function AfterMemory(s: Core, freeze: bool): Core {
    if freeze then s
    else s.(raw := s.dmem[Index(Offset(s.mem.aluResult))], rawLane := Lane(Offset(s.mem.aluResult)),
            dmem := Stored(s.mem, s.dmem))
  }

  /** The edges touch disjoint registers, so doing them one after the other on wires settled before is
      the simultaneous clock edge. */
  lemma EdgesMakeATick(m: Machine, s: Core)
    ensures var w := WiresOf(m.cfg, s);
            var stored := AfterMemory(AfterUnit(AfterCsrs(AfterRegisters(s, w), w), w), w.controls.freeze);
            AfterBanks(AfterFetch(m.imem, AfterFlags(stored, w), w), w) == Tick(m, s)
  {
    hide FwdA, FwdB, Redirect, Target, FuseKind, MulDivStart, MulDivInputs, IsolActive, GateOpen, FusionActive, PortWe,
         PortAddr, PortData, ExResult, MemResult, Slot, IdOperand, Stored, RF.Write, Csr.NextCsrs, Csr.NextCounters,
         MDI.Next, Gate.Output, InstrAt, Decode, Index, Offset, Lane, Add, Controls, Rs1Of, Rs2Of;
    FlushIsRedirectWire(s);
  }

  lemma FlushIsRedirectWire(s: Core)
    ensures Redirect(s) ==> Controls(s).flushId
    ensures !Redirect(s) && StallFront(s) ==> PcNext(s) == s.pc
  {
    hide Redirect, LoadInEx, LoadInMem, MulDivActive, Target;
  }

  ghost function OutOfReset(registers: RF.Regs, image: WordMem, hold: Word): (s: Core)
    ensures IsReset(s) && s.regs == registers && s.dmem == image
  {
    Core(MEM_BASE, FETCH_BUBBLE, ID_BUBBLE, false, EX_BUBBLE, MEM_BUBBLE, WB_BUBBLE, 0, 0, NO_PEND, false,
         registers, image, Csr.RESET, MDI.RESET, hold, hold)
  }

  /** `$readmemh` into a fresh memory. */
  method LoadedMemory(image: WordMem) returns (d: array<Word>)
    ensures fresh(d) && d.Length == 0x8000 && d[..] == image
  {
    d := new Word[0x8000](i requires 0 <= i < 0x8000 => image[i]);
  }

  /** The four banks, cleared. */
  method ClearedBanks() returns (id: StageReg<IfId>, ex: StageReg<IdEx>, mem: StageReg<ExMem>, wb: StageReg<MemWb>)
    ensures fresh(id) && fresh(ex) && fresh(mem) && fresh(wb)
    ensures id.q == id.bubble == ID_BUBBLE && ex.q == ex.bubble == EX_BUBBLE
    ensures mem.q == mem.bubble == MEM_BUBBLE && wb.q == wb.bubble == WB_BUBBLE
  {
    id := new StageReg(ID_BUBBLE);
    ex := new StageReg(EX_BUBBLE);
    mem := new StageReg(MEM_BUBBLE);
    wb := new StageReg(WB_BUBBLE);
  }

  /** The CSR file, the multiply/divide unit and the operand gates, reset. */
  method ResetUnits(hold: Word)
    returns (csr: Csr.CsrRegisters, md: MDI.IterativeUnit, gateA: Gate.OperandGate, gateB: Gate.OperandGate)
    ensures fresh(csr) && fresh(md) && fresh(gateA) && fresh(gateB) && gateA != gateB
    ensures csr.Contents() == Csr.RESET && md.State() == MDI.RESET && gateA.hold == gateB.hold == hold
  {
    csr := new Csr.CsrRegisters();
    md := new MDI.IterativeUnit();
    gateA := new Gate.OperandGate(hold);
    gateB := new Gate.OperandGate(hold);
  }

  class PipelinedCore {
    const cfg: Cfg
    const imem: WordMem
    var pc: Word
    var fetch: FetchReg
    var bound: bool
    var raw: Word
    var rawLane: Bits2
    var fire: Pend
    var pendActive: bool
    const id: StageReg<IfId>
    const ex: StageReg<IdEx>
    const mem: StageReg<ExMem>
    const wb: StageReg<MemWb>
    const regs: RF.RegisterFile
    const csr: Csr.CsrRegisters
    const md: MDI.IterativeUnit
    const gateA: Gate.OperandGate
    const gateB: Gate.OperandGate
    const dmem: array<Word>

    ghost function Repr(): set<object>
      reads this, regs
    {
      {this, id, ex, mem, wb, regs, regs.regs, csr, md, gateA, gateB, dmem}
    }

    /** Components of one type are different objects, and the banks clear to the right bubbles. */
    ghost predicate Valid()
      reads this, regs
    {
      && regs.Valid() && dmem.Length == 0x8000 && regs.regs != dmem && gateA != gateB
      && id.bubble == ID_BUBBLE && ex.bubble == EX_BUBBLE && mem.bubble == MEM_BUBBLE && wb.bubble == WB_BUBBLE
    }

    ghost function State(): Core
      requires Valid()
      reads this, regs, Repr()
    {
      Core(pc, fetch, id.q, bound, ex.q, mem.q, wb.q, raw, rawLane, fire, pendActive,
           regs.Contents(), dmem[..], csr.Contents(), md.State(), gateA.hold, gateB.hold)
    }

    /** Every register at its reset value; registers, data memory and the unreset flip-flops as given. */
    ghost predicate PoweredUp(registers: RF.Regs, image: WordMem, hold: Word)
      requires Valid()
      reads this, regs, Repr()
    {
      && pc == MEM_BASE && fetch == FETCH_BUBBLE && !bound && raw == 0 && rawLane == 0 && fire == NO_PEND && !pendActive
      && id.q == ID_BUBBLE && ex.q == EX_BUBBLE && mem.q == MEM_BUBBLE && wb.q == WB_BUBBLE
      && regs.Contents() == registers && dmem[..] == image && gateA.hold == gateB.hold == hold
      && csr.Contents() == Csr.RESET && md.State() == MDI.RESET
    }

    constructor (cfg: Cfg, imem: WordMem, registers: RF.Regs, image: WordMem, hold: Word)
      ensures Valid() && fresh(Repr()) && PoweredUp(registers, image, hold)
      ensures this.cfg == cfg && this.imem == imem
    {
      this.cfg, this.imem := cfg, imem;
      pc, fetch, bound, raw, rawLane, fire, pendActive := MEM_BASE, FETCH_BUBBLE, false, 0, 0, NO_PEND, false;
      var loaded := LoadedMemory(image);
      var file := new RF.RegisterFile(registers);
      var idBank, exBank, memBank, wbBank := ClearedBanks();
      var csrFile, unit, a, b := ResetUnits(hold);
      dmem, regs := loaded, file;
      id, ex, mem, wb := idBank, exBank, memBank, wbBank;
      csr, md, gateA, gateB := csrFile, unit, a, b;
    }

    lemma PoweredUpIsReset(registers: RF.Regs, image: WordMem, hold: Word)
      requires Valid() && PoweredUp(registers, image, hold)
      ensures State() == OutOfReset(registers, image, hold) && IsReset(State())
    {
    }

    /** A forwarding multiplexer in front of EX. */
    method Operand(rs: Reg, data: Word) returns (v: Word)
      requires Valid()
      ensures v == Forwarded(State(), rs, data)
    {
      match Hazard.Select(rs, mem.q.rd, mem.q.regWrite, wb.q.rd, wb.q.regWrite)
      case FromMemStage => v := MemForward(mem.q);
      case FromWbStage => v := WbValue(wb.q, raw, rawLane);
      case FromRegister => v := data;
    }

    /** The CSR read in EX, with the two writes ahead of it. */
    method CsrOperand() returns (v: Word)
      requires Valid()
      ensures v == CsrValue(State())
    {
      hide Csr.ReadPort;
      if mem.q.isCsr && mem.q.csrAddr == ex.q.csrAddr { v := mem.q.mulDivResult; }
      else if wb.q.isCsr && wb.q.csrAddr == ex.q.csrAddr { v := wb.q.mulDivResult; }
      else { v := csr.Read(ex.q.csrAddr); }
    }

    /** The multiply/divide start, the stall it causes, and isolation. */
    method UnitControl() returns (start: bool, active: bool, isolActive: bool, gateOpen: bool)
      requires Valid()
      ensures start == MulDivStart(State()) && active == MulDivActive(State())
      ensures isolActive == IsolActive(cfg, State()) && gateOpen == GateOpen(cfg, State())
    {
      start := ex.q.ctrl.isMulDiv && !md.busy && !md.done;
      active := md.busy || start;
      isolActive := cfg.isolEn && !active && !(cfg.brCmpEn && ex.q.ctrl.isBranch);
      gateOpen := !cfg.isolEn || active;
    }

    /** The unit's inputs, behind the operand gates. */
    method UnitOperands(start: bool, active: bool, gateOpen: bool, fwdA: Word, fwdB: Word) returns (i: MDI.Inputs)
      requires Valid() && fwdA == FwdA(State()) && fwdB == FwdB(State())
      requires start == MulDivStart(State()) && active == MulDivActive(State()) && gateOpen == GateOpen(cfg, State())
      ensures i == MulDivInputs(cfg, State())
    {
      hide FwdA, FwdB, MulDivStart, MulDivActive, GateOpen;
      var a := gateA.Drive(gateOpen, fwdA);
      var b := gateB.Drive(gateOpen, fwdB);
      i := MDI.Inputs(start, active, a, b, ex.q.mulDivOp);
    }

    /** The EX results. */
    method ExecuteResult(fwdA: Word, fwdB: Word) returns (x: ExMem)
      requires Valid() && fwdA == FwdA(State()) && fwdB == FwdB(State())
      ensures x == ExResult(State())
    {
      hide FwdA, FwdB, CsrValue, MDI.Result, ResultOf;
      var csrValue := CsrOperand();
      var unitResult := md.Output();
      x := ResultOf(ex.q, fwdA, fwdB, unitResult, csrValue);
    }

    /** Both EX operands after forwarding. */
    method Operands() returns (fwdA: Word, fwdB: Word)
      requires Valid()
      ensures fwdA == FwdA(State()) && fwdB == FwdB(State())
    {
      hide Forwarded;
      fwdA := Operand(ex.q.rs1, ex.q.rs1Data);
      fwdB := Operand(ex.q.rs2, ex.q.rs2Data);
    }

    /** The redirect, the next fetch address and the hazard unit. */
    method Hazards(fwdA: Word, fwdB: Word, active: bool)
      returns (controls: Hazard.Controls, redirect: bool, pcNext: Word)
      requires Valid() && fwdA == FwdA(State()) && fwdB == FwdB(State()) && active == MulDivActive(State())
      ensures controls == Controls(State()) && redirect == Redirect(State()) && pcNext == PcNext(State())
    {
      hide FwdA, FwdB, MulDivActive, RedirectOf, TargetOf, Hazard.LoadUse, Rs1Of, Rs2Of, Add;
      redirect := RedirectOf(ex.q, fwdA, fwdB);
      var rs1, rs2 := Rs1Of(id.q.instr), Rs2Of(id.q.instr);
      controls := Hazard.Control(Hazard.LoadUse(ex.q.ctrl.memRead, ex.q.rd, rs1, rs2),
                                 Hazard.LoadUse(mem.q.memRead, mem.q.rd, rs1, rs2),
                                 redirect, active, pendActive);
      pcNext := if redirect then TargetOf(ex.q, fwdA, csr.mtvec)
                else if controls.stallFront then pc else Add(pc, 4);
    }

    /** Write-port arbitration: a firing deferred write takes the port. */
    method WritePort(freeze: bool) returns (we: bool, addr: Reg, data: Word)
      requires Valid() && freeze == Freeze(State())
      ensures we == PortWe(State()) && addr == PortAddr(State()) && data == PortData(State())
    {
      hide Freeze, WbValue;
      we := if fire.valid then true else wb.q.regWrite && !freeze;
      addr := if fire.valid then fire.addr else wb.q.rd;
      data := if fire.valid then fire.data else WbValue(wb.q, raw, rawLane);
    }

    /** Fusion detection and the register reads of decode. */
    method DecodeSlot(we: bool, addr: Reg, data: Word) returns (kind: Kind, slot: IdEx)
      requires Valid() && we == PortWe(State()) && addr == PortAddr(State()) && data == PortData(State())
      ensures kind == FuseKind(cfg, State())
      ensures slot == Slot(kind, State().id, IdOperand(State(), Rs1Of(State().id.instr)),
                           IdOperand(State(), Rs2Of(State().id.instr)))
    {
      hide PortWe, PortAddr, PortData, Slot, Detect, RF.Read, RF.Write, Rs1Of, Rs2Of;
      kind := Detect(cfg.fusionEn && !bound, id.q, ex.q, mem.q, wb.q);
      var d1 := regs.ReadPort(Rs1Of(id.q.instr), we, addr, data);
      var d2 := regs.ReadPort(Rs2Of(id.q.instr), we, addr, data);
      slot := Slot(kind, id.q, d1, d2);
    }

    /** Decode and writeback: the write port, then the slot offered to EX. */
    method SettleDecode(freeze: bool) returns (we: bool, addr: Reg, data: Word, kind: Kind, slot: IdEx)
      requires Valid() && freeze == Freeze(State())
      ensures we == PortWe(State()) && addr == PortAddr(State()) && data == PortData(State())
      ensures kind == FuseKind(cfg, State())
      ensures slot == Slot(kind, State().id, IdOperand(State(), Rs1Of(State().id.instr)),
                           IdOperand(State(), Rs2Of(State().id.instr)))
    {
      hide PortWe, PortAddr, PortData, FuseKind, Slot, IdOperand, Freeze, Rs1Of, Rs2Of;
      we, addr, data := WritePort(freeze);
      kind, slot := DecodeSlot(we, addr, data);
    }

    /** Execute: operands, hazards, redirect and results. */
    method SettleExecute() returns (fwdA: Word, fwdB: Word, start: bool, active: bool, isolActive: bool, gateOpen: bool,
                                    controls: Hazard.Controls, redirect: bool, pcNext: Word, result: ExMem)
      requires Valid()
      ensures fwdA == FwdA(State()) && fwdB == FwdB(State()) && result == ExResult(State())
      ensures start == MulDivStart(State()) && active == MulDivActive(State())
      ensures isolActive == IsolActive(cfg, State()) && gateOpen == GateOpen(cfg, State())
      ensures controls == Controls(State()) && redirect == Redirect(State()) && pcNext == PcNext(State())
    {
      hide FwdA, FwdB, Controls, Redirect, PcNext, ExResult, MulDivStart, MulDivActive, IsolActive, GateOpen;
      fwdA, fwdB := Operands();
      start, active, isolActive, gateOpen := UnitControl();
      controls, redirect, pcNext := Hazards(fwdA, fwdB, active);
      result := ExecuteResult(fwdA, fwdB);
    }

    /** Everything combinational. */
    method Settle() returns (w: Wires)
      requires Valid()
      ensures w == WiresOf(cfg, State())
    {
      hide FwdA, FwdB, Controls, Redirect, PcNext, FuseKind, MulDivInputs, PortWe, PortAddr, PortData, Slot,
           IdOperand, ExResult, MulDivStart, MulDivActive, IsolActive, GateOpen, Rs1Of, Rs2Of;
      var fwdA, fwdB, start, active, isolActive, gateOpen, controls, redirect, pcNext, result := SettleExecute();
      var inputs := UnitOperands(start, active, gateOpen, fwdA, fwdB);
      var we, addr, data, kind, slot := SettleDecode(controls.freeze);
      w := Wires(controls, redirect, pcNext, kind, kind != Single && !controls.freeze && !controls.flushEx,
                 start, isolActive, gateOpen, fwdA, fwdB, inputs, we, addr, data, slot, result);
    }

    /** The data memory's write port: each enabled byte lane of the addressed word. */
    method WriteLanes(off: Word, width: Bits2, data: Word)
      requires Valid()
      modifies dmem
      ensures dmem[..] == StoreLanes(old(dmem[..]), off, width, data)
    {
      hide ByteAt, LaneEnabled, ShiftedData, Pack;
      var prior, lane, shifted := dmem[Index(off)], Lane(off), ShiftedData(width, Lane(off), data);
      var b0 := ByteAt(if LaneEnabled(width, lane, 0) then shifted else prior, 0);
      var b1 := ByteAt(if LaneEnabled(width, lane, 1) then shifted else prior, 1);
      var b2 := ByteAt(if LaneEnabled(width, lane, 2) then shifted else prior, 2);
      var b3 := ByteAt(if LaneEnabled(width, lane, 3) then shifted else prior, 3);
      dmem[Index(off)] := Pack(b0, b1, b2, b3);
    }

    /** The data memory's edge: the registered read, then the store. */
    method ClockMemory(freeze: bool)
      requires Valid()
      modifies this`raw, this`rawLane, dmem
      ensures Valid()
      ensures State() == AfterMemory(old(State()), freeze)
    {
      hide Index, Offset, Lane, StoreLanes;
      if !freeze {
        var off := Offset(mem.q.aluResult);
        raw, rawLane := dmem[Index(off)], Lane(off);
        if mem.q.memWrite && mem.q.aluResult != UART_TXDATA {
          WriteLanes(off, mem.q.memWidth, mem.q.rs2Data);
        }
      }
    }

    /** The program counter, the fetch register and IF/ID. */
    method ClockFetch(w: Wires)
      requires Valid()
      modifies this`pc, this`fetch, id
      ensures Valid()
      ensures State() == AfterFetch(imem, old(State()), w)
    {
      hide InstrAt, Add;
      var c := w.controls;
      id.Clock(c.stallFront, c.flushId || (w.kind != Single && !c.stallFront),
               IfId(fetch.pc, fetch.instr, fetch.next, !c.flushId));
      if c.flushId { fetch := FETCH_BUBBLE; }
      else if !c.stallFront { fetch := FetchReg(pc, InstrAt(imem, pc), InstrAt(imem, Add(pc, 4))); }
      if w.redirect || !c.stallFront { pc := w.pcNext; }
    }

    /** The FISOL region flag and the deferred-write flag. */
    method ClockFlags(w: Wires)
      requires Valid()
      modifies this`bound, this`pendActive
      ensures Valid()
      ensures State() == AfterFlags(old(State()), w)
    {
      hide Decode;
      var c, d := w.controls, Decode(id.q.instr);
      if Defers(w.kind) && !c.stallFront && !c.flushEx { pendActive := true; }
      else if fire.valid { pendActive := false; }
      if !c.stallFront {
        if d.isBound { bound := true; } else if d.isOff { bound := false; }
      }
    }

    /** The banks behind decode and the firing register. */
    method ClockBanks(w: Wires)
      requires Valid()
      modifies this`fire, ex, mem, wb
      ensures Valid()
      ensures State() == AfterBanks(old(State()), w)
    {
      hide MemResult;
      var c := w.controls;
      if !c.freeze { fire := wb.q.pend; }
      wb.Clock(c.freeze, false, MemResult(mem.q));
      mem.Clock(c.freeze, false, w.result);
      ex.Clock(c.freeze, c.flushEx, w.slot);
    }

    /** The register file's write port. */
    method ClockRegisters(w: Wires)
      requires Valid()
      modifies regs.regs
      ensures Valid()
      ensures State() == AfterRegisters(old(State()), w)
    {
      hide RF.Write;
      regs.Clock(w.portWe, w.portAddr, w.portData);
    }

    /** The CSR file: a trap wins over the write from WB; the counters take their events. */
    method ClockCsrs(w: Wires)
      requires Valid()
      modifies csr
      ensures Valid()
      ensures State() == AfterCsrs(old(State()), w)
    {
      hide Csr.NextCsrs, Csr.NextCounters;
      var trap := if ex.q.ctrl.illegal then Csr.Trap(ex.q.pc, ex.q.instr) else Csr.NoTrap;
      csr.Clock(trap, wb.q.isCsr && !w.controls.freeze, wb.q.csrAddr, wb.q.mulDivResult,
                w.start, w.isolActive, w.fusionActive);
    }

    /** The multiply/divide unit and the operand gates. */
    method ClockUnit(w: Wires)
      requires Valid()
      modifies md, gateA, gateB
      ensures Valid()
      ensures State() == AfterUnit(old(State()), w)
    {
      hide MDI.Next, Gate.Output;
      md.Clock(w.unitInputs);
      gateA.Clock(w.gateOpen, w.fwdA);
      gateB.Clock(w.gateOpen, w.fwdB);
    }

    /** One clock edge: every register samples the wires settled before it. */
    method Clock()
      requires Valid()
      modifies Repr()
      ensures Valid()
      ensures State() == Tick(Machine(cfg, imem), old(State()))
    {
      hide AfterFetch, AfterFlags, AfterBanks, AfterRegisters, AfterCsrs, AfterUnit, AfterMemory, WiresOf, Tick;
      ghost var s := State();
      var w := Settle();
      ClockRegisters(w);
      ClockCsrs(w);
      ClockUnit(w);
      ClockMemory(w.controls.freeze);
      ClockFlags(w);
      ClockFetch(w);
      ClockBanks(w);
      EdgesMakeATick(Machine(cfg, imem), s);
    }
  }
}
