/** Operand isolation is invisible: ISOL_EN and BR_CMP_EN change nothing but the gates' hold registers
    and the isolation counter, on every run of every program that does not read that counter. */
module Isolation {
  import opened Words
  import opened Isa
  import opened Memory
  import opened Fusion
  import opened Pipeline
  import Hazard
  import RF = RegFile
  import Csr = CsrFile
  import MDI = MulDivIter
  import Gate = IsolGate

  /** The same program and fusion setting; isolation parameters may differ. */
  predicate SameProgram(m: Machine, m': Machine) {
    m.imem == m'.imem && m.cfg.fusionEn == m'.cfg.fusionEn
  }

  /** Equal in everything but the hold registers and the isolation counter. */
  predicate SameButGates(c: Core, d: Core) {
    d == c.(holdA := d.holdA, holdB := d.holdB,
            csr := c.csr.(counters := c.csr.counters.(isol := d.csr.counters.isol)))
  }

  /** The instruction in EX takes the value of mhpmcounter4 from the CSR file. */
  predicate ReadsIsolCounter(c: Core) {
    && c.ex.ctrl.isCsr && c.ex.csrAddr == Csr.CSR_ISOL_ACTIVE
    && !(c.mem.isCsr && c.mem.csrAddr == c.ex.csrAddr)
    && !(c.wb.isCsr && c.wb.csrAddr == c.ex.csrAddr)
  }

  /** A start pulse opens the gates, so the unit samples the operands themselves. */
  lemma StartOpensGates(cfg: Cfg, c: Core)
    requires MulDivStart(c)
    ensures MulDivInputs(cfg, c) == MDI.Inputs(true, true, FwdA(c), FwdB(c), c.ex.mulDivOp)
  {
    hide FwdA, FwdB;
  }

  /** Without a start pulse the unit looks at no operand. */
  lemma OperandsIgnored(u: MDI.Unit, i: MDI.Inputs, j: MDI.Inputs)
    requires !i.start && !j.start
    ensures MDI.Next(u, i) == MDI.Next(u, j)
  {
    hide MDI.MulStep, MDI.DivStep;
  }

  lemma SameWires(c: Core, d: Core)
    requires SameButGates(c, d)
    ensures FwdA(d) == FwdA(c) && FwdB(d) == FwdB(c)
    ensures MulDivStart(d) == MulDivStart(c) && Controls(d) == Controls(c) && Target(d) == Target(c)
    ensures Redirect(d) == Redirect(c) && TrapOf(d) == TrapOf(c)
    ensures PortWe(d) == PortWe(c) && PortAddr(d) == PortAddr(c) && PortData(d) == PortData(c)
  {
    hide MemForward, WbValue, Hazard.Select, Hazard.LoadUse, Hazard.Control, RedirectOf, TargetOf, Rs1Of, Rs2Of;
  }

  lemma SameUnit(m: Machine, m': Machine, c: Core, d: Core)
    requires SameButGates(c, d)
    ensures MDI.Next(d.md, MulDivInputs(m'.cfg, d)) == MDI.Next(c.md, MulDivInputs(m.cfg, c))
  {
    hide FwdA, FwdB, MDI.Next, Redirect, Controls, Target, PortWe, PortAddr, PortData, TrapOf;
    SameWires(c, d);
    if MulDivStart(c) {
      StartOpensGates(m.cfg, c);
      StartOpensGates(m'.cfg, d);
    } else {
      OperandsIgnored(c.md, MulDivInputs(m.cfg, c), MulDivInputs(m'.cfg, d));
    }
  }

  /** The counter is the only way to tell the runs apart, and reading it does when the counts differ. */
  lemma SameExResult(c: Core, d: Core)
    requires SameButGates(c, d)
    ensures ExResult(d) == ExResult(c)
      <==> !ReadsIsolCounter(c) || d.csr.counters.isol == c.csr.counters.isol
  {
    hide FwdA, FwdB, Redirect, Controls, Target, PortWe, PortAddr, PortData, TrapOf, AluOf, CsrOperation, MDI.Result,
         MulDivStart, Csr.ReadCsr;
    SameWires(c, d);
  }

  lemma SameFusion(cfg: Cfg, cfg': Cfg, c: Core, d: Core)
    requires SameButGates(c, d) && cfg.fusionEn == cfg'.fusionEn
    ensures FuseKind(cfg', d) == FuseKind(cfg, c)
  {
    hide Detect;
  }

  lemma SameFrontEnd(m: Machine, m': Machine, c: Core, d: Core)
    requires SameProgram(m, m') && SameButGates(c, d)
    ensures PcNext(d) == PcNext(c) && NextFetch(m'.imem, d) == NextFetch(m.imem, c)
    ensures NextId(m'.cfg, d) == NextId(m.cfg, c) && NextBound(d) == NextBound(c)
    ensures NextEx(m'.cfg, d) == NextEx(m.cfg, c) && NextPendActive(m'.cfg, d) == NextPendActive(m.cfg, c)
    ensures Freeze(d) == Freeze(c)
  {
    hide FwdA, FwdB, Redirect, Controls, Target, PortWe, PortAddr, PortData, TrapOf, MulDivStart, FuseKind, Slot,
         RF.ReadThrough, InstrAt, Decode, Add, Rs1Of, Rs2Of;
    SameWires(c, d);
    SameFusion(m.cfg, m'.cfg, c, d);
  }

  lemma SameCsrs(m: Machine, m': Machine, c: Core, d: Core)
    requires SameProgram(m, m') && SameButGates(c, d)
    ensures var f, g := NextCsr(m.cfg, c), NextCsr(m'.cfg, d);
            g == f.(counters := f.counters.(isol := g.counters.isol))
  {
    hide FwdA, FwdB, Redirect, Controls, Target, PortWe, PortAddr, PortData, TrapOf, MulDivStart, FuseKind, IsolActive,
         Csr.WriteCsr, Add;
    SameWires(c, d);
    SameFusion(m.cfg, m'.cfg, c, d);
  }

  lemma SameTick(m: Machine, m': Machine, c: Core, d: Core)
    requires SameProgram(m, m') && SameButGates(c, d) && !ReadsIsolCounter(c)
    ensures SameButGates(Tick(m, c), Tick(m', d))
  {
    hide FwdA, FwdB, PortWe, PortAddr, PortData, MDI.Next, MulDivInputs, ExResult, Stored, RF.Write, MemResult,
         Gate.Output,
         Index, Offset, Lane, PcNext, NextFetch, NextId, NextBound, NextEx, NextPendActive, NextCsr, Freeze,
         SameProgram,
         TrapOf, Redirect, Controls, Target, MulDivStart, GateOpen;
    SameWires(c, d);
    SameUnit(m, m', c, d);
    SameExResult(c, d);
    SameFrontEnd(m, m', c, d);
    SameCsrs(m, m', c, d);
  }

  /** Cycle for cycle, over whole runs. */
  lemma {:induction false} IsolationIsTransparent(m: Machine, m': Machine, s: Core, s': Core, n: nat)
    requires SameProgram(m, m') && SameButGates(s, s')
    requires forall k | 0 <= k < n :: !ReadsIsolCounter(Run(m, s, k))
    ensures SameButGates(Run(m, s, n), Run(m', s', n))
  {
    hide SameProgram, SameButGates, ReadsIsolCounter, Run, Tick;
    RunTicks(m, s, if n > 0 then n - 1 else 0);
    RunTicks(m', s', if n > 0 then n - 1 else 0);
    if n > 0 {
      IsolationIsTransparent(m, m', s, s', n - 1);
      SameTick(m, m', Run(m, s, n - 1), Run(m', s', n - 1));
    }
  }

  // ---------------------------------------------------------------- what a closed gate drives

  /** The inputs of the two gates in the first `n` cycles. */
  function HistoryA(m: Machine, s: Core, n: nat): (ins: seq<Gate.Sample>)
    ensures |ins| == n
  {
    if n == 0 then []
    else HistoryA(m, s, n - 1) + [Gate.Sample(GateOpen(m.cfg, Run(m, s, n - 1)), FwdA(Run(m, s, n - 1)))]
  }

  function HistoryB(m: Machine, s: Core, n: nat): (ins: seq<Gate.Sample>)
    ensures |ins| == n
  {
    if n == 0 then []
    else HistoryB(m, s, n - 1) + [Gate.Sample(GateOpen(m.cfg, Run(m, s, n - 1)), FwdB(Run(m, s, n - 1)))]
  }

  lemma {:induction false} HistoryAt(m: Machine, s: Core, n: nat, k: nat)
    requires k < n
    ensures HistoryA(m, s, n)[k] == Gate.Sample(GateOpen(m.cfg, Run(m, s, k)), FwdA(Run(m, s, k)))
    ensures HistoryB(m, s, n)[k] == Gate.Sample(GateOpen(m.cfg, Run(m, s, k)), FwdB(Run(m, s, k)))
  {
    hide GateOpen, Run, FwdA, FwdB;
    if k < n - 1 { HistoryAt(m, s, n - 1, k); }
  }

  lemma HoldTicks(m: Machine, c: Core)
    ensures Tick(m, c).holdA == Gate.Output(GateOpen(m.cfg, c), FwdA(c), c.holdA)
    ensures Tick(m, c).holdB == Gate.Output(GateOpen(m.cfg, c), FwdB(c), c.holdB)
  {
    hide GateOpen, FwdA, FwdB;
  }

  lemma HoldAt(m: Machine, s: Core, n: nat)
    ensures n == 0 ==> Run(m, s, n) == s
    ensures n > 0 ==>
      var c := Run(m, s, n - 1);
      && Run(m, s, n).holdA == Gate.Output(GateOpen(m.cfg, c), FwdA(c), c.holdA)
      && Run(m, s, n).holdB == Gate.Output(GateOpen(m.cfg, c), FwdB(c), c.holdB)
  {
    hide Run, Tick, GateOpen, FwdA, FwdB, Gate.Output;
    RunTicks(m, s, if n > 0 then n - 1 else 0);
    if n > 0 { HoldTicks(m, Run(m, s, n - 1)); }
  }

  /** The hold registers are what the gates' whole history leaves. */
  lemma {:induction false} HoldRegisters(m: Machine, s: Core, n: nat)
    ensures Run(m, s, n).holdA == Gate.HeldAfter(HistoryA(m, s, n), s.holdA)
    ensures Run(m, s, n).holdB == Gate.HeldAfter(HistoryB(m, s, n), s.holdB)
  {
    hide Run, GateOpen, FwdA, FwdB, Gate.Output;
    HoldAt(m, s, n);
    if n > 0 {
      hide Gate.HeldAfter;
      HoldRegisters(m, s, n - 1);
      var c := Run(m, s, n - 1);
      Gate.HeldNext(HistoryA(m, s, n - 1), GateOpen(m.cfg, c), FwdA(c), s.holdA);
      Gate.HeldNext(HistoryB(m, s, n - 1), GateOpen(m.cfg, c), FwdB(c), s.holdB);
    }
  }

  /** What the unit's operand inputs take from a closed gate. */
  lemma ClosedGateDrives(cfg: Cfg, c: Core)
    requires !GateOpen(cfg, c)
    ensures MulDivInputs(cfg, c).a == c.holdA && MulDivInputs(cfg, c).b == c.holdB
  {
    hide FwdA, FwdB, MulDivStart, MulDivActive;
  }

  /** While the gates are closed the unit's operand inputs do not move: they stay what they were in the last
      cycle in which the gates were open. */
  lemma ClosedGatesHold(m: Machine, s: Core, k: nat, n: nat)
    requires k < n && GateOpen(m.cfg, Run(m, s, k)) && forall j | k < j <= n :: !GateOpen(m.cfg, Run(m, s, j))
    ensures var i := MulDivInputs(m.cfg, Run(m, s, n)); i.a == FwdA(Run(m, s, k)) && i.b == FwdB(Run(m, s, k))
  {
    hide GateOpen, Run, FwdA, FwdB, Gate.HeldAfter, MulDivInputs, HistoryA, HistoryB;
    ClosedGateDrives(m.cfg, Run(m, s, n));
    HoldRegisters(m, s, n);
    forall j | k <= j < n
      ensures HistoryA(m, s, n)[j] == Gate.Sample(GateOpen(m.cfg, Run(m, s, j)), FwdA(Run(m, s, j)))
      ensures HistoryB(m, s, n)[j] == Gate.Sample(GateOpen(m.cfg, Run(m, s, j)), FwdB(Run(m, s, j)))
    {
      HistoryAt(m, s, n, j);
    }
    Gate.HoldsLastOperand(HistoryA(m, s, n), s.holdA, k);
    Gate.HoldsLastOperand(HistoryB(m, s, n), s.holdB, k);
  }

  /** Before they first open, the inputs are the power-up values of the hold registers. */
  lemma UnopenedGatesHold(m: Machine, s: Core, n: nat)
    requires forall j | 0 <= j <= n :: !GateOpen(m.cfg, Run(m, s, j))
    ensures var i := MulDivInputs(m.cfg, Run(m, s, n)); i.a == s.holdA && i.b == s.holdB
  {
    hide GateOpen, Run, FwdA, FwdB, Gate.HeldAfter, MulDivInputs, HistoryA, HistoryB;
    ClosedGateDrives(m.cfg, Run(m, s, n));
    HoldRegisters(m, s, n);
    forall j | 0 <= j < n
      ensures !HistoryA(m, s, n)[j].en && !HistoryB(m, s, n)[j].en
    {
      HistoryAt(m, s, n, j);
    }
    Gate.HoldsInitial(HistoryA(m, s, n), s.holdA);
    Gate.HoldsInitial(HistoryB(m, s, n), s.holdB);
  }
}
