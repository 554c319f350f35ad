/** What software reads at the CSR addresses of rtl/csr_file.sv, on any program: counters over whole runs, the
    reset values, and what a trap records.  Addresses are the architectural numbers. */
module CsrPorts {
  import opened Words
  import opened Pipeline
  import opened Refinement
  import opened Sequential
  import opened Runs
  import opened Control
  import opened Counters
  import Csr = CsrFile

  // ---------------------------------------------------------------- counters

  /** Cycles among the first `n` in which a multiplication or division starts. */
  function StartsBefore(m: Machine, s: Core, n: nat): nat {
    if n == 0 then 0 else StartsBefore(m, s, n - 1) + (if MulDivStart(Run(m, s, n - 1)) then 1 else 0)
  }

  /** A cycle that ISOL_EN isolates: the pipeline is not frozen for the multiply/divide unit, and, with
      BR_CMP_EN, no branch is in EX. */
  predicate Isolated(cfg: Cfg, c: Core) { cfg.isolEn && !Freeze(c) && !(cfg.brCmpEn && c.ex.ctrl.isBranch) }

  function IsolatedBefore(m: Machine, s: Core, n: nat): nat {
    if n == 0 then 0 else IsolatedBefore(m, s, n - 1) + (if Isolated(m.cfg, Run(m, s, n - 1)) then 1 else 0)
  }

  /** The gates are closed in exactly the cycles in which ISOL_EN is set and the pipeline is not frozen. */
  lemma GatesFollowFreeze(cfg: Cfg, c: Core)
    ensures GateOpen(cfg, c) <==> !cfg.isolEn || Freeze(c)
    ensures IsolActive(cfg, c) <==> Isolated(cfg, c)
  {
    hide Redirect, LoadInEx, LoadInMem, MulDivActive;
    FlushIsRedirect(c);
  }

  /** In every cycle of every program: the gates are closed if and only if ISOL_EN is set and no multiplication
      or division starts or runs, that is, none has started in this cycle or one of the 33 before. */
  lemma GatesClosedExactly(m: Machine, s: Core, n: nat)
    requires IsReset(s)
    ensures !GateOpen(m.cfg, Run(m, s, n))
       <==> m.cfg.isolEn && forall j: nat | j <= n < j + 34 :: !MulDivStart(Run(m, s, j))
  {
    hide IsReset, Run, Freeze, GateOpen, MulDivStart, MulDivActive, IsolActive;
    GatesFollowFreeze(m.cfg, Run(m, s, n));
    FrozenSinceStart(m, s, n);
    forall j: nat | j <= n < j + 34 && MulDivStart(Run(m, s, j))
      ensures Freeze(Run(m, s, n))
    {
      StartedFreeze(m, s, j, n);
    }
  }

  lemma StartedFreeze(m: Machine, s: Core, j: nat, n: nat)
    requires IsReset(s) && MulDivStart(Run(m, s, j)) && j <= n < j + 34
    ensures Freeze(Run(m, s, n))
  {
    hide IsReset, Run, Freeze, MulDivStart, FreezeTime;
    UnitAt(m, s, j);
    UnitCounts(Run(m, s, j));
    FreezeCounts(m, s, j, n);
  }

  /** Every freeze goes back to a start within it. */
  lemma {:induction false} FrozenSinceStart(m: Machine, s: Core, n: nat)
    requires IsReset(s)
    ensures Freeze(Run(m, s, n)) ==> exists j: nat :: j <= n < j + 34 && MulDivStart(Run(m, s, j))
    decreases n
  {
    hide IsReset, Run, TokRun, Freeze, MulDivStart, FreezeTime, Tick;
    if Freeze(Run(m, s, n)) && !MulDivStart(Run(m, s, n)) {
      RunIsTick(m, s, if n > 0 then n - 1 else 0);
      if n == 0 {
        AtReset(m, s);
        RestingAtReset(s);
      } else {
        UnitAt(m, s, n - 1);
        FrozenBefore(m, Run(m, s, n - 1));
        FrozenSinceStart(m, s, n - 1);
        var j: nat :| j <= n - 1 < j + 34 && MulDivStart(Run(m, s, j));
        UnitAt(m, s, j);
        UnitCounts(Run(m, s, j));
        if n == j + 34 { FreezeCounts(m, s, j, n); }
      }
    }
  }

  lemma RestingAtReset(s: Core)
    requires IsReset(s)
    ensures !Freeze(s)
  {
    hide Redirect, LoadInEx, LoadInMem;
  }

  /** A frozen cycle without a start continues a frozen one. */
  lemma FrozenBefore(m: Machine, c: Core)
    requires UnitOk(c.md)
    ensures Freeze(Tick(m, c)) && !MulDivStart(Tick(m, c)) ==> Freeze(c)
  {
    hide Redirect, LoadInEx, LoadInMem, Tick, UnitOk, Freeze, MulDivActive;
    if !Freeze(c) {
      UnitRests(m, c);
      UnitTicks(m, c);
      FreezeCauses(Tick(m, c));
    }
  }

  lemma FreezeCauses(c: Core)
    ensures Freeze(c) <==> c.md.busy || MulDivStart(c)
  {
    hide Redirect, LoadInEx, LoadInMem, MulDivStart;
  }

  lemma PortFields(f: Csr.File)
    ensures Csr.ReadPort(f, 0xB00) == f.counters.cycle && Csr.ReadPort(f, 0xB03) == f.counters.mulDiv
    ensures Csr.ReadPort(f, 0xB04) == f.counters.isol && Csr.ReadPort(f, 0xB05) == f.counters.fusion
  {
  }

  /** On any program, modulo 2^32: 0xB00 reads the cycles since reset, 0xB03 the multiplications and divisions
      started, 0xB04 the isolated cycles and 0xB05 the fused pairs that have issued. */
  lemma {:induction false} CounterPorts(m: Machine, s: Core, n: nat)
    requires IsReset(s)
    ensures var f := Run(m, s, n).csr;
            && Csr.ReadPort(f, 0xB00) == n % 0x1_0000_0000
            && Csr.ReadPort(f, 0xB03) == StartsBefore(m, s, n) % 0x1_0000_0000
            && Csr.ReadPort(f, 0xB04) == IsolatedBefore(m, s, n) % 0x1_0000_0000
            && Csr.ReadPort(f, 0xB05) == PairsIssued(m, s, n) % 0x1_0000_0000
  {
    hide IsReset, Run, TokRun, Tick, FusionActive, IsolActive, MulDivStart, Isolated, PairsIssued, Csr.ReadPort, Add;
    FusionCounter(m, s, n);
    PortFields(Run(m, s, n).csr);
    if n == 0 {
      AtReset(m, s);
    } else {
      CounterPorts(m, s, n - 1);
      PortFields(Run(m, s, n - 1).csr);
      RunIsTick(m, s, n - 1);
      CountersTick(m, Run(m, s, n - 1));
      GatesFollowFreeze(m.cfg, Run(m, s, n - 1));
      CountsOn(StartsBefore(m, s, n - 1));
      CountsOn(IsolatedBefore(m, s, n - 1));
    }
  }

  /** On supported runs 0xB03 is the sequential count: the multiplications and divisions executed, and the one
      in EX once it has started. */
  lemma MulDivPort(m: Machine, s: Core, a: Arch, n: nat)
    requires SameStart(s, a) && Covered(m, s, a, n)
    ensures Csr.ReadPort(Run(m, s, n).csr, 0xB03)
         == MulDivsStarted(a, Run(m, s, n), TokRun(m, s, n)) % 0x1_0000_0000
  {
    hide SameStart, Covered, Run, TokRun, MulDivsStarted, Csr.ReadPort;
    MulDivCounter(m, s, a, n);
    PortFields(Run(m, s, n).csr);
  }

  // ---------------------------------------------------------------- trap registers

  /** After reset mtvec is 0x8000_1000, fetch starts at 0x8000_0000, and everything else reads as zero. */
  lemma ResetPorts(s: Core, addr: int)
    requires IsReset(s)
    ensures s.pc == 0x8000_0000
    ensures Csr.ReadPort(s.csr, addr) == if addr == 0x305 then 0x8000_1000 else 0
  {
  }

  /** What software writes to 0x305, 0x341, 0x342 or 0x343 it reads back there and nowhere else; a write to any
      other address is dropped. */
  lemma SoftwarePorts(f: Csr.File, addr: int, data: Word, other: int)
    ensures Csr.ReadPort(Csr.File(Csr.WriteCsr(f.csrs, true, addr, data), f.counters), other)
         == if addr in {0x305, 0x341, 0x342, 0x343} && other == addr then data else Csr.ReadPort(f, other)
  {
    hide Csr.ReadPort, Csr.WriteCsr;
    Csr.WriteThenRead(f, addr, data, other);
  }

  /** In the cycle after an illegal instruction in EX, on any program: 0x341 reads its address, 0x342 reads 2,
      0x343 reads the instruction, and the front end is at what 0x305 read. */
  lemma TrapPorts(m: Machine, c: Core)
    requires c.ex.ctrl.illegal
    ensures var f := Tick(m, c).csr;
            && Csr.ReadPort(f, 0x341) == c.ex.pc && Csr.ReadPort(f, 0x342) == 2 && Csr.ReadPort(f, 0x343) == c.ex.instr
            && Tick(m, c).pc == Csr.ReadPort(c.csr, 0x305) == Csr.ReadPort(f, 0x305)
  {
    hide FwdA, FwdB, Freeze, ExResult, MemResult, Stored, NextFetch, NextId, NextBound, NextEx, NextPendActive,
         MulDivInputs, PortWe, PortAddr, PortData, StallFront, AluOf, Csr.NextCounters;
  }
}
