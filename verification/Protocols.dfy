/** Timing of the multiply/divide freeze and of the deferred write, and side effects under freezes. */
module Protocols {
  import opened Isa
  import opened Memory
  import opened PipelineRegs
  import opened Fusion
  import opened Pipeline
  import opened Sequential
  import opened FusedPairs
  import opened Refinement
  import opened Runs
  import opened Control
  import RF = RegFile
  import Csr = CsrFile
  import MDI = MulDivIter
  import MDC = MulDivCorrect
  import Gate = IsolGate
  import MulDivComb

  /** What the invariant says about control at cycle `n` of a supported run. */
  lemma ControlAt(m: Machine, s: Core, a: Arch, n: nat)
    requires SameStart(s, a) && Covered(m, s, a, n + 1)
    ensures var c, t := Run(m, s, n), TokRun(m, s, n);
            && PendOk(c, t.slot) && MdOk(c, t) && FrontOk(m.imem, c, t.idReal, t.ifReal)
            && (Freeze(c) ==> t.slot == Holds(Single) && c.ex.ctrl.isMulDiv && !c.pendActive && !Redirect(c) && !c.fire.valid)
            && (c.ex.ctrl.isMulDiv ==> t.slot == Holds(Single) && !Redirect(c))
            && (t.slot == Bubble ==> !Redirect(c) && Inert(c.ex))
            && !c.ex.ctrl.illegal
            && (t.slot.Holds? && Defers(t.slot.kind) <==> c.ex.pend.valid)
  {
    hide SameStart, Run, TokRun, SeqRun, PendOk, MdOk, FrontOk, ArchOk, ExOk, SlotAllowed, Inert, RedirectOf, StepOk,
         Freeze, FwdA, FwdB, Covered;
    CoveredPrefix(m, s, a, n + 1, n);
    Simulation(m, s, a, n);
    var c, t := Run(m, s, n), TokRun(m, s, n);
    var aE := SeqRun(a, t.exStart);
    SlotCovered(m, s, a, n + 1, n);
    ExFacts(m, c, t.slot, aE, FwdA(c), FwdB(c));
    BubbleIsInert(m, c, aE);
    if Freeze(c) { FreezeMeansMulDiv(m, c, t, aE); }
  }

  // ---------------------------------------------------------------- the multiply/divide freeze

  lemma ActiveIff(m: Machine, s: Core, a: Arch, n: nat)
    requires SameStart(s, a) && Covered(m, s, a, n + 1)
    ensures var c, t := Run(m, s, n), TokRun(m, s, n);
            && (c.md.busy ==> t.mdStep < 33)
            && (c.md.busy || c.md.done ==> c.md.busy == (t.mdStep < 33) && c.md.done == (t.mdStep == 33) && c.ex.ctrl.isMulDiv)
            && (Freeze(c) <==> c.md.busy || MulDivStart(c))
  {
    hide SameStart, Run, TokRun, MDC.Running, FwdA, FwdB, PendOk, FrontOk, Inert, Redirect, FlushId;
    ControlAt(m, s, a, n);
    var c, t := Run(m, s, n), TokRun(m, s, n);
    FlushIsRedirect(c);
    RunningFlags(c.md, FwdA(c), FwdB(c), c.ex.mulDivOp, t.mdStep);
  }

  /** The unit's answer to a frozen cycle. */
  lemma FrozenCycle(m: Machine, s: Core, a: Arch, n: nat)
    requires SameStart(s, a) && Covered(m, s, a, n + 1) && Freeze(Run(m, s, n))
    ensures var c, d, t := Run(m, s, n), Run(m, s, n + 1), TokRun(m, s, n);
            && SameBanks(c, d) && (d.md.busy || d.md.done)
            && TokRun(m, s, n + 1).mdStep == (if MulDivStart(c) then 0 else t.mdStep + 1)
  {
    hide SameStart, Covered, Run, TokRun, MDC.Running, FwdA, FwdB, PendOk, FrontOk, Inert, RedirectOf, Tick, MdOk,
         MDI.Next, MulDivInputs, FlushId, FlushEx, StallFront, NextSlot;
    ControlAt(m, s, a, n);
    var c, t := Run(m, s, n), TokRun(m, s, n);
    FlushIsRedirect(c);
    FrozenStep(m, c);
    MulDivRuns(m, c, t);
    RunIsTick(m, s, n);
  }

  /** A multiplication or division entering execution on any program: the pipeline is frozen for exactly 34
      cycles and the unit starts once.  If nothing redirects in the first of them, every bank is held and the
      unit then has the result of the operands it started with; a redirect flushes the slot at once. */
  lemma FreezeDiscipline(m: Machine, s: Core, n: nat)
    requires IsReset(s) && MulDivStart(Run(m, s, n))
    ensures forall k | n <= k < n + 34 :: Freeze(Run(m, s, k))
    ensures forall k | n < k <= n + 34 :: !MulDivStart(Run(m, s, k))
    ensures !Freeze(Run(m, s, n + 34))
    ensures Redirect(Run(m, s, n)) ==> Run(m, s, n + 1).ex == EX_BUBBLE
    ensures !Redirect(Run(m, s, n)) ==>
      && (forall k | n <= k <= n + 34 :: SameBanks(Run(m, s, n), Run(m, s, k)) && !Redirect(Run(m, s, k)))
      && var c, d := Run(m, s, n), Run(m, s, n + 34);
         MDI.Result(d.md) == MulDivComb.Result(FwdA(c), FwdB(c), c.ex.mulDivOp)
  {
    hide IsReset, Run, TokRun, Freeze, MulDivStart, SameBanks, FreezeTime, UnitOk, Redirect, MDI.Result,
         MulDivComb.Result, FwdA, FwdB;
    UnitAt(m, s, n);
    UnitCounts(Run(m, s, n));
    forall k | n <= k <= n + 34
      ensures Freeze(Run(m, s, k)) <==> k < n + 34
      ensures MulDivStart(Run(m, s, k)) <==> k == n
    {
      FreezeCounts(m, s, n, k);
      UnitAt(m, s, k);
      UnitCounts(Run(m, s, k));
    }
    if Redirect(Run(m, s, n)) {
      FlushedSlot(m, Run(m, s, n));
      RunIsTick(m, s, n);
    } else {
      forall k | n <= k <= n + 34
        ensures SameBanks(Run(m, s, n), Run(m, s, k)) && !Redirect(Run(m, s, k))
      {
        HeldFrom(m, s, n, k);
      }
      HeldFrom(m, s, n, n + 34);
    }
  }

  lemma FlushedSlot(m: Machine, c: Core)
    requires Redirect(c)
    ensures Tick(m, c).ex == EX_BUBBLE
  {
    hide Redirect, Tick, NextEx, FlushEx, Freeze, StallFront;
    FlushIsRedirect(c);
    NewExSlot(m.cfg, c);
    ExIsNext(m, c);
  }

  lemma ExIsNext(m: Machine, c: Core)
    ensures Tick(m, c).ex == NextEx(m.cfg, c)
  {
    hide NextEx;
  }

  /** The held slot `k - n` cycles after its start. */
  lemma HeldFrom(m: Machine, s: Core, n: nat, k: nat)
    requires IsReset(s) && MulDivStart(Run(m, s, n)) && !Redirect(Run(m, s, n)) && n <= k <= n + 34
    ensures SameBanks(Run(m, s, n), Run(m, s, k)) && !Redirect(Run(m, s, k))
    ensures var c, d := Run(m, s, n), Run(m, s, k);
            k == n + 34 ==> MDI.Result(d.md) == MulDivComb.Result(FwdA(c), FwdB(c), c.ex.mulDivOp)
  {
    hide IsReset, Run, TokRun, Freeze, MulDivStart, SameBanks, Redirect, MDI.Result, MulDivComb.Result, FwdA, FwdB,
         MDC.Running, MDC.Ready, CtlOk;
    var c := Run(m, s, n);
    CtlAlways(m, s, n);
    StartReady(m, c, TokRun(m, s, n));
    SlotHeld(m, c, k - n);
    RunAdds(m, s, n, k - n);
    if k == n + 34 { MDC.ResultCorrect(Run(m, s, k).md, FwdA(c), FwdB(c), c.ex.mulDivOp); }
  }

  lemma StartReady(m: Machine, c: Core, t: Tok)
    requires CtlOk(m, c, t) && MulDivStart(c)
    ensures MDC.Ready(c.md) && !c.fire.valid
  {
    hide Freeze, FrontOk, Inert, PendOk, LoadsMarked;
    StartFreezes(c);
    FreezePendsNothing(m, c, t);
  }

  // ---------------------------------------------------------------- the deferred write

  /** A fused pair with a deferred write leaves decode in cycle `c`. */
  predicate IssuesDeferred(cfg: Cfg, c: Core) {
    Defers(FuseKind(cfg, c)) && !StallFront(c) && !FlushEx(c)
  }

  /** The deferred write of an AUIPC+JALR or ADD+LW pair issued in cycle `n` of any program: the front end is
      held in exactly the next four cycles, the write travels through EX, MEM and WB, fires once in the
      fourth, meets no other write there, and is in the register file in the fifth. */
  lemma DeferredWriteTimeline(m: Machine, s: Core, n: nat)
    requires IsReset(s) && IssuesDeferred(m.cfg, Run(m, s, n))
    ensures NothingPending(Run(m, s, n))
    ensures forall k | n + 1 <= k <= n + 4 ::
              Run(m, s, k).pendActive && !Freeze(Run(m, s, k)) && FlushEx(Run(m, s, k)) && StallFront(Run(m, s, k))
    ensures forall k | n + 1 <= k <= n + 4 :: Run(m, s, k).fire.valid == (k == n + 4)
    ensures NothingPending(Run(m, s, n + 5))
    ensures var p := Run(m, s, n + 1).ex.pend;
            && p.valid && p.addr == RdOf(Run(m, s, n).id.instr)
            && Run(m, s, n + 4).fire == p && !Run(m, s, n + 4).wb.regWrite
            && Run(m, s, n + 5).regs == RF.Write(Run(m, s, n + 4).regs, true, p.addr, p.data)
  {
    hide IsReset, Run, TokRun, Freeze, FlushEx, StallFront, FuseKind, RdOf, RF.Write, CtlOk, Tick;
    PendAt(m, s, n);
    PendAt(m, s, n + 1);
    PendAt(m, s, n + 2);
    PendAt(m, s, n + 3);
    PendAt(m, s, n + 4);
    PendAt(m, s, n + 5);
    FlushIsRedirect(Run(m, s, n));
  }

  /** One cycle of any run, for the deferred write. */
  lemma PendAt(m: Machine, s: Core, n: nat)
    requires IsReset(s)
    ensures var c := Run(m, s, n);
            && c.pendActive == (c.ex.pend.valid || c.mem.pend.valid || c.wb.pend.valid || c.fire.valid)
            && (c.pendActive ==> !Freeze(c) && StallFront(c) && FlushEx(c))
            && (c.fire.valid ==> !c.wb.regWrite && !c.ex.pend.valid && !c.mem.pend.valid && !c.wb.pend.valid)
            && (c.ex.pend.valid ==> !c.mem.pend.valid && !c.wb.pend.valid && !c.fire.valid)
            && (!c.pendActive <==> NothingPending(c))
    ensures var c, d := Run(m, s, n), Run(m, s, n + 1);
            !Freeze(c) ==>
              && d.mem.pend == c.ex.pend && d.wb.pend == c.mem.pend && d.fire == c.wb.pend
              && (StallFront(c) || FlushEx(c) ==> !d.ex.pend.valid)
              && (!StallFront(c) && !FlushEx(c) ==>
                    d.ex.pend.valid == Defers(FuseKind(m.cfg, c)) && (d.ex.pend.valid ==> d.ex.pend.addr == RdOf(c.id.instr)))
              && d.regs == RF.Write(c.regs, PortWe(c), PortAddr(c), PortData(c))
  {
    hide IsReset, Run, TokRun, Freeze, FlushEx, StallFront, FuseKind, RdOf, RF.Write, CtlOk, Tick, PortWe, PortAddr,
         PortData, NothingPending;
    CtlAlways(m, s, n);
    PendFacts(m, Run(m, s, n), TokRun(m, s, n));
    if !Freeze(Run(m, s, n)) { PendMove(m, Run(m, s, n)); }
    RunIsTick(m, s, n);
  }

  // ---------------------------------------------------------------- side effects happen once

  /** What a frozen cycle keeps behind EX, on any program. */
  predicate SameBack(c: Core, d: Core) {
    && d.mem == c.mem && d.wb == c.wb && d.raw == c.raw && d.rawLane == c.rawLane && d.fire == c.fire && d.dmem == c.dmem
  }

  lemma FrozenBack(m: Machine, c: Core)
    requires Freeze(c)
    ensures SameBack(c, Tick(m, c)) && Tick(m, c).regs == WritePend(c.regs, c.fire)
    ensures !c.ex.ctrl.illegal ==> Tick(m, c).csr.csrs == c.csr.csrs
  {
    hide Freeze, ExResult, MemResult, Stored, PcNext, NextFetch, NextId, NextBound, NextEx, NextPendActive, MDI.Next,
         MulDivInputs, Gate.Output, Csr.NextCounters, FwdA, FwdB;
  }

  /** The one register write of an unfrozen edge: a firing deferred write has the port. */
  function WriteBack(c: Core): RF.Regs {
    if c.fire.valid then RF.Write(c.regs, true, c.fire.addr, c.fire.data)
    else RF.Write(c.regs, c.wb.regWrite, c.wb.rd, WbValue(c.wb, c.raw, c.rawLane))
  }

  function WriteBackCsrs(c: Core): Csr.Csrs {
    Csr.WriteCsr(c.csr.csrs, c.wb.isCsr, c.wb.csrAddr, c.wb.mulDivResult)
  }

  /** What the first unfrozen edge does with the MEM and WB entries, on any program. */
  lemma UnfrozenBack(m: Machine, c: Core)
    requires !Freeze(c)
    ensures var d := Tick(m, c);
            && d.dmem == Stored(c.mem, c.dmem) && d.wb == MemResult(c.mem) && d.fire == c.wb.pend
            && d.regs == WriteBack(c) && (!c.ex.ctrl.illegal ==> d.csr.csrs == WriteBackCsrs(c))
  {
    hide Freeze, ExResult, MemResult, Stored, PcNext, NextFetch, NextId, NextBound, NextEx, NextPendActive, MDI.Next,
         MulDivInputs, Gate.Output, Csr.NextCounters, FwdA, FwdB, WbValue, RF.Write, Csr.WriteCsr;
  }

  /** A store to the output register at 0x8000_0000 leaves the data memory alone; every other store inside one
      word is the byte array's. */
  lemma StoresOrPrints(m: Machine, c: Core)
    requires !Freeze(c) && c.mem.memWrite
    ensures c.mem.aluResult == 0x8000_0000 ==> Tick(m, c).dmem == c.dmem
    ensures c.mem.aluResult != 0x8000_0000 && Fits(Offset(c.mem.aluResult), c.mem.memWidth) ==>
      BytesOf(Tick(m, c).dmem)
      == StoreBytes(BytesOf(c.dmem), Offset(c.mem.aluResult), c.mem.memWidth, c.mem.rs2Data)
  {
    hide Freeze, BytesOf, StoreBytes, StoreLanes, Offset, WriteBack, WriteBackCsrs, Tick;
    UnfrozenBack(m, c);
    if Fits(Offset(c.mem.aluResult), c.mem.memWidth) {
      StoreAgrees(c.dmem, Offset(c.mem.aluResult), c.mem.memWidth, c.mem.rs2Data);
    }
  }

  /** However long the freeze: an entry in MEM stores on exactly one edge, the one that moves it to WB; an
      entry in WB, or the deferred write that has its port, writes the register file once, whether its
      edge is repeated or not; and a CSR entry in WB writes its CSR on exactly one edge if no trap comes. */
  lemma {:induction false} SideEffectsOnce(m: Machine, s: Core, n: nat, k: nat)
    requires n <= k && (forall j | n <= j < k :: Freeze(Run(m, s, j))) && !Freeze(Run(m, s, k))
    ensures var c := Run(m, s, n);
            && (forall j | n <= j <= k ::
                  SameBack(c, Run(m, s, j)) && (Run(m, s, j).regs == c.regs || Run(m, s, j).regs == WritePend(c.regs, c.fire)))
            && Run(m, s, k + 1).dmem == Stored(c.mem, c.dmem) && Run(m, s, k + 1).wb == MemResult(c.mem)
            && Run(m, s, k + 1).regs == WriteBack(c)
    ensures (forall j | n <= j <= k :: !Run(m, s, j).ex.ctrl.illegal) ==>
      && (forall j | n <= j <= k :: Run(m, s, j).csr.csrs == Run(m, s, n).csr.csrs)
      && Run(m, s, k + 1).csr.csrs == WriteBackCsrs(Run(m, s, n))
  {
    hide Freeze, Run, TokRun, NextTok, Tick, Stored, MemResult, WriteBack, WriteBackCsrs, WritePend;
    var c, d := Run(m, s, n), Run(m, s, k);
    forall j | n <= j <= k
      ensures SameBack(c, Run(m, s, j))
      ensures Run(m, s, j).regs == c.regs || Run(m, s, j).regs == WritePend(c.regs, c.fire)
      ensures (forall i | n <= i < j :: !Run(m, s, i).ex.ctrl.illegal) ==> Run(m, s, j).csr.csrs == c.csr.csrs
    {
      FrozenSince(m, s, n, j);
    }
    UnfrozenBack(m, d);
    SameWriteBack(c, d);
    RunIsTick(m, s, k);
  }

  lemma SameWriteBack(c: Core, d: Core)
    requires SameBack(c, d) && (d.regs == c.regs || d.regs == WritePend(c.regs, c.fire))
    ensures WriteBack(d) == WriteBack(c)
    ensures d.csr.csrs == c.csr.csrs ==> WriteBackCsrs(d) == WriteBackCsrs(c)
  {
    hide WbValue, Csr.WriteCsr;
    LastWriteWins(c.regs, c.fire.addr, c.fire.data, c.fire.data);
  }

  lemma {:induction false} FrozenSince(m: Machine, s: Core, n: nat, j: nat)
    requires n <= j && forall i | n <= i < j :: Freeze(Run(m, s, i))
    ensures SameBack(Run(m, s, n), Run(m, s, j))
    ensures Run(m, s, j).regs == Run(m, s, n).regs || Run(m, s, j).regs == WritePend(Run(m, s, n).regs, Run(m, s, n).fire)
    ensures (forall i | n <= i < j :: !Run(m, s, i).ex.ctrl.illegal) ==> Run(m, s, j).csr.csrs == Run(m, s, n).csr.csrs
    decreases j
  {
    hide Freeze, Tick, Run, TokRun, NextTok, WritePend;
    if j > n {
      FrozenSince(m, s, n, j - 1);
      FrozenBack(m, Run(m, s, j - 1));
      RunIsTick(m, s, j - 1);
      WrittenTwice(Run(m, s, n).regs, Run(m, s, n).fire);
    }
  }

  lemma WrittenTwice(regs: RF.Regs, p: Pend)
    ensures WritePend(WritePend(regs, p), p) == WritePend(regs, p)
  {
    LastWriteWins(regs, p.addr, p.data, p.data);
  }
}
