/** Whole runs of the pipeline from reset against whole runs of the sequential machine. */
module Runs {
  import opened Words
  import opened Isa
  import opened Memory
  import opened Fusion
  import opened Pipeline
  import opened CoreTop
  import opened Sequential
  import opened FusedPairs
  import opened Refinement
  import opened Iteration
  import RF = RegFile
  import Csr = CsrFile

  /** One clock edge for the core and its tokens. */
  function TokenStep(m: Machine): ((Core, Tok)) -> (Core, Tok) {
    (c: (Core, Tok)) => (Tick(m, c.0), NextTok(m.cfg, c.0, c.1))
  }

  /** The tokens after `n` cycles. */
  function TokRun(m: Machine, s: Core, n: nat): Tok {
    Iterate(TokenStep(m), (s, TOK_RESET), n).1
  }

  lemma {:induction false} BothRun(m: Machine, s: Core, n: nat)
    ensures Iterate(TokenStep(m), (s, TOK_RESET), n)
         == (Run(m, s, n), TokRun(m, s, n))
  {
    hide Tick, NextTok;
    if n == 0 {
      IterateStep(TokenStep(m), (s, TOK_RESET), 0);
      RunTicks(m, s, 0);
    } else {
      BothRun(m, s, n - 1);
      IterateStep(TokenStep(m), (s, TOK_RESET), n - 1);
      RunTicks(m, s, n - 1);
    }
  }

  lemma RunIsTick(m: Machine, s: Core, n: nat)
    ensures Run(m, s, 0) == s && TokRun(m, s, 0) == TOK_RESET
    ensures Run(m, s, n + 1) == Tick(m, Run(m, s, n))
    ensures TokRun(m, s, n + 1) == NextTok(m.cfg, Run(m, s, n), TokRun(m, s, n))
  {
    hide Tick, NextTok;
    BothRun(m, s, n);
    RunTicks(m, s, n);
    IterateStep(TokenStep(m), (s, TOK_RESET), n);
  }

  lemma {:induction false} RunAdds(m: Machine, s: Core, n: nat, k: nat)
    ensures Run(m, s, n + k) == Run(m, Run(m, s, n), k)
    decreases k
  {
    hide Run, Tick;
    RunTicks(m, Run(m, s, n), if k > 0 then k - 1 else 0);
    if k > 0 {
      RunAdds(m, s, n, k - 1);
      RunTicks(m, s, n + k - 1);
    }
  }

  /** Both machines start with the same registers and memory. */
  ghost predicate SameStart(s: Core, a: Arch) {
    IsReset(s) && a == Arch(Cpu(MEM_BASE, s.regs, BytesOf(s.dmem)), Csr.RESET.csrs)
  }

  /** Sequential instructions that have left decode. */
  function Issued(t: Tok): nat { t.exStart + Count(t.slot) }

  lemma NothingIssued()
    ensures Issued(TOK_RESET) == 0
  {
  }

  // ---------------------------------------------------------------- what is assumed of a run

  /** Every slot that has been in EX before cycle `n` was a supported one. */
  ghost predicate Covered(m: Machine, s: Core, a: Arch, n: nat) {
    forall j | 0 <= j < n :: SlotAllowed(m, SeqRun(a, TokRun(m, s, j).exStart), TokRun(m, s, j).slot)
  }

  /** No more than the first `k` instructions have left decode before cycle `n`. */
  ghost predicate WithinFirst(m: Machine, s: Core, k: nat, n: nat) {
    forall j | 0 <= j < n :: Issued(TokRun(m, s, j)) <= k
  }

  /** Whatever the timing, the first `k` instructions put only supported slots into EX. */
  ghost predicate CoversFirst(m: Machine, s: Core, a: Arch, k: nat) {
    forall n: nat :: WithinFirst(m, s, k, n) ==> Covered(m, s, a, n)
  }

  /** The first `n` sequential steps stay within the supported subset. */
  ghost predicate Supported(m: Machine, a: Arch, n: nat) {
    forall k | 0 <= k < n :: StepOk(m, SeqRun(a, k))
  }

  /** None of the first `n` instructions starts a pair on which fusion goes wrong. */
  ghost predicate PairsOk(m: Machine, a: Arch, n: nat) {
    forall k | 0 <= k < n :: PairOkAt(m, SeqRun(a, k))
  }

  lemma CoveredPrefix(m: Machine, s: Core, a: Arch, n: nat, k: nat)
    requires Covered(m, s, a, n) && k <= n
    ensures Covered(m, s, a, k)
  {
    hide SlotAllowed, TokRun, SeqRun;
  }

  lemma SlotCovered(m: Machine, s: Core, a: Arch, n: nat, j: nat)
    requires Covered(m, s, a, n) && j < n
    ensures SlotAllowed(m, SeqRun(a, TokRun(m, s, j).exStart), TokRun(m, s, j).slot)
  {
    hide SlotAllowed, TokRun, SeqRun;
  }

  lemma SlotWithinRun(m: Machine, a: Arch, n: nat, k: nat, t: SlotTok)
    requires Supported(m, a, n) && k + Count(t) <= n && (Count(t) == 2 ==> PairOkAt(m, SeqRun(a, k)))
    ensures SlotAllowed(m, SeqRun(a, k), t)
  {
    hide StepOk, SeqRun, SeqStep, PairOkAt;
    SeqRunSteps(a, k);
  }

  /** Pairs come only from the fusion detector. */
  lemma {:induction false} PairsAreFused(m: Machine, s: Core, n: nat)
    ensures Count(TokRun(m, s, n).slot) == 2 ==> m.cfg.fusionEn
  {
    hide Run, TokRun, Tick, FuseKind, Freeze, FlushEx, FlushId, StallFront, MulDivStart;
    RunIsTick(m, s, if n > 0 then n - 1 else 0);
    if n > 0 {
      PairsAreFused(m, s, n - 1);
      DetectedPattern(m.cfg, Run(m, s, n - 1));
    }
  }

  /** The assumptions in terms of the program alone: its first `k` sequential steps are supported, and with
      FUSION_EN none of them starts a pair on which fusion goes wrong. */
  lemma ProgramCovers(m: Machine, s: Core, a: Arch, k: nat)
    requires Supported(m, a, k) && (m.cfg.fusionEn ==> PairsOk(m, a, k))
    ensures CoversFirst(m, s, a, k)
  {
    hide SlotAllowed, TokRun, SeqRun, PairOkAt, StepOk, Supported;
    forall n: nat, j | WithinFirst(m, s, k, n) && 0 <= j < n
      ensures SlotAllowed(m, SeqRun(a, TokRun(m, s, j).exStart), TokRun(m, s, j).slot)
    {
      PairsAreFused(m, s, j);
      SlotWithinRun(m, a, k, TokRun(m, s, j).exStart, TokRun(m, s, j).slot);
    }
  }

  /** An instruction or fused pair leaves decode for EX in this cycle. */
  predicate Issues(c: Core, t: Tok) { t.idReal && !FlushEx(c) && !Freeze(c) }

  /** A cycle that issues nothing brings nothing new into EX. */
  lemma NextCovered(m: Machine, s: Core, a: Arch, n: nat)
    requires Covered(m, s, a, n + 1) && !Issues(Run(m, s, n), TokRun(m, s, n))
    ensures Covered(m, s, a, n + 2)
  {
    hide TokRun, SeqRun, Run, FlushEx, Freeze, FlushId, StallFront, FuseKind, MulDivStart, StepOk, PairOkAt, Tick;
    RunIsTick(m, s, n);
    assert SlotAllowed(m, SeqRun(a, TokRun(m, s, n).exStart), TokRun(m, s, n).slot);
    forall j | 0 <= j < n + 2
      ensures SlotAllowed(m, SeqRun(a, TokRun(m, s, j).exStart), TokRun(m, s, j).slot)
    {
      if j == n + 1 { NothingNew(m.cfg, Run(m, s, n), TokRun(m, s, n)); }
    }
  }

  lemma NothingNew(cfg: Cfg, c: Core, t: Tok)
    requires !Issues(c, t)
    ensures var u := NextTok(cfg, c, t); u.slot == Bubble || (u.slot == t.slot && u.exStart == t.exStart)
  {
    hide FlushEx, Freeze, FlushId, StallFront, FuseKind, MulDivStart;
  }

  lemma FirstAndFewer(m: Machine, s: Core, a: Arch, k: nat, i: nat)
    requires CoversFirst(m, s, a, k) && i <= k
    ensures CoversFirst(m, s, a, i)
  {
    hide Covered, TokRun;
    forall n: nat | WithinFirst(m, s, i, n)
      ensures Covered(m, s, a, n)
    {
      assert WithinFirst(m, s, k, n);
    }
  }

  // ---------------------------------------------------------------- the invariant over runs

  ghost predicate InvAt(m: Machine, s: Core, a: Arch, n: nat) {
    var t := TokRun(m, s, n);
    Inv(m, Run(m, s, n), t, SeqRun(a, t.retired), SeqRun(a, t.memStart), SeqRun(a, t.exStart))
  }

  lemma ResetEstablishes(m: Machine, s: Core, a: Arch)
    requires SameStart(s, a)
    ensures Inv(m, s, TOK_RESET, a, a, a)
  {
    hide BytesOf, InstrAt, StoreLanes, LoadLanes, Add;
  }

  lemma AdvanceIsRun(a: Arch, k: nat, t: SlotTok)
    ensures Advance(SeqRun(a, k), t) == SeqRun(a, k + Count(t))
  {
    hide SeqRun, SeqStep;
    SeqRunSteps(a, k);
    SeqRunSteps(a, k + 1);
  }

  /** The invariant holds after every number of cycles. */
  lemma {:induction false} Simulation(m: Machine, s: Core, a: Arch, n: nat)
    requires SameStart(s, a) && Covered(m, s, a, n)
    ensures InvAt(m, s, a, n)
  {
    hide Inv, SameStart, SlotAllowed, Tick, StepOk, SeqStep, Freeze, Covered, Run, TokRun, NextTok, SeqRun;
    SeqRunSteps(a, 0);
    RunIsTick(m, s, if n > 0 then n - 1 else 0);
    if n == 0 {
      ResetEstablishes(m, s, a);
    } else {
      CoveredPrefix(m, s, a, n, n - 1);
      Simulation(m, s, a, n - 1);
      SlotCovered(m, s, a, n, n - 1);
      CycleOfRun(m, Run(m, s, n - 1), TokRun(m, s, n - 1), a);
    }
  }

  /** One cycle, with the sequential states indexed by the tokens. */
  lemma CycleOfRun(m: Machine, c: Core, t: Tok, a: Arch)
    requires Inv(m, c, t, SeqRun(a, t.retired), SeqRun(a, t.memStart), SeqRun(a, t.exStart))
    requires SlotAllowed(m, SeqRun(a, t.exStart), t.slot)
    ensures var t' := NextTok(m.cfg, c, t);
            Inv(m, Tick(m, c), t', SeqRun(a, t'.retired), SeqRun(a, t'.memStart), SeqRun(a, t'.exStart))
  {
    hide Inv, SlotAllowed, Tick, SeqRun, Freeze, NextTok, Advance, FlushEx, StallFront;
    AdvanceIsRun(a, t.exStart, t.slot);
    StagesOnward(m.cfg, c, t);
    FrozenSlot(m, c, t, SeqRun(a, t.retired), SeqRun(a, t.memStart), SeqRun(a, t.exStart));
    if Freeze(c) {
      FreezePreserves(m, c, t, SeqRun(a, t.retired), SeqRun(a, t.memStart), SeqRun(a, t.exStart));
    } else {
      AdvancePreserves(m, c, t, SeqRun(a, t.retired), SeqRun(a, t.memStart), SeqRun(a, t.exStart));
    }
  }

  lemma StagesOnward(cfg: Cfg, c: Core, t: Tok)
    ensures var u := NextTok(cfg, c, t);
            if Freeze(c) then u.retired == t.retired && u.memStart == t.memStart && u.exStart == t.exStart
            else u.retired == t.memStart && u.memStart == t.exStart && u.exStart == t.exStart + Count(t.slot)
  {
    hide Freeze, FlushId, FlushEx, StallFront, FuseKind, MulDivStart, NextSlot;
  }

  /** While frozen the slot stays. */
  lemma FrozenSlot(m: Machine, c: Core, t: Tok, aW: Arch, aM: Arch, aE: Arch)
    requires Inv(m, c, t, aW, aM, aE) && SlotAllowed(m, aE, t.slot)
    ensures Freeze(c) ==> !FlushEx(c) && t.slot == Holds(Single) && NextTok(m.cfg, c, t).slot == t.slot
    ensures Freeze(c) ==> !c.pendActive && StallFront(c)
  {
    hide FrontOk, ExOk, MdOk, PendOk, ArchOk, SlotAllowed, FlushEx, Freeze, Redirect, StallFront;
    FlushIsRedirect(c);
    if Freeze(c) { FreezeMeansMulDiv(m, c, t, aE); }
  }

  // ---------------------------------------------------------------- the main result

  /** The registers once everything behind EX has drained: the firing write, WB with its deferred write,
      MEM with its deferred write. */
  function DrainedRegs(s: Core): RF.Regs {
    var afterWb := RF.Write(WritePend(s.regs, s.fire), s.wb.regWrite, s.wb.rd, WbValue(s.wb, s.raw, s.rawLane));
    Drained(s.mem, s.dmem, WritePend(afterWb, s.wb.pend))
  }

  function DrainedCsrs(s: Core): Csr.Csrs {
    Csr.WriteCsr(Csr.WriteCsr(s.csr.csrs, s.wb.isCsr, s.wb.csrAddr, s.wb.mulDivResult),
                 s.mem.isCsr, s.mem.csrAddr, s.mem.mulDivResult)
  }

  /** After any number of cycles of any supported program: the register file (with the deferred write
      that is firing) and the CSRs are the sequential machine's after the instructions retired so far,
      the data memory is its memory after the instructions that have left MEM, and draining MEM and WB
      gives its whole state after the instructions that have left EX. */
  lemma WholeRunRefinement(m: Machine, s: Core, a: Arch, n: nat)
    requires SameStart(s, a) && Covered(m, s, a, n)
    ensures var c, t := Run(m, s, n), TokRun(m, s, n);
            && WritePend(c.regs, c.fire) == SeqRun(a, t.retired).cpu.regs
            && c.csr.csrs == SeqRun(a, t.retired).csrs
            && BytesOf(c.dmem) == SeqRun(a, t.memStart).cpu.mem
            && DrainedRegs(c) == SeqRun(a, t.exStart).cpu.regs
            && DrainedCsrs(c) == SeqRun(a, t.exStart).csrs
            && BytesOf(Stored(c.mem, c.dmem)) == SeqRun(a, t.exStart).cpu.mem
  {
    hide SameStart, Covered, FrontOk, ExOk, MdOk, PendOk, Run, TokRun, SeqRun, WbValue, Drained, BytesOf, Stored,
         RF.Write, Csr.WriteCsr;
    Simulation(m, s, a, n);
  }

  /** In program order, exactly once: the slot in EX is the sequential machine's next instruction (or
      pair), with its operands resolved to that machine's register values. */
  lemma InOrderOperands(m: Machine, s: Core, a: Arch, n: nat)
    requires SameStart(s, a) && Covered(m, s, a, n + 1)
    ensures var c, t := Run(m, s, n), TokRun(m, s, n);
            var next := SeqRun(a, t.exStart).cpu;
            && (t.slot == Bubble ==> Inert(c.ex))
            && (t.slot != Bubble ==> c.ex.instr == Fetch(next))
            && (t.slot == Holds(Single) ==>
                  c.ex.pc == next.pc && FwdA(c) == OperandA(next, Fetch(next)) && FwdB(c) == OperandB(next, Fetch(next)))
            && (t.slot == Holds(Single) && c.ex.ctrl.isCsr ==>
                  CsrValue(c) == Csr.ReadCsr(SeqRun(a, t.exStart).csrs, CsrAddrOf(Fetch(next))))
  {
    hide SameStart, FrontOk, MdOk, PendOk, Run, TokRun, SeqRun, FwdA, FwdB, OperandA, OperandB, CsrValue, InstrAt,
         Fetch, ArchOk, Decode, SlotImm, Add, RdOf, Rs1Of, Rs2Of, CsrAddrOf, AddResult, Regular, Csr.ReadCsr,
         Csr.Writable, Inert, Imm, ImmB, ImmU, ImmI, Funct3, PairOk, FarBase, Covered;
    CoveredPrefix(m, s, a, n + 1, n);
    Simulation(m, s, a, n);
    var c, t := Run(m, s, n), TokRun(m, s, n);
    if t.slot != Bubble {
      SlotCovered(m, s, a, n + 1, n);
      if t.slot == Holds(Single) && c.ex.ctrl.isCsr {
        WritableCsr(SeqRun(a, t.exStart).cpu, Fetch(SeqRun(a, t.exStart).cpu));
        CsrForwarding(c, SeqRun(a, t.retired), SeqRun(a, t.memStart), SeqRun(a, t.exStart));
      }
    }
  }
}
