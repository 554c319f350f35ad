/** Control of the pipeline on any program, traps, UART stores and harmful pairs included: an invariant of
    flags and tokens alone, the deferred write and the multiply/divide freeze. */
module Control {
  import opened Words
  import opened Isa
  import opened Memory
  import opened PipelineRegs
  import opened Fusion
  import opened Pipeline
  import opened FusedPairs
  import opened Refinement
  import opened Runs
  import RF = RegFile
  import Csr = CsrFile
  import MDI = MulDivIter
  import MDC = MulDivCorrect

  // ---------------------------------------------------------------- the multiply/divide unit

  /** The unit's flags agree with its phase. */
  predicate UnitOk(u: MDI.Unit) {
    && (u.busy <==> u.phase != MDI.Idle) && (u.done ==> u.phase == MDI.Idle)
    && (u.phase == MDI.MulRun || u.phase == MDI.DivRun ==> u.cnt <= 31)
  }

  /** How phase, flags and counter move; the data does not matter. */
  lemma IdleMoves(u: MDI.Unit, i: MDI.Inputs)
    requires u.phase == MDI.Idle
    ensures var v := MDI.Next(u, i);
            if i.start then v.phase in {MDI.MulRun, MDI.DivRun} && v.busy && !v.done && v.cnt == 0
            else v.phase == MDI.Idle && v.busy == u.busy && !v.done
  {
    hide MDI.MulLatched, MDI.DivLatched;
    LatchedKeeps(MDI.Begun(u, i, MDI.MulRun), i);
    LatchedKeeps(MDI.Begun(u, i, MDI.DivRun), i);
  }

  /** Latching the operands moves neither phase nor flags. */
  lemma LatchedKeeps(u: MDI.Unit, i: MDI.Inputs)
    ensures var v := MDI.MulLatched(u, i); v.phase == u.phase && v.busy == u.busy && v.done == u.done && v.cnt == u.cnt
    ensures var v := MDI.DivLatched(u, i); v.phase == u.phase && v.busy == u.busy && v.done == u.done && v.cnt == u.cnt
  {
    hide Neg, MDI.MulASign, MDI.MulBSign, MDI.DivASign, MDI.DivBSign, MDI.DivOverflows;
  }

  lemma RunMoves(u: MDI.Unit, i: MDI.Inputs)
    requires u.phase != MDI.Idle
    ensures var v := MDI.Next(u, i);
            if u.phase == MDI.Finish then v.phase == MDI.Idle && !v.busy && v.done
            else && v.phase == (if u.cnt == 31 then MDI.Finish else u.phase)
                 && v.busy == u.busy && !v.done && v.cnt == (u.cnt + 1) % 64
  {
    hide MDI.MulStep, MDI.DivStep;
  }

  lemma UnitMoves(u: MDI.Unit, i: MDI.Inputs)
    ensures var v := MDI.Next(u, i);
            && (u.phase == MDI.Idle && !i.start ==> v.phase == MDI.Idle && v.busy == u.busy && !v.done)
            && (u.phase == MDI.Idle && i.start ==> v.phase in {MDI.MulRun, MDI.DivRun} && v.busy && !v.done && v.cnt == 0)
            && (u.phase == MDI.MulRun || u.phase == MDI.DivRun ==>
                  && v.phase == (if u.cnt == 31 then MDI.Finish else u.phase)
                  && v.busy == u.busy && !v.done && v.cnt == (u.cnt + 1) % 64)
            && (u.phase == MDI.Finish ==> v.phase == MDI.Idle && !v.busy && v.done)
  {
    hide MDI.Next;
    if u.phase == MDI.Idle { IdleMoves(u, i); } else { RunMoves(u, i); }
  }

  lemma UnitStaysOk(u: MDI.Unit, i: MDI.Inputs)
    requires UnitOk(u)
    ensures UnitOk(MDI.Next(u, i))
  {
    hide MDI.Next;
    UnitMoves(u, i);
  }

  lemma UnitTicks(m: Machine, c: Core)
    ensures Tick(m, c).md == MDI.Next(c.md, MulDivInputs(m.cfg, c))
  {
    hide MDI.Next, MulDivInputs;
  }

  /** Cycles until the multiply/divide unit is done. */
  function FreezeTime(c: Core): int {
    if MulDivStart(c) then 34
    else if c.md.phase == MDI.Finish then 1
    else if c.md.busy then 33 - c.md.cnt
    else 0
  }

  lemma FreezeTimeDrops(m: Machine, c: Core)
    requires UnitOk(c.md) && Freeze(c)
    ensures 0 < FreezeTime(c) <= 34 && FreezeTime(Tick(m, c)) == FreezeTime(c) - 1
  {
    hide Redirect, LoadInEx, LoadInMem, Tick, MDI.Next, FwdA, FwdB, Freeze;
    FlushIsRedirect(c);
    UnitTicks(m, c);
    UnitMoves(c.md, MulDivInputs(m.cfg, c));
  }

  lemma FreezeTimeAtMost(c: Core)
    requires UnitOk(c.md)
    ensures 0 <= FreezeTime(c) <= 34
  {
  }

  // ---------------------------------------------------------------- the invariant

  /** Everything a freeze must hold still. */
  predicate SameBanks(c: Core, d: Core) {
    && d.pc == c.pc && d.fetch == c.fetch && d.id == c.id && d.bound == c.bound
    && d.ex == c.ex && d.mem == c.mem && d.wb == c.wb && d.raw == c.raw && d.rawLane == c.rawLane
    && d.fire == c.fire && d.pendActive == c.pendActive && d.regs == c.regs && d.dmem == c.dmem
    && d.csr.csrs == c.csr.csrs
  }

  predicate NothingPending(c: Core) {
    !c.pendActive && !c.ex.pend.valid && !c.mem.pend.valid && !c.wb.pend.valid && !c.fire.valid
  }

  /** Flags and tokens, with no assumption on the program. */
  ghost predicate CtlOk(m: Machine, c: Core, t: Tok) {
    && FrontOk(m.imem, c, t.idReal, t.ifReal) && UnitOk(c.md) && PendOk(c, t.slot) && LoadsMarked(c)
    && (t.slot == Bubble ==> Inert(c.ex))
    && (c.ex.pend.valid <==> t.slot.Holds? && Defers(t.slot.kind))
    && (c.ex.ctrl.isMulDiv ==> c.ex.ctrl == IDLE_CTRL.(regWrite := true, isMulDiv := true) && !c.ex.pend.valid)
    && (c.ex.ctrl.memRead ==> PlainLoad(c.ex) && (t.idReal || c.ex.pend.valid))
    && (c.md.busy ==> NothingPending(c) && (t.slot == Bubble || (c.ex.ctrl.isMulDiv && !Redirect(c))))
  }

  /** A slot that can neither redirect nor start the multiply/divide unit. */
  predicate PlainLoad(ex: IdEx) {
    && !ex.ctrl.isBranch && !ex.ctrl.isJal && !ex.ctrl.isJalr && !ex.ctrl.illegal && !ex.ctrl.isMulDiv
    && !ex.fuse4.valid
  }

  /** The unit runs, or starts, only while no deferred write is under way. */
  lemma FreezePendsNothing(m: Machine, c: Core, t: Tok)
    requires CtlOk(m, c, t) && Freeze(c)
    ensures NothingPending(c)
  {
    hide FrontOk, Redirect, LoadInEx, LoadInMem, UnitOk;
  }

  lemma InertStays(c: Core)
    ensures Inert(c.ex) ==> !Redirect(c) && !c.ex.ctrl.isMulDiv && !c.ex.ctrl.memRead
  {
    hide FwdA, FwdB, BranchTaken;
  }

  /** The first instruction of a pair is no load and no jump. */
  lemma PairHeads(k: Kind, w: Word, n: Word)
    requires k != Single && KindPattern(k, w, n)
    ensures !Decode(w).memRead && !Decode(w).isJal && !Decode(w).isJalr && !Decode(w).isBranch
  {
    hide RdOf, Rs1Of, Rs2Of, ImmI, AluOpOf, Bit30, Funct7;
  }

  /** What the next slot says about itself. */
  lemma NewSlotFlags(k: Kind, id: IfId, a: Word, b: Word)
    requires KindPattern(k, id.instr, id.next)
    ensures var ex := Slot(k, id, a, b);
            && (ex.pend.valid <==> Defers(k)) && (ex.ctrl.source == FromMem ==> ex.ctrl.memRead)
            && (ex.ctrl.isMulDiv ==> ex.ctrl == IDLE_CTRL.(regWrite := true, isMulDiv := true) && !ex.pend.valid)
            && (k == Single && id.instr == NOP ==> Inert(ex))
            && (ex.ctrl.memRead ==> PlainLoad(ex) && (k == Single || Defers(k)))
  {
    hide Decode, Imm, ImmI, ImmB, ImmU, Add, RdOf, Rs1Of, Rs2Of, Opcode, Funct3, Funct7, CsrAddrOf, AddResult;
    DecodeShape(id.instr);
    DecodeUpper(id.instr);
    if k == AddLoad { DecodeAddKind(id.instr); }
    if k != Single { PairHeads(k, id.instr, id.next); }
    NopControl();
  }

  lemma NopControl()
    ensures Decode(NOP) == IDLE_CTRL.(regWrite := true, srcBImm := true) && RdOf(NOP) == 0
  {
    DecodeAddi(NOP);
  }

  lemma CtlAdvances(m: Machine, c: Core, t: Tok)
    requires CtlOk(m, c, t) && !Freeze(c)
    ensures CtlOk(m, Tick(m, c), NextTok(m.cfg, c, t))
  {
    hide FrontOk, Freeze, FlushEx, FlushId, StallFront, Tick, FuseKind, Inert, PendOk, UnitOk, Slot, IdOperand, Redirect,
         KindPattern, NextEx, ExResult, Stored, RF.Write, NextPendActive, Csr.WriteCsr, MDI.Next, MulDivInputs, MulDivStart,
         Index, Offset, Lane, PortWe, PortAddr, PortData, Rs1Of, Rs2Of;
    var d := Tick(m, c);
    FrontPreserved(m, c, t);
    NoFusionOfBubbles(m, c, t);
    PendPreserved(m, c, t);
    AdvancingStep(m, c);
    UnitRests(m, c);
    UnitStaysOk(c.md, MulDivInputs(m.cfg, c));
    NewExSlot(m.cfg, c);
    DetectedPattern(m.cfg, c);
    NewSlotFlags(FuseKind(m.cfg, c), c.id, IdOperand(c, Rs1Of(c.id.instr)), IdOperand(c, Rs2Of(c.id.instr)));
    BubbleFlags();
    InertStays(d);
    if !t.idReal { NopInDecode(m, c, t); } else { RealBehind(m, c, t); }
  }

  /** Behind an instruction that issues alone decode is not empty. */
  lemma RealBehind(m: Machine, c: Core, t: Tok)
    requires FrontOk(m.imem, c, t.idReal, t.ifReal) && t.idReal
    ensures !FlushEx(c) && !Freeze(c) && FuseKind(m.cfg, c) == Single ==> NextTok(m.cfg, c, t).idReal
  {
    hide Freeze, FlushEx, FlushId, StallFront, Redirect, FuseKind, MulDivStart;
    FlushIsRedirect(c);
  }

  lemma BubbleFlags()
    ensures Inert(EX_BUBBLE) && !EX_BUBBLE.ctrl.isMulDiv
  {
  }

  lemma NopInDecode(m: Machine, c: Core, t: Tok)
    requires FrontOk(m.imem, c, t.idReal, t.ifReal) && !t.idReal
    ensures c.id.instr == NOP && c.id.next == NOP
  {
  }

  /** After a cycle that is not frozen the unit is at rest. */
  lemma UnitRests(m: Machine, c: Core)
    requires UnitOk(c.md) && !Freeze(c)
    ensures var u := MDI.Next(c.md, MulDivInputs(m.cfg, c)); u.phase == MDI.Idle && !u.busy && !u.done
  {
    hide Redirect, LoadInEx, LoadInMem, MDI.Next, FwdA, FwdB;
    UnitMoves(c.md, MulDivInputs(m.cfg, c));
  }

  /** What a frozen cycle does to flags and banks, with or without a redirect. */
  lemma FrozenFlags(m: Machine, c: Core)
    requires Freeze(c) && !c.fire.valid && !c.pendActive
    ensures var d := Tick(m, c);
            && d.ex == (if Redirect(c) then EX_BUBBLE else c.ex) && d.mem == c.mem && d.wb == c.wb && d.fire == c.fire
            && !d.pendActive && d.md == MDI.Next(c.md, MulDivInputs(m.cfg, c)) && !Redirect(d)
  {
    hide Redirect, MulDivActive, LoadInEx, LoadInMem, Tick, Slot, FuseKind, MDI.Next, MulDivInputs;
    FlushIsRedirect(c);
    FrozenBanks(m, c);
    BubbleFlags();
    if Redirect(c) { InertStays(Tick(m, c)); } else { SameRedirect(c, Tick(m, c)); }
  }

  lemma FrozenBanks(m: Machine, c: Core)
    requires Freeze(c)
    ensures var d := Tick(m, c);
            && d.ex == NextEx(m.cfg, c) && d.mem == c.mem && d.wb == c.wb && d.fire == c.fire
            && d.raw == c.raw && d.rawLane == c.rawLane
            && d.pendActive == NextPendActive(m.cfg, c) && d.md == MDI.Next(c.md, MulDivInputs(m.cfg, c))
  {
    hide Freeze, NextEx, NextPendActive, MDI.Next, MulDivInputs, ExResult, MemResult, Stored, RF.Write, PcNext, NextFetch,
         NextId, NextBound, NextCsr;
  }

  lemma SameRedirect(c: Core, d: Core)
    requires d.ex == c.ex && d.mem == c.mem && d.wb == c.wb && d.raw == c.raw && d.rawLane == c.rawLane
    ensures Redirect(d) == Redirect(c)
  {
    hide FwdA, FwdB, RedirectOf;
    FrozenOperands(c, d);
  }

  lemma FreezeCause(c: Core)
    requires Freeze(c)
    ensures c.md.busy || c.ex.ctrl.isMulDiv
  {
    hide Redirect, LoadInEx, LoadInMem;
  }

  lemma CtlFrozen(m: Machine, c: Core, t: Tok)
    requires CtlOk(m, c, t) && Freeze(c)
    ensures CtlOk(m, Tick(m, c), NextTok(m.cfg, c, t))
  {
    hide FrontOk, Freeze, FlushEx, FlushId, StallFront, Tick, FuseKind, Inert, UnitOk, Redirect, MDI.Next, MulDivInputs,
         MulDivStart;
    FreezePendsNothing(m, c, t);
    FlushIsRedirect(c);
    FrontPreserved(m, c, t);
    FrozenFlags(m, c);
    FreezeCause(c);
    UnitStaysOk(c.md, MulDivInputs(m.cfg, c));
    BubbleFlags();
  }

  lemma CtlAtReset(m: Machine, s: Core)
    requires IsReset(s)
    ensures CtlOk(m, s, TOK_RESET)
  {
    hide InstrAt, Add;
  }

  /** In every reachable cycle of every program. */
  lemma {:induction false} CtlAlways(m: Machine, s: Core, n: nat)
    requires IsReset(s)
    ensures CtlOk(m, Run(m, s, n), TokRun(m, s, n))
  {
    hide IsReset, CtlOk, Run, TokRun, Tick, NextTok, Freeze;
    RunIsTick(m, s, if n > 0 then n - 1 else 0);
    if n == 0 {
      CtlAtReset(m, s);
    } else {
      CtlAlways(m, s, n - 1);
      var c, t := Run(m, s, n - 1), TokRun(m, s, n - 1);
      if Freeze(c) { CtlFrozen(m, c, t); } else { CtlAdvances(m, c, t); }
    }
  }

  /** The count tells whether the cycle is frozen, and whether it is the first of its freeze. */
  lemma UnitCounts(c: Core)
    requires UnitOk(c.md)
    ensures Freeze(c) <==> FreezeTime(c) > 0
    ensures MulDivStart(c) <==> FreezeTime(c) == 34
  {
    hide Redirect, LoadInEx, LoadInMem;
  }

  lemma UnitAt(m: Machine, s: Core, n: nat)
    requires IsReset(s)
    ensures UnitOk(Run(m, s, n).md)
  {
    hide IsReset, Run, TokRun, FrontOk, UnitOk, PendOk, LoadsMarked, Inert;
    CtlAlways(m, s, n);
  }

  /** The count of frozen cycles left runs down to the first cycle that is not frozen. */
  lemma {:induction false} FreezeCounts(m: Machine, s: Core, n: nat, k: nat)
    requires IsReset(s) && n <= k <= n + FreezeTime(Run(m, s, n))
    ensures FreezeTime(Run(m, s, k)) == n + FreezeTime(Run(m, s, n)) - k
    ensures Freeze(Run(m, s, k)) <==> k < n + FreezeTime(Run(m, s, n))
    decreases k
  {
    hide IsReset, Run, TokRun, Tick, Freeze, FreezeTime, MulDivStart, UnitOk;
    UnitAt(m, s, k);
    UnitCounts(Run(m, s, k));
    if k > n {
      FreezeCounts(m, s, n, k - 1);
      UnitAt(m, s, k - 1);
      FreezeTimeDrops(m, Run(m, s, k - 1));
      RunIsTick(m, s, k - 1);
    }
  }

  /** No freeze lasts longer than 34 cycles, whatever the program does. */
  lemma Unfreezes(m: Machine, s: Core, n: nat) returns (k: nat)
    requires IsReset(s)
    ensures n <= k <= n + 34 && !Freeze(Run(m, s, k)) && forall j | n <= j < k :: Freeze(Run(m, s, j))
  {
    hide IsReset, Run, Freeze, FreezeTime, UnitOk;
    UnitAt(m, s, n);
    FreezeTimeAtMost(Run(m, s, n));
    k := n + FreezeTime(Run(m, s, n));
    forall j | n <= j <= k
      ensures Freeze(Run(m, s, j)) <==> j < k
    {
      FreezeCounts(m, s, n, j);
    }
  }

  // ---------------------------------------------------------------- a freeze with its slot

  /** A multiplication or division that starts without a redirect holds every bank for 34 cycles, while the
      unit works on the operands it started with. */
  lemma {:induction false} SlotHeld(m: Machine, c: Core, i: nat)
    requires MulDivStart(c) && MDC.Ready(c.md) && !Redirect(c) && !c.fire.valid && i <= 34
    ensures var d := Run(m, c, i);
            && SameBanks(c, d) && !Redirect(d) && (Freeze(d) <==> i < 34)
            && (i > 0 ==> MDC.Running(d.md, FwdA(c), FwdB(c), c.ex.mulDivOp, i - 1))
    decreases i
  {
    hide Run, FwdA, FwdB, Redirect, Freeze, Tick, MDC.Running, MDC.Ready, SameBanks, TokRun;
    RunZero(m, c);
    StartFreezes(c);
    if i > 0 {
      SlotHeld(m, c, i - 1);
      var b := Run(m, c, i - 1);
      SameSlot(c, b);
      RunIsTick(m, c, i - 1);
      FrozenStep(m, b);
      BanksHeld(m, c, b);
      UnitAdvances(m, b, FwdA(c), FwdB(c), i - 1);
      SameSlot(c, Run(m, c, i));
      FrozenWhileRunning(Run(m, c, i), FwdA(c), FwdB(c), c.ex.mulDivOp, i - 1);
    }
  }

  lemma StartFreezes(c: Core)
    requires MulDivStart(c)
    ensures Freeze(c) && c.ex.ctrl.isMulDiv && !c.md.done && (!Redirect(c) ==> !c.ex.ctrl.illegal)
  {
    hide LoadInEx, LoadInMem, FwdA, FwdB;
  }

  lemma RunZero(m: Machine, c: Core)
    ensures Run(m, c, 0) == c && SameBanks(c, c)
  {
    hide Tick;
  }

  lemma SameSlot(c: Core, d: Core)
    requires SameBanks(c, d)
    ensures d.ex == c.ex && d.fire == c.fire && FwdA(d) == FwdA(c) && FwdB(d) == FwdB(c) && Redirect(d) == Redirect(c)
  {
    hide FwdA, FwdB, RedirectOf;
    FrozenOperands(c, d);
  }

  lemma BanksHeld(m: Machine, c: Core, b: Core)
    requires SameBanks(c, b) && Tick(m, b) ==
      b.(csr := Tick(m, b).csr, md := MDI.Next(b.md, MulDivInputs(m.cfg, b)), holdA := Tick(m, b).holdA,
         holdB := Tick(m, b).holdB)
    requires Tick(m, b).csr.csrs == b.csr.csrs
    ensures SameBanks(c, Tick(m, b)) && Tick(m, b).md == MDI.Next(b.md, MulDivInputs(m.cfg, b))
  {
    hide Tick, MDI.Next, MulDivInputs;
  }

  lemma UnitAdvances(m: Machine, b: Core, fa: Word, fb: Word, j: nat)
    requires b.ex.ctrl.isMulDiv && FwdA(b) == fa && FwdB(b) == fb && j < 34
    requires if j == 0 then MDC.Ready(b.md) && !b.md.done else MDC.Running(b.md, fa, fb, b.ex.mulDivOp, j - 1)
    ensures MDC.Running(MDI.Next(b.md, MulDivInputs(m.cfg, b)), fa, fb, b.ex.mulDivOp, j)
  {
    hide FwdA, FwdB, MDI.Next, MDC.Running;
    if j == 0 {
      MDC.StartAccepts(b.md, fa, fb, b.ex.mulDivOp);
    } else {
      MDC.RunningAdvances(b.md, fa, fb, b.ex.mulDivOp, j - 1, MulDivInputs(m.cfg, b));
    }
  }

  lemma FrozenWhileRunning(d: Core, fa: Word, fb: Word, op: Bits3, j: nat)
    requires MDC.Running(d.md, fa, fb, op, j) && j <= 33
    ensures Freeze(d) <==> j < 33
  {
    hide Redirect, LoadInEx, LoadInMem, MDC.Running;
    RunningFlags(d.md, fa, fb, op, j);
  }

  // ---------------------------------------------------------------- one cycle of a deferred write

  /** Where the deferred write is, and that the front end waits for it. */
  lemma PendFacts(m: Machine, c: Core, t: Tok)
    requires CtlOk(m, c, t)
    ensures c.pendActive == (c.ex.pend.valid || c.mem.pend.valid || c.wb.pend.valid || c.fire.valid)
    ensures c.pendActive ==> !Freeze(c) && StallFront(c) && FlushEx(c)
    ensures c.fire.valid ==> !c.wb.regWrite && !c.ex.pend.valid && !c.mem.pend.valid && !c.wb.pend.valid
    ensures c.wb.pend.valid ==> !c.ex.pend.valid && !c.mem.pend.valid && !c.fire.valid
    ensures c.mem.pend.valid ==> !c.ex.pend.valid && !c.wb.pend.valid && !c.fire.valid
    ensures c.ex.pend.valid ==> !c.mem.pend.valid && !c.wb.pend.valid && !c.fire.valid
    ensures !c.pendActive <==> NothingPending(c)
  {
    hide FrontOk, Redirect, Freeze, FlushEx, StallFront, UnitOk, Inert;
    FlushIsRedirect(c);
    PendStalls(c);
    if Freeze(c) { FreezePendsNothing(m, c, t); }
  }

  lemma PendMove(m: Machine, c: Core)
    requires !Freeze(c)
    ensures var d := Tick(m, c);
            && d.mem.pend == c.ex.pend && d.wb.pend == c.mem.pend && d.fire == c.wb.pend
            && (StallFront(c) || FlushEx(c) ==> !d.ex.pend.valid)
            && (!StallFront(c) && !FlushEx(c) ==>
                  d.ex.pend.valid == Defers(FuseKind(m.cfg, c)) && (d.ex.pend.valid ==> d.ex.pend.addr == RdOf(c.id.instr)))
            && d.regs == RF.Write(c.regs, PortWe(c), PortAddr(c), PortData(c))
  {
    hide Redirect, Freeze, FlushEx, StallFront, FuseKind, IdOperand, RdOf, Rs1Of, Rs2Of, FarBase, AddResult, SlotImm,
         SlotCtrl, RF.Write, PortWe, PortAddr, PortData, Tick, Csr.WriteCsr, MDI.Next, MulDivInputs, NextEx, Index,
         Offset, Lane, Decode, Imm, ImmB, Add, ExResult, Stored;
    AdvancingStep(m, c);
    NewExSlot(m.cfg, c);
    FlushIsRedirect(c);
    ExResultFlags(c);
  }
}
