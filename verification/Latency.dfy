/** How many issue cycles a load-use dependence and a redirect cost, exactly and on any program. */
module Latency {
  import opened Words
  import opened Isa
  import opened Memory
  import opened PipelineRegs
  import opened Fusion
  import opened Pipeline
  import opened FusedPairs
  import opened Refinement
  import opened Runs
  import opened Control
  import opened Protocols
  import opened Progress
  import opened FromReset
  import opened SideConditions
  import opened Issue
  import RF = RegFile
  import MDI = MulDivIter

  // ---------------------------------------------------------------- cycles with nothing under way

  /** Nothing is deferred and the multiply/divide unit is idle. */
  predicate Settled(c: Core) { NothingPending(c) && UnitOk(c.md) && !c.md.busy }

  /** With a bubble or another harmless slot in EX, only a load in MEM can hold decode. */
  lemma SettledWires(c: Core)
    requires Settled(c) && !Redirect(c) && !c.ex.ctrl.isMulDiv && !c.ex.ctrl.memRead
    ensures !Freeze(c) && !FlushId(c) && StallFront(c) == FlushEx(c) == LoadInMem(c)
  {
    hide Redirect, LoadInMem, Rs1Of, Rs2Of, UnitOk;
  }

  /** What a settled cycle that puts a bubble into EX leaves. */
  lemma SettledMoves(m: Machine, c: Core)
    requires NothingPending(c) && UnitOk(c.md) && !Freeze(c) && FlushEx(c)
    ensures var d := Tick(m, c);
            && Settled(d) && d.ex == EX_BUBBLE && d.mem.memRead == c.ex.ctrl.memRead && d.mem.rd == c.ex.rd
  {
    hide Redirect, Freeze, FlushEx, StallFront, Tick, NextEx, ExResult, UnitOk, FuseKind, RdOf, RF.Write, PortWe,
         PortAddr, PortData, MDI.Next, MulDivInputs;
    PendMove(m, c);
    NewExSlot(m.cfg, c);
    BanksAdvance(m, c);
    MemReadFlag(c);
    UnitRests(m, c);
    UnitStaysOk(c.md, MulDivInputs(m.cfg, c));
    UnitTicks(m, c);
    PendFlag(m, c);
  }

  lemma PendFlag(m: Machine, c: Core)
    requires !c.pendActive && FlushEx(c)
    ensures !Tick(m, c).pendActive
  {
    hide FlushEx, FuseKind, StallFront;
  }

  // ---------------------------------------------------------------- load-use

  lemma BubbleDoesNotRedirect(c: Core)
    requires c.ex == EX_BUBBLE
    ensures !Redirect(c) && !c.ex.ctrl.isMulDiv && !c.ex.ctrl.memRead && !LoadInEx(c)
  {
    hide FwdA, FwdB, BranchTaken, Rs1Of, Rs2Of;
  }

  /** Any state with a load in EX of a register that decode names, where nothing else holds decode: decode is
      held in that cycle and the next, by the load in EX and then in MEM, and goes on in the third. */
  lemma LoadUseTiming(m: Machine, c: Core)
    requires LoadInEx(c) && !Redirect(c) && !Freeze(c) && NothingPending(c) && UnitOk(c.md)
    ensures var d := Tick(m, c);
            var e := Tick(m, d);
            && StallFront(c) && StallFront(d) && !StallFront(e)
            && FlushEx(c) && FlushEx(d) && !FlushEx(e) && !Freeze(d) && !Freeze(e)
            && d.id == c.id && e.id == c.id && d.ex == EX_BUBBLE && e.ex == EX_BUBBLE
  {
    hide Redirect, Freeze, FlushEx, StallFront, Tick, LoadInEx, LoadInMem, NothingPending, UnitOk;
    LoadStalls(c);
    FlushIsRedirect(c);
    var d := Tick(m, c);
    SettledMoves(m, c);
    FrontHeld(m, c);
    BubbleDoesNotRedirect(d);
    SettledWires(d);
    HazardsMove(c, d);
    var e := Tick(m, d);
    SettledMoves(m, d) by { SettledParts(d); }
    FrontHeld(m, d);
    BubbleDoesNotRedirect(e);
    SettledWires(e);
    LoadGone(e);
  }

  lemma SettledParts(c: Core)
    requires Settled(c)
    ensures NothingPending(c) && UnitOk(c.md)
  {
  }

  lemma LoadStalls(c: Core)
    requires LoadInEx(c)
    ensures StallFront(c)
  {
    hide Redirect, LoadInEx, LoadInMem, MulDivActive;
  }

  lemma LoadGone(c: Core)
    requires !c.mem.memRead
    ensures !LoadInMem(c)
  {
  }

  // ---------------------------------------------------------------- an instruction waiting in decode

  /** One cycle of the wait. */
  lemma DecodeWaits(m: Machine, c: Core, t: Tok)
    requires CtlOk(m, c, t) && t.idReal && !Redirect(c) && !Issues(c, t)
    ensures StallFront(c) && Tick(m, c).id == c.id && NextTok(m.cfg, c, t).idReal && !Redirect(Tick(m, c))
  {
    hide CtlOk, Redirect, Freeze, FlushEx, StallFront, Tick, NextTok, FrontOk, UnitOk, Inert;
    FlushIsRedirect(c);
    FrontHeld(m, c);
    UnitOf(m, c, t);
    FrontTokens(m, c, t);
    if Freeze(c) {
      FreezePendsNothing(m, c, t);
      FrozenFlags(m, c);
    } else {
      BubbleEnters(m, c, t);
    }
  }

  /** On any program what is in decode and not flushed stays there, stalled, until it issues. */
  lemma {:induction false} WaitsInDecode(m: Machine, s: Core, n: nat, k: nat)
    requires IsReset(s) && TokRun(m, s, n).idReal && !Redirect(Run(m, s, n))
    requires n <= k <= n + Wait(Run(m, s, n), TokRun(m, s, n))
    ensures Run(m, s, k).id == Run(m, s, n).id && TokRun(m, s, k).idReal && !Redirect(Run(m, s, k))
    ensures Wait(Run(m, s, k), TokRun(m, s, k)) == Wait(Run(m, s, n), TokRun(m, s, n)) - (k - n)
    ensures StallFront(Run(m, s, k)) <==> k < n + Wait(Run(m, s, n), TokRun(m, s, n))
    ensures Issues(Run(m, s, k), TokRun(m, s, k)) <==> k == n + Wait(Run(m, s, n), TokRun(m, s, n))
    decreases k
  {
    hide IsReset, Run, TokRun, Tick, NextTok, CtlOk, Redirect, StallFront, Wait, NextPc, Freeze, FlushEx;
    CtlAlways(m, s, k);
    WaitDrops(m, Run(m, s, k), TokRun(m, s, k));
    FlushIsRedirect(Run(m, s, k));
    if k > n {
      WaitsInDecode(m, s, n, k - 1);
      CtlAlways(m, s, k - 1);
      WaitDrops(m, Run(m, s, k - 1), TokRun(m, s, k - 1));
      DecodeWaits(m, Run(m, s, k - 1), TokRun(m, s, k - 1));
      RunIsTick(m, s, k - 1);
    }
    if !Issues(Run(m, s, k), TokRun(m, s, k)) { DecodeWaits(m, Run(m, s, k), TokRun(m, s, k)); }
  }

  /** From reset, on any program: a load of a register that decode names keeps the instruction there for
      exactly two cycles, or four if it carries a deferred write, and in the next that instruction issues. */
  lemma LoadUseStalls(m: Machine, s: Core, n: nat)
    requires IsReset(s) && LoadInEx(Run(m, s, n))
    ensures var w := if Run(m, s, n).ex.pend.valid then 4 else 2;
            && (forall k | n <= k <= n + w ::
                  Run(m, s, k).id == Run(m, s, n).id && (StallFront(Run(m, s, k)) <==> k < n + w)
                  && (Issues(Run(m, s, k), TokRun(m, s, k)) <==> k == n + w))
  {
    hide IsReset, Run, TokRun, CtlOk, Redirect, LoadInEx, StallFront, Issues, Wait;
    var c, t := Run(m, s, n), TokRun(m, s, n);
    CtlAlways(m, s, n);
    LoadAlone(m, c, t);
    var w := if c.ex.pend.valid then 4 else 2;
    forall k | n <= k <= n + w
      ensures Run(m, s, k).id == Run(m, s, n).id && (StallFront(Run(m, s, k)) <==> k < n + w)
      ensures Issues(Run(m, s, k), TokRun(m, s, k)) <==> k == n + w
    {
      WaitsInDecode(m, s, n, k);
    }
  }

  /** A load of a register that decode names has a real instruction behind it, and neither redirects nor finds
      the multiply/divide unit at work. */
  lemma LoadAlone(m: Machine, c: Core, t: Tok)
    requires CtlOk(m, c, t) && LoadInEx(c)
    ensures t.idReal && !Redirect(c) && Wait(c, t) == if c.ex.pend.valid then 4 else 2
  {
    hide CtlOk, FrontOk, UnitOk, Redirect, Freeze, Inert, FreezeTime, Rs1Of, Rs2Of;
    UnitOf(m, c, t);
    if !t.idReal { NopInDecode(m, c, t); BubbleNoLoad(c); }
    LoadFacts(m, c, t);
    PlainLoadWires(c);
    UnitCounts(c);
    FreezeTimeAtMost(c);
  }

  lemma LoadFacts(m: Machine, c: Core, t: Tok)
    requires CtlOk(m, c, t) && c.ex.ctrl.memRead
    ensures PlainLoad(c.ex) && !c.md.busy && (!c.ex.pend.valid ==> PendLeft(c) == 0)
  {
    hide FrontOk, UnitOk, LoadsMarked;
  }

  lemma PlainLoadWires(c: Core)
    ensures PlainLoad(c.ex) ==> !Redirect(c) && (Freeze(c) ==> c.md.busy)
  {
    hide FwdA, FwdB, BranchTaken, LoadInEx, LoadInMem;
  }

  // ---------------------------------------------------------------- redirects

  /** What a redirect costs on any program: the next issue is that of the instruction at the target, exactly 3
      cycles later; 6 if the slot carries a deferred write; 36 if it is a multiplication that had to freeze. */
  lemma RedirectPenalty(m: Machine, s: Core, n: nat)
    requires IsReset(s) && Redirect(Run(m, s, n))
    ensures var c := Run(m, s, n);
            var w := if Freeze(c) then 36 else if c.ex.pend.valid then 6 else 3;
            && (forall k | n <= k < n + w :: !Issues(Run(m, s, k), TokRun(m, s, k)))
            && Issues(Run(m, s, n + w), TokRun(m, s, n + w))
            && Run(m, s, n + w).id
               == IfId(Target(c), InstrAt(m.imem, Target(c)), InstrAt(m.imem, Add(Target(c), 4)), true)
  {
    hide IsReset, Run, TokRun, CtlOk, Redirect, Freeze, Issues, Target, Wait, InstrAt, Add;
    CtlAlways(m, s, n);
    RedirectWait(m, Run(m, s, n), TokRun(m, s, n));
    var j := NextIssue(m, s, n);
  }

  lemma RedirectWait(m: Machine, c: Core, t: Tok)
    requires CtlOk(m, c, t) && Redirect(c)
    ensures Wait(c, t) == if Freeze(c) then 36 else if c.ex.pend.valid then 6 else 3
  {
    hide CtlOk, Freeze, Redirect, FreezeTime, UnitOk, FrontOk, Inert;
    BubbleIsCalm(m, c, t);
    UnitOf(m, c, t);
    UnitCounts(c);
    FreezeTimeAtMost(c);
    RedirectFacts(m, c, t);
  }

  lemma RedirectFacts(m: Machine, c: Core, t: Tok)
    requires CtlOk(m, c, t) && Redirect(c) && t.slot != Bubble
    ensures PendLeft(c) == (if c.ex.pend.valid then 4 else 0)
    ensures Freeze(c) ==> MulDivStart(c) && !c.ex.pend.valid
  {
    hide FrontOk, UnitOk, LoadsMarked, Redirect, Inert, LoadInEx, LoadInMem;
  }

  predicate JumpInDecode(c: Core) { Decode(c.id.instr).isJal || Decode(c.id.instr).isJalr }

  /** JAL and JALR resolve in EX: one that issues unfused does not redirect in its decode cycle but in the next,
      and the next issue, of the instruction at its target, comes four cycles after its own. */
  lemma JumpsResolveInEx(m: Machine, s: Core, n: nat)
    requires IsReset(s) && Issues(Run(m, s, n), TokRun(m, s, n))
    requires JumpInDecode(Run(m, s, n)) && FuseKind(m.cfg, Run(m, s, n)) == Single
    ensures !Redirect(Run(m, s, n)) && Redirect(Run(m, s, n + 1))
    ensures forall k | n < k < n + 4 :: !Issues(Run(m, s, k), TokRun(m, s, k))
    ensures Issues(Run(m, s, n + 4), TokRun(m, s, n + 4))
    ensures Run(m, s, n + 4).id.pc == Target(Run(m, s, n + 1))
  {
    hide IsReset, Run, TokRun, Tick, NextTok, CtlOk, Redirect, Freeze, FlushEx, Target, InstrAt, Add, FuseKind,
         JumpInDecode;
    CtlAlways(m, s, n);
    JumpEnters(m, Run(m, s, n), TokRun(m, s, n));
    RunIsTick(m, s, n);
    RedirectPenalty(m, s, n + 1);
  }

  lemma JumpEnters(m: Machine, c: Core, t: Tok)
    requires CtlOk(m, c, t) && Issues(c, t) && JumpInDecode(c) && FuseKind(m.cfg, c) == Single
    ensures !Redirect(c)
    ensures var d := Tick(m, c); Redirect(d) && !Freeze(d) && !d.ex.pend.valid
  {
    hide CtlOk, Redirect, Freeze, FlushEx, FlushId, StallFront, Tick, FuseKind, Slot, IdOperand, Decode, Rs1Of, Rs2Of,
         MDI.Next, MulDivInputs, UnitOk;
    FlushIsRedirect(c);
    NewExSlot(m.cfg, c);
    ExIsNext(m, c);
    UnitOf(m, c, t);
    UnitRests(m, c);
    UnitTicks(m, c);
    JumpSlot(c.id, IdOperand(c, Rs1Of(c.id.instr)), IdOperand(c, Rs2Of(c.id.instr)));
    JumpWires(Tick(m, c));
  }

  lemma JumpSlot(id: IfId, a: Word, b: Word)
    requires Decode(id.instr).isJal || Decode(id.instr).isJalr
    ensures var ex := Slot(Single, id, a, b);
            (ex.ctrl.isJal || ex.ctrl.isJalr) && !ex.ctrl.isMulDiv && !ex.pend.valid
  {
    hide Decode, Imm, RdOf, Rs1Of, Rs2Of, Funct3, CsrAddrOf, Add, AddResult;
    DecodeShape(id.instr);
  }

  lemma JumpWires(d: Core)
    requires (d.ex.ctrl.isJal || d.ex.ctrl.isJalr) && !d.ex.ctrl.isMulDiv && !d.md.busy
    ensures Redirect(d) && !Freeze(d)
  {
    hide FwdA, FwdB, BranchTaken, LoadInEx, LoadInMem;
  }

  // ---------------------------------------------------------------- instances from reset

  /** `lw t0, 0(a0)` and `addi t0, t0, 1`. */
  const LOAD_WORD: Word := 0x5_2283
  const USE_WORD: Word := 0x12_8293

  lemma LoadUseFields()
    ensures Opcode(LOAD_WORD) == OP_LOAD && Funct3(LOAD_WORD) == 2 && RdOf(LOAD_WORD) == 5
    ensures Rs1Of(USE_WORD) == 5
  {
  }

  /** From reset: the load is in EX in cycle 3, and the addition behind it issues in cycle 5. */
  lemma LoadUseReached(m: Machine, s: Core)
    requires IsReset(s) && m.imem[0] == LOAD_WORD && m.imem[1] == USE_WORD
    ensures StallFront(Run(m, s, 3)) && StallFront(Run(m, s, 4)) && !StallFront(Run(m, s, 5))
    ensures Run(m, s, 5).id.instr == USE_WORD && Issues(Run(m, s, 5), TokRun(m, s, 5))
  {
    hide IsReset, Run, TokRun, LoadInEx, Redirect, Freeze, StallFront, FlushEx;
    LoadInExAtThree(m, s);
    LoadUseStalls(m, s, 3);
  }

  lemma LoadInExAtThree(m: Machine, s: Core)
    requires IsReset(s) && m.imem[0] == LOAD_WORD && m.imem[1] == USE_WORD
    ensures var d := Run(m, s, 3);
            LoadInEx(d) && !d.ex.pend.valid && d.id.instr == USE_WORD
  {
    hide Run, Calm, IsReset, FuseKind, Slot, Rs1Of, Rs2Of, InstrAt, Add, Opcode, Funct3, RdOf, Tick, Decode, LoadInEx,
         Redirect, Freeze;
    var c := Run(m, s, 2);
    TwoCyclesIn(m, s);
    LoadNotFused(m.cfg, c);
    CalmIssues(m, c, s.regs);
    RunIsTick(m, s, 2);
    LoadSlotWires(Run(m, s, 3), RF.Read(s.regs, Rs1Of(LOAD_WORD)), RF.Read(s.regs, Rs2Of(LOAD_WORD)));
  }

  lemma LoadNotFused(cfg: Cfg, c: Core)
    requires c.id == IfId(MEM_BASE, LOAD_WORD, USE_WORD, true)
    ensures FuseKind(cfg, c) == Single
  {
    hide Clear, Clear5, Opcode, Funct3, Funct7, RdOf, Rs1Of, Rs2Of, ImmI, Decode;
    LoadUseFields();
  }

  lemma LoadSlotWires(d: Core, a: Word, b: Word)
    requires d.ex == Slot(Single, IfId(MEM_BASE, LOAD_WORD, USE_WORD, true), a, b) && d.id.instr == USE_WORD
    ensures LoadInEx(d) && !d.ex.pend.valid
  {
    hide Decode, Imm, Opcode, Funct3, RdOf, Rs1Of, Rs2Of, CsrAddrOf, Add;
    LoadUseFields();
    DecodeLw(LOAD_WORD);
  }

  /** From reset, `mulhu a0, a1, a2` and `beq a0, x0, 8` with 2^31 in both factors: in cycle 3 the bound of 36
      cycles is met, and nothing issues before cycle 39. */
  lemma LongestWaitReached(m: Machine, s: Core)
    requires IsReset(s) && m.cfg.fusionEn && m.imem[0] == HIGH_MULTIPLY && m.imem[1] == BRANCH_IF_ZERO
    requires s.regs[11] == 0x8000_0000 && s.regs[12] == 0x8000_0000
    ensures Wait(Run(m, s, 3), TokRun(m, s, 3)) == 36
    ensures forall k | 3 <= k < 39 :: !Issues(Run(m, s, k), TokRun(m, s, k))
  {
    hide IsReset, Run, TokRun, CtlOk, Redirect, Freeze, Issues, Wait;
    HighFlushes(m, s);
    CtlAlways(m, s, 3);
    RedirectWait(m, Run(m, s, 3), TokRun(m, s, 3));
    var j := NextIssue(m, s, 3);
  }

  lemma HighFlushes(m: Machine, s: Core)
    requires IsReset(s) && m.cfg.fusionEn && m.imem[0] == HIGH_MULTIPLY && m.imem[1] == BRANCH_IF_ZERO
    requires s.regs[11] == 0x8000_0000 && s.regs[12] == 0x8000_0000
    ensures Redirect(Run(m, s, 3)) && Freeze(Run(m, s, 3))
  {
    hide Run, IsReset, StallFront, FlushEx, FuseKind, PairSlot, FwdA, FwdB, Decode, Pattern4, Opcode, Funct7, Freeze,
         Add, ImmB, RdOf, Rs1Of, Rs2Of, Redirect;
    HighIssues(m, s);
    var d := Run(m, s, 3);
    QuietOperands(d, s.regs);
    HighFields();
    HighDecodes();
    HighSum();
    MulSlotWires(d, MEM_BASE, HIGH_MULTIPLY, BRANCH_IF_ZERO);
    StartFreezes(d);
  }
}
