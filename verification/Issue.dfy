/** What leaves decode for EX over a whole run, and what the forwarding multiplexers select there. */
module Issue {
  import opened Words
  import opened Isa
  import opened Memory
  import opened PipelineRegs
  import opened Fusion
  import opened Pipeline
  import opened CoreTop
  import opened Sequential
  import opened FusedPairs
  import opened Refinement
  import opened Runs
  import opened Control
  import opened Protocols
  import Hazard
  import MDI = MulDivIter

  // ---------------------------------------------------------------- program order

  /** The slot that has just entered EX names the instruction decode held. */
  lemma SlotNames(k: Kind, id: IfId, a: Word, b: Word)
    ensures var ex := Slot(k, id, a, b);
            ex.instr == id.instr && ex.pc == (if k == AuipcJalr then Add(id.pc, 4) else id.pc)
  {
    hide SlotImm, SlotCtrl, RdOf, Rs1Of, Rs2Of, Decode, Funct3, CsrAddrOf, Add, ImmB, ImmU, AddResult;
  }

  lemma AddInjective(a: Word, b: Word)
    requires Add(a, 4) == Add(b, 4)
    ensures a == b
  {
  }

  lemma ExSlotPc(m: Machine, s: Core, k: Kind, a: Arch)
    requires ExOk(m, s, Holds(k), a)
    ensures s.ex.pc == (if k == AuipcJalr then Add(a.cpu.pc, 4) else a.cpu.pc)
    ensures s.ex.instr == InstrAt(m.imem, a.cpu.pc)
  {
    hide OperandsOk, KindPattern, FwdA, FwdB, InstrAt, SlotImm, SlotCtrl, RdOf, Rs1Of, Rs2Of, Decode, Funct3,
         CsrAddrOf, Add,
         ImmB, ImmU, AddResult;
  }

  /** The slot in EX and the address behind it, at any covered cycle. */
  lemma SlotAtCycle(m: Machine, s: Core, a: Arch, n: nat)
    requires SameStart(s, a) && Covered(m, s, a, n)
    ensures ExOk(m, Run(m, s, n), TokRun(m, s, n).slot, SeqRun(a, TokRun(m, s, n).exStart))
    ensures var t := TokRun(m, s, n);
            FrontPc(Run(m, s, n), t.idReal, t.ifReal) == After(SeqRun(a, t.exStart).cpu.pc, t.slot)
  {
    hide SameStart, Covered, Run, TokRun, SeqRun, ExOk, FrontOk, MdOk, PendOk, ArchOk, FrontPc, After;
    Simulation(m, s, a, n);
  }

  lemma IssuedKind(m: Machine, s: Core, n: nat)
    requires Issues(Run(m, s, n), TokRun(m, s, n))
    ensures TokRun(m, s, n + 1).slot == Holds(FuseKind(m.cfg, Run(m, s, n)))
    ensures TokRun(m, s, n + 1).exStart == Issued(TokRun(m, s, n))
  {
    hide Run, TokRun, Tick, Freeze, FlushEx, FlushId, StallFront, FuseKind, MulDivStart;
    RunIsTick(m, s, n);
  }

  /** Program order, exactly once: what leaves decode in a cycle is the sequential machine's instruction
      number `Issued` (with the next one, if fused), never one from a squashed path; the count moves on by
      exactly that, and the front end goes on behind it. */
  lemma IssueInOrder(m: Machine, s: Core, a: Arch, n: nat)
    requires SameStart(s, a) && Covered(m, s, a, n + 2) && Issues(Run(m, s, n), TokRun(m, s, n))
    ensures var c, t, u, k := Run(m, s, n), TokRun(m, s, n), TokRun(m, s, n + 1), FuseKind(m.cfg, Run(m, s, n));
            var next := SeqRun(a, Issued(t)).cpu;
            && c.id.pc == next.pc && c.id.instr == Fetch(next)
            && u.slot == Holds(k) && u.exStart == Issued(t) && Issued(u) == Issued(t) + (if k == Single then 1 else 2)
            && FrontPc(Run(m, s, n + 1), u.idReal, u.ifReal) == Add(next.pc, if k == Single then 4 else 8)
  {
    hide SameStart, Covered, Run, TokRun, SeqRun, ExOk, Slot, FuseKind, Freeze, FlushEx, IdOperand, Rs1Of, Rs2Of, Tick,
         NextTok, NextEx, Add, Fetch, InstrAt, FrontPc, StepOk;
    var c, d, u := Run(m, s, n), Run(m, s, n + 1), TokRun(m, s, n + 1);
    var k := FuseKind(m.cfg, c);
    CoveredPrefix(m, s, a, n + 2, n + 1);
    SlotAtCycle(m, s, a, n + 1);
    IssuedKind(m, s, n);
    RunIsTick(m, s, n);
    ExIsNext(m, c);
    NewExSlot(m.cfg, c);
    SlotNames(k, c.id, IdOperand(c, Rs1Of(c.id.instr)), IdOperand(c, Rs2Of(c.id.instr)));
    ExSlotPc(m, d, k, SeqRun(a, u.exStart));
    if k == AuipcJalr { AddInjective(c.id.pc, SeqRun(a, u.exStart).cpu.pc); }
    SlotCovered(m, s, a, n + 2, n + 1);
    FetchedIs(m, SeqRun(a, u.exStart));
  }

  lemma FetchedIs(m: Machine, a: Arch)
    requires StepOk(m, a)
    ensures Fetch(a.cpu) == InstrAt(m.imem, a.cpu.pc)
  {
    hide Fetch, InstrAt, Regular, Offset;
  }

  // ---------------------------------------------------------------- the load placeholder

  /** The multiplexer for source register `r` does not take the placeholder of a load in MEM. */
  predicate RealOperand(c: Core, r: Reg) {
    Hazard.Select(r, c.mem.rd, c.mem.regWrite, c.wb.rd, c.wb.regWrite) == Hazard.FromMemStage
    ==> c.mem.source != FromMem
  }

  lemma BubbleReadsNothing(c: Core)
    requires c.ex == EX_BUBBLE
    ensures RealOperand(c, c.ex.rs1) && RealOperand(c, c.ex.rs2)
  {
  }

  lemma IssuedOperandsReal(cfg: Cfg, c: Core, d: Core)
    requires !Freeze(c) && !FlushEx(c) && LoadsMarked(c)
    requires d.ex == NextEx(cfg, c) && d.mem == ExResult(c)
    ensures RealOperand(d, d.ex.rs1) && RealOperand(d, d.ex.rs2)
  {
    hide Freeze, FlushEx, Slot, IdOperand, Rs1Of, Rs2Of, RdOf, FuseKind, Clear5, ExResult, KindPattern, NextEx;
    NewExSlot(cfg, c);
    DetectedPattern(cfg, c);
    ExResultFlags(c);
    SlotFields(FuseKind(cfg, c), c.id, IdOperand(c, Rs1Of(c.id.instr)), IdOperand(c, Rs2Of(c.id.instr)));
    if c.ex.ctrl.memRead && c.ex.rd != 0 { NoLoadUse(c); }
  }

  /** In every reachable cycle of every program, for both operands of whatever is in EX: the two load-use
      stalls keep the value a load does not have yet from being forwarded. */
  lemma {:induction false} PlaceholderNeverSelected(m: Machine, s: Core, n: nat)
    requires IsReset(s)
    ensures RealOperand(Run(m, s, n), Run(m, s, n).ex.rs1) && RealOperand(Run(m, s, n), Run(m, s, n).ex.rs2)
  {
    hide IsReset, Run, TokRun, RealOperand, Freeze, FlushEx, CtlOk, Tick, NextTok;
    if n == 0 {
      ResetBank(m, s);
      BubbleReadsNothing(s);
    } else {
      PlaceholderNeverSelected(m, s, n - 1);
      CtlAlways(m, s, n - 1);
      RunIsTick(m, s, n - 1);
      RealStep(m, Run(m, s, n - 1), TokRun(m, s, n - 1));
    }
  }

  lemma ResetBank(m: Machine, s: Core)
    requires IsReset(s)
    ensures Run(m, s, 0) == s && s.ex == EX_BUBBLE
  {
    hide Run, Tick;
    RunTicks(m, s, 0);
  }

  lemma RealStep(m: Machine, c: Core, t: Tok)
    requires CtlOk(m, c, t) && RealOperand(c, c.ex.rs1) && RealOperand(c, c.ex.rs2)
    ensures var d := Tick(m, c); RealOperand(d, d.ex.rs1) && RealOperand(d, d.ex.rs2)
  {
    hide FrontOk, UnitOk, PendOk, LoadsMarked, Inert, RealOperand, Freeze, FlushEx, NextEx, ExResult, Tick, Redirect,
         MDI.Next, MulDivInputs;
    var d := Tick(m, c);
    if Freeze(c) {
      FreezePendsNothing(m, c, t);
      FrozenFlags(m, c);
      if Redirect(c) { BubbleReadsNothing(d); } else { SameSelect(c, d); }
    } else {
      BanksAdvance(m, c);
      if FlushEx(c) { NewExSlot(m.cfg, c); BubbleReadsNothing(d); } else { IssuedOperandsReal(m.cfg, c, d); }
    }
  }

  lemma BanksAdvance(m: Machine, c: Core)
    requires !Freeze(c)
    ensures Tick(m, c).ex == NextEx(m.cfg, c) && Tick(m, c).mem == ExResult(c)
  {
    hide Freeze, NextEx, ExResult;
  }

  lemma SameSelect(c: Core, d: Core)
    requires d.ex == c.ex && d.mem == c.mem && d.wb == c.wb
    ensures RealOperand(d, d.ex.rs1) <==> RealOperand(c, c.ex.rs1)
    ensures RealOperand(d, d.ex.rs2) <==> RealOperand(c, c.ex.rs2)
  {
  }
}
