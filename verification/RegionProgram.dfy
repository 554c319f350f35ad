/** When the fusion flag follows the program, in terms of the sequential run; and what FISOL.BOUND is then
    worth: inside the region every pair is safe. */
module RegionProgram {
  import opened Words
  import opened Isa
  import opened Memory
  import opened PipelineRegs
  import opened Fusion
  import opened Pipeline
  import opened CoreTop
  import opened Sequential
  import opened FusedPairs
  import opened Refinement
  import opened Runs
  import opened Control
  import opened Protocols
  import opened Progress
  import opened Issue
  import opened FromReset
  import opened Region
  import Hazard
  import RF = RegFile

  // ---------------------------------------------------------------- a squash, from reset

  /** `beq x0, x0, 8` and FISOL.BOUND. */
  const SKIP_NEXT: Word := 0x463
  const BOUND: Word := 0x0B

  lemma SkipFields()
    ensures Decode(SKIP_NEXT) == IDLE_CTRL.(isBranch := true) && Funct3(SKIP_NEXT) == 0
    ensures Rs1Of(SKIP_NEXT) == Rs2Of(SKIP_NEXT) == 0 && Opcode(SKIP_NEXT) == OP_BRANCH
    ensures Decode(BOUND) == IDLE_CTRL.(isBound := true) && Opcode(BOUND) == OP_CUSTOM0
  {
  }

  /** The branch jumps over the BOUND, which no instruction executes, and the flag is set all the same. */
  lemma SquashReached(m: Machine, s: Core, a: Arch)
    requires SameStart(s, a) && s.dmem == m.imem && m.imem[0] == SKIP_NEXT && m.imem[1] == BOUND
    ensures SquashesMark(Run(m, s, 3)) && Run(m, s, 4).bound
    ensures Issued(TokRun(m, s, 4)) == 1 && !InRegion(a, 1) && SeqRun(a, 1).cpu.pc == MEM_BASE + 8
  {
    hide Run, TokRun, SeqRun, IsReset, BytesOf, SquashesMark, InRegion;
    SkipIssues(m, s);
    BoundSquashed(m, s);
    SkipInOrder(m, s, a);
  }

  lemma SkipIssues(m: Machine, s: Core)
    requires IsReset(s) && m.imem[0] == SKIP_NEXT && m.imem[1] == BOUND
    ensures var d, u := Run(m, s, 3), TokRun(m, s, 3);
            && QuietBack(d, s.regs) && !d.pendActive && !d.bound && d.id.instr == BOUND
            && d.ex == PairSlot(Single, MEM_BASE, SKIP_NEXT, BOUND, 0, 0) && d.ex.rs1Data == 0 && d.ex.rs2Data == 0
            && u.slot == Holds(Single) && u.exStart == 0
  {
    hide Run, Calm, QuietBack, IsReset, StallFront, FlushEx, FlushId, Freeze, FuseKind, Slot, Rs1Of, Rs2Of, InstrAt,
         Add,
         Opcode, Funct3, Tick, Decode, MulDivStart;
    var c := Run(m, s, 2);
    TwoCyclesIn(m, s);
    CalmWires(c, s.regs);
    SkipFuses(m.cfg, c);
    CalmIssues(m, c, s.regs);
    SkipFields();
    CalmFlag(c, s.regs);
    SlotFields(Single, c.id, 0, 0);
    RunIsTick(m, s, 2);
    TokensAtTwo(m, s);
  }

  lemma CalmFlag(c: Core, regs: RF.Regs)
    requires Calm(c, regs)
    ensures !c.bound
  {
  }

  lemma SkipFuses(cfg: Cfg, c: Core)
    requires c.id == IfId(MEM_BASE, SKIP_NEXT, BOUND, true)
    ensures FuseKind(cfg, c) == Single
  {
    hide Clear, Clear5, Opcode, Funct3, Funct7, RdOf, Rs1Of, Rs2Of, ImmI, Decode;
    SkipFields();
  }

  /** Two cycles after reset decode and fetch hold real instructions and EX none. */
  lemma TokensAtTwo(m: Machine, s: Core)
    requires IsReset(s)
    ensures var t := TokRun(m, s, 2); t.idReal && t.ifReal && t.slot == Bubble && t.exStart == 0
  {
    hide Run, TokRun, Calm, StallFront, FlushEx, FlushId, Freeze, FuseKind, Tick, MulDivStart, InstrAt, Add;
    CalmAtReset(s);
    CalmWires(s, s.regs);
    CalmStays(m, s, s.regs);
    NopNeverFuses(m.cfg, s);
    RunIsTick(m, s, 0);
    RunIsTick(m, s, 1);
    CalmWires(Run(m, s, 1), s.regs);
    NopNeverFuses(m.cfg, Run(m, s, 1));
  }

  lemma BoundSquashed(m: Machine, s: Core)
    requires IsReset(s) && m.imem[0] == SKIP_NEXT && m.imem[1] == BOUND
    ensures SquashesMark(Run(m, s, 3)) && Run(m, s, 4).bound && Issued(TokRun(m, s, 4)) == 1
  {
    hide Run, TokRun, QuietBack, IsReset, StallFront, FlushEx, FlushId, Freeze, FuseKind, PairSlot, Tick, Decode,
         Redirect,
         MulDivStart, FwdA, FwdB;
    SkipIssues(m, s);
    var d := Run(m, s, 3);
    QuietOperands(d, s.regs);
    SkipWires(d);
    SkipFields();
    NoStall(d, s.regs);
    FlagMoves(m, d);
    FlushIsRedirect(d);
    RunIsTick(m, s, 3);
  }

  lemma SkipWires(d: Core)
    requires d.ex == PairSlot(Single, MEM_BASE, SKIP_NEXT, BOUND, 0, 0) && FwdA(d) == 0 && FwdB(d) == 0
    ensures Redirect(d) && !d.ex.ctrl.isMulDiv && !d.ex.ctrl.memRead
  {
    hide Decode, Imm, Add, FwdA, FwdB, ImmB, CsrAddrOf, Rs1Of, Rs2Of, RdOf, Alu;
    SkipFields();
  }

  lemma NoStall(d: Core, regs: RF.Regs)
    requires QuietBack(d, regs) && !d.pendActive && !d.ex.ctrl.isMulDiv && !d.ex.ctrl.memRead
    ensures !StallFront(d) && !Freeze(d)
  {
    hide Redirect, Rs1Of, Rs2Of;
  }

  lemma SkipInOrder(m: Machine, s: Core, a: Arch)
    requires SameStart(s, a) && s.dmem == m.imem && m.imem[0] == SKIP_NEXT && m.imem[1] == BOUND
    ensures !InRegion(a, 1) && SeqRun(a, 1).cpu.pc == MEM_BASE + 8
  {
    hide Decode, BytesOf, IsReset, ReadWord, NextRegs, NextMem, Rs1Of, Rs2Of, Funct3, Opcode, SeqRun;
    SkipFields();
    WordFetch(m.imem, 0);
    assert Offset(MEM_BASE) == 0 && Index(0) == 0;
    assert Imm(SKIP_NEXT) == 8 by { SkipOffset(); }
    SeqRunSteps(a, 0);
    assert !InRegion(a, 0);
  }

  lemma SkipOffset()
    ensures Imm(SKIP_NEXT) == 8
  {
  }

  // ---------------------------------------------------------------- the sequential view of a squash

  /** A taken branch or a jump, whatever its target. */
  predicate Jumps(c: Cpu, w: Word) {
    Decode(w).isJal || Decode(w).isJalr || (Decode(w).isBranch && BranchTaken(Funct3(w), OperandA(c, w), OperandB(c, w)))
  }

  function WordAt(m: Machine, a: Arch): Word { InstrAt(m.imem, a.cpu.pc) }
  function WordBehind(m: Machine, a: Arch): Word { InstrAt(m.imem, Add(a.cpu.pc, 4)) }

  /** Sequential instruction `i` jumps, and the word behind it would change the region. */
  predicate JumpsOverMark(m: Machine, a: Arch, i: nat) {
    var b := SeqRun(a, i);
    Jumps(b.cpu, WordAt(m, b)) && Marks(WordBehind(m, b), InRegion(a, i)) != InRegion(a, i)
  }

  /** `l` loads a register that a register field of `w` names. */
  predicate LoadsFor(l: Word, w: Word) { Hazard.LoadUse(Decode(l).memRead, RdOf(l), Rs1Of(w), Rs2Of(w)) }

  /** The single instruction in MEM is a load of one of the register fields of `w`. */
  predicate LoadAhead(m: Machine, a: Arch, t: Tok, w: Word) {
    var l := WordAt(m, SeqRun(a, t.memStart));
    t.exStart == t.memStart + 1 && LoadsFor(l, w)
  }

  /** The unfused instruction in EX jumps over a mark that no load in MEM holds back. */
  predicate Squashes(m: Machine, a: Arch, t: Tok) {
    && t.slot == Holds(Single) && JumpsOverMark(m, a, t.exStart)
    && !LoadAhead(m, a, t, WordBehind(m, SeqRun(a, t.exStart)))
  }

  /** What the MEM bank loads, by the tokens. */
  predicate MemNames(m: Machine, c: Core, a: Arch, t: Tok) {
    var l := WordAt(m, SeqRun(a, t.memStart));
    && t.memStart <= t.exStart <= t.memStart + 2
    && (t.exStart == t.memStart ==> !c.mem.memRead)
    && (t.exStart == t.memStart + 1 ==> c.mem.memRead == Decode(l).memRead && c.mem.rd == RdOf(l))
    && (t.exStart == t.memStart + 2 && c.mem.memRead ==> c.mem.pend.valid)
  }

  lemma SlotLoads(m: Machine, c: Core, t: SlotTok, a: Arch)
    requires ExOk(m, c, t, a)
    ensures t == Bubble ==> !c.ex.ctrl.memRead
    ensures t == Holds(Single) ==> c.ex.ctrl.memRead == Decode(WordAt(m, a)).memRead && c.ex.rd == RdOf(WordAt(m, a))
    ensures t.Holds? && t.kind != Single && c.ex.ctrl.memRead ==> c.ex.pend.valid
  {
    hide InstrAt, FwdA, FwdB, OperandsOk, Decode, SlotImm, Add, RdOf, Rs1Of, Rs2Of, Funct3, CsrAddrOf, AddResult,
         FarBase,
         Opcode, Funct7, ImmI, ImmB, ImmU, Imm;
    if t.Holds? && t.kind != Single && t.kind != AddLoad {
      DecodeUpper(WordAt(m, a));
      PairHeads(t.kind, WordAt(m, a), WordBehind(m, a));
    }
  }

  lemma MemMoves(m: Machine, c: Core, a: Arch, t: Tok)
    requires !Freeze(c) && !c.ex.ctrl.illegal && ExOk(m, c, t.slot, SeqRun(a, t.exStart))
    ensures MemNames(m, Tick(m, c), a, NextTok(m.cfg, c, t))
  {
    hide Freeze, FlushEx, FlushId, StallFront, FuseKind, MulDivStart, ExOk, Decode, RdOf, SeqRun, WordAt, Tick,
         NextSlot,
         ExResult, NextEx;
    SlotLoads(m, c, t.slot, SeqRun(a, t.exStart));
    BanksAdvance(m, c);
    MemReadFlag(c);
    ExResultFlags(c);
  }

  lemma {:induction false} MemNamesAt(m: Machine, s: Core, a: Arch, n: nat)
    requires SameStart(s, a) && Covered(m, s, a, n)
    ensures MemNames(m, Run(m, s, n), a, TokRun(m, s, n))
  {
    hide SameStart, Covered, Run, TokRun, MemNames, Freeze, NextTok, Tick, ExOk, SeqRun;
    if n == 0 {
      MemAtReset(m, s, a);
    } else {
      CoveredPrefix(m, s, a, n, n - 1);
      MemNamesAt(m, s, a, n - 1);
      Simulation(m, s, a, n - 1);
      ControlAt(m, s, a, n - 1);
      RunIsTick(m, s, n - 1);
      if Freeze(Run(m, s, n - 1)) {
        FrozenCycle(m, s, a, n - 1);
        FrozenTokens(m.cfg, Run(m, s, n - 1), TokRun(m, s, n - 1));
        FrozenMem(m, a, Run(m, s, n - 1), Run(m, s, n), TokRun(m, s, n - 1));
      } else {
        MemMoves(m, Run(m, s, n - 1), a, TokRun(m, s, n - 1));
      }
    }
  }

  lemma FrozenMem(m: Machine, a: Arch, c: Core, d: Core, t: Tok)
    requires MemNames(m, c, a, t) && d.mem == c.mem && Freeze(c)
    ensures MemNames(m, d, a, NextTok(m.cfg, c, t))
  {
    hide Freeze, FlushEx, FlushId, StallFront, FuseKind, MulDivStart, WordAt, SeqRun, Decode, RdOf, NextSlot;
  }

  lemma MemAtReset(m: Machine, s: Core, a: Arch)
    requires SameStart(s, a)
    ensures MemNames(m, Run(m, s, 0), a, TokRun(m, s, 0))
  {
    hide BytesOf, Tick, NextTok, SeqRun, WordAt, Decode;
  }

  // ---------------------------------------------------------------- redirects and what is behind them

  lemma RedirectIsJump(m: Machine, c: Core, a: Arch)
    requires ExOk(m, c, Holds(Single), a) && !Decode(WordAt(m, a)).illegal
    ensures Redirect(c) <==> Jumps(a.cpu, WordAt(m, a))
    ensures Redirect(c) ==> !c.ex.ctrl.memRead
  {
    hide InstrAt, FwdA, FwdB, Decode, SlotImm, Add, RdOf, Rs1Of, Rs2Of, Funct3, CsrAddrOf, AddResult, FarBase, OperandA,
         OperandB, BranchTaken;
    DecodeShape(WordAt(m, a));
  }

  /** Behind an unfused instruction that redirects, decode holds the next word; behind a pair, a bubble. */
  lemma DecodeBehind(m: Machine, s: Core, a: Arch, n: nat)
    requires SameStart(s, a) && Covered(m, s, a, n + 1) && Redirect(Run(m, s, n))
    ensures TokRun(m, s, n).idReal <==> TokRun(m, s, n).slot == Holds(Single)
  {
    hide SameStart, Covered, Run, TokRun, Redirect, Freeze, FlushEx, FlushId, StallFront, FuseKind, PendOk, MdOk,
         Inert, Tick,
         NextTok;
    ControlAt(m, s, a, n);
    if n == 0 {
      RunIsTick(m, s, 0);
    } else {
      CoveredPrefix(m, s, a, n + 1, n);
      ControlAt(m, s, a, n - 1);
      RunIsTick(m, s, n - 1);
      if Freeze(Run(m, s, n - 1)) {
        FrozenCycle(m, s, a, n - 1);
      } else {
        JustIssued(m.cfg, m.imem, Run(m, s, n - 1), TokRun(m, s, n - 1));
      }
    }
  }

  lemma JustIssued(cfg: Cfg, imem: WordMem, c: Core, t: Tok)
    requires !Freeze(c) && FrontOk(imem, c, t.idReal, t.ifReal)
    ensures var u := NextTok(cfg, c, t); u.slot != Bubble ==> (u.idReal <==> u.slot == Holds(Single))
  {
    hide Redirect, Freeze, FlushEx, FlushId, StallFront, FuseKind, MulDivStart, InstrAt, Add;
    FlushIsRedirect(c);
  }

  /** With a jump in EX, only a load in MEM stalls decode. */
  lemma StallAtJump(m: Machine, s: Core, a: Arch, n: nat)
    requires SameStart(s, a) && Covered(m, s, a, n + 1) && Redirect(Run(m, s, n))
    requires TokRun(m, s, n).slot == Holds(Single) && !Run(m, s, n).ex.ctrl.memRead
    ensures StallFront(Run(m, s, n)) <==> LoadInMem(Run(m, s, n))
    ensures !Run(m, s, n).mem.pend.valid
  {
    hide SameStart, Covered, Run, TokRun, Redirect, LoadInMem, MulDivActive, MdOk, FrontOk, Inert;
    ControlAt(m, s, a, n);
    FlushIsRedirect(Run(m, s, n));
  }

  /** At a cycle where the flag agrees: it takes a squashed mark if and only if the sequential instruction in
      EX, unfused, jumps over one that no load in MEM holds back. */
  lemma SquashInProgramTerms(m: Machine, s: Core, a: Arch, n: nat)
    requires SameStart(s, a) && Covered(m, s, a, n + 1) && Agrees(m, s, a, n)
    ensures SquashesMark(Run(m, s, n)) <==> Squashes(m, a, TokRun(m, s, n))
  {
    hide SameStart, Covered, Run, TokRun, Redirect, StallFront, Marks, InRegion, SeqRun, ExOk, MdOk, PendOk, ArchOk,
         Jumps,
         InstrAt, Add, Rs1Of, Rs2Of, RdOf, Decode, MemNames, NextTok, Inert, SlotAllowed, Freeze;
    var c, t := Run(m, s, n), TokRun(m, s, n);
    CoveredPrefix(m, s, a, n + 1, n);
    Simulation(m, s, a, n);
    ControlAt(m, s, a, n);
    if t.slot == Holds(Single) {
      SlotCovered(m, s, a, n + 1, n);
      LegalSlot(m, SeqRun(a, t.exStart));
      RedirectIsJump(m, c, SeqRun(a, t.exStart));
      if Redirect(c) {
        DecodeBehind(m, s, a, n);
        StallAtJump(m, s, a, n);
        MemNamesAt(m, s, a, n);
        LoadNamed(m, c, a, t, c.id.instr);
        JumpKeepsRegion(m, a, t.exStart);
      }
    } else if Redirect(c) {
      DecodeBehind(m, s, a, n);
      NopDoesNotMark(c.bound);
    }
  }

  lemma LegalSlot(m: Machine, a: Arch)
    requires SlotAllowed(m, a, Holds(Single))
    ensures StepOk(m, a) && !Decode(WordAt(m, a)).illegal && Fetch(a.cpu) == WordAt(m, a)
  {
    hide InstrAt, Fetch, Decode, Fits, AluResult, Offset;
  }

  lemma LoadNamed(m: Machine, c: Core, a: Arch, t: Tok, w: Word)
    requires MemNames(m, c, a, t) && !c.mem.pend.valid && c.id.instr == w
    ensures LoadInMem(c) <==> LoadAhead(m, a, t, w)
  {
    hide Decode, RdOf, Rs1Of, Rs2Of, WordAt, SeqRun;
  }

  /** A jump is no mark. */
  lemma JumpKeepsRegion(m: Machine, a: Arch, i: nat)
    requires StepOk(m, SeqRun(a, i)) && Jumps(SeqRun(a, i).cpu, WordAt(m, SeqRun(a, i)))
    ensures InRegion(a, i + 1) == InRegion(a, i)
  {
    hide SeqRun, InstrAt, Fetch, Regular, Offset, BranchTaken, Decode;
    JumpsDoNotMark(WordAt(m, SeqRun(a, i)));
    assert Fetch(SeqRun(a, i).cpu) == WordAt(m, SeqRun(a, i));
  }

  lemma JumpsDoNotMark(w: Word)
    requires Decode(w).isJal || Decode(w).isJalr || Decode(w).isBranch
    ensures !Decode(w).isBound && !Decode(w).isOff
  {
    hide Opcode, Funct3, Funct7, Bit30, AluOpOf;
  }

  // ---------------------------------------------------------------- whole runs

  lemma {:induction false} AgreesWithoutJumps(m: Machine, s: Core, a: Arch, n: nat)
    requires SameStart(s, a) && Covered(m, s, a, n + 1)
    requires forall k | 0 <= k < n :: !Squashes(m, a, TokRun(m, s, k))
    ensures Agrees(m, s, a, n)
  {
    hide SameStart, Run, TokRun, Covered, SquashesMark, Issued, InRegion, Squashes;
    if n == 0 {
      RegionAtReset(m, s, a);
    } else {
      CoveredPrefix(m, s, a, n + 1, n);
      AgreesWithoutJumps(m, s, a, n - 1);
      SquashInProgramTerms(m, s, a, n - 1);
      RegionStep(m, s, a, n - 1);
    }
  }

  /** The flag is the program's up to cycle `n` if and only if, in no cycle before, the sequential instruction
      in EX is an unfused jump over a mark that changes the region and that no load in MEM holds back. */
  lemma RegionInProgramTerms(m: Machine, s: Core, a: Arch, n: nat)
    requires SameStart(s, a) && Covered(m, s, a, n + 1)
    ensures (forall k | 0 <= k <= n :: Agrees(m, s, a, k)) <==> (forall k | 0 <= k < n :: !Squashes(m, a, TokRun(m, s, k)))
  {
    hide SameStart, Run, TokRun, Covered, SquashesMark, Agrees, Squashes;
    if forall k | 0 <= k < n :: !Squashes(m, a, TokRun(m, s, k)) {
      forall k | 0 <= k <= n
        ensures Agrees(m, s, a, k)
      {
        CoveredPrefix(m, s, a, n + 1, k + 1);
        AgreesWithoutJumps(m, s, a, k);
      }
    } else {
      var k :| 0 <= k < n && Squashes(m, a, TokRun(m, s, k));
      CoveredPrefix(m, s, a, n + 1, k + 2);
      CoveredPrefix(m, s, a, n + 1, k + 1);
      if Agrees(m, s, a, k) {
        SquashInProgramTerms(m, s, a, k);
        SquashDisagrees(m, s, a, k);
      }
    }
  }

  // ---------------------------------------------------------------- a condition on the program alone

  /** None of the first `k` sequential instructions jumps over a mark that would change the region. */
  predicate MarksSafe(m: Machine, a: Arch, k: nat) {
    forall i | 0 <= i < k :: !JumpsOverMark(m, a, i)
  }

  lemma SafeNeverSquashes(m: Machine, s: Core, a: Arch, k: nat, n: nat)
    requires MarksSafe(m, a, k) && Issued(TokRun(m, s, n)) <= k
    ensures !Squashes(m, a, TokRun(m, s, n))
  {
    hide TokRun, JumpsOverMark, LoadAhead;
  }

  /** A program without such jumps has its flag right in every cycle. */
  lemma SafeProgramAgrees(m: Machine, s: Core, a: Arch, k: nat, n: nat)
    requires SameStart(s, a) && CoversFirst(m, s, a, k) && MarksSafe(m, a, k) && WithinFirst(m, s, k, n + 1)
    ensures Agrees(m, s, a, n)
  {
    hide SameStart, Covered, TokRun, MarksSafe, Agrees, Issued;
    assert Covered(m, s, a, n + 1);
    forall j | 0 <= j < n
      ensures !Squashes(m, a, TokRun(m, s, j))
    {
      SafeNeverSquashes(m, s, a, k, j);
    }
    AgreesWithoutJumps(m, s, a, n);
  }

  /** The instruction before the jump does not decide whether the jump squashes the mark: it loads nothing that
      the mark's register fields name, unless the jump waits for it too, and where fusion is on it makes no
      pattern with the jump. */
  predicate PlainAt(m: Machine, a: Arch, i: nat) {
    i > 0 ==>
      var v, w := WordAt(m, SeqRun(a, i - 1)), WordAt(m, SeqRun(a, i));
      && (LoadsFor(v, WordBehind(m, SeqRun(a, i))) ==> LoadsFor(v, w))
      && (m.cfg.fusionEn && !InRegion(a, i - 1) ==> !Pattern3(v, w) && !Pattern4(v, w))
  }

  predicate Plain(m: Machine, a: Arch, k: nat) {
    forall i | 0 <= i < k && JumpsOverMark(m, a, i) :: PlainAt(m, a, i)
  }

  /** The cycle in which instruction `i` enters EX, and the slot it is in. */
  lemma EntersEx(m: Machine, s: Core, a: Arch, i: nat) returns (n: nat)
    requires SameStart(s, a) && CoversFirst(m, s, a, i + 1)
    ensures n > 0 && WithinFirst(m, s, i, n) && i + 1 <= Issued(TokRun(m, s, n)) <= i + 2
    ensures Covered(m, s, a, n) && TokRun(m, s, n).exStart <= i && Issues(Run(m, s, n - 1), TokRun(m, s, n - 1))
  {
    hide SameStart, CoversFirst, Covered, Run, TokRun, Issues, Freeze, FlushEx, FuseKind, Issued, SeqRun,
         Tick, NextTok, SlotAllowed;
    n := IssuesEvery(m, s, a, i + 1);
    RunIsTick(m, s, 0);
    NothingIssued();
    CoveredWhile(m, s, a, i + 1, n);
    if !Issues(Run(m, s, n - 1), TokRun(m, s, n - 1)) { IssuedStays(m, s, a, n - 1); }
    IssuedKind(m, s, n - 1);
  }

  /** It enters alone: a plain jump over a mark is neither half of a pair. */
  lemma EntersAlone(m: Machine, s: Core, a: Arch, i: nat, n: nat)
    requires SameStart(s, a) && CoversFirst(m, s, a, i + 1) && JumpsOverMark(m, a, i) && PlainAt(m, a, i)
    requires WithinFirst(m, s, i, n) && i + 1 <= Issued(TokRun(m, s, n)) <= i + 2
    requires Covered(m, s, a, n) && TokRun(m, s, n).exStart <= i
    requires n > 0 && Issues(Run(m, s, n - 1), TokRun(m, s, n - 1)) && Agrees(m, s, a, n - 1)
    ensures TokRun(m, s, n).slot == Holds(Single) && TokRun(m, s, n).exStart == i && Covered(m, s, a, n + 1)
  {
    hide SameStart, CoversFirst, Covered, Run, TokRun, JumpsOverMark, PlainAt, SeqRun, ExOk, Issued, WithinFirst, Inv,
         KindPattern, InstrAt, Add, SlotAllowed, Issues, Agrees, InRegion, FuseKind;
    var c, t := Run(m, s, n), TokRun(m, s, n);
    IssuedKind(m, s, n - 1);
    SlotAtCycle(m, s, a, n);
    SlotPattern(m, c, t.slot.kind, SeqRun(a, t.exStart));
    if t.exStart == i {
      JumpIsNoHead(m, a, i, t.slot);
      OneIssued(t);
    } else {
      TwoIssued(t, i);
      CoveredUpTo(m, s, a, i, i + 1, n);
      SlotCovered(m, s, a, n + 1, n);
      FusedOutside(m, s, a, n - 1);
      JumpIsNoTail(m, a, i, t.slot);
      assert false;
    }
    CoveredUpTo(m, s, a, i, i + 1, n);
  }

  lemma OneIssued(t: Tok)
    ensures t.slot == Holds(Single) ==> Issued(t) == t.exStart + 1
  {
  }

  lemma TwoIssued(t: Tok, i: nat)
    requires t.slot.Holds? && t.exStart < i && i + 1 <= Issued(t)
    ensures t.slot.kind != Single && t.exStart == i - 1 && Issued(t) == i + 1
  {
  }

  lemma CoveredUpTo(m: Machine, s: Core, a: Arch, i: nat, k: nat, n: nat)
    requires CoversFirst(m, s, a, k) && WithinFirst(m, s, i, n) && i < k && Issued(TokRun(m, s, n)) <= k
    ensures Covered(m, s, a, n + 1)
  {
    hide Covered, TokRun, Issued, WithinFirst;
    WindowGrows(m, s, i, k, n);
  }

  lemma JumpIsNoHead(m: Machine, a: Arch, i: nat, t: SlotTok)
    requires JumpsOverMark(m, a, i) && t.Holds?
    requires KindPattern(t.kind, WordAt(m, SeqRun(a, i)), WordBehind(m, SeqRun(a, i)))
    ensures t == Holds(Single)
  {
    hide SeqRun, WordAt, WordBehind, Decode, BranchTaken, Marks, InRegion, KindPattern;
    if t.kind != Single { PairHeads(t.kind, WordAt(m, SeqRun(a, i)), WordBehind(m, SeqRun(a, i))); }
  }

  /** The second half of a covered pair is the next sequential instruction. */
  lemma JumpIsNoTail(m: Machine, a: Arch, i: nat, t: SlotTok)
    requires i > 0 && PlainAt(m, a, i) && t.Holds? && t.kind != Single && m.cfg.fusionEn && !InRegion(a, i - 1)
    requires SlotAllowed(m, SeqRun(a, i - 1), t)
    requires KindPattern(t.kind, WordAt(m, SeqRun(a, i - 1)), WordBehind(m, SeqRun(a, i - 1)))
    ensures !JumpsOverMark(m, a, i)
  {
    hide SeqRun, SeqStep, InstrAt, Decode, BranchTaken, Marks, InRegion, StepOk, Fetch, Add, PairOkAt, Rs1Of, Rs2Of,
         KindPattern,
         Pattern1, Pattern2, Pattern3, Pattern4, Pattern5;
    var b := SeqRun(a, i - 1);
    SeqRunSteps(a, i - 1);
    HarmlessCompare(m, b, t.kind);
    PairIsTwoSteps(m, b, t.kind, WordAt(m, b), WordBehind(m, b));
    SecondWord(m, b);
    TailKinds(t.kind, WordAt(m, b), WordBehind(m, b));
  }

  lemma SecondWord(m: Machine, a: Arch)
    requires StepOk(m, SeqStep(a)) && Fetch(SeqStep(a).cpu) == WordBehind(m, a)
    ensures WordAt(m, SeqStep(a)) == WordBehind(m, a)
  {
    hide SeqStep, InstrAt, Fetch, Regular, Offset;
  }

  /** Only idioms 3 and 4 end in a jump. */
  lemma TailKinds(k: Kind, w: Word, n: Word)
    requires k != Single && KindPattern(k, w, n)
    ensures Decode(n).isJal || Decode(n).isJalr || Decode(n).isBranch ==> Pattern3(w, n) || Pattern4(w, n)
  {
    hide RdOf, Rs1Of, Rs2Of, ImmI, AluOpOf, Bit30, Funct7;
  }

  /** An instruction that has just issued alone does not wait for a load that is in MEM now: that load was in EX
      when it issued, and would have held it. */
  lemma IssuedBehindLoad(m: Machine, s: Core, a: Arch, n: nat)
    requires SameStart(s, a) && Covered(m, s, a, n + 1) && n > 0 && Issues(Run(m, s, n - 1), TokRun(m, s, n - 1))
    requires var t := TokRun(m, s, n); t.exStart == t.memStart + 1
    ensures var t := TokRun(m, s, n);
            !LoadsFor(WordAt(m, SeqRun(a, t.memStart)), WordAt(m, SeqRun(a, t.exStart)))
  {
    hide SameStart, Covered, Run, TokRun, SeqRun, ExOk, StallFront, Redirect, InstrAt, Add, Fetch, Decode, RdOf, Rs1Of,
         Rs2Of, Issues, Issued, FuseKind, PairOkAt, SeqStep, StepOk, FrontPc;
    var c, t := Run(m, s, n - 1), TokRun(m, s, n - 1);
    CoveredPrefix(m, s, a, n + 1, n - 1);
    IssueInOrder(m, s, a, n - 1);
    OnlyRealIssues(c, t);
    SlotAtCycle(m, s, a, n - 1);
    StagesAtIssue(m, s, n - 1);
    SlotLoads(m, c, t.slot, SeqRun(a, t.exStart));
    SlotCovered(m, s, a, n + 1, n);
    FetchedIs(m, SeqRun(a, TokRun(m, s, n).exStart));
    NoLoadHolds(c);
  }

  lemma StagesAtIssue(m: Machine, s: Core, n: nat)
    requires Issues(Run(m, s, n), TokRun(m, s, n))
    ensures var t, u := TokRun(m, s, n), TokRun(m, s, n + 1);
            u.memStart == t.exStart && u.exStart == t.exStart + Count(t.slot) && u.slot.Holds?
  {
    hide Run, TokRun, Tick, Freeze, FlushEx, FlushId, StallFront, FuseKind, MulDivStart;
    RunIsTick(m, s, n);
  }

  lemma NoLoadHolds(c: Core)
    ensures !StallFront(c) ==> !LoadInEx(c)
  {
    hide Redirect, LoadInEx, LoadInMem, MulDivActive;
  }

  lemma PlainMarkNotHeld(m: Machine, s: Core, a: Arch, n: nat)
    requires SameStart(s, a) && Covered(m, s, a, n + 1) && n > 0 && Issues(Run(m, s, n - 1), TokRun(m, s, n - 1))
    requires PlainAt(m, a, TokRun(m, s, n).exStart)
    ensures var t := TokRun(m, s, n); !LoadAhead(m, a, t, WordBehind(m, SeqRun(a, t.exStart)))
  {
    hide SameStart, Covered, Run, TokRun, SeqRun, Issues, WordAt, WordBehind, InRegion, Pattern3, Pattern4, Decode, RdOf,
         Rs1Of, Rs2Of;
    if TokRun(m, s, n).exStart == TokRun(m, s, n).memStart + 1 { IssuedBehindLoad(m, s, a, n); }
  }

  /** One such jump among the first `k` instructions makes the flag wrong at some cycle of the run. */
  lemma UnsafeProgramDisagrees(m: Machine, s: Core, a: Arch, k: nat, i: nat) returns (n: nat)
    requires SameStart(s, a) && CoversFirst(m, s, a, k) && i < k && JumpsOverMark(m, a, i) && PlainAt(m, a, i)
    ensures WithinFirst(m, s, k, n + 1) && !Agrees(m, s, a, n)
  {
    hide SameStart, CoversFirst, Covered, Run, TokRun, JumpsOverMark, PlainAt, SeqRun, Issued, Agrees, Redirect,
         LoadAhead, Issues, Freeze, FlushEx, WithinFirst;
    FirstAndFewer(m, s, a, k, i + 1);
    var q := EntersEx(m, s, a, i);
    n := q - 1;
    EarlierWindow(m, s, i, k, q);
    if Agrees(m, s, a, q - 1) {
      EntersAlone(m, s, a, i, q);
      OneIssued(TokRun(m, s, q));
      PlainMarkNotHeld(m, s, a, q);
      WindowGrows(m, s, i, k, q);
      n := q;
      if Agrees(m, s, a, q) {
        SquashInProgramTerms(m, s, a, q);
        NoIssueAtRedirect(Run(m, s, q), TokRun(m, s, q));
        NextCovered(m, s, a, q);
        IssuedStays(m, s, a, q);
        SquashDisagrees(m, s, a, q);
        WindowNext(m, s, k, q + 1);
        n := q + 1;
      }
    }
  }

  lemma EarlierWindow(m: Machine, s: Core, i: nat, k: nat, n: nat)
    requires WithinFirst(m, s, i, n) && i <= k
    ensures WithinFirst(m, s, k, n)
  {
    hide TokRun, Issued;
  }

  lemma NoIssueAtRedirect(c: Core, t: Tok)
    requires SquashesMark(c)
    ensures !Issues(c, t)
  {
    hide Redirect, StallFront, Freeze, FlushEx, FlushId;
    FlushIsRedirect(c);
  }

  lemma WindowGrows(m: Machine, s: Core, i: nat, k: nat, n: nat)
    requires WithinFirst(m, s, i, n) && i < k && Issued(TokRun(m, s, n)) <= k
    ensures WithinFirst(m, s, k, n + 1)
  {
    hide TokRun, Issued;
  }

  lemma WindowNext(m: Machine, s: Core, k: nat, n: nat)
    requires WithinFirst(m, s, k, n) && Issued(TokRun(m, s, n)) <= k
    ensures WithinFirst(m, s, k, n + 1)
  {
    hide TokRun, Issued;
  }

  /** For plain programs, exactly: the flag is right in every cycle that has issued at most the first `k`
      instructions if and only if none of these jumps over a mark that changes the region. */
  lemma RegionByProgram(m: Machine, s: Core, a: Arch, k: nat)
    requires SameStart(s, a) && CoversFirst(m, s, a, k) && Plain(m, a, k)
    ensures MarksSafe(m, a, k) <==> forall n: nat :: WithinFirst(m, s, k, n + 1) ==> Agrees(m, s, a, n)
  {
    hide SameStart, CoversFirst, WithinFirst, Agrees, JumpsOverMark, PlainAt;
    if MarksSafe(m, a, k) {
      forall n: nat | WithinFirst(m, s, k, n + 1)
        ensures Agrees(m, s, a, n)
      {
        SafeProgramAgrees(m, s, a, k, n);
      }
    } else {
      var i :| 0 <= i < k && JumpsOverMark(m, a, i);
      var n := UnsafeProgramDisagrees(m, s, a, k, i);
    }
  }

  // ---------------------------------------------------------------- what BOUND protects

  /** Outside the region none of the first `k` instructions starts a pair on which fusion goes wrong. */
  predicate PairsOkOutside(m: Machine, a: Arch, k: nat) {
    forall i | 0 <= i < k && !InRegion(a, i) :: PairOkAt(m, SeqRun(a, i))
  }

  lemma {:induction false} BoundCovered(m: Machine, s: Core, a: Arch, k: nat, n: nat)
    requires SameStart(s, a) && Supported(m, a, k) && MarksSafe(m, a, k) && WithinFirst(m, s, k, n)
    requires m.cfg.fusionEn ==> PairsOkOutside(m, a, k)
    ensures Covered(m, s, a, n) && forall j | 0 <= j < n :: Agrees(m, s, a, j)
    decreases n
  {
    hide SameStart, Supported, MarksSafe, PairsOkOutside, TokRun, Run, SeqRun, SlotAllowed, Agrees, Issued;
    if n > 0 {
      ShorterWindow(m, s, k, n);
      BoundCovered(m, s, a, k, n - 1);
      SlotBound(m, s, a, k, n - 1);
      forall j | 0 <= j < n - 1
        ensures !Squashes(m, a, TokRun(m, s, j))
      {
        ShorterWindow(m, s, k, n);
        InWindow(m, s, k, n - 1, j);
        SafeNeverSquashes(m, s, a, k, j);
      }
      AgreesWithoutJumps(m, s, a, n - 1);
    }
  }

  lemma ShorterWindow(m: Machine, s: Core, k: nat, n: nat)
    requires WithinFirst(m, s, k, n) && n > 0
    ensures WithinFirst(m, s, k, n - 1) && Issued(TokRun(m, s, n - 1)) <= k
  {
    hide TokRun, Issued;
  }

  lemma InWindow(m: Machine, s: Core, k: nat, n: nat, j: nat)
    requires WithinFirst(m, s, k, n) && j < n
    ensures Issued(TokRun(m, s, j)) <= k
  {
    hide TokRun, Issued;
  }

  /** The slot at cycle `n` is allowed: if it is a pair, the flag was clear when it issued, and the flag is
      the program's. */
  lemma SlotBound(m: Machine, s: Core, a: Arch, k: nat, n: nat)
    requires Supported(m, a, k) && (m.cfg.fusionEn ==> PairsOkOutside(m, a, k))
    requires Covered(m, s, a, n) && (forall j | 0 <= j < n :: Agrees(m, s, a, j)) && Issued(TokRun(m, s, n)) <= k
    ensures SlotAllowed(m, SeqRun(a, TokRun(m, s, n).exStart), TokRun(m, s, n).slot)
  {
    hide Supported, PairsOkOutside, Covered, TokRun, Run, Agrees, SlotAllowed, SeqRun, PairOkAt, FuseKind, Issues,
         NextTok,
         Tick, StepOk, InRegion;
    var t := TokRun(m, s, n);
    if n == 0 {
      RunIsTick(m, s, 0);
      BubbleAllowed(m, SeqRun(a, t.exStart));
    } else if !Issues(Run(m, s, n - 1), TokRun(m, s, n - 1)) {
      RunIsTick(m, s, n - 1);
      NothingNew(m.cfg, Run(m, s, n - 1), TokRun(m, s, n - 1));
      SlotCovered(m, s, a, n, n - 1);
      BubbleAllowed(m, SeqRun(a, t.exStart));
    } else {
      IssuedKind(m, s, n - 1);
      if FuseKind(m.cfg, Run(m, s, n - 1)) != Single {
        FusedOutside(m, s, a, n - 1);
        PairOutside(m, a, k, t.exStart, t.slot);
      }
      SlotWithinRun(m, a, k, t.exStart, t.slot);
    }
  }

  lemma BubbleAllowed(m: Machine, a: Arch)
    ensures SlotAllowed(m, a, Bubble)
  {
  }

  lemma FusedOutside(m: Machine, s: Core, a: Arch, n: nat)
    requires Agrees(m, s, a, n) && FuseKind(m.cfg, Run(m, s, n)) != Single
    ensures !InRegion(a, Issued(TokRun(m, s, n))) && m.cfg.fusionEn
  {
    hide Run, TokRun, InRegion, FuseKind;
    if Run(m, s, n).bound { NoFusionInside(m.cfg, Run(m, s, n)); }
    DetectedPattern(m.cfg, Run(m, s, n));
  }

  lemma PairOutside(m: Machine, a: Arch, k: nat, i: nat, t: SlotTok)
    requires PairsOkOutside(m, a, k) && !InRegion(a, i) && t.Holds? && i + Count(t) <= k
    ensures PairOkAt(m, SeqRun(a, i))
  {
    hide InRegion, SeqRun, PairOkAt;
  }

  /** FISOL.BOUND protects: pairs on which fusion goes wrong are harmless between an executed BOUND and the next
      OFF, if no jump passes over a mark.  All results that ask for `CoversFirst` or `Covered` then apply. */
  lemma BoundProtects(m: Machine, s: Core, a: Arch, k: nat)
    requires SameStart(s, a) && Supported(m, a, k) && MarksSafe(m, a, k)
    requires m.cfg.fusionEn ==> PairsOkOutside(m, a, k)
    ensures CoversFirst(m, s, a, k)
  {
    hide SameStart, Supported, MarksSafe, PairsOkOutside, Covered, WithinFirst, Agrees;
    forall n: nat | WithinFirst(m, s, k, n)
      ensures Covered(m, s, a, n)
    {
      BoundCovered(m, s, a, k, n);
    }
  }
}
