/** What the performance counters of rtl/csr_file.sv count, over whole runs. */
module Counters {
  import opened Words
  import opened Isa
  import opened Memory
  import opened Fusion
  import opened Pipeline
  import opened CoreTop
  import opened Sequential
  import opened FusedPairs
  import opened Refinement
  import opened Runs
  import opened Control
  import opened Protocols
  import opened Progress
  import Csr = CsrFile
  import MDI = MulDivIter

  // ---------------------------------------------------------------- issue

  /** Slots, and among them fused pairs, that have entered EX in the first `n` cycles. */
  function SlotsIssued(m: Machine, s: Core, n: nat): nat {
    if n == 0 then 0
    else SlotsIssued(m, s, n - 1) + (if Issues(Run(m, s, n - 1), TokRun(m, s, n - 1)) then 1 else 0)
  }

  predicate IssuesPair(cfg: Cfg, c: Core, t: Tok) { Issues(c, t) && FuseKind(cfg, c) != Single }

  function PairsIssued(m: Machine, s: Core, n: nat): nat {
    if n == 0 then 0
    else PairsIssued(m, s, n - 1) + (if IssuesPair(m.cfg, Run(m, s, n - 1), TokRun(m, s, n - 1)) then 1 else 0)
  }

  /** The event pulses exactly when a fused pair enters EX: bubbles never match a pattern, and a pair
      held in decode does not pulse again. */
  lemma FusionEvent(m: Machine, s: Core, n: nat)
    requires IsReset(s)
    ensures FusionActive(m.cfg, Run(m, s, n)) <==> IssuesPair(m.cfg, Run(m, s, n), TokRun(m, s, n))
  {
    hide IsReset, FrontOk, FuseKind, Freeze, FlushEx, Run, TokRun;
    CtlAlways(m, s, n);
    NoFusionOfBubbles(m, Run(m, s, n), TokRun(m, s, n));
  }

  /** mhpmcounter5 counts the fused pairs and mcycle the cycles, modulo 2^32, for every program. */
  lemma {:induction false} FusionCounter(m: Machine, s: Core, n: nat)
    requires IsReset(s)
    ensures Run(m, s, n).csr.counters.fusion == PairsIssued(m, s, n) % 0x1_0000_0000
    ensures Run(m, s, n).csr.counters.cycle == n % 0x1_0000_0000
  {
    hide IsReset, Run, TokRun, Tick, FusionActive, IsolActive, MulDivStart, IssuesPair, Add;
    if n == 0 {
      AtReset(m, s);
    } else {
      FusionCounter(m, s, n - 1);
      FusionEvent(m, s, n - 1);
      RunIsTick(m, s, n - 1);
      CountersTick(m, Run(m, s, n - 1));
      CountsOn(PairsIssued(m, s, n - 1));
      CountsOn(n - 1);
    }
  }

  lemma AtReset(m: Machine, s: Core)
    requires IsReset(s)
    ensures TokRun(m, s, 0) == TOK_RESET && Run(m, s, 0) == s
    ensures s.csr.counters == Csr.Counters(0, 0, 0, 0) && Started(s) == 0
  {
    hide Tick, NextTok;
  }

  lemma CountsOn(k: nat)
    ensures Add(k % 0x1_0000_0000, 1) == (k + 1) % 0x1_0000_0000
  {
  }

  lemma CountersTick(m: Machine, c: Core)
    ensures Tick(m, c).csr.counters
         == Csr.NextCounters(c.csr.counters, MulDivStart(c), IsolActive(m.cfg, c), FusionActive(m.cfg, c))
  {
    hide Csr.NextCounters, FusionActive, IsolActive, MulDivStart;
  }

  /** A multiplication fused with a branch that is taken: its slot is flushed in its first frozen cycle. */
  predicate FlushesSlot(c: Core) { Freeze(c) && Redirect(c) }

  /** Sequential instructions of the slots so flushed in the first `n` cycles. */
  function FlushedBefore(m: Machine, s: Core, n: nat): nat {
    if n == 0 then 0
    else FlushedBefore(m, s, n - 1) + (if FlushesSlot(Run(m, s, n - 1)) then Count(TokRun(m, s, n - 1).slot) else 0)
  }

  /** On any program: the instructions that have issued and were not flushed are the slots plus one more for
      each fused pair, less those flushed; none is missing if and only if no slot was flushed. */
  lemma {:induction false} IssuedIsSlotsPlusPairs(m: Machine, s: Core, n: nat)
    requires IsReset(s)
    ensures Issued(TokRun(m, s, n)) + FlushedBefore(m, s, n) == SlotsIssued(m, s, n) + PairsIssued(m, s, n)
    ensures Issued(TokRun(m, s, n)) == SlotsIssued(m, s, n) + PairsIssued(m, s, n)
       <==> forall j | 0 <= j < n :: !FlushesSlot(Run(m, s, j))
  {
    hide IsReset, Run, TokRun, Issues, FlushesSlot, FuseKind, NextTok, Tick, Issued, Count, CtlOk;
    if n == 0 {
      AtReset(m, s);
      NothingIssued();
    } else {
      IssuedIsSlotsPlusPairs(m, s, n - 1);
      var c, t := Run(m, s, n - 1), TokRun(m, s, n - 1);
      RunIsTick(m, s, n - 1);
      CountMoves(m.cfg, c, t);
      if FlushesSlot(c) {
        CtlAlways(m, s, n - 1);
        FlushedIsReal(m, c, t);
      }
    }
  }

  /** On supported runs none is. */
  lemma CoveredFlushesNothing(m: Machine, s: Core, a: Arch, n: nat)
    requires SameStart(s, a) && Covered(m, s, a, n)
    ensures Issued(TokRun(m, s, n)) == SlotsIssued(m, s, n) + PairsIssued(m, s, n)
  {
    hide SameStart, Covered, Run, TokRun, Freeze, Redirect, Issued, PendOk, MdOk, FrontOk, Inert;
    StartIsReset(s, a);
    IssuedIsSlotsPlusPairs(m, s, n);
    forall j | 0 <= j < n
      ensures !FlushesSlot(Run(m, s, j))
    {
      CoveredPrefix(m, s, a, n, j + 1);
      ControlAt(m, s, a, j);
    }
  }

  lemma CountMoves(cfg: Cfg, c: Core, t: Tok)
    ensures Issued(NextTok(cfg, c, t)) + (if FlushesSlot(c) then Count(t.slot) else 0)
         == Issued(t) + (if Issues(c, t) then 1 else 0) + (if IssuesPair(cfg, c, t) then 1 else 0)
  {
    hide Freeze, Redirect, FlushEx, FuseKind, NextTok, Issued, Count;
    IssuedMoves(cfg, c, t);
  }

  lemma FlushedIsReal(m: Machine, c: Core, t: Tok)
    requires CtlOk(m, c, t) && FlushesSlot(c)
    ensures Count(t.slot) > 0
  {
    hide CtlOk, Freeze, Redirect;
    BubbleIsCalm(m, c, t);
  }

  // ---------------------------------------------------------------- multiply/divide starts

  predicate NextIsMulDiv(a: Arch) { Decode(Fetch(a.cpu)).isMulDiv }

  /** Multiplications and divisions among the first `k` sequential instructions. */
  function MulDivsBefore(a: Arch, k: nat): nat {
    if k == 0 then 0 else MulDivsBefore(a, k - 1) + (if NextIsMulDiv(SeqRun(a, k - 1)) then 1 else 0)
  }

  /** Whether the slot in EX has had its start pulse. */
  function Started(c: Core): nat { if c.md.busy || c.md.done then 1 else 0 }

  /** A fused pair within the assumptions holds no multiplication or division. */
  lemma PairHasNoMulDiv(k: Kind, w: Word, n: Word)
    requires k != Single && KindPattern(k, w, n) && (k == CmpBranch ==> !Decode(w).isMulDiv)
    ensures !Decode(w).isMulDiv && !Decode(n).isMulDiv
  {
    hide RdOf, Rs1Of, Rs2Of, ImmI, AluOpOf, Bit30;
  }

  /** The instructions of the slot in EX that are multiplications or divisions. */
  lemma SlotMulDivs(m: Machine, c: Core, t: Tok, a: Arch)
    requires ExOk(m, c, t.slot, a) && SlotAllowed(m, a, t.slot) && t.slot.Holds?
    ensures NextIsMulDiv(a) <==> c.ex.ctrl.isMulDiv && t.slot == Holds(Single)
    ensures t.slot != Holds(Single) ==> !c.ex.ctrl.isMulDiv && !NextIsMulDiv(SeqStep(a))
  {
    hide FwdA, FwdB, OperandsOk, InstrAt, Fetch, Offset, Regular, PairOkAt, Decode, SlotImm, Imm, ImmI, ImmB, ImmU,
         Add, RdOf,
         Rs1Of, Rs2Of, Funct3, AddResult, KindPattern, CsrAddrOf, SeqStep, FarBase;
    var w, n := InstrAt(m.imem, a.cpu.pc), InstrAt(m.imem, Add(a.cpu.pc, 4));
    if t.slot.kind != Single {
      HarmlessCompare(m, a, t.slot.kind);
      PairHasNoMulDiv(t.slot.kind, w, n);
      PairIsTwoSteps(m, a, t.slot.kind, w, n);
    }
  }

  lemma MulDivsOfSlot(a: Arch, k: nat, t: SlotTok)
    ensures MulDivsBefore(a, k + Count(t)) == MulDivsBefore(a, k)
      + (if Count(t) >= 1 && NextIsMulDiv(SeqRun(a, k)) then 1 else 0)
      + (if Count(t) == 2 && NextIsMulDiv(SeqStep(SeqRun(a, k))) then 1 else 0)
  {
    hide NextIsMulDiv, SeqStep, SeqRun;
    SeqRunSteps(a, k);
  }

  /** In a cycle that is not frozen, the slot leaving EX has had exactly the pulses it needed. */
  lemma StartedOnLeaving(m: Machine, s: Core, a: Arch, n: nat)
    requires SameStart(s, a) && Covered(m, s, a, n + 1) && !Freeze(Run(m, s, n))
    ensures var t, u := TokRun(m, s, n), TokRun(m, s, n + 1);
            && MulDivsBefore(a, u.exStart) == MulDivsBefore(a, t.exStart) + Started(Run(m, s, n))
            && Started(Run(m, s, n + 1)) == 0 && !MulDivStart(Run(m, s, n))
  {
    hide SameStart, Covered, Run, TokRun, Freeze, FlushEx, FlushId, StallFront, FuseKind, Redirect, PendOk, FrontOk,
         Inert, Tick, SeqStep, SeqRun, ExOk, ArchOk, SlotAllowed, FwdA, FwdB, MDI.Next, MulDivsBefore, NextIsMulDiv,
         MdOk,
         MulDivInputs, NextEx, NextPendActive, ExResult, Stored;
    var c, t := Run(m, s, n), TokRun(m, s, n);
    CoveredPrefix(m, s, a, n + 1, n);
    Simulation(m, s, a, n);
    ControlAt(m, s, a, n);
    ActiveIff(m, s, a, n);
    SlotCovered(m, s, a, n + 1, n);
    if t.slot.Holds? { SlotMulDivs(m, c, t, SeqRun(a, t.exStart)); }
    MulDivsOfSlot(a, t.exStart, t.slot);
    StartIsReset(s, a);
    UnitAt(m, s, n);
    UnitRests(m, c);
    UnitTicks(m, c);
    RunIsTick(m, s, n);
  }

  /** In a frozen cycle only the first one pulses. */
  lemma StartedWhileFrozen(m: Machine, s: Core, a: Arch, n: nat)
    requires SameStart(s, a) && Covered(m, s, a, n + 1) && Freeze(Run(m, s, n))
    ensures TokRun(m, s, n + 1).exStart == TokRun(m, s, n).exStart
    ensures Started(Run(m, s, n + 1)) == Started(Run(m, s, n)) + (if MulDivStart(Run(m, s, n)) then 1 else 0)
  {
    hide SameStart, Covered, Run, TokRun, Freeze, Redirect, PendOk, MdOk, FrontOk, Inert, NextTok, Tick, SameBanks;
    ControlAt(m, s, a, n);
    ActiveIff(m, s, a, n);
    FrozenCycle(m, s, a, n);
    FrozenTokens(m.cfg, Run(m, s, n), TokRun(m, s, n));
    RunIsTick(m, s, n);
  }

  /** Multiplications and divisions that have left EX, and the one there once it has started. */
  function MulDivsStarted(a: Arch, c: Core, t: Tok): nat { MulDivsBefore(a, t.exStart) + Started(c) }

  lemma MulDivTick(m: Machine, s: Core, a: Arch, n: nat)
    requires SameStart(s, a) && Covered(m, s, a, n + 1)
    ensures MulDivsStarted(a, Run(m, s, n + 1), TokRun(m, s, n + 1))
         == MulDivsStarted(a, Run(m, s, n), TokRun(m, s, n)) + (if MulDivStart(Run(m, s, n)) then 1 else 0)
  {
    hide SameStart, Covered, Run, TokRun, Freeze, MulDivStart, Tick, Started, MulDivsBefore;
    if Freeze(Run(m, s, n)) { StartedWhileFrozen(m, s, a, n); } else { StartedOnLeaving(m, s, a, n); }
  }

  /** mhpmcounter3 counts them modulo 2^32: each pulses exactly once. */
  lemma {:induction false} MulDivCounter(m: Machine, s: Core, a: Arch, n: nat)
    requires SameStart(s, a) && Covered(m, s, a, n)
    ensures Run(m, s, n).csr.counters.mulDiv
         == MulDivsStarted(a, Run(m, s, n), TokRun(m, s, n)) % 0x1_0000_0000
  {
    hide SameStart, Covered, Run, TokRun, MulDivStart, IsolActive, FusionActive, Tick, Started, Add, MulDivsStarted;
    StartIsReset(s, a);
    if n == 0 {
      AtReset(m, s);
      NothingStarted(m, s, a);
    } else {
      CoveredPrefix(m, s, a, n, n - 1);
      MulDivCounter(m, s, a, n - 1);
      RunIsTick(m, s, n - 1);
      CountersTick(m, Run(m, s, n - 1));
      MulDivTick(m, s, a, n - 1);
      CountsOn(MulDivsStarted(a, Run(m, s, n - 1), TokRun(m, s, n - 1)));
    }
  }

  lemma NothingStarted(m: Machine, s: Core, a: Arch)
    requires IsReset(s)
    ensures MulDivsStarted(a, s, TOK_RESET) == 0
  {
    AtReset(m, s);
  }
}
