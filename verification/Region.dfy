/** FISOL.BOUND and FISOL.OFF: when the decode flag that switches fusion off follows the program. */
module Region {
  import opened Words
  import opened Isa
  import opened Memory
  import opened Fusion
  import opened Pipeline
  import opened CoreTop
  import opened Sequential
  import opened FusedPairs
  import opened Refinement
  import opened Runs
  import opened Protocols
  import opened Progress
  import opened Issue

  /** What one executed instruction does to the region. */
  function Marks(w: Word, inside: bool): bool {
    if Decode(w).isBound then true else if Decode(w).isOff then false else inside
  }

  /** After `k` sequential instructions the program is between a BOUND and the next OFF. */
  predicate InRegion(a: Arch, k: nat) {
    if k == 0 then false else Marks(Fetch(SeqRun(a, k - 1).cpu), InRegion(a, k - 1))
  }

  /** A redirect squashes a BOUND or OFF in decode, and the flag takes it all the same. */
  predicate SquashesMark(c: Core) {
    Redirect(c) && !StallFront(c) && Marks(c.id.instr, c.bound) != c.bound
  }

  /** Inside the region, as the flag sees it, nothing fuses. */
  lemma NoFusionInside(cfg: Cfg, c: Core)
    requires c.bound
    ensures FuseKind(cfg, c) == Single
  {
    hide Pattern1, Pattern2, Pattern3, Pattern4, Pattern5, Clear, Clear5;
  }

  /** No half of a fused pair is a FISOL instruction. */
  lemma PairsDoNotMark(k: Kind, w: Word, n: Word, inside: bool)
    requires k != Single && KindPattern(k, w, n)
    ensures Marks(w, inside) == inside && Marks(n, inside) == inside
  {
    hide RdOf, Rs1Of, Rs2Of, ImmI, AluOpOf, Bit30, Funct7;
  }

  lemma NopDoesNotMark(inside: bool)
    ensures Marks(NOP, inside) == inside
  {
    DecodeAddi(NOP);
  }

  lemma FlagMoves(m: Machine, c: Core)
    ensures Tick(m, c).bound == if StallFront(c) then c.bound else Marks(c.id.instr, c.bound)
  {
    hide StallFront, Decode;
  }

  /** The region after the slot that left decode. */
  lemma RegionOfSlot(m: Machine, a: Arch, k: nat, slot: Kind)
    requires StepOk(m, SeqRun(a, k)) && (slot != Single ==> StepOk(m, SeqRun(a, k + 1)))
    requires var pc := SeqRun(a, k).cpu.pc;
             KindPattern(slot, InstrAt(m.imem, pc), InstrAt(m.imem, Add(pc, 4)))
    requires slot == CmpBranch ==> !Decode(InstrAt(m.imem, SeqRun(a, k).cpu.pc)).isMulDiv
    ensures slot == Single ==> InRegion(a, k + 1) == Marks(Fetch(SeqRun(a, k).cpu), InRegion(a, k))
    ensures slot != Single ==> InRegion(a, k + 2) == InRegion(a, k)
    ensures slot != Single ==> Marks(Fetch(SeqRun(a, k).cpu), InRegion(a, k)) == InRegion(a, k)
  {
    hide StepOk, Fetch, InstrAt, KindPattern, Marks, SeqStep, Decode, Add;
    if slot != Single {
      var b := SeqRun(a, k);
      var w, n := InstrAt(m.imem, b.cpu.pc), InstrAt(m.imem, Add(b.cpu.pc, 4));
      SeqRunSteps(a, k);
      PairIsTwoSteps(m, b, slot, w, n);
      FetchedIs(m, b);
      PairsDoNotMark(slot, w, n, InRegion(a, k));
      assert InRegion(a, k + 1) == Marks(Fetch(b.cpu), InRegion(a, k));
      assert InRegion(a, k + 2) == Marks(Fetch(SeqStep(b).cpu), InRegion(a, k + 1));
    }
  }

  /** The kind of an issue, in terms of the program. */
  lemma IssuedPattern(m: Machine, c: Core, t: Tok, a: Arch)
    requires FrontOk(m.imem, c, t.idReal, t.ifReal) && t.idReal && c.id.pc == a.cpu.pc
    requires FuseKind(m.cfg, c) != Single ==> PairOkAt(m, a)
    ensures var k, w, n := FuseKind(m.cfg, c), InstrAt(m.imem, a.cpu.pc), InstrAt(m.imem, Add(a.cpu.pc, 4));
            KindPattern(k, w, n) && (k == CmpBranch ==> !Decode(w).isMulDiv)
  {
    hide FuseKind, InstrAt, Add, KindPattern, PairOkAt, Decode;
    DetectedPattern(m.cfg, c);
    if FuseKind(m.cfg, c) != Single { HarmlessCompare(m, a, FuseKind(m.cfg, c)); }
  }

  lemma RegionAtIssue(m: Machine, s: Core, a: Arch, n: nat)
    requires SameStart(s, a) && Covered(m, s, a, n + 2) && Issues(Run(m, s, n), TokRun(m, s, n))
    requires Run(m, s, n).bound == InRegion(a, Issued(TokRun(m, s, n)))
    ensures Marks(Run(m, s, n).id.instr, Run(m, s, n).bound) == InRegion(a, Issued(TokRun(m, s, n + 1)))
  {
    hide SameStart, Run, TokRun, SeqRun, FrontOk, Issues, InRegion, Marks, KindPattern, StepOk, FuseKind, InstrAt,
         Add, Fetch, Inv, Decode, FrontPc, Covered, PairOkAt;
    CoveredPrefix(m, s, a, n + 2, n + 1);
    ControlAt(m, s, a, n);
    IssueInOrder(m, s, a, n);
    SlotCovered(m, s, a, n + 2, n + 1);
    SeqRunSteps(a, Issued(TokRun(m, s, n)));
    var c, t := Run(m, s, n), TokRun(m, s, n);
    var k := Issued(t);
    OnlyRealIssues(c, t);
    IssuedPattern(m, c, t, SeqRun(a, k));
    RegionOfSlot(m, a, k, FuseKind(m.cfg, c));
  }

  lemma OnlyRealIssues(c: Core, t: Tok)
    requires Issues(c, t)
    ensures t.idReal && !Redirect(c) && !StallFront(c)
  {
    hide Redirect, FlushEx, FlushId, StallFront, Freeze;
    FlushIsRedirect(c);
  }

  /** One cycle: a flag that agrees with the program goes on agreeing exactly when no mark is squashed. */
  lemma RegionStep(m: Machine, s: Core, a: Arch, n: nat)
    requires SameStart(s, a) && Covered(m, s, a, n + 2)
    requires Run(m, s, n).bound == InRegion(a, Issued(TokRun(m, s, n)))
    ensures Run(m, s, n + 1).bound == InRegion(a, Issued(TokRun(m, s, n + 1))) <==> !SquashesMark(Run(m, s, n))
  {
    hide SameStart, Run, TokRun, Covered, SeqRun, Redirect, StallFront, FlushEx, FlushId, Freeze, Issued, Marks,
         InRegion,
         FrontOk, Tick, PendOk, MdOk, InstrAt;
    var c, t := Run(m, s, n), TokRun(m, s, n);
    RunIsTick(m, s, n);
    FlagMoves(m, c);
    FlushIsRedirect(c);
    CoveredPrefix(m, s, a, n + 2, n + 1);
    ControlAt(m, s, a, n);
    if !Issues(c, t) { IssuedStays(m, s, a, n); }
    if Issues(c, t) {
      OnlyRealIssues(c, t);
      RegionAtIssue(m, s, a, n);
    } else if !t.idReal {
      BubbleInDecode(m, c, t);
      NopDoesNotMark(c.bound);
    }
  }

  lemma BubbleInDecode(m: Machine, c: Core, t: Tok)
    requires FrontOk(m.imem, c, t.idReal, t.ifReal) && !t.idReal
    ensures c.id.instr == NOP
  {
  }

  /** The flag is the program's at cycle `n`. */
  predicate Agrees(m: Machine, s: Core, a: Arch, n: nat) {
    Run(m, s, n).bound == InRegion(a, Issued(TokRun(m, s, n)))
  }

  lemma {:induction false} AgreesWithoutSquash(m: Machine, s: Core, a: Arch, n: nat)
    requires SameStart(s, a) && Covered(m, s, a, n + 1)
    requires forall k | 0 <= k < n :: !SquashesMark(Run(m, s, k))
    ensures Agrees(m, s, a, n)
  {
    hide SameStart, Run, TokRun, Covered, SquashesMark, Issued, InRegion;
    if n == 0 {
      RegionAtReset(m, s, a);
    } else {
      CoveredPrefix(m, s, a, n + 1, n);
      AgreesWithoutSquash(m, s, a, n - 1);
      RegionStep(m, s, a, n - 1);
    }
  }

  /** Over whole runs: the flag is the program's up to cycle `n` if and only if no redirect before it
      squashes a BOUND or OFF in decode. */
  lemma RegionExactly(m: Machine, s: Core, a: Arch, n: nat)
    requires SameStart(s, a) && Covered(m, s, a, n + 1)
    ensures (forall k | 0 <= k <= n :: Agrees(m, s, a, k)) <==> (forall k | 0 <= k < n :: !SquashesMark(Run(m, s, k)))
  {
    hide SameStart, Run, Covered, SquashesMark, Agrees;
    if forall k | 0 <= k < n :: !SquashesMark(Run(m, s, k)) {
      forall k | 0 <= k <= n
        ensures Agrees(m, s, a, k)
      {
        CoveredPrefix(m, s, a, n + 1, k + 1);
        AgreesWithoutSquash(m, s, a, k);
      }
    } else {
      var k :| 0 <= k < n && SquashesMark(Run(m, s, k));
      CoveredPrefix(m, s, a, n + 1, k + 2);
      SquashDisagrees(m, s, a, k);
    }
  }

  lemma SquashDisagrees(m: Machine, s: Core, a: Arch, k: nat)
    requires SameStart(s, a) && Covered(m, s, a, k + 2) && SquashesMark(Run(m, s, k))
    ensures !(Agrees(m, s, a, k) && Agrees(m, s, a, k + 1))
  {
    hide SameStart, Run, TokRun, Covered, SquashesMark, Issued, InRegion;
    if Agrees(m, s, a, k) { RegionStep(m, s, a, k); }
  }

  lemma RegionAtReset(m: Machine, s: Core, a: Arch)
    requires SameStart(s, a)
    ensures Run(m, s, 0).bound == InRegion(a, Issued(TokRun(m, s, 0)))
  {
    hide BytesOf, Tick, NextTok;
  }
}
