/** No program can hang the pipeline: a measure drops on every cycle that issues nothing. */
module Progress {
  import opened Words
  import opened Isa
  import opened Memory
  import opened PipelineRegs
  import opened Fusion
  import opened Pipeline
  import opened Sequential
  import opened Refinement
  import opened Runs
  import opened Control
  import opened Protocols
  import RF = RegFile
  import MDI = MulDivIter

  // ---------------------------------------------------------------- how long until the next issue

  /** Cycles for which a deferred write still holds decode. */
  function PendLeft(c: Core): int {
    if c.ex.pend.valid then 4 else if c.mem.pend.valid then 3 else if c.wb.pend.valid then 2
    else if c.fire.valid then 1 else 0
  }

  /** Cycles for which a load still holds decode. */
  function LoadLeft(c: Core): int {
    if LoadInEx(c) then 2 else if LoadInMem(c) then 1 else 0
  }

  function Max(a: int, b: int): int { if a < b then b else a }

  /** The cycles before the next issue.  A redirect empties the front end, which refills behind any freeze or
      deferred write; an empty decode stage waits for fetch; a load in MEM does not move while frozen. */
  function Wait(c: Core, t: Tok): int {
    var held := FreezeTime(c) + PendLeft(c);
    if Redirect(c) then Max(1, held) + 2
    else if !t.idReal then held + (if t.ifReal then 1 else 2)
    else if Freeze(c) then held + LoadLeft(c)
    else Max(held, LoadLeft(c))
  }

  /** The address of the instruction that issues next. */
  function NextPc(c: Core, t: Tok): Word {
    if Redirect(c) then Target(c) else FrontPc(c, t.idReal, t.ifReal)
  }

  lemma WaitBounds(m: Machine, c: Core, t: Tok)
    requires CtlOk(m, c, t)
    ensures 0 <= Wait(c, t) <= 36
  {
    hide CtlOk, Redirect, Freeze, LoadInEx, LoadInMem, FreezeTime;
    UnitOf(m, c, t);
    FreezeTimeAtMost(c);
    UnitCounts(c);
    if Freeze(c) { FreezePendsNothing(m, c, t); }
  }

  // ---------------------------------------------------------------- frozen cycles

  /** A frozen cycle hands nothing on. */
  lemma FrozenTokens(cfg: Cfg, c: Core, t: Tok)
    requires Freeze(c)
    ensures var u := NextTok(cfg, c, t);
            if Redirect(c) then u.slot == Bubble && !u.ifReal && !u.idReal
            else u.slot == t.slot && u.exStart == t.exStart && u.idReal == t.idReal && u.ifReal == t.ifReal
  {
    hide Freeze, Redirect, FlushEx, FlushId, StallFront, FuseKind, MulDivStart;
    FlushIsRedirect(c);
  }

  lemma SameHazards(c: Core, d: Core)
    requires d.id.instr == c.id.instr && d.ex == c.ex && d.mem == c.mem && d.wb == c.wb && d.fire == c.fire
    ensures PendLeft(d) == PendLeft(c) && LoadLeft(d) == LoadLeft(c)
  {
    hide Rs1Of, Rs2Of;
  }

  /** Where the front end is after a cycle that does not let it move on. */
  lemma FrontHeld(m: Machine, c: Core)
    ensures var d := Tick(m, c);
            && (Redirect(c) ==> d.pc == Target(c) && d.fetch == FETCH_BUBBLE && d.id == ID_BUBBLE)
            && (!Redirect(c) && StallFront(c) ==> d.pc == c.pc && d.fetch == c.fetch && d.id == c.id)
  {
    hide Redirect, Tick, FuseKind, StallFront, FlushId, Target;
    FlushIsRedirect(c);
    FrontEndSteps(m, c);
  }

  lemma UnitOf(m: Machine, c: Core, t: Tok)
    requires CtlOk(m, c, t)
    ensures UnitOk(c.md) && FrontOk(m.imem, c, t.idReal, t.ifReal) && (t.slot == Bubble ==> Inert(c.ex))
  {
  }

  /** One frozen cycle less to wait; a redirect has emptied the front end. */
  lemma FrozenWait(m: Machine, c: Core, t: Tok)
    requires CtlOk(m, c, t) && Freeze(c)
    ensures var d, u := Tick(m, c), NextTok(m.cfg, c, t);
            Wait(d, u) == Wait(c, t) - 1 && NextPc(d, u) == NextPc(c, t)
  {
    hide CtlOk, Freeze, Redirect, NextTok, Tick, FreezeTime, LoadInEx, LoadInMem, StallFront, MDI.Next, MulDivInputs,
         UnitOk, FrontOk, Inert, Target;
    var d := Tick(m, c);
    FreezePendsNothing(m, c, t);
    UnitOf(m, c, t);
    FreezeTimeDrops(m, c);
    FrozenTokens(m.cfg, c, t);
    FlushIsRedirect(c);
    FrozenFlags(m, c);
    FrontHeld(m, c);
    UnitStaysOk(c.md, MulDivInputs(m.cfg, c));
    UnitCounts(d);
    if !Redirect(c) { SameHazards(c, d); }
  }

  // ---------------------------------------------------------------- cycles that bring a bubble into EX

  lemma BubbleNoLoad(c: Core)
    requires c.id.instr == NOP
    ensures LoadLeft(c) == 0
  {
    assert Rs1Of(NOP) == 0 && Rs2Of(NOP) == 0;
  }

  lemma BubbleIsCalm(m: Machine, c: Core, t: Tok)
    requires CtlOk(m, c, t) && Redirect(c)
    ensures t.slot != Bubble
  {
    hide CtlOk, Redirect, FrontOk, Inert, UnitOk;
    UnitOf(m, c, t);
    InertStays(c);
  }

  /** How the hazards move when a harmless slot follows into EX. */
  lemma HazardsMove(c: Core, d: Core)
    requires !d.ex.ctrl.memRead && d.mem.memRead == c.ex.ctrl.memRead && d.mem.rd == c.ex.rd
    ensures !LoadInEx(d) && (d.id == c.id ==> (LoadInMem(d) <==> LoadInEx(c))) && (!c.ex.ctrl.memRead ==> !LoadInMem(d))
  {
    hide Rs1Of, Rs2Of;
  }

  lemma PendMoves(c: Core, d: Core)
    requires d.mem.pend == c.ex.pend && d.wb.pend == c.mem.pend && d.fire == c.wb.pend && !d.ex.pend.valid
    ensures PendLeft(d) == Max(0, PendLeft(c) - 1)
  {
  }

  lemma MemReadFlag(c: Core)
    ensures ExResult(c).memRead == c.ex.ctrl.memRead && ExResult(c).rd == c.ex.rd
  {
    hide FwdA, FwdB, CsrValue, MDI.Result, AluOf, CsrOperation;
  }

  /** What a cycle that is not frozen and issues nothing leaves behind the front end. */
  lemma BubbleEnters(m: Machine, c: Core, t: Tok)
    requires CtlOk(m, c, t) && !Freeze(c) && !Issues(c, t)
    ensures var d, u := Tick(m, c), NextTok(m.cfg, c, t);
            && u.slot == Bubble && CtlOk(m, d, u) && !Freeze(d) && !Redirect(d) && !d.ex.ctrl.memRead
            && PendLeft(d) == Max(0, PendLeft(c) - 1)
            && d.mem.memRead == c.ex.ctrl.memRead && d.mem.rd == c.ex.rd
  {
    hide CtlOk, Freeze, FlushEx, FlushId, StallFront, Redirect, FuseKind, Tick, MulDivStart, PendLeft, ExResult, UnitOk,
         FrontOk, Inert, MDI.Next, MulDivInputs;
    var d, u := Tick(m, c), NextTok(m.cfg, c, t);
    UnitOf(m, c, t);
    CtlAdvances(m, c, t);
    UnitOf(m, d, u);
    InertStays(d);
    UnitRests(m, c);
    UnitTicks(m, c);
    AtRest(d);
    MemReadFlag(c);
    MemIsResult(m, c);
    PendMoves(c, d) by { NothingDefers(m, c, t); }
  }

  lemma AtRest(d: Core)
    requires !d.md.busy && !d.ex.ctrl.isMulDiv
    ensures !Freeze(d)
  {
    hide Redirect, LoadInEx, LoadInMem;
  }

  lemma MemIsResult(m: Machine, c: Core)
    requires !Freeze(c)
    ensures Tick(m, c).mem == ExResult(c)
  {
    hide Freeze, ExResult;
  }

  lemma NothingDefers(m: Machine, c: Core, t: Tok)
    requires CtlOk(m, c, t) && !Freeze(c) && !Issues(c, t)
    ensures Tick(m, c).mem.pend == c.ex.pend && Tick(m, c).wb.pend == c.mem.pend && Tick(m, c).fire == c.wb.pend
    ensures !Tick(m, c).ex.pend.valid
  {
    hide FrontOk, Freeze, FlushEx, StallFront, FuseKind, Tick, Inert, PendOk, UnitOk, Redirect, RdOf, RF.Write, PortWe,
         PortAddr, PortData, LoadsMarked;
    PendMove(m, c);
    NoFusionOfBubbles(m, c, t);
  }

  lemma WhyStalled(c: Core)
    requires !Freeze(c)
    ensures StallFront(c) <==> LoadLeft(c) > 0 || c.pendActive
  {
    hide Redirect, LoadInEx, LoadInMem, MulDivActive;
  }

  lemma PendCounts(m: Machine, c: Core, t: Tok)
    requires CtlOk(m, c, t)
    ensures PendLeft(c) > 0 <==> c.pendActive
    ensures c.ex.ctrl.memRead && !c.pendActive ==> t.idReal
  {
    hide FrontOk, UnitOk, Inert, LoadsMarked;
  }

  /** How the tokens of the front end move. */
  lemma FrontTokens(m: Machine, c: Core, t: Tok)
    requires FrontOk(m.imem, c, t.idReal, t.ifReal)
    ensures var u := NextTok(m.cfg, c, t);
            && (Redirect(c) ==> !u.idReal && !u.ifReal)
            && (!Redirect(c) && StallFront(c) ==> u.idReal == t.idReal && u.ifReal == t.ifReal)
            && (!Redirect(c) && !StallFront(c) && !t.idReal ==> u.idReal == t.ifReal && u.ifReal)
  {
    hide Freeze, Redirect, FlushEx, FlushId, StallFront, FuseKind, MulDivStart, FrontOk;
    FlushIsRedirect(c);
    NoFusionOfBubbles(m, c, t);
  }

  /** Not frozen: the deferred write, the load ahead or the fetched instruction moves on. */
  lemma AdvancingWait(m: Machine, c: Core, t: Tok)
    requires CtlOk(m, c, t) && !Freeze(c) && !Issues(c, t)
    ensures var d, u := Tick(m, c), NextTok(m.cfg, c, t);
            Wait(d, u) == Wait(c, t) - 1 && NextPc(d, u) == NextPc(c, t)
  {
    hide CtlOk, Freeze, FlushEx, StallFront, Redirect, Tick, NextTok, FreezeTime, PendLeft, LoadLeft, FrontOk, Inert,
         UnitOk, Target, FrontPc;
    var d, u := Tick(m, c), NextTok(m.cfg, c, t);
    UnitOf(m, c, t);
    BubbleEnters(m, c, t);
    UnitOf(m, d, u);
    UnitCounts(c);
    UnitCounts(d);
    FreezeTimeAtMost(c);
    FreezeTimeAtMost(d);
    FlushIsRedirect(c);
    FrontTokens(m, c, t);
    WhyStalled(c);
    PendCounts(m, c, t);
    LoadMoves(m, c, t);
    FrontPcAdvances(m, c, t);
  }

  lemma LoadMoves(m: Machine, c: Core, t: Tok)
    requires CtlOk(m, c, t) && !Freeze(c) && !Issues(c, t)
    ensures LoadLeft(c) >= 0 && PendLeft(c) >= 0 && (!t.idReal ==> LoadLeft(c) == 0)
    ensures !Redirect(c) && t.idReal ==> LoadLeft(Tick(m, c)) == Max(0, LoadLeft(c) - 1)
    ensures !t.idReal && !c.pendActive ==> LoadLeft(Tick(m, c)) == 0
  {
    hide CtlOk, Freeze, FlushEx, StallFront, Redirect, Tick, NextTok, LoadInEx, LoadInMem, FrontOk, Inert, UnitOk,
         Target;
    UnitOf(m, c, t);
    BubbleEnters(m, c, t);
    FlushIsRedirect(c);
    FrontHeld(m, c);
    HazardsMove(c, Tick(m, c));
    PendCounts(m, c, t);
    if !t.idReal { NopInDecode(m, c, t); BubbleNoLoad(c); }
  }

  /** The last cycle of the wait is the one that issues. */
  lemma IssuesAtZero(m: Machine, c: Core, t: Tok)
    requires CtlOk(m, c, t) && Issues(c, t)
    ensures Wait(c, t) == 0
    ensures var pc := NextPc(c, t); c.id == IfId(pc, InstrAt(m.imem, pc), InstrAt(m.imem, Add(pc, 4)), true)
  {
    hide CtlOk, Freeze, FlushEx, StallFront, Redirect, FreezeTime, PendLeft, LoadInEx, LoadInMem, UnitOk, InstrAt, Add,
         Inert;
    UnitOf(m, c, t);
    UnitCounts(c);
    FreezeTimeAtMost(c);
    FlushIsRedirect(c);
    WhyStalled(c);
    PendCounts(m, c, t);
    PendFacts(m, c, t);
  }

  // ---------------------------------------------------------------- progress on any program

  /** One cycle: it issues and there was nothing to wait for, or the wait is one cycle shorter and the address
      of the next instruction the same. */
  lemma WaitDrops(m: Machine, c: Core, t: Tok)
    requires CtlOk(m, c, t)
    ensures Issues(c, t) <==> Wait(c, t) == 0
    ensures var d, u := Tick(m, c), NextTok(m.cfg, c, t);
            !Issues(c, t) ==> Wait(d, u) == Wait(c, t) - 1 && NextPc(d, u) == NextPc(c, t)
  {
    hide CtlOk, Freeze, Issues, NextTok, Tick, Wait, NextPc;
    if Issues(c, t) {
      IssuesAtZero(m, c, t);
    } else {
      WaitStep(m, c, t);
    }
  }

  lemma WaitStep(m: Machine, c: Core, t: Tok)
    requires CtlOk(m, c, t) && !Issues(c, t)
    ensures var d, u := Tick(m, c), NextTok(m.cfg, c, t);
            Wait(d, u) == Wait(c, t) - 1 && Wait(c, t) > 0 && NextPc(d, u) == NextPc(c, t)
  {
    hide CtlOk, Freeze, Issues, NextTok, Tick, Wait, NextPc;
    if Freeze(c) {
      FrozenWait(m, c, t);
      CtlFrozen(m, c, t);
    } else {
      AdvancingWait(m, c, t);
      CtlAdvances(m, c, t);
    }
    WaitBounds(m, Tick(m, c), NextTok(m.cfg, c, t));
  }

  /** From any cycle of any program the next issue comes after exactly `Wait` cycles, at most 36, and is the
      instruction at `NextPc`: the target of a redirect, or what the front end holds next. */
  lemma {:induction false} NextIssue(m: Machine, s: Core, n: nat) returns (j: nat)
    requires IsReset(s)
    ensures n <= j == n + Wait(Run(m, s, n), TokRun(m, s, n)) <= n + 36 && Issues(Run(m, s, j), TokRun(m, s, j))
    ensures forall i | n <= i < j :: !Issues(Run(m, s, i), TokRun(m, s, i))
    ensures var pc := NextPc(Run(m, s, n), TokRun(m, s, n));
            Run(m, s, j).id == IfId(pc, InstrAt(m.imem, pc), InstrAt(m.imem, Add(pc, 4)), true)
    decreases Wait(Run(m, s, n), TokRun(m, s, n))
  {
    hide IsReset, Run, TokRun, Issues, CtlOk, Tick, NextTok, Wait, NextPc, InstrAt, Add;
    var c, t := Run(m, s, n), TokRun(m, s, n);
    CtlAlways(m, s, n);
    WaitBounds(m, c, t);
    WaitDrops(m, c, t);
    j := n;
    if Issues(c, t) {
      IssuesAtZero(m, c, t);
    } else {
      RunIsTick(m, s, n);
      j := NextIssue(m, s, n + 1);
    }
  }

  // ---------------------------------------------------------------- progress on supported programs

  /** How the count of issued instructions moves on any program: by what issues; a slot that redirects while
      it freezes, the flushed multiplication, is taken back. */
  lemma IssuedMoves(cfg: Cfg, c: Core, t: Tok)
    ensures var u := NextTok(cfg, c, t);
            && (Issues(c, t) ==> Issued(u) == Issued(t) + (if FuseKind(cfg, c) == Single then 1 else 2))
            && (Freeze(c) && Redirect(c) ==> Issued(u) == Issued(t) - Count(t.slot))
            && (!Issues(c, t) && !(Freeze(c) && Redirect(c)) ==> Issued(u) == Issued(t))
  {
    hide Freeze, Redirect, FlushEx, FlushId, StallFront, FuseKind, MulDivStart;
    FlushIsRedirect(c);
  }

  /** On a covered cycle nothing is taken back. */
  lemma IssuedStays(m: Machine, s: Core, a: Arch, n: nat)
    requires SameStart(s, a) && Covered(m, s, a, n + 1) && !Issues(Run(m, s, n), TokRun(m, s, n))
    ensures Issued(TokRun(m, s, n + 1)) == Issued(TokRun(m, s, n))
  {
    hide SameStart, Covered, Run, TokRun, Freeze, Redirect, FuseKind, NextTok, Tick, Issued, Issues, PendOk, MdOk,
         FrontOk, Inert;
    ControlAt(m, s, a, n);
    IssuedMoves(m.cfg, Run(m, s, n), TokRun(m, s, n));
    RunIsTick(m, s, n);
  }

  /** Until the next issue nothing new is in EX. */
  lemma {:induction false} UntilIssue(m: Machine, s: Core, a: Arch, n: nat, k: nat)
    requires SameStart(s, a) && Covered(m, s, a, n + 1) && n <= k
    requires forall j | n <= j < k :: !Issues(Run(m, s, j), TokRun(m, s, j))
    ensures Covered(m, s, a, k + 1) && Issued(TokRun(m, s, k)) == Issued(TokRun(m, s, n))
    decreases k
  {
    hide SameStart, Covered, Run, TokRun, Issues, Issued;
    if k > n {
      UntilIssue(m, s, a, n, k - 1);
      NextCovered(m, s, a, k - 1);
      IssuedStays(m, s, a, k - 1);
    }
  }

  /** The first cycle at which `k` instructions have left decode comes after at most 37 cycles for each. */
  lemma {:induction false} IssuesEvery(m: Machine, s: Core, a: Arch, k: nat) returns (n: nat)
    requires SameStart(s, a) && CoversFirst(m, s, a, k)
    ensures n <= 37 * k && k <= Issued(TokRun(m, s, n)) <= k + 1
    ensures forall j | 0 <= j < n :: Issued(TokRun(m, s, j)) < k
    decreases k
  {
    hide SameStart, CoversFirst, Covered, TokRun, Run, Issues, Issued, NextTok, Tick, FuseKind, Freeze, Redirect, Wait,
         NextPc, InstrAt, Add;
    n := 0;
    RunIsTick(m, s, 0);
    NothingIssued();
    if k > 0 {
      FirstAndFewer(m, s, a, k, k - 1);
      n := IssuesEvery(m, s, a, k - 1);
      if Issued(TokRun(m, s, n)) < k {
        CoveredWhile(m, s, a, k, n + 1);
        StartIsReset(s, a);
        var j := NextIssue(m, s, n);
        forall i | n <= i <= j
          ensures Issued(TokRun(m, s, i)) == Issued(TokRun(m, s, n))
        {
          UntilIssue(m, s, a, n, i);
        }
        IssuedMoves(m.cfg, Run(m, s, j), TokRun(m, s, j));
        RunIsTick(m, s, j);
        n := j + 1;
      }
    }
  }

  lemma CoveredWhile(m: Machine, s: Core, a: Arch, k: nat, n: nat)
    requires CoversFirst(m, s, a, k) && forall j | 0 <= j < n :: Issued(TokRun(m, s, j)) <= k
    ensures Covered(m, s, a, n)
  {
    hide Covered, TokRun, Issued;
    assert WithinFirst(m, s, k, n);
  }

  /** `u` is at least as far along as `t` in every stage. */
  predicate Further(t: Tok, u: Tok) {
    t.retired <= u.retired && t.memStart <= u.memStart && t.exStart <= u.exStart
  }

  predicate Ordered(t: Tok) { t.retired <= t.memStart <= t.exStart }

  /** In a cycle that is not frozen every stage hands its instructions on. */
  lemma TokMoves(cfg: Cfg, c: Core, t: Tok)
    requires Ordered(t)
    ensures var u := NextTok(cfg, c, t);
            && Ordered(u) && Further(t, u)
            && (!Freeze(c) ==> u.retired == t.memStart && u.memStart == t.exStart && u.exStart == Issued(t))
  {
    hide Freeze, FlushEx, FlushId, StallFront, FuseKind, MulDivStart;
  }

  lemma {:induction false} TokensOrdered(m: Machine, s: Core, n: nat)
    ensures Ordered(TokRun(m, s, n))
  {
    hide NextTok, Run, TokRun, Tick;
    RunIsTick(m, s, if n > 0 then n - 1 else 0);
    if n > 0 {
      TokensOrdered(m, s, n - 1);
      TokMoves(m.cfg, Run(m, s, n - 1), TokRun(m, s, n - 1));
    }
  }

  lemma TokStep(m: Machine, s: Core, n: nat)
    ensures Further(TokRun(m, s, n), TokRun(m, s, n + 1))
    ensures !Freeze(Run(m, s, n)) ==>
      var t, u := TokRun(m, s, n), TokRun(m, s, n + 1);
      u.retired == t.memStart && u.memStart == t.exStart && u.exStart == Issued(t)
  {
    hide NextTok, Run, TokRun, Ordered, Freeze, Tick, Further, Issued;
    TokensOrdered(m, s, n);
    RunIsTick(m, s, n);
    TokMoves(m.cfg, Run(m, s, n), TokRun(m, s, n));
  }

  lemma {:induction false} TokensGrow(m: Machine, s: Core, n: nat, k: nat)
    requires n <= k
    ensures Further(TokRun(m, s, n), TokRun(m, s, k))
    decreases k
  {
    hide NextTok, Run, TokRun, Freeze, Tick, Issued;
    if k > n {
      TokensGrow(m, s, n, k - 1);
      TokStep(m, s, k - 1);
    }
  }

  // ---------------------------------------------------------------- whole programs

  /** A program whose first k + 1 steps are supported executes k of them within 37 * (k + 1) cycles. */
  lemma ExecutesEvery(m: Machine, s: Core, a: Arch, k: nat) returns (n: nat)
    requires SameStart(s, a) && CoversFirst(m, s, a, k + 1)
    ensures n <= 37 * k + 35 && Covered(m, s, a, n) && TokRun(m, s, n).exStart >= k
  {
    hide SameStart, CoversFirst, Covered, Run, TokRun, Freeze, Issued;
    FirstAndFewer(m, s, a, k + 1, k);
    var n0 := IssuesEvery(m, s, a, k);
    CoveredWhile(m, s, a, k + 1, n0 + 1);
    StartIsReset(s, a);
    var q := Unfreezes(m, s, n0);
    UntilIssue(m, s, a, n0, q);
    TokStep(m, s, q);
    n := q + 1;
  }

  lemma StartIsReset(s: Core, a: Arch)
    requires SameStart(s, a)
    ensures IsReset(s)
  {
    hide BytesOf, IsReset;
  }

  /** Progress: `k` instructions have retired after 37 * (k + 3) cycles, whatever comes behind them. */
  lemma EveryInstructionRetires(m: Machine, s: Core, a: Arch, k: nat)
    requires SameStart(s, a) && CoversFirst(m, s, a, k + 1)
    ensures TokRun(m, s, 37 * (k + 3)).retired >= k
  {
    hide SameStart, CoversFirst, Covered, Run, TokRun, Freeze, Issued;
    var n := ExecutesEvery(m, s, a, k);
    StartIsReset(s, a);
    var q := Unfreezes(m, s, n);
    TokensGrow(m, s, n, q);
    TokStep(m, s, q);
    var r := Unfreezes(m, s, q + 1);
    TokensGrow(m, s, q + 1, r);
    TokStep(m, s, r);
    TokensGrow(m, s, r + 1, 37 * (k + 3));
  }

  /** Safety and progress together: some cycle among the first 37 * (k + 1) has executed at least `k`
      instructions, and its drained registers, CSRs and memory are the sequential machine's after them. */
  lemma ReachesEveryInstruction(m: Machine, s: Core, a: Arch, k: nat) returns (n: nat, done: nat)
    requires SameStart(s, a) && CoversFirst(m, s, a, k + 1)
    ensures n <= 37 * (k + 1) && k <= done
    ensures var c := Run(m, s, n);
            && DrainedRegs(c) == SeqRun(a, done).cpu.regs && DrainedCsrs(c) == SeqRun(a, done).csrs
            && BytesOf(Stored(c.mem, c.dmem)) == SeqRun(a, done).cpu.mem
  {
    hide SameStart, CoversFirst, Covered, Run, TokRun, SeqRun, WritePend, BytesOf, DrainedRegs, DrainedCsrs, Stored;
    n := ExecutesEvery(m, s, a, k);
    WholeRunRefinement(m, s, a, n);
    done := TokRun(m, s, n).exStart;
  }
}
