/** The sequential specification: rtl/core_top.sv, extended with the CSR instructions of section 9.1 of
    the RISC-V Unprivileged ISA 20191213, which the single-cycle core does not implement. */
module Sequential {
  import opened Words
  import opened Isa
  import opened CoreTop
  import opened Iteration
  import RF = RegFile
  import Csr = CsrFile

  datatype Arch = Arch(cpu: Cpu, csrs: Csr.Csrs)

  /** CSRRW writes the operand, CSRRS sets and CSRRC clears the operand's bits. */
  function NewCsr(f3: Bits3, prior: Word, a: Word): Word {
    if f3 == 1 then a else if f3 == 2 then WordGate(Or, prior, a) else WordGate(AndNot, prior, a)
  }

  function ExecCsr(a: Arch, w: Word): Arch {
    var prior := Csr.ReadCsr(a.csrs, CsrAddrOf(w));
    Arch(Cpu(Add(a.cpu.pc, 4), RF.Write(a.cpu.regs, true, RdOf(w), prior), a.cpu.mem),
         Csr.WriteCsr(a.csrs, true, CsrAddrOf(w), NewCsr(Funct3(w), prior, OperandA(a.cpu, w))))
  }

  function ExecArch(a: Arch, w: Word): Arch {
    if Decode(w).isCsr then ExecCsr(a, w) else Arch(Exec(a.cpu, w), a.csrs)
  }

  function SeqStep(a: Arch): Arch { ExecArch(a, Fetch(a.cpu)) }

  /** Apart from the CSR instructions the sequential machine is the single-cycle core. */
  lemma StepsAlike(a: Arch)
    ensures !Decode(Fetch(a.cpu)).isCsr ==> SeqStep(a) == Arch(Step(a.cpu), a.csrs)
  {
    hide Exec, Fetch, Decode;
  }

  /** The state after `k` instructions. */
  function SeqRun(a: Arch, k: nat): Arch {
    Iterate(SeqStep, a, k)
  }

  lemma SeqRunSteps(a: Arch, k: nat)
    ensures SeqRun(a, 0) == a && SeqRun(a, k + 1) == SeqStep(SeqRun(a, k))
  {
    hide SeqStep;
    IterateStep(SeqStep, a, k);
  }
}
