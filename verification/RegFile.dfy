/** rtl/regfile.sv and rtl/regfile_pipelined.sv: 31 stored registers, x0 reads as zero. */
module RegFile {
  import opened Words

  /** Entry 0 exists only to keep register numbers as indices; it is never read or written. */
  type Regs = s: seq<Word> | |s| == 32 witness seq(32, _ => 0)

  function Read(regs: Regs, r: Reg): Word {
    if r == 0 then 0 else regs[r]
  }

  function Write(regs: Regs, we: bool, rd: Reg, data: Word): Regs {
    if we && rd != 0 then regs[rd := data] else regs
  }

  /** A register reads what was last written to it; x0 reads as zero whatever is written. */
  lemma ReadsBack(regs: Regs, we: bool, rd: Reg, data: Word, r: Reg)
    ensures Read(regs, 0) == 0
    ensures Read(Write(regs, we, rd, data), r) == if we && rd == r && r != 0 then data else Read(regs, r)
  {
  }

  /** The bypassed read port: a write in the same cycle is already visible. */
  function ReadThrough(regs: Regs, we: bool, rd: Reg, data: Word, r: Reg): (v: Word)
    ensures v == Read(Write(regs, we, rd, data), r)
  {
    if r == 0 then 0 else if we && rd == r then data else regs[r]
  }

  /** The register array of the pipelined core, written in place on each clock edge. */
  class RegisterFile {
    var regs: array<Word>

    ghost predicate Valid()
      reads this
    {
      regs.Length == 32
    }

    ghost function Contents(): Regs
      requires Valid()
      reads this, regs
    {
      regs[..]
    }

    constructor (initial: Regs)
      ensures Valid() && fresh(regs) && Contents() == initial
    {
      regs := new Word[32](i requires 0 <= i < 32 => initial[i]);
    }

    /** Combinational read with the same-cycle bypass. */
    method ReadPort(r: Reg, we: bool, rd: Reg, data: Word) returns (v: Word)
      requires Valid()
      ensures v == Read(Write(Contents(), we, rd, data), r)
    {
      if r == 0 { v := 0; } else if we && rd == r { v := data; } else { v := regs[r]; }
    }

    method Clock(we: bool, rd: Reg, data: Word)
      requires Valid()
      modifies regs
      ensures Valid() && Contents() == Write(old(Contents()), we, rd, data)
    {
      if we && rd != 0 {
        regs[rd] := data;
      }
    }
  }
}
