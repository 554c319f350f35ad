/** rtl/core_top.sv: the single-cycle core, the sequential specification of the pipeline. */
module CoreTop {
  import opened Words
  import opened Isa
  import opened Memory
  import RF = RegFile
  import MD = MulDivComb

  datatype Cpu = Cpu(pc: Word, regs: RF.Regs, mem: ByteMem)

  function Fetch(c: Cpu): Word { ReadWord(c.mem, Offset(c.pc)) }

  function OperandA(c: Cpu, w: Word): Word { RF.Read(c.regs, Rs1Of(w)) }
  function OperandB(c: Cpu, w: Word): Word { RF.Read(c.regs, Rs2Of(w)) }

  function AluResult(c: Cpu, w: Word): Word {
    var d := Decode(w);
    Alu(if d.srcAPc then c.pc else OperandA(c, w), if d.srcBImm then Imm(w) else OperandB(c, w), d.aluOp)
  }

  /** The writeback multiplexer. */
  function RdData(c: Cpu, w: Word): Word {
    var d := Decode(w);
    match d.source
    case FromAlu =>
      if d.isMulDiv then MD.Result(OperandA(c, w), OperandB(c, w), Funct3(w)) else AluResult(c, w)
    case FromMem => LoadBytes(c.mem, Offset(AluResult(c, w)), d.memWidth, d.memUnsigned)
    case FromLink => Add(c.pc, 4)
    case FromImm => Imm(w)
  }

  function NextRegs(c: Cpu, w: Word): RF.Regs {
    RF.Write(c.regs, Decode(w).regWrite, RdOf(w), RdData(c, w))
  }

  function NextMem(c: Cpu, w: Word): ByteMem {
    if Decode(w).memWrite
    then StoreBytes(c.mem, Offset(AluResult(c, w)), Decode(w).memWidth, OperandB(c, w))
    else c.mem
  }

  /** `x & ~1`. */
  function ClearBit0(x: Word): Word { x - x % 2 }

  function NextPc(c: Cpu, w: Word): Word {
    var d := Decode(w);
    if d.isJal then Add(c.pc, Imm(w))
    else if d.isJalr then ClearBit0(Add(OperandA(c, w), Imm(w)))
    else if d.isBranch && BranchTaken(Funct3(w), OperandA(c, w), OperandB(c, w)) then Add(c.pc, Imm(w))
    else Add(c.pc, 4)
  }

  /** One clock edge executing instruction word `w`. */
  function Exec(c: Cpu, w: Word): Cpu {
    Cpu(NextPc(c, w), NextRegs(c, w), NextMem(c, w))
  }

  function Step(c: Cpu): Cpu {
    Exec(c, Fetch(c))
  }

  // ---------------------------------------------------------------- the clocked core

  class SingleCycleCore {
    var pc: Word
    var regs: array<Word>
    var mem: array<Byte>

    ghost predicate Valid()
      reads this
    {
      regs.Length == 32 && mem.Length == 0x2_0000 && regs as object != mem as object
    }

    ghost function State(): Cpu
      requires Valid()
      reads this, regs, mem
    {
      Cpu(pc, regs[..], mem[..])
    }

    constructor (image: ByteMem, initial: RF.Regs)
      ensures Valid() && fresh(regs) && fresh(mem)
      ensures State() == Cpu(MEM_BASE, initial, image)
    {
      pc := MEM_BASE;
      regs := new Word[32](i requires 0 <= i < 32 => initial[i]);
      mem := new Byte[0x2_0000](i requires 0 <= i < 0x2_0000 => image[i]);
    }

    method ByteRead(off: Word) returns (b: Byte)
      requires Valid()
      ensures b == ReadByte(mem[..], off)
    {
      if off < 0x2_0000 { b := mem[off]; } else { b := 0; }
    }

    method WordRead(off: Word) returns (w: Word)
      requires Valid()
      ensures w == ReadWord(mem[..], off)
    {
      var b0 := ByteRead(off);
      var b1 := ByteRead(Add(off, 1));
      var b2 := ByteRead(Add(off, 2));
      var b3 := ByteRead(Add(off, 3));
      w := Pack(b0, b1, b2, b3);
    }

    method ByteWrite(off: Word, b: Byte)
      requires Valid()
      modifies mem
      ensures mem[..] == WriteByte(old(mem[..]), off, b)
    {
      if off < 0x2_0000 { mem[off] := b; }
    }

    method MemWrite(off: Word, width: Bits2, data: Word)
      requires Valid()
      modifies mem
      ensures mem[..] == StoreBytes(old(mem[..]), off, width, data)
    {
      ByteWrite(off, ByteAt(data, 0));
      if width != 0 {
        ByteWrite(Add(off, 1), ByteAt(data, 1));
        if width != 1 {
          ByteWrite(Add(off, 2), ByteAt(data, 2));
          ByteWrite(Add(off, 3), ByteAt(data, 3));
        }
      }
    }

    /** Register read: x0 is hard-wired to zero. */
    method RegRead(r: Reg) returns (v: Word)
      requires Valid()
      ensures v == RF.Read(regs[..], r)
    {
      if r == 0 { v := 0; } else { v := regs[r]; }
    }

    method Writeback(d: Ctrl, link: Word, imm: Word, alu: Word, muldiv: Word) returns (v: Word)
      requires Valid()
      ensures v == match d.source
                   case FromAlu => if d.isMulDiv then muldiv else alu
                   case FromMem => LoadBytes(mem[..], Offset(alu), d.memWidth, d.memUnsigned)
                   case FromLink => link
                   case FromImm => imm
    {
      match d.source
      case FromAlu => v := if d.isMulDiv then muldiv else alu;
      case FromMem =>
        var raw := WordRead(Offset(alu));
        v := if d.memWidth == 0 then Extend8(raw % 0x100, d.memUnsigned)
             else if d.memWidth == 1 then Extend16(raw % 0x1_0000, d.memUnsigned)
             else raw;
      case FromLink => v := link;
      case FromImm => v := imm;
    }

    /** One clock edge. */
    method Clock()
      requires Valid()
      modifies this`pc, regs, mem
      ensures Valid() && State() == Step(old(State()))
    {
      hide StoreBytes, LoadBytes, ReadWord, Decode, Imm, Alu, BranchTaken, MD.Result, Offset, Add;
      ghost var c := State();
      var w := WordRead(Offset(pc));
      var d := Decode(w);
      var imm := Imm(w);
      var a := RegRead(Rs1Of(w));
      var b := RegRead(Rs2Of(w));
      var alu := Alu(if d.srcAPc then pc else a, if d.srcBImm then imm else b, d.aluOp);
      var muldiv := MD.Result(a, b, Funct3(w));
      var rdData := Writeback(d, Add(pc, 4), imm, alu, muldiv);
      assert rdData == RdData(c, w);
      var taken := BranchTaken(Funct3(w), a, b);
      if d.memWrite { MemWrite(Offset(alu), d.memWidth, b); }
      if d.regWrite && RdOf(w) != 0 { regs[RdOf(w)] := rdData; }
      if d.isJal { pc := Add(pc, imm); }
      else if d.isJalr { pc := ClearBit0(Add(a, imm)); }
      else if d.isBranch && taken { pc := Add(pc, imm); }
      else { pc := Add(pc, 4); }
    }
  }
}
