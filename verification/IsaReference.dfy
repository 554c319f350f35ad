/** RV32IM written down from the RISC-V Unprivileged ISA 20191213: instruction formats (section 2.2) as an
    encoder, and each instruction's meaning on signed numbers.  The single-cycle core's decoder, immediate
    generator and ALU are proved against it. */
module IsaReference {
  import opened Words
  import opened Arithmetic
  import opened Isa
  import opened Memory
  import opened CoreTop
  import opened AluMeaning
  import opened FusedPairs
  import opened Sequential
  import opened Pipeline
  import Csr = CsrFile
  import RF = RegFile
  import Comb = MulDivComb

  type Imm12 = x: int | -0x800 <= x < 0x800
  type Imm20 = x: int | 0 <= x < 0x10_0000
  type Offset13 = x: int | -0x1000 <= x < 0x1000 && x % 2 == 0
  type Offset21 = x: int | -0x10_0000 <= x < 0x10_0000 && x % 2 == 0

  /** Immediate fields as they stand in the word. */
  type Field12 = x: int | 0 <= x < 0x1000
  type Field13 = x: int | 0 <= x < 0x2000 && x % 2 == 0
  type Field21 = x: int | 0 <= x < 0x20_0000 && x % 2 == 0

  datatype Condition = Eq | Ne | Lt | Ge | Ltu | Geu
  datatype Instr =
    | Lui(rd: Reg, upper: Imm20)
    | Auipc(rd: Reg, upper: Imm20)
    | Jal(rd: Reg, disp: Offset21)
    | Jalr(rd: Reg, rs1: Reg, imm: Imm12)
    | Branch(cond: Condition, rs1: Reg, rs2: Reg, off: Offset13)
    | Load(width: Bits2, unsigned: bool, rd: Reg, rs1: Reg, imm: Imm12)
    | Store(width: Bits2, rs1: Reg, rs2: Reg, imm: Imm12)
    | OpImm(op: AluOp, rd: Reg, rs1: Reg, imm: Imm12)
    | Op(op: AluOp, rd: Reg, rs1: Reg, rs2: Reg)
    | MulDiv(f3: Bits3, rd: Reg, rs1: Reg, rs2: Reg)
    | Fence(imm: Imm12, rd: Reg, rs1: Reg)
    | FisolBound
    | FisolOff

  /** The assembler's restrictions: no SUBI, five-bit shift amounts, three access widths, no LWU. */
  predicate Valid(i: Instr) {
    match i
    case OpImm(op, _, _, imm) => op != ASub && (op == ASll || op == ASrl || op == ASra ==> 0 <= imm < 32)
    case Load(width, unsigned, _, _, _) => width < 3 && (unsigned ==> width < 2)
    case Store(width, _, _, _) => width < 3
    case _ => true
  }

  // ---------------------------------------------------------------- encoding

  function Pack32(op: int, rd: Reg, f3: Bits3, rs1: Reg, rs2: Reg, f7: int): (w: Word)
    requires 0 <= op < 0x80 && 0 <= f7 < 0x80
  {
    op + rd * 0x80 + f3 * 0x1000 + rs1 * 0x8000 + rs2 * 0x10_0000 + f7 * 0x200_0000
  }

  /** The two's complement bits of a signed field. */
  function Bits12(imm: Imm12): Field12 { imm % 0x1000 }
  function Bits13(off: Offset13): Field13 { off % 0x2000 }
  function Bits21(off: Offset21): Field21 { off % 0x20_0000 }

  function IType(op: int, rd: Reg, f3: Bits3, rs1: Reg, u: int): Word
    requires 0 <= op < 0x80 && 0 <= u < 0x1000
  {
    Pack32(op, rd, f3, rs1, u % 0x20, u / 0x20)
  }

  function UType(op: int, rd: Reg, upper: int): Word
    requires 0 <= op < 0x80 && 0 <= upper < 0x10_0000
  {
    Pack32(op, rd, upper % 8, (upper / 8) % 0x20, (upper / 0x100) % 0x20, upper / 0x2000)
  }

  /** imm[12|10:5] in funct7 and imm[4:1|11] in rd. */
  function BType(f3: Bits3, rs1: Reg, rs2: Reg, u: int): Word
    requires 0 <= u < 0x2000
  {
    Pack32(0x63, ((u / 2) % 0x10) * 2 + (u / 0x800) % 2, f3, rs1, rs2,
           (u / 0x1000) * 0x40 + (u / 0x20) % 0x40)
  }

  /** imm[20|10:1|11|19:12] in the upper twenty bits. */
  function JUpper(u: int): Imm20
    requires 0 <= u < 0x20_0000
  {
    (u / 0x10_0000) * 0x8_0000 + ((u / 2) % 0x400) * 0x200 + ((u / 0x800) % 2) * 0x100 + (u / 0x1000) % 0x100
  }

  function ConditionCode(c: Condition): Bits3 {
    match c
    case Eq => 0
    case Ne => 1
    case Lt => 4
    case Ge => 5
    case Ltu => 6
    case Geu => 7
  }

  function OpCode3(op: AluOp): Bits3 {
    match op
    case AAdd => 0
    case ASub => 0
    case ASll => 1
    case ASlt => 2
    case ASltu => 3
    case AXor => 4
    case ASrl => 5
    case ASra => 5
    case AOr => 6
    case AAnd => 7
  }

  function Encode(i: Instr): Word {
    match i
    case Lui(rd, upper) => UType(0x37, rd, upper)
    case Auipc(rd, upper) => UType(0x17, rd, upper)
    case Jal(rd, disp) => UType(0x6F, rd, JUpper(Bits21(disp)))
    case Jalr(rd, rs1, imm) => IType(0x67, rd, 0, rs1, Bits12(imm))
    case Branch(cond, rs1, rs2, off) => BType(ConditionCode(cond), rs1, rs2, Bits13(off))
    case Load(width, unsigned, rd, rs1, imm) =>
      IType(0x03, rd, if unsigned then width + 4 else width, rs1, Bits12(imm))
    case Store(width, rs1, rs2, imm) => Pack32(0x23, Bits12(imm) % 0x20, width, rs1, rs2, Bits12(imm) / 0x20)
    case OpImm(op, rd, rs1, imm) =>
      IType(0x13, rd, OpCode3(op), rs1, if op == ASra then Bits12(imm) % 0x20 + 0x400 else Bits12(imm))
    case Op(op, rd, rs1, rs2) => Pack32(0x33, rd, OpCode3(op), rs1, rs2, if op == ASub || op == ASra then 0x20 else 0)
    case MulDiv(f3, rd, rs1, rs2) => Pack32(0x33, rd, f3, rs1, rs2, 1)
    case Fence(imm, rd, rs1) => IType(0x0F, rd, 0, rs1, Bits12(imm))
    case FisolBound => Pack32(0x0B, 0, 0, 0, 0, 0)
    case FisolOff => Pack32(0x0B, 0, 1, 0, 0, 0)
  }

  // ---------------------------------------------------------------- meaning

  predicate Compares(c: Condition, a: Word, b: Word) {
    match c
    case Eq => a == b
    case Ne => a != b
    case Lt => Signed(a) < Signed(b)
    case Ge => Signed(a) >= Signed(b)
    case Ltu => a < b
    case Geu => a >= b
  }

  /** Register and immediate arithmetic of sections 2.4.1 and 2.4.2. */
  function Computes(op: AluOp, a: Word, b: Word): Word {
    match op
    case AAdd => ToWord(a + b)
    case ASub => ToWord(a - b)
    case ASll => ToWord(a * Pow2(b % 32))
    case ASlt => if Signed(a) < Signed(b) then 1 else 0
    case ASltu => if a < b then 1 else 0
    case AXor => ToWord(a + b - 2 * Common(a, b, 32))
    case ASrl => ToWord(a / Pow2(b % 32))
    case ASra => ToWord(Signed(a) / Pow2(b % 32))
    case AOr => ToWord(a + b - Common(a, b, 32))
    case AAnd => ToWord(Common(a, b, 32))
  }

  function Next4(c: Cpu): Word { ToWord(c.pc + 4) }

  /** Straight-line instructions write one register and fall through. */
  function Writes(c: Cpu, rd: Reg, v: Word): Cpu {
    Cpu(Next4(c), RF.Write(c.regs, true, rd, v), c.mem)
  }

  function Meaning(c: Cpu, i: Instr): Cpu {
    match i
    case Lui(rd, upper) => Writes(c, rd, upper * 0x1000)
    case Auipc(rd, upper) => Writes(c, rd, ToWord(c.pc + upper * 0x1000))
    case Jal(rd, disp) => Cpu(ToWord(c.pc + disp), RF.Write(c.regs, true, rd, Next4(c)), c.mem)
    case Jalr(rd, rs1, imm) =>
      var target := ToWord(RF.Read(c.regs, rs1) + imm);
      Cpu(target / 2 * 2, RF.Write(c.regs, true, rd, Next4(c)), c.mem)
    case Branch(cond, rs1, rs2, off) =>
      Cpu(if Compares(cond, RF.Read(c.regs, rs1), RF.Read(c.regs, rs2)) then ToWord(c.pc + off) else Next4(c),
          c.regs, c.mem)
    case Load(width, unsigned, rd, rs1, imm) =>
      Writes(c, rd, LoadBytes(c.mem, ToWord(RF.Read(c.regs, rs1) + imm - 0x8000_0000), width, unsigned))
    case Store(width, rs1, rs2, imm) =>
      Cpu(Next4(c), c.regs,
          StoreBytes(c.mem, ToWord(RF.Read(c.regs, rs1) + imm - 0x8000_0000), width, RF.Read(c.regs, rs2)))
    case OpImm(op, rd, rs1, imm) => Writes(c, rd, Computes(op, RF.Read(c.regs, rs1), ToWord(imm)))
    case Op(op, rd, rs1, rs2) => Writes(c, rd, Computes(op, RF.Read(c.regs, rs1), RF.Read(c.regs, rs2)))
    case MulDiv(f3, rd, rs1, rs2) => Writes(c, rd, Comb.Result(RF.Read(c.regs, rs1), RF.Read(c.regs, rs2), f3))
    case Fence(_, _, _) => Cpu(Next4(c), c.regs, c.mem)
    case FisolBound => Cpu(Next4(c), c.regs, c.mem)
    case FisolOff => Cpu(Next4(c), c.regs, c.mem)
  }

  // ---------------------------------------------------------------- fields of encoded words

  /** Decoding the fields of a packed word gives them back. */
  lemma Fields(op: int, rd: Reg, f3: Bits3, rs1: Reg, rs2: Reg, f7: int)
    requires 0 <= op < 0x80 && 0 <= f7 < 0x80
    ensures var w := Pack32(op, rd, f3, rs1, rs2, f7);
            && Opcode(w) == op && RdOf(w) == rd && Funct3(w) == f3 && Rs1Of(w) == rs1 && Rs2Of(w) == rs2
            && Funct7(w) == f7
  {
    var w := Pack32(op, rd, f3, rs1, rs2, f7);
    var t5 := f7;
    var t4 := rs2 + t5 * 0x20;
    var t3 := rs1 + t4 * 0x20;
    var t2 := f3 + t3 * 8;
    var t1 := rd + t2 * 0x20;
    QuotientIs(w, 0x80, t1, op);
    QuotientIs(w, 0x1000, t2, op + rd * 0x80);
    QuotientIs(w, 0x8000, t3, op + rd * 0x80 + f3 * 0x1000);
    QuotientIs(w, 0x10_0000, t4, op + rd * 0x80 + f3 * 0x1000 + rs1 * 0x8000);
    QuotientIs(w, 0x200_0000, t5, op + rd * 0x80 + f3 * 0x1000 + rs1 * 0x8000 + rs2 * 0x10_0000);
    QuotientIs(t1, 0x20, t2, rd);
    QuotientIs(t2, 8, t3, f3);
    QuotientIs(t3, 0x20, t4, rs1);
    QuotientIs(t4, 0x20, t5, rs2);
  }

  // ---------------------------------------------------------------- immediates of encoded words

  lemma ExtendsSign(imm: Imm12)
    ensures SignExtend12(Bits12(imm)) == ToWord(imm)
  {
  }

  lemma ExtendsSign13(off: Offset13)
    ensures SignExtend13(Bits13(off)) == ToWord(off)
  {
  }

  lemma ExtendsSign21(off: Offset21)
    ensures SignExtend21(Bits21(off)) == ToWord(off)
  {
  }

  /** The top twelve bits hold rs2 and funct7. */
  lemma TopTwelve(op: int, rd: Reg, f3: Bits3, rs1: Reg, rs2: Reg, f7: int)
    requires 0 <= op < 0x80 && 0 <= f7 < 0x80
    ensures Pack32(op, rd, f3, rs1, rs2, f7) / 0x10_0000 == rs2 + f7 * 0x20
  {
    QuotientIs(Pack32(op, rd, f3, rs1, rs2, f7), 0x10_0000, rs2 + f7 * 0x20, op + rd * 0x80 + f3 * 0x1000 + rs1 * 0x8000);
  }

  lemma ITypeFields(op: int, rd: Reg, f3: Bits3, rs1: Reg, u: int)
    requires 0 <= op < 0x80 && 0 <= u < 0x1000
    ensures var w := IType(op, rd, f3, rs1, u);
            && Opcode(w) == op && RdOf(w) == rd && Funct3(w) == f3 && Rs1Of(w) == rs1 && ImmI(w) == SignExtend12(u)
            && Funct7(w) == u / 0x20
  {
    Fields(op, rd, f3, rs1, u % 0x20, u / 0x20);
    TopTwelve(op, rd, f3, rs1, u % 0x20, u / 0x20);
  }

  lemma UTypeFields(op: int, rd: Reg, upper: int)
    requires 0 <= op < 0x80 && 0 <= upper < 0x10_0000
    ensures var w := UType(op, rd, upper);
            && Opcode(w) == op && RdOf(w) == rd && w == upper * 0x1000 + rd * 0x80 + op
            && w / 0x1000 == upper && ImmU(w) == upper * 0x1000
  {
    var a := upper / 8;
    var b := a / 0x20;
    assert upper / 0x100 == b && upper / 0x2000 == b / 0x20;
    Fields(op, rd, upper % 8, a % 0x20, b % 0x20, b / 0x20);
    var w := UType(op, rd, upper);
    QuotientIs(w, 0x1000, upper, op + rd * 0x80);
  }

  lemma STypeImmediate(width: Bits2, rs1: Reg, rs2: Reg, u: int)
    requires 0 <= u < 0x1000
    ensures var w := Pack32(0x23, u % 0x20, width, rs1, rs2, u / 0x20);
            ImmS(w) == SignExtend12(u)
  {
    Fields(0x23, u % 0x20, width, rs1, rs2, u / 0x20);
  }

  /** Bits 31 and 30:25 are the parts of funct7, bits 7 and 11:8 those of the rd field. */
  lemma SplitFields(w: Word, op: int, rd: Reg, t: int, f7: int, s: int, mid: int, lo: int, hi: int)
    requires w == op + rd * 0x80 + t * 0x1000 + f7 * 0x200_0000
    requires 0 <= op < 0x80 && 0 <= t < 0x2000 && 0 <= s && 0 <= mid < 0x40 && 0 <= lo < 0x10 && 0 <= hi < 2
    requires rd == lo * 2 + hi && f7 == s * 0x40 + mid
    ensures w / 0x8000_0000 == s && (w / 0x200_0000) % 0x40 == mid && (w / 0x80) % 2 == hi && (w / 0x100) % 0x10 == lo
  {
    var upper := t + f7 * 0x2000;
    QuotientIs(w, 0x8000_0000, s, mid * 0x200_0000 + t * 0x1000 + rd * 0x80 + op);
    QuotientIs(w, 0x200_0000, f7, t * 0x1000 + rd * 0x80 + op);
    QuotientIs(f7, 0x40, s, mid);
    QuotientIs(w, 0x80, rd + upper * 0x20, op);
    QuotientIs(rd + upper * 0x20, 2, lo + upper * 0x10, hi);
    QuotientIs(w, 0x100, lo + upper * 0x10, hi * 0x80 + op);
    QuotientIs(lo + upper * 0x10, 0x10, upper, lo);
  }

  lemma BTypeImmediate(f3: Bits3, rs1: Reg, rs2: Reg, u: int)
    requires 0 <= u < 0x2000 && u % 2 == 0
    ensures ImmB(BType(f3, rs1, rs2, u)) == SignExtend13(u)
  {
    hide SignExtend13;
    var s, mid, lo, hi := u / 0x1000, (u / 0x20) % 0x40, (u / 2) % 0x10, (u / 0x800) % 2;
    SplitFields(BType(f3, rs1, rs2, u), 0x63, lo * 2 + hi, f3 + rs1 * 8 + rs2 * 0x100, s * 0x40 + mid,
                s, mid, lo, hi);
    Scattered13(u);
  }

  lemma Scattered13(u: int)
    requires 0 <= u < 0x2000 && u % 2 == 0
    ensures u == (u / 0x1000) * 0x1000 + ((u / 0x800) % 2) * 0x800 + ((u / 0x20) % 0x40) * 0x20 + ((u / 2) % 0x10) * 2
  {
    var h := u / 2;
    var l := h / 0x10;
    var k := l / 0x40;
    assert u / 0x20 == l && u / 0x800 == k && u / 0x1000 == k / 2;
  }

  lemma Scattered21(u: int)
    requires 0 <= u < 0x20_0000 && u % 2 == 0
    ensures u == (u / 0x10_0000) * 0x10_0000 + ((u / 0x1000) % 0x100) * 0x1000 + ((u / 0x800) % 2) * 0x800
               + ((u / 2) % 0x400) * 2
  {
    var h := u / 2;
    var l := h / 0x400;
    var k := l / 2;
    assert u / 0x800 == l && u / 0x1000 == k && u / 0x10_0000 == k / 0x100;
  }

  lemma JTypeImmediate(op: int, rd: Reg, u: int)
    requires 0 <= op < 0x80 && 0 <= u < 0x20_0000 && u % 2 == 0
    ensures ImmJ(UType(op, rd, JUpper(u))) == SignExtend21(u)
  {
    var s, lo, mid, hi := u / 0x10_0000, (u / 2) % 0x400, (u / 0x800) % 2, (u / 0x1000) % 0x100;
    hide UType, SignExtend21;
    var upper := JUpper(u);
    UTypeFields(op, rd, upper);
    UpperParts(UType(op, rd, upper), upper, s, lo, mid, hi);
    Scattered21(u);
  }

  lemma UpperParts(w: Word, upper: int, s: int, lo: int, mid: int, hi: int)
    requires w / 0x1000 == upper == s * 0x8_0000 + lo * 0x200 + mid * 0x100 + hi
    requires 0 <= s < 2 && 0 <= lo < 0x400 && 0 <= mid < 2 && 0 <= hi < 0x100
    ensures w / 0x8000_0000 == s && (w / 0x20_0000) % 0x400 == lo && (w / 0x10_0000) % 2 == mid && (w / 0x1000) % 0x100 == hi
  {
    var low := w % 0x1000;
    var rest := lo * 0x200 + mid * 0x100 + hi;
    QuotientIs(w, 0x8000_0000, s, rest * 0x1000 + low);
    QuotientIs(w, 0x20_0000, s * 0x400 + lo, (mid * 0x100 + hi) * 0x1000 + low);
    QuotientIs(s * 0x400 + lo, 0x400, s, lo);
    QuotientIs(w, 0x10_0000, (s * 0x400 + lo) * 2 + mid, hi * 0x1000 + low);
    QuotientIs((s * 0x400 + lo) * 2 + mid, 2, s * 0x400 + lo, mid);
    QuotientIs(upper, 0x100, (s * 0x400 + lo) * 2 + mid, hi);
  }

  // ---------------------------------------------------------------- the core implements the reference

  lemma Wraps(a: Word, x: int)
    ensures Add(a, ToWord(x)) == ToWord(a + x)
  {
    DropMultiple(a + x % 0x1_0000_0000, x / 0x1_0000_0000);
  }

  lemma WrapsOffset(x: int)
    ensures Offset(ToWord(x)) == ToWord(x - 0x8000_0000)
  {
    DropMultiple(x % 0x1_0000_0000 - 0x8000_0000, x / 0x1_0000_0000);
  }

  lemma WrapsWord(a: Word, b: Word)
    ensures Add(a, b) == ToWord(a + b)
  {
  }

  lemma EvenTarget(t: Word)
    ensures ClearBit0(t) == t / 2 * 2
  {
  }

  lemma AluComputes(op: AluOp, a: Word, b: Word)
    ensures Alu(a, b, op) == Computes(op, a, b)
  {
    if op == AXor || op == AOr || op == AAnd {
      GateComputes(op, a, b);
    } else if op == ASll || op == ASrl || op == ASra {
      ShiftComputes(op, a, b);
    } else {
      hide ShiftLeft, ShiftRight, ShiftRightArith, WordGate, Pow2, Common;
    }
  }

  lemma GateComputes(op: AluOp, a: Word, b: Word)
    requires op == AXor || op == AOr || op == AAnd
    ensures Alu(a, b, op) == Computes(op, a, b)
  {
    hide WordGate, Common, ToWord;
    GatesAdd(a, b);
    WordIsItself(WordGate(Xor, a, b));
    WordIsItself(WordGate(Or, a, b));
    WordIsItself(WordGate(And, a, b));
  }

  lemma ShiftComputes(op: AluOp, a: Word, b: Word)
    requires op == ASll || op == ASrl || op == ASra
    ensures Alu(a, b, op) == Computes(op, a, b)
  {
    hide ShiftLeft, ShiftRight, ShiftRightArith, Pow2, ToWord;
    ShiftsMeetIsa(a, b);
    WordIsItself(Alu(a, b, ASrl));
  }

  lemma WordIsItself(w: Word)
    ensures ToWord(w) == w
  {
  }

  lemma ArithmeticBit(w: Word)
    ensures Bit30(w) <==> (Funct7(w) / 0x20) % 2 == 1
  {
    assert w / 0x4000_0000 == (w / 0x200_0000) / 0x20;
  }

  lemma RunsUpper(c: Cpu, i: Instr)
    requires i.Lui? || i.Auipc?
    ensures Exec(c, Encode(i)) == Meaning(c, i)
  {
    hide Decode, Imm, ImmU, Opcode, RdOf, UType, Add, Alu, RF.Write, ToWord;
    var w := Encode(i);
    UTypeFields(if i.Lui? then 0x37 else 0x17, i.rd, i.upper);
    DecodeUpper(w);
    WrapsWord(c.pc, i.upper * 0x1000);
    WrapsWord(c.pc, 4);
    AluAdds(c.pc, i.upper * 0x1000);
  }

  lemma RunsJal(c: Cpu, i: Instr)
    requires i.Jal?
    ensures Exec(c, Encode(i)) == Meaning(c, i)
  {
    hide ImmJ, Opcode, RdOf, UType, Add, Alu, RF.Write, ToWord, SignExtend21, JUpper;
    var u: int := Bits21(i.disp);
    UTypeFields(0x6F, i.rd, JUpper(u));
    JTypeImmediate(0x6F, i.rd, u);
    ExtendsSign21(i.disp);
    Wraps(c.pc, i.disp);
    WrapsWord(c.pc, 4);
  }

  lemma RunsJalr(c: Cpu, i: Instr)
    requires i.Jalr?
    ensures Exec(c, Encode(i)) == Meaning(c, i)
  {
    hide Decode, Imm, ImmI, Opcode, RdOf, Rs1Of, IType, Add, Alu, RF.Write, RF.Read, ToWord, SignExtend12, Bits12,
         ClearBit0;
    var u := Bits12(i.imm);
    ITypeFields(0x67, i.rd, 0, i.rs1, u);
    DecodeJalr(Encode(i));
    ExtendsSign(i.imm);
    WrapsWord(c.pc, 4);
    Wraps(RF.Read(c.regs, i.rs1), i.imm);
    EvenTarget(ToWord(RF.Read(c.regs, i.rs1) + i.imm));
  }

  lemma RunsBranch(c: Cpu, i: Instr)
    requires i.Branch?
    ensures Exec(c, Encode(i)) == Meaning(c, i)
  {
    hide Decode, Imm, ImmB, Opcode, Rs1Of, Rs2Of, Add, Alu, RF.Read, ToWord, SignExtend13, Pack32, Funct3, RdOf, Signed;
    var u: int := Bits13(i.off);
    BTypeImmediate(ConditionCode(i.cond), i.rs1, i.rs2, u);
    Fields(0x63, ((u / 2) % 0x10) * 2 + (u / 0x800) % 2, ConditionCode(i.cond), i.rs1, i.rs2,
           (u / 0x1000) * 0x40 + (u / 0x20) % 0x40);
    DecodeBranch(Encode(i));
    ExtendsSign13(i.off);
    Wraps(c.pc, i.off);
    WrapsWord(c.pc, 4);
  }

  lemma RunsLoad(c: Cpu, i: Instr)
    requires i.Load? && Valid(i)
    ensures Exec(c, Encode(i)) == Meaning(c, i)
  {
    hide ImmI, Opcode, RdOf, Rs1Of, IType, Add, RF.Write, RF.Read, ToWord, SignExtend12, Bits12, Offset, LoadBytes, Alu;
    var u := Bits12(i.imm);
    ITypeFields(0x03, i.rd, if i.unsigned then i.width + 4 else i.width, i.rs1, u);
    ExtendsSign(i.imm);
    WrapsWord(c.pc, 4);
    Wraps(RF.Read(c.regs, i.rs1), i.imm);
    WrapsOffset(RF.Read(c.regs, i.rs1) + i.imm);
    AluAdds(RF.Read(c.regs, i.rs1), ToWord(i.imm));
  }

  lemma RunsStore(c: Cpu, i: Instr)
    requires i.Store? && Valid(i)
    ensures Exec(c, Encode(i)) == Meaning(c, i)
  {
    hide ImmS, Opcode, Rs1Of, Rs2Of, Pack32, Add, RF.Read, ToWord, SignExtend12, Bits12, Offset, StoreBytes, Alu,
         Funct7;
    var u := Bits12(i.imm);
    Fields(0x23, u % 0x20, i.width, i.rs1, i.rs2, u / 0x20);
    STypeImmediate(i.width, i.rs1, i.rs2, u);
    ExtendsSign(i.imm);
    WrapsWord(c.pc, 4);
    Wraps(RF.Read(c.regs, i.rs1), i.imm);
    WrapsOffset(RF.Read(c.regs, i.rs1) + i.imm);
    AluAdds(RF.Read(c.regs, i.rs1), ToWord(i.imm));
  }

  /** Register arithmetic under any funct7 but 1: bit 5 alone tells SUB from ADD and SRA from SRL. */
  lemma RegisterWords(c: Cpu, op: AluOp, rd: Reg, rs1: Reg, rs2: Reg, f7: int)
    requires 0 <= f7 < 0x80 && f7 != 1
    requires op == ASub || op == ASra ==> (f7 / 0x20) % 2 == 1
    requires op == AAdd || op == ASrl ==> (f7 / 0x20) % 2 == 0
    ensures Exec(c, Pack32(0x33, rd, OpCode3(op), rs1, rs2, f7))
         == Writes(c, rd, Computes(op, RF.Read(c.regs, rs1), RF.Read(c.regs, rs2)))
  {
    hide Opcode, RdOf, Rs1Of, Rs2Of, Pack32, Add, RF.Read, RF.Write, ToWord, Alu, Bit30, Computes, Imm, Funct7;
    Fields(0x33, rd, OpCode3(op), rs1, rs2, f7);
    ArithmeticBit(Pack32(0x33, rd, OpCode3(op), rs1, rs2, f7));
    WrapsWord(c.pc, 4);
    AluComputes(op, RF.Read(c.regs, rs1), RF.Read(c.regs, rs2));
  }

  lemma RunsOp(c: Cpu, i: Instr)
    requires i.Op?
    ensures Exec(c, Encode(i)) == Meaning(c, i)
  {
    hide Exec, Pack32, Writes, Computes;
    RegisterWords(c, i.op, i.rd, i.rs1, i.rs2, if i.op == ASub || i.op == ASra then 0x20 else 0);
  }

  lemma RunsMulDiv(c: Cpu, i: Instr)
    requires i.MulDiv?
    ensures Exec(c, Encode(i)) == Meaning(c, i)
  {
    hide Opcode, RdOf, Rs1Of, Rs2Of, Pack32, Add, RF.Read, RF.Write, ToWord, Alu, Bit30, Imm, Comb.Result, Funct7,
         Funct3;
    Fields(0x33, i.rd, i.f3, i.rs1, i.rs2, 1);
    WrapsWord(c.pc, 4);
  }

  /** One hart, in order: FENCE has nothing to wait for.  The decoder does not know its opcode. */
  lemma RunsFence(c: Cpu, i: Instr)
    requires i.Fence?
    ensures Exec(c, Encode(i)) == Meaning(c, i)
  {
    hide Add, ToWord, Alu, Opcode, Funct3, RF.Read, IType, BranchTaken, Imm, Comb.Result, LoadBytes, StoreBytes, Bits12;
    ITypeFields(0x0F, i.rd, 0, i.rs1, Bits12(i.imm));
    WrapsWord(c.pc, 4);
  }

  lemma RunsFisol(c: Cpu, i: Instr)
    requires i.FisolBound? || i.FisolOff?
    ensures Exec(c, Encode(i)) == Meaning(c, i)
  {
    hide Add, ToWord, Alu, RF.Read, Pack32, BranchTaken, Imm, Comb.Result, LoadBytes, StoreBytes, Decode;
    FisolDecodes();
    WrapsWord(c.pc, 4);
  }

  lemma FisolDecodes()
    ensures Decode(Pack32(0x0B, 0, 0, 0, 0, 0)) == IDLE_CTRL.(isBound := true)
    ensures Decode(Pack32(0x0B, 0, 1, 0, 0, 0)) == IDLE_CTRL.(isOff := true)
  {
    hide Pack32, Opcode, Funct3;
    Fields(0x0B, 0, 0, 0, 0, 0);
    Fields(0x0B, 0, 1, 0, 0, 0);
  }

  /** The operand of an immediate operation: SRAI's marker bit is above the shift amount. */
  lemma ImmediateOperand(op: AluOp, a: Word, imm: Imm12)
    requires op == ASll || op == ASrl || op == ASra ==> 0 <= imm < 32
    ensures var u := if op == ASra then Bits12(imm) % 0x20 + 0x400 else Bits12(imm);
            && Alu(a, SignExtend12(u), op) == Computes(op, a, ToWord(imm))
            && (op == ASrl || op == ASra ==> ((u / 0x20) / 0x20 % 2 == 1 <==> op == ASra))
  {
    hide Computes, ShiftRightArith, ShiftRight, ShiftLeft, WordGate, Signed, Add, Sub;
    ExtendsSign(imm);
    AluComputes(op, a, ToWord(imm));
  }

  lemma RunsOpImm(c: Cpu, i: Instr)
    requires i.OpImm? && Valid(i)
    ensures Exec(c, Encode(i)) == Meaning(c, i)
  {
    hide Opcode, RdOf, Rs1Of, Rs2Of, IType, Add, RF.Read, RF.Write, ToWord, Alu, Bit30, Computes, ImmI, Funct7, Bits12,
         SignExtend12;
    var u := if i.op == ASra then Bits12(i.imm) % 0x20 + 0x400 else Bits12(i.imm);
    ITypeFields(0x13, i.rd, OpCode3(i.op), i.rs1, u);
    ArithmeticBit(Encode(i));
    WrapsWord(c.pc, 4);
    ImmediateOperand(i.op, RF.Read(c.regs, i.rs1), i.imm);
  }

  const ECALL: Word := 0x73
  const EBREAK: Word := 0x10_0073

  /** ECALL and EBREAK decode as illegal.  The single-cycle core, which has no traps, steps over them; the
      pipelined core redirects to mtvec from EX and records the trap. */
  lemma EnvironmentCalls(c: Cpu, w: Word, s: Core)
    requires w == ECALL || w == EBREAK
    ensures Decode(w) == IDLE_CTRL.(illegal := true) && Exec(c, w) == Cpu(Next4(c), c.regs, c.mem)
    ensures s.ex.ctrl == Decode(w) && s.ex.instr == w ==>
      && Redirect(s) && Target(s) == s.csr.csrs.mtvec
      && (forall m :: Tick(m, s).csr.csrs == s.csr.csrs.(mepc := s.ex.pc, mcause := 2, mtval := w))
  {
    hide Add, ToWord, Alu, RF.Read, BranchTaken, Imm, Comb.Result, LoadBytes, StoreBytes, FwdA, FwdB, Tick;
    SystemDecodes(w);
    WrapsWord(c.pc, 4);
    if s.ex.ctrl == Decode(w) && s.ex.instr == w {
      forall m: Machine
        ensures Tick(m, s).csr.csrs == s.csr.csrs.(mepc := s.ex.pc, mcause := 2, mtval := w)
      {
        TrapTicks(m, s);
      }
    }
  }

  lemma SystemDecodes(w: Word)
    requires w == ECALL || w == EBREAK
    ensures Decode(w) == IDLE_CTRL.(illegal := true)
  {
    assert Opcode(w) == 0x73 && Funct3(w) == 0;
  }

  lemma TrapTicks(m: Machine, s: Core)
    requires s.ex.ctrl.illegal
    ensures Tick(m, s).csr.csrs == s.csr.csrs.(mepc := s.ex.pc, mcause := 2, mtval := s.ex.instr)
  {
    hide FwdA, FwdB, Redirect, Freeze, ExResult, MemResult, Stored, PcNext, NextFetch, NextId, NextBound, NextEx,
         NextPendActive, MulDivInputs, PortWe, PortAddr, PortData;
  }

  // ---------------------------------------------------------------- words that are no instruction

  /** A word whose opcode is none of the eleven known ones changes nothing but the program counter. */
  lemma UnknownWords(c: Cpu, w: Word)
    requires w % 0x80 !in {0x37, 0x17, 0x6F, 0x67, 0x63, 0x03, 0x23, 0x13, 0x33, 0x0B, 0x73}
    ensures Exec(c, w) == Cpu(Next4(c), c.regs, c.mem) && !Decode(w).illegal
  {
    hide Add, ToWord, Alu, RF.Read, BranchTaken, Imm, Comb.Result, LoadBytes, StoreBytes, Funct3, Funct7;
    WrapsWord(c.pc, 4);
  }

  /** Exactly these words are illegal: SYSTEM other than the three CSR forms, and the custom opcode other than
      FISOL.BOUND and FISOL.OFF. */
  lemma IllegalWords(op: int, rd: Reg, f3: Bits3, rs1: Reg, rs2: Reg, f7: int)
    requires 0 <= op < 0x80 && 0 <= f7 < 0x80
    ensures Decode(Pack32(op, rd, f3, rs1, rs2, f7)).illegal
       <==> (op == 0x73 && f3 != 1 && f3 != 2 && f3 != 3) || (op == 0x0B && f3 != 0 && f3 != 1)
  {
    hide Pack32, Opcode, Funct3, Funct7, AluOpOf, Bit30;
    Fields(op, rd, f3, rs1, rs2, f7);
  }

  /** Immediate arithmetic under any upper bits: a shift looks at the low five bits of the field and at bit 10. */
  lemma ImmediateWords(c: Cpu, op: AluOp, rd: Reg, rs1: Reg, u: int)
    requires 0 <= u < 0x1000 && op != ASub
    requires op == ASra ==> (u / 0x400) % 2 == 1
    requires op == ASrl ==> (u / 0x400) % 2 == 0
    ensures Exec(c, IType(0x13, rd, OpCode3(op), rs1, u))
         == Writes(c, rd, Computes(op, RF.Read(c.regs, rs1), ToWord(if u >= 0x800 then u - 0x1000 else u)))
  {
    hide Opcode, RdOf, Rs1Of, Rs2Of, IType, Add, RF.Read, RF.Write, ToWord, Alu, Bit30, Computes, ImmI, Funct7,
         SignExtend12;
    ITypeFields(0x13, rd, OpCode3(op), rs1, u);
    ArithmeticBit(IType(0x13, rd, OpCode3(op), rs1, u));
    assert (u / 0x20) / 0x20 == u / 0x400;
    WrapsWord(c.pc, 4);
    ExtendsField(u);
    AluComputes(op, RF.Read(c.regs, rs1), SignExtend12(u));
  }

  lemma ExtendsField(u: int)
    requires 0 <= u < 0x1000
    ensures SignExtend12(u) == ToWord(if u >= 0x800 then u - 0x1000 else u)
  {
  }

  /** Branches with funct3 2 or 3 are never taken. */
  lemma ReservedBranches(c: Cpu, rd: Reg, f3: Bits3, rs1: Reg, rs2: Reg, f7: int)
    requires 0 <= f7 < 0x80 && (f3 == 2 || f3 == 3)
    ensures Exec(c, Pack32(0x63, rd, f3, rs1, rs2, f7)) == Cpu(Next4(c), c.regs, c.mem)
  {
    hide Pack32, Opcode, Funct3, RdOf, Rs1Of, Rs2Of, Add, ToWord, Alu, RF.Read, Imm, Funct7, Decode, Signed;
    Fields(0x63, rd, f3, rs1, rs2, f7);
    DecodeBranch(Pack32(0x63, rd, f3, rs1, rs2, f7));
    WrapsWord(c.pc, 4);
  }

  /** JALR takes any funct3. */
  lemma ReservedJumps(c: Cpu, rd: Reg, f3: Bits3, rs1: Reg, rs2: Reg, f7: int)
    requires 0 <= f7 < 0x80
    ensures Exec(c, Pack32(0x67, rd, f3, rs1, rs2, f7)) == Exec(c, Pack32(0x67, rd, 0, rs1, rs2, f7))
  {
    hide Pack32, Opcode, Funct3, RdOf, Rs1Of, Rs2Of, Add, Alu, RF.Read, RF.Write, Imm, ImmI, Funct7, Decode;
    Fields(0x67, rd, f3, rs1, rs2, f7);
    Fields(0x67, rd, 0, rs1, rs2, f7);
    SameImmediate(0x67, rd, f3, 0, rs1, rs2, f7);
    DecodeJalr(Pack32(0x67, rd, f3, rs1, rs2, f7));
    DecodeJalr(Pack32(0x67, rd, 0, rs1, rs2, f7));
  }

  /** Loads with funct3 3, 6 or 7 read a word; stores look at two bits of funct3, and 3 stores a word. */
  lemma ReservedAccesses(c: Cpu, rd: Reg, f3: Bits3, rs1: Reg, rs2: Reg, f7: int)
    requires 0 <= f7 < 0x80
    ensures f3 == 3 || f3 == 6 || f3 == 7 ==>
      Exec(c, Pack32(0x03, rd, f3, rs1, rs2, f7)) == Exec(c, Pack32(0x03, rd, 2, rs1, rs2, f7))
    ensures f3 >= 3 ==>
      Exec(c, Pack32(0x23, rd, f3, rs1, rs2, f7))
      == Exec(c, Pack32(0x23, rd, if f3 == 4 then 0 else if f3 == 5 then 1 else 2, rs1, rs2, f7))
  {
    hide Pack32, Opcode, Funct3, RdOf, Rs1Of, Rs2Of, Add, ToWord, Alu, RF.Read, RF.Write, ImmI, ImmS, Funct7, Offset,
         ReadWord, WriteByte, ByteAt;
    var g: Bits3 := if f3 == 4 then 0 else if f3 == 5 then 1 else 2;
    Fields(0x03, rd, f3, rs1, rs2, f7);
    Fields(0x03, rd, 2, rs1, rs2, f7);
    SameImmediate(0x03, rd, f3, 2, rs1, rs2, f7);
    Fields(0x23, rd, f3, rs1, rs2, f7);
    Fields(0x23, rd, g, rs1, rs2, f7);
    SameStoreImmediate(rd, f3, g, rs1, rs2, f7);
  }

  lemma SameImmediate(op: int, rd: Reg, f3: Bits3, g: Bits3, rs1: Reg, rs2: Reg, f7: int)
    requires 0 <= op < 0x80 && 0 <= f7 < 0x80
    ensures ImmI(Pack32(op, rd, f3, rs1, rs2, f7)) == ImmI(Pack32(op, rd, g, rs1, rs2, f7))
  {
    hide Pack32;
    TopTwelve(op, rd, f3, rs1, rs2, f7);
    TopTwelve(op, rd, g, rs1, rs2, f7);
  }

  lemma SameStoreImmediate(rd: Reg, f3: Bits3, g: Bits3, rs1: Reg, rs2: Reg, f7: int)
    requires 0 <= f7 < 0x80
    ensures ImmS(Pack32(0x23, rd, f3, rs1, rs2, f7)) == ImmS(Pack32(0x23, rd, g, rs1, rs2, f7))
  {
    hide Pack32;
    Fields(0x23, rd, f3, rs1, rs2, f7);
    Fields(0x23, rd, g, rs1, rs2, f7);
  }

  // ---------------------------------------------------------------- CSR instructions

  datatype CsrKind = Swap | SetBits | ClearBits

  /** CSRRW, CSRRS and CSRRC of section 9.1. */
  datatype CsrInstr = CsrInstr(kind: CsrKind, rd: Reg, rs1: Reg, csr: Field12)

  function EncodeCsr(i: CsrInstr): Word {
    IType(0x73, i.rd, match i.kind case Swap => 1 case SetBits => 2 case ClearBits => 3, i.rs1, i.csr)
  }

  /** The old value: mtvec, mepc, mcause or mtval; other addresses read as zero. */
  function CsrBefore(c: Csr.Csrs, addr: int): Word {
    if addr == 0x305 then c.mtvec
    else if addr == 0x341 then c.mepc
    else if addr == 0x342 then c.mcause
    else if addr == 0x343 then c.mtval
    else 0
  }

  function CsrAfter(kind: CsrKind, before: Word, v: Word): Word {
    match kind
    case Swap => v
    case SetBits => ToWord(before + v - Common(before, v, 32))
    case ClearBits => ToWord(before - Common(before, v, 32))
  }

  function CsrsAfter(c: Csr.Csrs, addr: int, v: Word): Csr.Csrs {
    if addr == 0x305 then c.(mtvec := v)
    else if addr == 0x341 then c.(mepc := v)
    else if addr == 0x342 then c.(mcause := v)
    else if addr == 0x343 then c.(mtval := v)
    else c
  }

  /** The old value goes to `rd`, the new one to the CSR. */
  function CsrMeaning(a: Arch, i: CsrInstr): Arch {
    var before := CsrBefore(a.csrs, i.csr);
    Arch(Writes(a.cpu, i.rd, before),
         CsrsAfter(a.csrs, i.csr, CsrAfter(i.kind, before, RF.Read(a.cpu.regs, i.rs1))))
  }

  /** The sequential machine executes every encoded CSR instruction as the manual says. */
  lemma SequentialImplementsCsrs(a: Arch, i: CsrInstr)
    ensures ExecArch(a, EncodeCsr(i)) == CsrMeaning(a, i)
  {
    hide Opcode, RdOf, Rs1Of, IType, Add, RF.Read, RF.Write, ToWord, WordGate, Common, Exec, Funct7;
    var f3 := match i.kind case Swap => 1 case SetBits => 2 case ClearBits => 3;
    ITypeFields(0x73, i.rd, f3, i.rs1, i.csr);
    CsrField(i.rd, f3, i.rs1, i.csr);
    WrapsWord(a.cpu.pc, 4);
    var before, v := CsrBefore(a.csrs, i.csr), RF.Read(a.cpu.regs, i.rs1);
    GatesAdd(before, v);
    WordIsItself(WordGate(Or, before, v));
    WordIsItself(WordGate(AndNot, before, v));
  }

  lemma CsrField(rd: Reg, f3: Bits3, rs1: Reg, csr: Field12)
    ensures CsrAddrOf(IType(0x73, rd, f3, rs1, csr)) == csr
  {
    TopTwelve(0x73, rd, f3, rs1, csr % 0x20, csr / 0x20);
  }

  /** Every other instruction leaves the CSRs alone. */
  lemma SequentialImplementsIsa(a: Arch, i: Instr)
    requires Valid(i)
    ensures ExecArch(a, Encode(i)) == Arch(Meaning(a.cpu, i), a.csrs)
  {
    hide Exec, Meaning, Encode, Decode;
    CoreImplementsIsa(a.cpu, i);
    NoCsrAccess(i);
  }

  lemma NoCsrAccess(i: Instr)
    requires Valid(i)
    ensures !Decode(Encode(i)).isCsr
  {
    hide Opcode, Funct3, Funct7, Bit30, AluOpOf, Pack32, RdOf;
    EncodedOpcode(i);
  }

  lemma EncodedOpcode(i: Instr)
    requires Valid(i)
    ensures Opcode(Encode(i)) != 0x73
  {
    hide Opcode, Pack32, Bits12, Bits13, Bits21, JUpper, RdOf, Funct3, Funct7, Rs1Of, Rs2Of, ImmI, ImmU;
    match i
    case Lui(rd, upper) => UTypeFields(0x37, rd, upper);
    case Auipc(rd, upper) => UTypeFields(0x17, rd, upper);
    case Jal(rd, disp) => UTypeFields(0x6F, rd, JUpper(Bits21(disp)));
    case Jalr(rd, rs1, imm) => ITypeFields(0x67, rd, 0, rs1, Bits12(imm));
    case Branch(cond, rs1, rs2, off) =>
      var u: int := Bits13(off);
      Fields(0x63, ((u / 2) % 0x10) * 2 + (u / 0x800) % 2, ConditionCode(cond), rs1, rs2,
             (u / 0x1000) * 0x40 + (u / 0x20) % 0x40);
    case Load(width, unsigned, rd, rs1, imm) =>
      ITypeFields(0x03, rd, if unsigned then width + 4 else width, rs1, Bits12(imm));
    case Store(width, rs1, rs2, imm) => Fields(0x23, Bits12(imm) % 0x20, width, rs1, rs2, Bits12(imm) / 0x20);
    case OpImm(op, rd, rs1, imm) =>
      ITypeFields(0x13, rd, OpCode3(op), rs1, if op == ASra then Bits12(imm) % 0x20 + 0x400 else Bits12(imm));
    case Op(op, rd, rs1, rs2) => Fields(0x33, rd, OpCode3(op), rs1, rs2, if op == ASub || op == ASra then 0x20 else 0);
    case MulDiv(f3, rd, rs1, rs2) => Fields(0x33, rd, f3, rs1, rs2, 1);
    case Fence(imm, rd, rs1) => ITypeFields(0x0F, rd, 0, rs1, Bits12(imm));
    case FisolBound => Fields(0x0B, 0, 0, 0, 0, 0);
    case FisolOff => Fields(0x0B, 0, 1, 0, 0, 0);
  }

  // ---------------------------------------------------------------- main result

  /** The single-cycle core executes every encoded instruction as the manual says. */
  lemma CoreImplementsIsa(c: Cpu, i: Instr)
    requires Valid(i)
    ensures Exec(c, Encode(i)) == Meaning(c, i)
  {
    hide Exec, Encode, Meaning;
    match i
    case Lui(_, _) => RunsUpper(c, i);
    case Auipc(_, _) => RunsUpper(c, i);
    case Jal(_, _) => RunsJal(c, i);
    case Jalr(_, _, _) => RunsJalr(c, i);
    case Branch(_, _, _, _) => RunsBranch(c, i);
    case Load(_, _, _, _, _) => RunsLoad(c, i);
    case Store(_, _, _, _) => RunsStore(c, i);
    case OpImm(_, _, _, _) => RunsOpImm(c, i);
    case Op(_, _, _, _) => RunsOp(c, i);
    case MulDiv(_, _, _, _) => RunsMulDiv(c, i);
    case Fence(_, _, _) => RunsFence(c, i);
    case FisolBound => RunsFisol(c, i);
    case FisolOff => RunsFisol(c, i);
  }
}
