/** rtl/decoder.sv, rtl/imm_gen.sv and rtl/alu.sv: the combinational blocks shared by both cores. */
module Isa {
  import opened Words

  // ---------------------------------------------------------------- instruction fields

  function Opcode(w: Word): int { w % 0x80 }
  function RdOf(w: Word): Reg { (w / 0x80) % 0x20 }
  function Funct3(w: Word): Bits3 { (w / 0x1000) % 8 }
  function Rs1Of(w: Word): Reg { (w / 0x8000) % 0x20 }
  function Rs2Of(w: Word): Reg { (w / 0x10_0000) % 0x20 }
  function Funct7(w: Word): int { w / 0x200_0000 }
  function CsrAddrOf(w: Word): int { w / 0x10_0000 }

  const OP_LOAD := 0x03
  const OP_CUSTOM0 := 0x0B
  const OP_OPIMM := 0x13
  const OP_AUIPC := 0x17
  const OP_STORE := 0x23
  const OP_OP := 0x33
  const OP_LUI := 0x37
  const OP_BRANCH := 0x63
  const OP_JALR := 0x67
  const OP_JAL := 0x6F
  const OP_SYSTEM := 0x73

  /** ADDI x0, x0, 0, the bubble instruction. */
  const NOP: Word := 0x13

  // ---------------------------------------------------------------- immediates

  /** A two's complement field of 12, 13 or 21 bits widened to 32. */
  function SignExtend12(v: int): Word
    requires 0 <= v < 0x1000
  {
    if v >= 0x800 then v + 0xFFFF_F000 else v
  }

  function SignExtend13(v: int): Word
    requires 0 <= v < 0x2000
  {
    if v >= 0x1000 then v + 0xFFFF_E000 else v
  }

  function SignExtend21(v: int): Word
    requires 0 <= v < 0x20_0000
  {
    if v >= 0x10_0000 then v + 0xFFE0_0000 else v
  }

  function ImmI(w: Word): Word { SignExtend12(w / 0x10_0000) }
  function ImmS(w: Word): Word { SignExtend12((w / 0x200_0000) * 0x20 + (w / 0x80) % 0x20) }
  function ImmB(w: Word): Word {
    SignExtend13((w / 0x8000_0000) * 0x1000 + ((w / 0x80) % 2) * 0x800
                 + ((w / 0x200_0000) % 0x40) * 0x20 + ((w / 0x100) % 0x10) * 2)
  }
  function ImmU(w: Word): Word { w - w % 0x1000 }
  function ImmJ(w: Word): Word {
    SignExtend21((w / 0x8000_0000) * 0x10_0000 + ((w / 0x1000) % 0x100) * 0x1000
                 + ((w / 0x10_0000) % 2) * 0x800 + ((w / 0x20_0000) % 0x400) * 2)
  }

  function Imm(w: Word): Word {
    var op := Opcode(w);
    if op == OP_LOAD || op == OP_OPIMM || op == OP_JALR then ImmI(w)
    else if op == OP_STORE then ImmS(w)
    else if op == OP_BRANCH then ImmB(w)
    else if op == OP_LUI || op == OP_AUIPC then ImmU(w)
    else if op == OP_JAL then ImmJ(w)
    else 0
  }

  // ---------------------------------------------------------------- control signals

  datatype AluOp = AAdd | ASub | ASll | ASlt | ASltu | AXor | ASrl | ASra | AOr | AAnd

  /** What a result multiplexer selects: `result_src` 00, 01, 10, 11. */
  datatype Source = FromAlu | FromMem | FromLink | FromImm

  datatype Ctrl = Ctrl(
    regWrite: bool, memRead: bool, memWrite: bool, memWidth: Bits2, memUnsigned: bool,
    aluOp: AluOp, srcAPc: bool, srcBImm: bool, source: Source,
    isMulDiv: bool, isBranch: bool, isJal: bool, isJalr: bool,
    isBound: bool, isOff: bool, illegal: bool, isCsr: bool)

  const IDLE_CTRL: Ctrl :=
    Ctrl(false, false, false, 2, false, AAdd, false, false, FromAlu,
         false, false, false, false, false, false, false, false)

  /** `alu_op` from funct3; bit 30 tells SUB from ADD (register form only) and SRA from SRL. */
  function AluOpOf(f3: Bits3, sub: bool, arith: bool): AluOp {
    if f3 == 0 then (if sub then ASub else AAdd)
    else if f3 == 1 then ASll
    else if f3 == 2 then ASlt
    else if f3 == 3 then ASltu
    else if f3 == 4 then AXor
    else if f3 == 5 then (if arith then ASra else ASrl)
    else if f3 == 6 then AOr
    else AAnd
  }

  predicate Bit30(w: Word) { (w / 0x4000_0000) % 2 == 1 }

  function Decode(w: Word): Ctrl {
    var op, f3 := Opcode(w), Funct3(w);
    if op == OP_OP then
      if Funct7(w) == 1 then IDLE_CTRL.(regWrite := true, isMulDiv := true)
      else IDLE_CTRL.(regWrite := true, aluOp := AluOpOf(f3, Bit30(w), Bit30(w)))
    else if op == OP_OPIMM then
      IDLE_CTRL.(regWrite := true, srcBImm := true, aluOp := AluOpOf(f3, false, Bit30(w)))
    else if op == OP_LOAD then
      IDLE_CTRL.(regWrite := true, memRead := true, srcBImm := true, source := FromMem,
                 memWidth := f3 % 4, memUnsigned := f3 >= 4)
    else if op == OP_STORE then
      IDLE_CTRL.(memWrite := true, srcBImm := true, memWidth := f3 % 4)
    else if op == OP_BRANCH then IDLE_CTRL.(isBranch := true)
    else if op == OP_JAL then IDLE_CTRL.(regWrite := true, isJal := true, source := FromLink)
    else if op == OP_JALR then
      IDLE_CTRL.(regWrite := true, isJalr := true, source := FromLink, srcBImm := true)
    else if op == OP_LUI then IDLE_CTRL.(regWrite := true, source := FromImm)
    else if op == OP_AUIPC then IDLE_CTRL.(regWrite := true, srcAPc := true, srcBImm := true)
    else if op == OP_CUSTOM0 then
      if f3 == 0 then IDLE_CTRL.(isBound := true)
      else if f3 == 1 then IDLE_CTRL.(isOff := true)
      else IDLE_CTRL.(illegal := true)
    else if op == OP_SYSTEM then
      if f3 == 1 || f3 == 2 || f3 == 3 then IDLE_CTRL.(regWrite := true, isCsr := true)
      else IDLE_CTRL.(illegal := true)
    else IDLE_CTRL
  }

  // ---------------------------------------------------------------- execution units

  function Alu(a: Word, b: Word, op: AluOp): Word {
    match op
    case AAdd => Add(a, b)
    case ASub => Sub(a, b)
    case ASll => ShiftLeft(a, b % 0x20)
    case ASlt => if Signed(a) < Signed(b) then 1 else 0
    case ASltu => if a < b then 1 else 0
    case AXor => WordGate(Xor, a, b)
    case ASrl => ShiftRight(a, b % 0x20)
    case ASra => ShiftRightArith(a, b % 0x20)
    case AOr => WordGate(Or, a, b)
    case AAnd => WordGate(And, a, b)
  }

  /** The dedicated branch comparator. */
  predicate BranchTaken(f3: Bits3, a: Word, b: Word) {
    if f3 == 0 then a == b
    else if f3 == 1 then a != b
    else if f3 == 4 then Signed(a) < Signed(b)
    else if f3 == 5 then Signed(a) >= Signed(b)
    else if f3 == 6 then a < b
    else if f3 == 7 then a >= b
    else false
  }
}
