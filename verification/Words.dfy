/** 32-bit machine words as naturals below 2^32, with the wrap-around of the
    hardware written out.  Bit slices are quotients and remainders by literal powers of two. */
module Words {

  type Word = x: int | 0 <= x < 0x1_0000_0000
  type Byte = x: int | 0 <= x < 256
  type Reg = x: int | 0 <= x < 32
  type Bits2 = x: int | 0 <= x < 4
  type Bits3 = x: int | 0 <= x < 8

  function Add(a: Word, b: Word): Word {
    (a + b) % 0x1_0000_0000
  }

  function Sub(a: Word, b: Word): Word {
    (a - b) % 0x1_0000_0000
  }

  /** `~a + 1`, two's complement negation. */
  function Neg(a: Word): Word {
    (0x1_0000_0000 - a) % 0x1_0000_0000
  }

  predicate Negative(a: Word) {
    a >= 0x8000_0000
  }

  /** `$signed(a)`. */
  function Signed(a: Word): int {
    if a >= 0x8000_0000 then a - 0x1_0000_0000 else a
  }

  /** The low 32 bits of a two's complement integer. */
  function ToWord(x: int): Word {
    x % 0x1_0000_0000
  }

  datatype Gate = Xor | Or | And | AndNot

  predicate GateBit(g: Gate, x: bool, y: bool) {
    match g
    case Xor => x != y
    case Or => x || y
    case And => x && y
    case AndNot => x && !y
  }

  /** The low `n` bits of `a` and `b` combined bit by bit. */
  function Bitwise(g: Gate, a: nat, b: nat, n: nat): nat
    decreases n
  {
    if n == 0 then 0
    else (if GateBit(g, a % 2 == 1, b % 2 == 1) then 1 else 0) + 2 * Bitwise(g, a / 2, b / 2, n - 1)
  }

  function WordGate(g: Gate, a: Word, b: Word): Word {
    ToWord(Bitwise(g, a, b, 32))
  }

  function ShiftLeft(a: Word, n: nat): Word
    decreases n
  {
    if n == 0 then a else ShiftLeft((2 * a) % 0x1_0000_0000, n - 1)
  }

  function ShiftRight(a: Word, n: nat): Word
    decreases n
  {
    if n == 0 then a else ShiftRight(a / 2, n - 1)
  }

  /** Arithmetic shift: the sign bit is copied in. */
  function ShiftRightArith(a: Word, n: nat): Word
    decreases n
  {
    if n == 0 then a else ShiftRightArith(a / 2 + (if a >= 0x8000_0000 then 0x8000_0000 else 0), n - 1)
  }
}
