/** rtl/muldiv.sv: the combinational multiply/divide unit of the single-cycle core. */
module MulDivComb {
  import opened Words

  function Abs(x: int): nat {
    if x < 0 then -x else x
  }

  /** Signed `/` and `%` truncate toward zero. */
  function TruncDiv(x: int, y: int): int
    requires y != 0
  {
    if (x < 0) == (y < 0) then Abs(x) / Abs(y) else -(Abs(x) / Abs(y))
  }

  function TruncRem(x: int, y: int): int
    requires y != 0
  {
    if x < 0 then -(Abs(x) % Abs(y)) else Abs(x) % Abs(y)
  }

  /** Bits [31:0] and [63:32] of a 66-bit two's complement product. */
  function Low(p: int): Word {
    (p % 0x4_0000_0000_0000_0000) % 0x1_0000_0000
  }

  function High(p: int): Word {
    ((p % 0x4_0000_0000_0000_0000) / 0x1_0000_0000) % 0x1_0000_0000
  }

  predicate Overflow(a: Word, b: Word) {
    a == 0x8000_0000 && b == 0xFFFF_FFFF
  }

  function Result(a: Word, b: Word, op: Bits3): Word {
    if op == 0 then Low(Signed(a) * Signed(b))
    else if op == 1 then High(Signed(a) * Signed(b))
    else if op == 2 then High(Signed(a) * b)
    else if op == 3 then High(a * b)
    else if op == 4 then
      if b == 0 then 0xFFFF_FFFF
      else if Overflow(a, b) then 0x8000_0000
      else ToWord(TruncDiv(Signed(a), Signed(b)))
    else if op == 5 then
      if b == 0 then 0xFFFF_FFFF else a / b
    else if op == 6 then
      if b == 0 then a
      else if Overflow(a, b) then 0
      else ToWord(TruncRem(Signed(a), Signed(b)))
    else
      if b == 0 then a else a % b
  }
}

/** rtl/muldiv_iter.sv: the 32-step shift-add multiplier and restoring divider. */
module MulDivIter {
  import opened Words

  datatype Phase = Idle | MulRun | DivRun | Finish

  type DWord = x: int | 0 <= x < 0x1_0000_0000_0000_0000

  datatype Unit = Unit(
    phase: Phase, busy: bool, done: bool,
    opA: Word, op: Bits3, cnt: nat,
    mulASign: bool, mulBSign: bool, divASign: bool, divBSign: bool,
    mulAcc: DWord, mulMcand: Word,
    divRem: DWord, divDivisor: Word, divByZero: bool, divOverflow: bool)

  /** The inputs sampled at one clock edge. */
  datatype Inputs = Inputs(start: bool, opEn: bool, a: Word, b: Word, op: Bits3)

  const RESET: Unit := Unit(Idle, false, false, 0, 0, 0, false, false, false, false, 0, 0, 0, 0, false, false)

  predicate MulASign(i: Inputs) { i.op % 4 != 3 && Negative(i.a) }
  predicate MulBSign(i: Inputs) { i.op % 4 == 1 && Negative(i.b) }
  predicate DivASign(i: Inputs) { i.op % 2 == 0 && Negative(i.a) }
  predicate DivBSign(i: Inputs) { i.op % 2 == 0 && Negative(i.b) }
  predicate DivOverflows(i: Inputs) { i.a == 0x8000_0000 && DivBSign(i) && i.b == 0xFFFF_FFFF }

  function Hi(d: DWord): Word { d / 0x1_0000_0000 }
  function Lo(d: DWord): Word { d % 0x1_0000_0000 }
  function Join(hi: Word, lo: Word): DWord { hi * 0x1_0000_0000 + lo }

  /** One shift-add step: a 33-bit sum (or the upper half) above the shifted lower half. */
  function MulStep(acc: DWord, mcand: Word): DWord {
    if acc % 2 == 1
    then (Hi(acc) + mcand) * 0x8000_0000 + Lo(acc) / 2
    else Hi(acc) * 0x8000_0000 + Lo(acc) / 2
  }

  /** One restoring step; the 64-bit shift drops the top bit. */
  function DivStep(rem: DWord, divisor: Word): DWord {
    var shifted: DWord := (rem * 2) % 0x1_0000_0000_0000_0000;
    if Hi(shifted) >= divisor
    then Join(Hi(shifted) - divisor, Lo(shifted) - Lo(shifted) % 2 + 1)
    else shifted
  }

  /** A start pulse latches the operation (while enabled) and begins a run. */
  function Begun(u: Unit, i: Inputs, run: Phase): Unit {
    u.(opA := if i.opEn then i.a else u.opA, op := if i.opEn then i.op else u.op,
       done := false, busy := true, cnt := 0, phase := run)
  }

  /** Operand magnitudes and their signs. */
  function MulLatched(u: Unit, i: Inputs): Unit {
    u.(mulASign := MulASign(i), mulBSign := MulBSign(i),
       mulMcand := if MulBSign(i) then Neg(i.b) else i.b,
       mulAcc := if MulASign(i) then Neg(i.a) else i.a)
  }

  function DivLatched(u: Unit, i: Inputs): Unit {
    u.(divASign := DivASign(i), divBSign := DivBSign(i), divByZero := i.b == 0, divOverflow := DivOverflows(i),
       divDivisor := if DivBSign(i) then Neg(i.b) else i.b,
       divRem := if DivASign(i) then Neg(i.a) else i.a)
  }

  /** The state after one clock edge. */
  function Next(u: Unit, i: Inputs): Unit {
    match u.phase
    case Idle =>
      if !i.start then u.(done := false)
      else if i.op < 4 then MulLatched(Begun(u, i, MulRun), i)
      else DivLatched(Begun(u, i, DivRun), i)
    case MulRun =>
      u.(done := false, mulAcc := MulStep(u.mulAcc, u.mulMcand), cnt := (u.cnt + 1) % 64,
         phase := if u.cnt == 31 then Finish else MulRun)
    case DivRun =>
      u.(done := false, divRem := DivStep(u.divRem, u.divDivisor), cnt := (u.cnt + 1) % 64,
         phase := if u.cnt == 31 then Finish else DivRun)
    case Finish =>
      u.(busy := false, done := true, phase := Idle)
  }

  /** 64-bit two's complement negation. */
  function Neg64(d: DWord): DWord {
    (0x1_0000_0000_0000_0000 - d) % 0x1_0000_0000_0000_0000
  }

  /** The output multiplexer. */
  function Result(u: Unit): Word {
    if u.op == 0 then if u.mulASign != u.mulBSign then Neg(Lo(u.mulAcc)) else Lo(u.mulAcc)
    else if u.op == 1 then Hi(if u.mulASign != u.mulBSign then Neg64(u.mulAcc) else u.mulAcc)
    else if u.op == 2 then Hi(if u.mulASign then Neg64(u.mulAcc) else u.mulAcc)
    else if u.op == 3 then Hi(u.mulAcc)
    else if u.op == 4 then
      if u.divByZero then 0xFFFF_FFFF
      else if u.divOverflow then 0x8000_0000
      else if u.divASign != u.divBSign then Neg(Lo(u.divRem)) else Lo(u.divRem)
    else if u.op == 5 then
      if u.divByZero then 0xFFFF_FFFF else Lo(u.divRem)
    else if u.op == 6 then
      if u.divByZero then u.opA
      else if u.divOverflow then 0
      else if u.divASign then Neg(Hi(u.divRem)) else Hi(u.divRem)
    else
      if u.divByZero then u.opA else Hi(u.divRem)
  }

  /** The unit as clocked hardware: one field per register. */
  class IterativeUnit {
    var phase: Phase
    var busy: bool
    var done: bool
    var opA: Word
    var op: Bits3
    var cnt: nat
    var mulASign: bool
    var mulBSign: bool
    var divASign: bool
    var divBSign: bool
    var mulAcc: DWord
    var mulMcand: Word
    var divRem: DWord
    var divDivisor: Word
    var divByZero: bool
    var divOverflow: bool

    ghost function State(): Unit
      reads this
    {
      Unit(phase, busy, done, opA, op, cnt, mulASign, mulBSign, divASign, divBSign,
           mulAcc, mulMcand, divRem, divDivisor, divByZero, divOverflow)
    }

    constructor ()
      ensures State() == RESET
    {
      phase, busy, done, opA, op, cnt := Idle, false, false, 0, 0, 0;
      mulASign, mulBSign, divASign, divBSign := false, false, false, false;
      mulAcc, mulMcand, divRem, divDivisor, divByZero, divOverflow := 0, 0, 0, 0, false, false;
    }

    /** The output multiplexer. */
    method Output() returns (r: Word)
      ensures r == Result(State())
    {
      hide Hi, Lo, Neg, Neg64;
      if op == 0 { r := if mulASign != mulBSign then Neg(Lo(mulAcc)) else Lo(mulAcc); }
      else if op == 1 { r := Hi(if mulASign != mulBSign then Neg64(mulAcc) else mulAcc); }
      else if op == 2 { r := Hi(if mulASign then Neg64(mulAcc) else mulAcc); }
      else if op == 3 { r := Hi(mulAcc); }
      else if divByZero { r := if op == 4 || op == 5 then 0xFFFF_FFFF else opA; }
      else if op == 5 { r := Lo(divRem); }
      else if op == 7 { r := Hi(divRem); }
      else if divOverflow { r := if op == 4 then 0x8000_0000 else 0; }
      else if op == 4 { r := if divASign != divBSign then Neg(Lo(divRem)) else Lo(divRem); }
      else { r := if divASign then Neg(Hi(divRem)) else Hi(divRem); }
    }

    /** A start pulse: the operation is latched while enabled. */
    method Begin(i: Inputs, run: Phase)
      modifies this`opA, this`op, this`done, this`busy, this`cnt, this`phase
      ensures State() == Begun(old(State()), i, run)
    {
      if i.opEn { opA, op := i.a, i.op; }
      done, busy, cnt, phase := false, true, 0, run;
    }

    method LatchMultiply(i: Inputs)
      modifies this`mulASign, this`mulBSign, this`mulMcand, this`mulAcc
      ensures State() == MulLatched(old(State()), i)
    {
      hide Neg, MulASign, MulBSign;
      mulASign, mulBSign := MulASign(i), MulBSign(i);
      mulMcand := if mulBSign then Neg(i.b) else i.b;
      mulAcc := if mulASign then Neg(i.a) else i.a;
    }

    method LatchDivide(i: Inputs)
      modifies this`divASign, this`divBSign, this`divByZero, this`divOverflow, this`divDivisor, this`divRem
      ensures State() == DivLatched(old(State()), i)
    {
      hide Neg, DivASign, DivBSign, DivOverflows;
      divASign, divBSign, divByZero, divOverflow := DivASign(i), DivBSign(i), i.b == 0, DivOverflows(i);
      divDivisor := if divBSign then Neg(i.b) else i.b;
      divRem := if divASign then Neg(i.a) else i.a;
    }

    /** One shift-add step, in place. */
    method MultiplyStep()
      modifies this`mulAcc
      ensures mulAcc == MulStep(old(mulAcc), mulMcand)
    {
      if mulAcc % 2 == 1 {
        mulAcc := (Hi(mulAcc) + mulMcand) * 0x8000_0000 + Lo(mulAcc) / 2;
      } else {
        mulAcc := Hi(mulAcc) * 0x8000_0000 + Lo(mulAcc) / 2;
      }
    }

    /** One restoring step, in place. */
    method DivideStep()
      modifies this`divRem
      ensures divRem == DivStep(old(divRem), divDivisor)
    {
      var shifted: DWord := (divRem * 2) % 0x1_0000_0000_0000_0000;
      var trial := Hi(shifted);
      if trial >= divDivisor {
        divRem := Join(trial - divDivisor, Lo(shifted) - Lo(shifted) % 2 + 1);
      } else {
        divRem := shifted;
      }
    }

    /** The step counter; the 32nd step is the last. */
    method Count()
      modifies this`phase, this`cnt, this`done
      ensures State() == old(State()).(phase := if old(cnt) == 31 then Finish else old(phase),
                                       cnt := (old(cnt) + 1) % 64, done := false)
    {
      if cnt == 31 { phase := Finish; }
      cnt, done := (cnt + 1) % 64, false;
    }

    method Clock(i: Inputs)
      modifies this
      ensures State() == Next(old(State()), i)
    {
      hide MulStep, DivStep, MulLatched, DivLatched, Begun;
      match phase
      case Idle =>
        if !i.start { done := false; }
        else if i.op < 4 { Begin(i, MulRun); LatchMultiply(i); }
        else { Begin(i, DivRun); LatchDivide(i); }
      case MulRun =>
        MultiplyStep();
        Count();
      case DivRun =>
        DivideStep();
        Count();
      case Finish =>
        busy, done, phase := false, true, Idle;
    }
  }
}
