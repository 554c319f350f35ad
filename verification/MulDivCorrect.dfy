/** Whole operations of the iterative unit: latency, insensitivity while running, and the result. */
module MulDivCorrect {
  import opened Words
  import opened Arithmetic
  import opened MulDivIter
  import opened MulDivProofs
  import Comb = MulDivComb

  /** Operand magnitudes latched for a multiplication or a division. */
  function MulA(a: Word, op: Bits3): Word { if op % 4 != 3 && Negative(a) then Neg(a) else a }
  function MulB(b: Word, op: Bits3): Word { if op % 4 == 1 && Negative(b) then Neg(b) else b }
  function DivMag(x: Word, op: Bits3): Word { if op % 2 == 0 && Negative(x) then Neg(x) else x }

  /** The unit `j` clock edges after the edge that accepted operands `a`, `b` and operation `op`. */
  predicate Running(u: Unit, a: Word, b: Word, op: Bits3, j: nat) {
    && j <= 33
    && u.opA == a && u.op == op
    && u.busy == (j < 33) && u.done == (j == 33)
    && u.phase == (if j == 33 then Idle else if j == 32 then Finish else if op < 4 then MulRun else DivRun)
    && (j < 32 ==> u.cnt == j)
    && (op < 4 ==>
          && u.mulASign == (op % 4 != 3 && Negative(a))
          && u.mulBSign == (op % 4 == 1 && Negative(b))
          && u.mulMcand == MulB(b, op)
          && u.mulAcc == MulAfter(MulA(a, op), MulB(b, op), if j < 32 then j else 32))
    && (op >= 4 ==>
          && u.divASign == (op % 2 == 0 && Negative(a))
          && u.divBSign == (op % 2 == 0 && Negative(b))
          && u.divByZero == (b == 0)
          && u.divOverflow == (op % 2 == 0 && Comb.Overflow(a, b))
          && u.divDivisor == DivMag(b, op)
          && u.divRem == DivAfter(DivMag(a, op), DivMag(b, op), if j < 32 then j else 32))
  }

  predicate Ready(u: Unit) {
    u.phase == Idle && !u.busy
  }

  lemma StartAccepts(u: Unit, a: Word, b: Word, op: Bits3)
    requires Ready(u)
    ensures Running(Next(u, Inputs(true, true, a, b, op)), a, b, op, 0)
  {
    hide Running, Next, Ready;
    if op < 4 { MultiplyAccepted(u, a, b, op); } else { DivideAccepted(u, a, b, op); }
  }

  /** With the operand gate closed a start keeps the previous operand and operation for the output multiplexer, and
      latches everything else alike. */
  lemma ClosedStart(u: Unit, a: Word, b: Word, op: Bits3)
    requires Ready(u)
    ensures Next(u, Inputs(true, false, a, b, op)) == Next(u, Inputs(true, true, a, b, op)).(opA := u.opA, op := u.op)
  {
    hide MulLatched, DivLatched, Begun;
    ClosedLatch(u, Inputs(true, false, a, b, op), Inputs(true, true, a, b, op));
  }

  lemma ClosedLatch(u: Unit, i: Inputs, j: Inputs)
    requires i == j.(opEn := false) && j.opEn
    ensures MulLatched(Begun(u, i, MulRun), i) == MulLatched(Begun(u, j, MulRun), j).(opA := u.opA, op := u.op)
    ensures DivLatched(Begun(u, i, DivRun), i) == DivLatched(Begun(u, j, DivRun), j).(opA := u.opA, op := u.op)
  {
    hide Neg, MulASign, MulBSign, DivASign, DivBSign, DivOverflows;
    SameSigns(i, j);
  }

  lemma SameSigns(i: Inputs, j: Inputs)
    requires i.a == j.a && i.b == j.b && i.op == j.op
    ensures MulASign(i) == MulASign(j) && MulBSign(i) == MulBSign(j)
    ensures DivASign(i) == DivASign(j) && DivBSign(i) == DivBSign(j) && DivOverflows(i) == DivOverflows(j)
  {
  }

  lemma MultiplyAccepted(u: Unit, a: Word, b: Word, op: Bits3)
    requires Ready(u) && op < 4
    ensures Running(Next(u, Inputs(true, true, a, b, op)), a, b, op, 0)
  {
    hide Neg, Negative, DivAfter, DivMag, Comb.Overflow, MulStep, DivStep;
  }

  lemma DivideAccepted(u: Unit, a: Word, b: Word, op: Bits3)
    requires Ready(u) && op >= 4
    ensures Running(Next(u, Inputs(true, true, a, b, op)), a, b, op, 0)
  {
    hide Neg, MulAfter, MulA, MulB, MulStep, DivStep;
  }

  /** While running, no input matters. */
  lemma RunningAdvances(u: Unit, a: Word, b: Word, op: Bits3, j: nat, i: Inputs)
    requires Running(u, a, b, op, j) && j < 33
    ensures Running(Next(u, i), a, b, op, j + 1)
  {
    if op < 4 { MulAdvances(u, a, b, op, j, i); } else { DivAdvances(u, a, b, op, j, i); }
  }

  lemma MulAdvances(u: Unit, a: Word, b: Word, op: Bits3, j: nat, i: Inputs)
    requires op < 4 && Running(u, a, b, op, j) && j < 33
    ensures Running(Next(u, i), a, b, op, j + 1)
  {
    hide MulStep, DivStep, MulA, MulB, DivMag, DivAfter, Comb.Overflow;
    assert j < 32 ==> u.phase == MulRun;
    assert j == 32 ==> u.phase == Finish;
  }

  lemma DivAdvances(u: Unit, a: Word, b: Word, op: Bits3, j: nat, i: Inputs)
    requires op >= 4 && Running(u, a, b, op, j) && j < 33
    ensures Running(Next(u, i), a, b, op, j + 1)
  {
    hide MulStep, DivStep, MulA, MulB, DivMag, MulAfter, Comb.Overflow;
    assert j < 32 ==> u.phase == DivRun;
    assert j == 32 ==> u.phase == Finish;
  }

  // ---------------------------------------------------------------- results

  lemma LowValue(p: int)
    ensures Comb.Low(p) == p % 0x1_0000_0000
  {
  }

  lemma HighValue(p: int)
    ensures Comb.High(p) == (p / 0x1_0000_0000) % 0x1_0000_0000
  {
    var k, m := p / 0x4_0000_0000_0000_0000, p % 0x4_0000_0000_0000_0000;
    var h, l := m / 0x1_0000_0000, m % 0x1_0000_0000;
    QuotientIs(p, 0x1_0000_0000, k * 0x4_0000_0000 + h, l);
    QuotientIs(k * 0x4_0000_0000 + h, 0x1_0000_0000, 4 * k + h / 0x1_0000_0000, h % 0x1_0000_0000);
  }

  /** The upper half of a product, from its magnitude, when the signs agree or differ. */
  lemma HighOfMagnitude(d: DWord)
    ensures Comb.High(d) == Hi(d)
    ensures Comb.High(-(d as int)) == Hi(Neg64(d))
  {
    HighValue(d);
    var n := -(d as int);
    HighValue(n);
    var q, r := n / 0x1_0000_0000, n % 0x1_0000_0000;
    if d != 0 {
      QuotientIs(0x1_0000_0000_0000_0000 + n, 0x1_0000_0000, 0x1_0000_0000 + q, r);
      QuotientIs(q, 0x1_0000_0000, -1, 0x1_0000_0000 + q);
    }
  }

  lemma SignsOut(x: int, y: int)
    ensures (-x) * y == -(x * y)
    ensures x * (-y) == -(x * y)
    ensures (-x) * (-y) == x * y
  {
  }

  lemma Magnitude(a: Word)
    ensures Negative(a) ==> Signed(a) == -(Neg(a) as int)
    ensures !Negative(a) ==> Signed(a) == a
  {
  }

  /** A multiple of 2^32 does not reach the low word. */
  lemma LowWordOf(p: int, k: int)
    ensures (p + k * 0x1_0000_0000) % 0x1_0000_0000 == p % 0x1_0000_0000
  {
  }

  lemma MulLowResult(u: Unit, a: Word, b: Word)
    requires Running(u, a, b, 0, 33)
    ensures Result(u) == Comb.Result(a, b, 0)
  {
    hide MulAfter, Comb.Low;
    MulDone(MulA(a, 0), b);
    LowOfSigned(a, b);
    if Negative(a) { NegatedLow(a, b); }
  }

  /** Negating the low word of |a| * b gives the low word of a * b. */
  lemma NegatedLow(a: Word, b: Word)
    requires Negative(a)
    ensures Neg((Neg(a) * b) % 0x1_0000_0000) == ToWord(a * b)
  {
    Distribute(Neg(a), a, b);
    ComplementLow(Neg(a) * b, a * b, b);
  }

  lemma ComplementLow(p: int, q: int, k: int)
    requires p + q == k * 0x1_0000_0000
    ensures (0x1_0000_0000 - p % 0x1_0000_0000) % 0x1_0000_0000 == q % 0x1_0000_0000
  {
    var h, l := p / 0x1_0000_0000, p % 0x1_0000_0000;
    if l != 0 { QuotientIs(q, 0x1_0000_0000, k - h - 1, 0x1_0000_0000 - l); }
    else { QuotientIs(q, 0x1_0000_0000, k - h, 0); }
  }

  lemma NegIsNegation(w: Word)
    ensures Neg(w) == ToWord(-(w as int)) && ToWord(w) == w
  {
    ComplementLow(w, -(w as int), 0);
  }

  lemma MulHighResult(u: Unit, a: Word, b: Word, op: Bits3)
    requires 1 <= op <= 3
    requires Running(u, a, b, op, 33)
    ensures Result(u) == Comb.Result(a, b, op)
  {
    hide MulAfter, Comb.High, Hi, Neg64;
    var x, y := MulA(a, op), MulB(b, op);
    MulDone(x, y);
    Magnitude(a);
    Magnitude(b);
    SignsOut(x, y);
    HighOfMagnitude(u.mulAcc);
  }

  lemma DivByZeroResult(u: Unit, a: Word, op: Bits3)
    requires op >= 4 && Running(u, a, 0, op, 33)
    ensures Result(u) == Comb.Result(a, 0, op)
  {
    hide DivAfter;
  }

  lemma DivUnsignedResult(u: Unit, a: Word, b: Word, op: Bits3)
    requires op == 5 || op == 7
    requires b != 0 && Running(u, a, b, op, 33)
    ensures Result(u) == Comb.Result(a, b, op)
  {
    hide DivAfter;
    DivDone(a, b);
  }

  lemma DivSignedResult(u: Unit, a: Word, b: Word, op: Bits3)
    requires op == 4 || op == 6
    requires b != 0 && Running(u, a, b, op, 33)
    ensures Result(u) == Comb.Result(a, b, op)
  {
    hide DivAfter, Comb.TruncDiv, Comb.TruncRem, Neg, ToWord, DivMag, Quotient, Remainder;
    var x, y := DivMag(a, op), DivMag(b, op);
    SignedParts(a, b, x, y, op);
    DivDone(x, y);
    NegIsNegation(x / y);
    NegIsNegation(x % y);
  }

  lemma TruncParts(x: int, y: int)
    requires y != 0
    ensures Comb.TruncDiv(x, y) == if (x < 0) == (y < 0) then Quotient(x, y) else -Quotient(x, y)
    ensures Comb.TruncRem(x, y) == if x < 0 then -Remainder(x, y) else Remainder(x, y)
    ensures Comb.Abs(x) == Quotient(x, y) * Comb.Abs(y) + Remainder(x, y)
    ensures 0 <= Remainder(x, y) < Comb.Abs(y) && 0 <= Quotient(x, y) <= Comb.Abs(x)
  {
    var m, d := Comb.Abs(x), Comb.Abs(y);
    DivMod(m, d);
    PartsBelow(m, d, m / d, m % d);
  }

  /** Quotient and remainder of the magnitudes. */
  function Quotient(x: int, y: int): int
    requires y != 0
  {
    Comb.Abs(x) / Comb.Abs(y)
  }

  function Remainder(x: int, y: int): int
    requires y != 0
  {
    Comb.Abs(x) % Comb.Abs(y)
  }

  /** Truncated quotient and remainder as sign fix-ups of the unsigned ones. */
  lemma SignedParts(a: Word, b: Word, x: Word, y: Word, op: Bits3)
    requires b != 0 && (op == 4 || op == 6) && x == DivMag(a, op) && y == DivMag(b, op)
    ensures y != 0 && x / y == Quotient(Signed(a), Signed(b)) && x % y == Remainder(Signed(a), Signed(b))
    ensures Comb.TruncDiv(Signed(a), Signed(b)) == if Negative(a) != Negative(b) then -(x / y) else x / y
    ensures Comb.TruncRem(Signed(a), Signed(b)) == if Negative(a) then -(x % y) else x % y
    ensures 0 <= x / y <= x && 0 <= x % y <= x
  {
    hide Comb.TruncDiv, Comb.TruncRem;
    Magnitude(a);
    Magnitude(b);
    assert Comb.Abs(Signed(a)) == x && Comb.Abs(Signed(b)) == y;
    TruncParts(Signed(a), Signed(b));
    RemainderAtMost(Signed(a), Signed(b));
  }

  lemma RemainderAtMost(x: int, y: int)
    requires y != 0
    ensures Remainder(x, y) <= Comb.Abs(x)
  {
    hide Comb.TruncDiv, Comb.TruncRem, Quotient, Remainder;
    TruncParts(x, y);
    PartsBelow(Comb.Abs(x), Comb.Abs(y), Quotient(x, y), Remainder(x, y));
  }

  lemma ResultCorrect(u: Unit, a: Word, b: Word, op: Bits3)
    requires Running(u, a, b, op, 33)
    ensures Result(u) == Comb.Result(a, b, op)
  {
    hide Result, Comb.Result, Running;
    if op == 0 { MulLowResult(u, a, b); }
    else if op < 4 { MulHighResult(u, a, b, op); }
    else if b == 0 { DivByZeroResult(u, a, op); }
    else if op == 5 || op == 7 { DivUnsignedResult(u, a, b, op); }
    else { DivSignedResult(u, a, b, op); }
  }

  // ---------------------------------------------------------------- whole operations

  /** The unit after each input in turn. */
  function Clocked(u: Unit, ins: seq<Inputs>): Unit {
    if ins == [] then u else Next(Clocked(u, ins[..|ins| - 1]), ins[|ins| - 1])
  }

  lemma {:induction false} RunningAfter(u: Unit, ins: seq<Inputs>)
    requires Ready(u) && 1 <= |ins| <= 34 && ins[0].start && ins[0].opEn
    ensures Running(Clocked(u, ins), ins[0].a, ins[0].b, ins[0].op, |ins| - 1)
  {
    hide Running, Next, Ready;
    var before := ins[..|ins| - 1];
    if |ins| == 1 {
      assert Clocked(u, before) == u;
      StartAccepts(u, ins[0].a, ins[0].b, ins[0].op);
    } else {
      RunningAfter(u, before);
      RunningAdvances(Clocked(u, before), ins[0].a, ins[0].b, ins[0].op, |before| - 1, ins[|ins| - 1]);
    }
  }

  /** From a ready unit, one start edge and 33 more edges with arbitrary inputs: busy on every cycle in
      between, done exactly then, and the result is the combinational unit's. */
  lemma IterativeEqualsCombinational(u: Unit, ins: seq<Inputs>)
    requires Ready(u) && |ins| == 34 && ins[0].start && ins[0].opEn
    ensures Clocked(u, ins).done && Ready(Clocked(u, ins))
    ensures Result(Clocked(u, ins)) == Comb.Result(ins[0].a, ins[0].b, ins[0].op)
    ensures forall n | 1 <= n < 34 :: Clocked(u, ins[..n]).busy && !Clocked(u, ins[..n]).done
  {
    RunningAfter(u, ins);
    ResultCorrect(Clocked(u, ins), ins[0].a, ins[0].b, ins[0].op);
    forall n | 1 <= n < 34
      ensures Clocked(u, ins[..n]).busy && !Clocked(u, ins[..n]).done
    {
      RunningAfter(u, ins[..n]);
    }
  }

  // ---------------------------------------------------------------- the M extension

  /** Section 7.1 of the RISC-V Unprivileged ISA 20191213: the low or high half of the product. */
  lemma MultiplyMeetsIsa(a: Word, b: Word)
    ensures Comb.Result(a, b, 0) == ToWord(a * b)
    ensures Comb.Result(a, b, 1) == ToWord((Signed(a) * Signed(b)) / 0x1_0000_0000)
    ensures Comb.Result(a, b, 2) == ToWord((Signed(a) * b) / 0x1_0000_0000)
    ensures Comb.Result(a, b, 3) == (a * b) / 0x1_0000_0000
  {
    hide Comb.High, Comb.Low, Signed;
    HighValue(Signed(a) * Signed(b));
    HighValue(Signed(a) * b);
    HighValue(a * b);
    LowOfSigned(a, b);
    ProductFits(a, b);
  }

  lemma ProductFits(a: Word, b: Word)
    ensures 0 <= (a * b) / 0x1_0000_0000 < 0x1_0000_0000
  {
    var p := a * b;
    MulMonotone(0, a, b);
    MulMonotone(a, 0xFFFF_FFFF, b);
    assert 0 <= p < 0x1_0000_0000_0000_0000;
  }

  /** The low word of a product does not depend on the operands' signs. */
  lemma LowOfSigned(a: Word, b: Word)
    ensures Comb.Low(Signed(a) * Signed(b)) == ToWord(a * b)
  {
    var x, y := Signed(a), Signed(b);
    LowValue(x * y);
    var i, j := if Negative(a) then 1 else 0, if Negative(b) then 1 else 0;
    Distribute(x, i * 0x1_0000_0000, b);
    Distribute(y, j * 0x1_0000_0000, x);
    assert a == x + i * 0x1_0000_0000 && b == y + j * 0x1_0000_0000;
    assert a * b == x * y + (j * x + i * b) * 0x1_0000_0000;
    LowWordOf(x * y, j * x + i * b);
  }

  /** Section 7.2: division rounds toward zero, and the remainder has the sign of the dividend. */
  lemma DivideMeetsIsa(a: Word, b: Word) returns (q: int, r: int)
    requires b != 0 && !Comb.Overflow(a, b)
    ensures Signed(a) == Signed(b) * q + r && Comb.Abs(r) < Comb.Abs(Signed(b))
    ensures r == 0 || (r < 0 <==> Negative(a))
    ensures -0x8000_0000 <= q < 0x8000_0000
    ensures Signed(Comb.Result(a, b, 4)) == q && Signed(Comb.Result(a, b, 6)) == r
  {
    hide Comb.TruncDiv, Comb.TruncRem, Quotient, Remainder, Comb.Result, ToWord;
    q, r := Comb.TruncDiv(Signed(a), Signed(b)), Comb.TruncRem(Signed(a), Signed(b));
    SignedResults(a, b);
    QuotientFits(a, b);
    TruncParts(Signed(a), Signed(b));
    RemainderAtMost(Signed(a), Signed(b));
    EuclidSigned(Signed(a), Signed(b));
    SignedOfWord(q);
    SignedOfWord(r);
  }

  lemma SignedResults(a: Word, b: Word)
    requires b != 0 && !Comb.Overflow(a, b)
    ensures Comb.Result(a, b, 4) == ToWord(Comb.TruncDiv(Signed(a), Signed(b)))
    ensures Comb.Result(a, b, 6) == ToWord(Comb.TruncRem(Signed(a), Signed(b)))
  {
    hide Comb.TruncDiv, Comb.TruncRem, Comb.Low, Comb.High, ToWord;
  }

  lemma EuclidSigned(x: int, y: int)
    requires y != 0
    ensures x == y * Comb.TruncDiv(x, y) + Comb.TruncRem(x, y)
  {
    hide Comb.TruncDiv, Comb.TruncRem, Quotient, Remainder;
    TruncParts(x, y);
    SignsOut(Quotient(x, y), Comb.Abs(y));
    SignsOut(Comb.Abs(y), Quotient(x, y));
  }

  lemma SignedOfWord(x: int)
    requires -0x8000_0000 <= x < 0x8000_0000
    ensures Signed(ToWord(x)) == x
  {
  }

  /** Without overflow the quotient's magnitude reaches 2^31 only when it is negative. */
  lemma QuotientFits(a: Word, b: Word)
    requires b != 0 && !Comb.Overflow(a, b)
    ensures Quotient(Signed(a), Signed(b)) <= 0x8000_0000
    ensures Quotient(Signed(a), Signed(b)) == 0x8000_0000 ==> Negative(a) != Negative(b)
  {
    hide Comb.TruncDiv, Comb.TruncRem, Quotient, Remainder;
    var x, y := Signed(a), Signed(b);
    TruncParts(x, y);
    if Comb.Abs(y) >= 2 {
      MulMonotone(2, Comb.Abs(y), Quotient(x, y));
    }
  }

  lemma UnsignedDivideMeetsIsa(a: Word, b: Word)
    requires b != 0
    ensures a == Comb.Result(a, b, 5) * b + Comb.Result(a, b, 7) && Comb.Result(a, b, 7) < b
  {
    DivMod(a, b);
  }

  /** Table 7.1: division by zero and signed overflow. */
  lemma SpecialCasesMeetIsa(a: Word)
    ensures Comb.Result(a, 0, 4) == Comb.Result(a, 0, 5) == ToWord(-1)
    ensures Comb.Result(a, 0, 6) == Comb.Result(a, 0, 7) == a
    ensures Comb.Result(0x8000_0000, ToWord(-1), 4) == 0x8000_0000
    ensures Comb.Result(0x8000_0000, ToWord(-1), 6) == 0
  {
  }
}
