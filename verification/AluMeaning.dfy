/** The ALU's shifts and gates in terms of numbers: multiplication and division by powers of two, and
    binary digits. */
module AluMeaning {
  import opened Words
  import opened Arithmetic
  import opened Isa

  /** Digit `k` of a number. */
  function Digit(a: nat, k: nat): nat
    decreases k
  {
    if k == 0 then a % 2 else Digit(a / 2, k - 1)
  }

  /** Every digit of a gate's result is the gate of the operands' digits. */
  lemma {:induction false} GateDigits(g: Gate, a: nat, b: nat, n: nat, k: nat)
    requires k < n
    ensures Digit(Bitwise(g, a, b, n), k) == if GateBit(g, Digit(a, k) == 1, Digit(b, k) == 1) then 1 else 0
    decreases k
  {
    var rest := Bitwise(g, a / 2, b / 2, n - 1);
    if k > 0 {
      assert Bitwise(g, a, b, n) / 2 == rest;
      GateDigits(g, a / 2, b / 2, n - 1, k - 1);
    }
  }

  lemma {:induction false} GateFits(g: Gate, a: nat, b: nat, n: nat)
    ensures Bitwise(g, a, b, n) < Pow2(n)
    decreases n
  {
    if n > 0 { GateFits(g, a / 2, b / 2, n - 1); }
  }

  /** Digit `k` is what is left of the quotient by the k-th power of two. */
  lemma {:induction false} DigitIs(a: nat, k: nat)
    ensures 0 <= Digit(a, k) < 2 && Digit(a, k) == (a / Pow2(k)) % 2
    decreases k
  {
    if k > 0 {
      DigitIs(a / 2, k - 1);
      DivideTwice(a, Pow2(k - 1));
    }
  }

  lemma GateFitsWord(g: Gate, a: Word, b: Word)
    ensures WordGate(g, a, b) == Bitwise(g, a, b, 32)
  {
    hide Bitwise;
    GateFits(g, a, b, 32);
    Pow2Of31And32();
  }

  lemma DigitOfGate(g: Gate, a: Word, b: Word, k: nat)
    requires k < 32
    ensures Digit(WordGate(g, a, b), k) == if GateBit(g, Digit(a, k) == 1, Digit(b, k) == 1) then 1 else 0
  {
    hide Bitwise, Digit, WordGate, GateBit;
    GateFitsWord(g, a, b);
    GateDigits(g, a, b, 32, k);
  }

  lemma DigitTable(x: nat, y: nat)
    requires x < 2 && y < 2
    ensures (if GateBit(Xor, x == 1, y == 1) then 1 else 0) == (x + y) % 2
    ensures (if GateBit(Or, x == 1, y == 1) then 1 else 0) == (x + y + 1) / 2
    ensures (if GateBit(And, x == 1, y == 1) then 1 else 0) == (x + y) / 2
    ensures (if GateBit(AndNot, x == 1, y == 1) then 1 else 0) == (x + 1 - y) / 2
  {
  }

  /** The ALU's gates, digit by digit, as carries and remainders of the digits' sums. */
  lemma WordGateDigits(a: Word, b: Word, k: nat)
    requires k < 32
    ensures var x, y := Digit(a, k), Digit(b, k);
            && Digit(WordGate(Xor, a, b), k) == (x + y) % 2
            && Digit(WordGate(Or, a, b), k) == (x + y + 1) / 2
            && Digit(WordGate(And, a, b), k) == (x + y) / 2
            && Digit(WordGate(AndNot, a, b), k) == (x + 1 - y) / 2
  {
    hide Digit, WordGate, GateBit, Pow2;
    DigitIs(a, k);
    DigitIs(b, k);
    DigitOfGate(Xor, a, b, k);
    DigitOfGate(Or, a, b, k);
    DigitOfGate(And, a, b, k);
    DigitOfGate(AndNot, a, b, k);
    DigitTable(Digit(a, k), Digit(b, k));
  }

  /** The number whose digits are one where both operands' are. */
  function Common(a: nat, b: nat, n: nat): nat
    decreases n
  {
    if n == 0 then 0 else (if a % 2 + b % 2 == 2 then 1 else 0) + 2 * Common(a / 2, b / 2, n - 1)
  }

  lemma {:induction false} GateSums(a: nat, b: nat, n: nat)
    requires a < Pow2(n) && b < Pow2(n)
    ensures Bitwise(And, a, b, n) == Common(a, b, n)
    ensures Bitwise(Xor, a, b, n) + 2 * Common(a, b, n) == a + b
    ensures Bitwise(Or, a, b, n) + Common(a, b, n) == a + b
    ensures Bitwise(AndNot, a, b, n) + Common(a, b, n) == a
    decreases n
  {
    if n > 0 { GateSums(a / 2, b / 2, n - 1); }
  }

  /** The gates against ordinary addition: XOR adds without the carries, OR counts common digits once, and the
      CSR instructions' AND-NOT takes them away. */
  lemma GatesAdd(a: Word, b: Word)
    ensures WordGate(And, a, b) == Common(a, b, 32)
    ensures WordGate(Xor, a, b) + 2 * WordGate(And, a, b) == a + b
    ensures WordGate(Or, a, b) + WordGate(And, a, b) == a + b
    ensures WordGate(AndNot, a, b) + WordGate(And, a, b) == a
  {
    hide Bitwise, Common, WordGate;
    Pow2Of31And32();
    GateSums(a, b, 32);
    GateFitsWord(And, a, b);
    GateFitsWord(Xor, a, b);
    GateFitsWord(Or, a, b);
    GateFitsWord(AndNot, a, b);
  }

  lemma {:induction false} ShiftRightDivides(a: Word, n: nat)
    ensures ShiftRight(a, n) == a / Pow2(n)
    decreases n
  {
    if n > 0 {
      ShiftRightDivides(a / 2, n - 1);
      DivideTwice(a, Pow2(n - 1));
    }
  }

  lemma DivideTwice(a: int, p: nat)
    requires p >= 1
    ensures (a / 2) / p == a / (2 * p)
  {
    var h, q, r := a / 2, (a / 2) / p, (a / 2) % p;
    DivMod(h, p);
    Reassociate(q, 2, p);
    assert q * (2 * p) == 2 * (q * p);
    assert a == q * (2 * p) + (2 * r + a % 2);
    QuotientIs(a, 2 * p, q, 2 * r + a % 2);
  }

  lemma {:induction false} ShiftLeftMultiplies(a: Word, n: nat)
    ensures ShiftLeft(a, n) == ToWord(a * Pow2(n))
    decreases n
  {
    if n > 0 {
      var d: Word := (2 * a) % 0x1_0000_0000;
      var carry := (2 * a) / 0x1_0000_0000;
      ShiftLeftMultiplies(d, n - 1);
      var p := Pow2(n - 1);
      Reassociate(a, 2, p);
      Distribute(d, carry * 0x1_0000_0000, p);
      Reassociate(carry, 0x1_0000_0000, p);
      assert a * Pow2(n) == d * p + (carry * p) * 0x1_0000_0000;
      DropMultiple(d * p, carry * p);
    }
  }

  lemma DropMultiple(x: int, k: int)
    ensures ToWord(x + k * 0x1_0000_0000) == ToWord(x)
  {
  }

  lemma {:induction false} ShiftRightArithDivides(a: Word, n: nat)
    ensures Signed(ShiftRightArith(a, n)) == Signed(a) / Pow2(n)
    decreases n
  {
    if n > 0 {
      var h: Word := a / 2 + (if a >= 0x8000_0000 then 0x8000_0000 else 0);
      assert Signed(h) == Signed(a) / 2;
      ShiftRightArithDivides(h, n - 1);
      DivideTwice(Signed(a), Pow2(n - 1));
    }
  }

  lemma SignedRoundTrip(w: Word)
    ensures ToWord(Signed(w)) == w
  {
  }

  /** The three shifts of sections 2.4.1 and 2.4.2 of the RISC-V Unprivileged ISA 20191213. */
  lemma ShiftsMeetIsa(a: Word, b: Word)
    ensures Alu(a, b, ASll) == ToWord(a * Pow2(b % 32))
    ensures Alu(a, b, ASrl) == a / Pow2(b % 32)
    ensures Alu(a, b, ASra) == ToWord(Signed(a) / Pow2(b % 32))
  {
    hide ShiftLeft, ShiftRight, ShiftRightArith, Pow2, ToWord, Signed;
    ShiftLeftMultiplies(a, b % 32);
    ShiftRightDivides(a, b % 32);
    ShiftRightArithDivides(a, b % 32);
    SignedRoundTrip(ShiftRightArith(a, b % 32));
  }
}
