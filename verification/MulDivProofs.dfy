/** The iterative unit computes what the combinational unit and the M extension define. */
module MulDivProofs {
  import opened Words
  import opened Arithmetic
  import opened MulDivIter

  // ---------------------------------------------------------------- binary digits

  /** `a` without its low `k` bits. */
  function Upper(a: nat, k: nat): nat {
    if k == 0 then a else Upper(a, k - 1) / 2
  }

  /** The low `k` bits of `a`. */
  function Lower(a: nat, k: nat): nat {
    if k == 0 then 0 else Lower(a, k - 1) + (if Upper(a, k - 1) % 2 == 1 then Pow2(k - 1) else 0)
  }

  lemma {:induction false} DigitsSplit(a: nat, k: nat)
    ensures a == Upper(a, k) * Pow2(k) + Lower(a, k)
    ensures Lower(a, k) < Pow2(k)
  {
    if k > 0 {
      DigitsSplit(a, k - 1);
      var u, p := Upper(a, k - 1), Pow2(k - 1);
      Distribute(2 * (u / 2), u % 2, p);
      Reassociate(u / 2, 2, p);
    }
  }

  /** 32 bits are all of a word. */
  lemma WordDigits(a: Word)
    ensures Upper(a, 32) == 0 && Lower(a, 32) == a
  {
    DigitsSplit(a, 32);
    Pow2Of31And32();
  }

  lemma UpperFits(a: Word, k: nat)
    requires k <= 32
    ensures Upper(a, 32 - k) < Pow2(k)
  {
    DigitsSplit(a, 32 - k);
    Pow2Of31And32();
    Pow2Adds(k, 32 - k);
    if Upper(a, 32 - k) >= Pow2(k) {
      MulMonotone(Pow2(k), Upper(a, 32 - k), Pow2(32 - k));
    }
  }

  // ---------------------------------------------------------------- multiplier

  /** The accumulator after `k` steps. */
  function MulAfter(a: Word, mcand: Word, k: nat): DWord {
    if k == 0 then a else MulStep(MulAfter(a, mcand, k - 1), mcand)
  }

  /** Each step halves the accumulator and may add the multiplicand at bit 31: the 33-bit sum and
      the 31 bits kept below it fill the register exactly. */
  lemma MulStepValue(acc: DWord, mcand: Word)
    ensures MulStep(acc, mcand) == acc / 2 + (if acc % 2 == 1 then mcand * 0x8000_0000 else 0)
  {
    assert acc == Hi(acc) * 0x1_0000_0000 + Lo(acc);
    assert acc / 2 == Hi(acc) * 0x8000_0000 + Lo(acc) / 2;
  }

  /** Loop invariant of the multiplier: the product with the bits consumed so far sits above the
      multiplier bits not yet consumed, and the two never overlap. */
  lemma {:induction false} MulInvariant(a: Word, mcand: Word, k: nat)
    requires k <= 32
    ensures MulAfter(a, mcand, k) == (Lower(a, k) * mcand) * Pow2(32 - k) + Upper(a, k)
    decreases k
  {
    hide MulStep;
    if k > 0 {
      var j := k - 1;
      MulInvariant(a, mcand, j);
      Pow2Adds(j, 31 - j);
      Pow2Of31And32();
      MulBit(MulAfter(a, mcand, j), mcand, Lower(a, j), Upper(a, j), Pow2(j), Pow2(31 - j), Pow2(32 - j));
    }
  }

  /** One step adds the current bit, at its weight, to the part of the multiplier consumed so far. */
  lemma MulBit(acc: DWord, mcand: Word, m: nat, q: nat, weight: nat, half: nat, double: nat)
    requires weight * half == 0x8000_0000 && double == 2 * half
    requires acc == (m * mcand) * double + q
    ensures MulStep(acc, mcand) == ((m + (if q % 2 == 1 then weight else 0)) * mcand) * half + q / 2
  {
    var p := m * mcand;
    Reassociate(p, 2, half);
    Reassociate(2, p, half);
    assert acc == 2 * (p * half) + q;
    MulStepValue(acc, mcand);
    Distribute(m, weight, mcand);
    Distribute(p, weight * mcand, half);
    Reassociate(mcand, weight, half);
    assert mcand * weight == weight * mcand;
  }

  lemma MulDone(a: Word, mcand: Word)
    ensures MulAfter(a, mcand, 32) == a * mcand
  {
    MulInvariant(a, mcand, 32);
    WordDigits(a);
  }

  // ---------------------------------------------------------------- divider

  function DivAfter(a: Word, divisor: Word, k: nat): DWord {
    if k == 0 then a else DivStep(DivAfter(a, divisor, k - 1), divisor)
  }

  /** The upper half is the remainder, and the low bits the quotient, of the dividend's top `k` bits; in
      between wait the bits not yet consumed. */
  predicate Divided(a: Word, divisor: Word, k: nat, rem: DWord, q: nat)
    requires k <= 32
  {
    && Upper(a, 32 - k) == q * divisor + Hi(rem)
    && Hi(rem) < divisor
    && Lo(rem) == Lower(a, 32 - k) * Pow2(k) + q
  }

  /** Loop invariant of the divider. */
  lemma {:induction false} DivInvariant(a: Word, divisor: Word, k: nat) returns (q: nat)
    requires k <= 32 && divisor != 0
    ensures Divided(a, divisor, k, DivAfter(a, divisor, k), q)
    decreases k
  {
    hide Divided, DivStep;
    if k == 0 {
      DividedAtStart(a, divisor);
      q := 0;
    } else {
      q := DivInvariant(a, divisor, k - 1);
      q := DivideStepKeeps(a, divisor, k, DivAfter(a, divisor, k - 1), q);
    }
  }

  lemma DividedAtStart(a: Word, divisor: Word)
    requires divisor != 0
    ensures Divided(a, divisor, 0, a, 0)
  {
    hide Upper, Lower, Hi, Lo, Pow2;
    Doubling(1);
    WordDigits(a);
    WordParts(a);
  }

  lemma DivideStepKeeps(a: Word, divisor: Word, k: nat, rem: DWord, q0: nat) returns (q: nat)
    requires 1 <= k <= 32 && divisor != 0 && Divided(a, divisor, k - 1, rem, q0)
    ensures Divided(a, divisor, k, DivStep(rem, divisor), q)
  {
    hide DivStep, Hi, Lo, Upper, Lower, Pow2;
    var n2, rest, weight, scale := Upper(a, 32 - k), Lower(a, 32 - k), Pow2(32 - k), Pow2(k - 1);
    NextDigit(a, 33 - k);
    Doubling(k);
    UpperFits(a, k - 1);
    DigitsSplit(a, 32 - k);
    WeightTimesScale(k);
    q := DivideNextBit(rem, divisor, n2, q0, rest, weight, scale);
    Reassociate(rest, 2, scale);
    Reassociate(2, rest, scale);
  }

  /** The left shift never loses a set bit: before each step the remainder is below 2^k, even for an
      unsigned divisor above 2^31. */
  lemma ShiftLosesNothing(a: Word, divisor: Word, k: nat)
    requires k < 32 && divisor != 0
    ensures Hi(DivAfter(a, divisor, k)) < Pow2(k) && 2 * DivAfter(a, divisor, k) < 0x1_0000_0000_0000_0000
  {
    hide Pow2, Upper, Lower, DivAfter;
    var q := DivInvariant(a, divisor, k);
    UpperFits(a, k);
    PartsBelow(Upper(a, 32 - k), divisor, q, Hi(DivAfter(a, divisor, k)));
    Pow2Adds(k, 31 - k);
    Pow2Of31And32();
    Pow2Positive(31 - k);
    MulMonotone(1, Pow2(31 - k), Pow2(k));
  }

  lemma Pow2Positive(k: nat)
    ensures Pow2(k) >= 1
  {
  }

  lemma WeightTimesScale(k: nat)
    requires 1 <= k <= 32
    ensures Pow2(32 - k) * Pow2(k - 1) == 0x8000_0000
  {
    hide Pow2;
    Pow2Adds(32 - k, k - 1);
    Pow2Of31And32();
  }

  lemma NextDigit(a: nat, k: nat)
    requires k > 0
    ensures Upper(a, k) == Upper(a, k - 1) / 2
    ensures Lower(a, k) == Lower(a, k - 1) + (if Upper(a, k - 1) % 2 == 1 then Pow2(k - 1) else 0)
  {
  }

  lemma Doubling(k: nat)
    requires k > 0
    ensures Pow2(k) == 2 * Pow2(k - 1) && Pow2(0) == 1
  {
  }

  lemma WordParts(a: Word)
    ensures Hi(a) == 0 && Lo(a) == a
  {
  }

  /** A partial remainder and a partial quotient are no larger than the bits they come from. */
  lemma PartsBelow(n: nat, divisor: nat, q: nat, r: nat)
    requires divisor > 0 && n == q * divisor + r
    ensures q <= n && r <= n
  {
    MulMonotone(1, divisor, q);
  }

  /** The dividend bits not yet consumed and the quotient so far fit below bit 31. */
  lemma LowBitsFit(rest: nat, weight: nat, scale: nat, q: nat)
    requires weight * scale == 0x8000_0000 && rest < weight && q < scale
    ensures 0 <= rest * scale + q < 0x8000_0000
  {
    MulMonotone(0, rest, scale);
    MulMonotone(rest, weight - 1, scale);
    Distribute(weight, -1, scale);
  }

  lemma ScaleFits(weight: nat, scale: nat)
    requires weight * scale == 0x8000_0000 && weight > 0
    ensures scale <= 0x8000_0000
  {
    MulMonotone(1, weight, scale);
  }

  /** The restoring step on remainder, waiting bits and the bit shifted in, once nothing overflows. */
  lemma DivStepValue(rem: DWord, divisor: Word, r: nat, bit: nat, low: nat)
    requires bit < 2 && low < 0x8000_0000 && r < 0x8000_0000
    requires rem == r * 0x1_0000_0000 + low + bit * 0x8000_0000
    ensures 2 * r + bit >= divisor ==>
      Hi(DivStep(rem, divisor)) == 2 * r + bit - divisor && Lo(DivStep(rem, divisor)) == 2 * low + 1
    ensures 2 * r + bit < divisor ==>
      Hi(DivStep(rem, divisor)) == 2 * r + bit && Lo(DivStep(rem, divisor)) == 2 * low
  {
    var shifted := (2 * r + bit) * 0x1_0000_0000 + 2 * low;
    assert rem * 2 == shifted;
    assert 0 <= shifted < 0x1_0000_0000_0000_0000;
    QuotientIs(shifted, 0x1_0000_0000_0000_0000, 0, shifted);
    QuotientIs(shifted, 0x1_0000_0000, 2 * r + bit, 2 * low);
    if 2 * r + bit >= divisor {
      var joined := (2 * r + bit - divisor) * 0x1_0000_0000 + 2 * low + 1;
      QuotientIs(joined, 0x1_0000_0000, 2 * r + bit - divisor, 2 * low + 1);
    }
  }

  /** One restoring step consumes one dividend bit and produces one quotient bit.  `n2` is the dividend
      prefix with the new bit; the left shift loses nothing because the partial remainder is below 2^31. */
  lemma DivideNextBit(rem: DWord, divisor: Word, n2: nat, q: nat, rest: nat, weight: nat, scale: nat)
    returns (q2: nat)
    requires divisor != 0 && rest < weight && weight * scale == 0x8000_0000 && n2 / 2 < scale
    requires n2 / 2 == q * divisor + Hi(rem) && Hi(rem) < divisor
    requires Lo(rem) == (rest + (if n2 % 2 == 1 then weight else 0)) * scale + q
    ensures n2 == q2 * divisor + Hi(DivStep(rem, divisor))
    ensures Hi(DivStep(rem, divisor)) < divisor
    ensures Lo(DivStep(rem, divisor)) == 2 * (rest * scale) + q2
  {
    hide DivStep;
    var r, bit, low := Hi(rem), n2 % 2, rest * scale + q;
    PartsBelow(n2 / 2, divisor, q, r);
    LowBitsFit(rest, weight, scale, q);
    ScaleFits(weight, scale);
    Distribute(rest, weight, scale);
    DivStepValue(rem, divisor, r, bit, low);
    Reassociate(2, q, divisor);
    Distribute(2 * q, 1, divisor);
    q2 := if 2 * r + bit >= divisor then 2 * q + 1 else 2 * q;
  }

  lemma DivDone(a: Word, divisor: Word)
    requires divisor != 0
    ensures Hi(DivAfter(a, divisor, 32)) == a % divisor
    ensures Lo(DivAfter(a, divisor, 32)) == a / divisor
  {
    var q := DivInvariant(a, divisor, 32);
    assert Upper(a, 0) == a && Lower(a, 0) == 0;
    QuotientIs(a, divisor, q, Hi(DivAfter(a, divisor, 32)));
  }
}
