/** sw/bench/coremark_port/ee_printf.c: the radix printer `number` and its inverse `skip_atoi`.
    Signed arithmetic wraps at 32 bits, as the target's instructions do. */
module Printf {
  import opened Words
  import opened Arithmetic

  /** `int` and `long` are 32 bits wide. */
  type Long = x: int | -0x8000_0000 <= x < 0x8000_0000

  /** The bits of the `type` argument. */
  datatype Flags = Flags(zeroPad: bool, sign: bool, plus: bool, space: bool, left: bool, hexPrep: bool, upperCase: bool)

  const DIGITS: string := "0123456789abcdefghijklmnopqrstuvwxyz"
  const UPPER_DIGITS: string := "0123456789ABCDEFGHIJKLMNOPQRSTUVWXYZ"

  /** The result of converting to `int`. */
  function AsInt(x: int): Long { Signed(ToWord(x)) }

  // ---------------------------------------------------------------- numerals

  /** Base-`base` digit values, least significant first; none for zero. */
  function LowFirst(n: nat, base: nat): (ds: seq<nat>)
    requires base >= 2
    ensures forall k | 0 <= k < |ds| :: ds[k] < base
    decreases n
  {
    if n == 0 then []
    else
      Shrinks(n, base);
      [n % base] + LowFirst(n / base, base)
  }

  lemma Shrinks(n: nat, base: nat)
    requires n > 0 && base >= 2
    ensures 0 <= n / base <= n / 2 < n
  {
    DivMod(n, base);
    if n / base > n / 2 { MulMonotone(2, base, n / base); }
  }

  /** The value of digits, least significant first. */
  function Value(ds: seq<nat>, base: nat): nat {
    if ds == [] then 0 else ds[0] + base * Value(ds[1..], base)
  }

  lemma {:induction false} ValueOfLowFirst(n: nat, base: nat)
    requires base >= 2
    ensures Value(LowFirst(n, base), base) == n
    decreases n
  {
    if n > 0 {
      Shrinks(n, base);
      ValueOfLowFirst(n / base, base);
      DivMod(n, base);
      assert LowFirst(n, base)[1..] == LowFirst(n / base, base);
    }
  }

  /** A number below 2^k has at most k digits. */
  lemma {:induction false} AtMostDigits(n: nat, base: nat, k: nat)
    requires base >= 2 && n < Pow2(k)
    ensures |LowFirst(n, base)| <= k
    decreases k
  {
    if n > 0 {
      Shrinks(n, base);
      AtMostDigits(n / base, base, k - 1);
    }
  }

  function Symbol(d: nat, upper: bool): char
    requires d < 36
  {
    if upper then UPPER_DIGITS[d] else DIGITS[d]
  }

  function Symbols(ds: seq<nat>, upper: bool): (s: string)
    requires forall k | 0 <= k < |ds| :: ds[k] < 36
    ensures |s| == |ds| && forall k | 0 <= k < |s| :: s[k] == Symbol(ds[k], upper)
  {
    seq(|ds|, k requires 0 <= k < |ds| => Symbol(ds[k], upper))
  }

  /** `tmp[0..i]`: zero prints one digit. */
  function Reversed(mag: nat, base: nat, upper: bool): string
    requires 2 <= base <= 36
  {
    if mag == 0 then "0" else Symbols(LowFirst(mag, base), upper)
  }

  function Backwards(s: string): (r: string)
    ensures |r| == |s| && forall k | 0 <= k < |r| :: r[k] == s[|s| - 1 - k]
  {
    seq(|s|, k requires 0 <= k < |s| => s[|s| - 1 - k])
  }

  // ---------------------------------------------------------------- layout

  function Repeat(c: char, n: int): (s: string)
    ensures |s| == (if n > 0 then n else 0) && forall k | 0 <= k < |s| :: s[k] == c
  {
    if n <= 0 then [] else seq(n, _ => c)
  }

  function SignText(num: Long, f: Flags): string {
    if !f.sign then ""
    else if num < 0 then "-"
    else if f.plus then "+"
    else if f.space then " "
    else ""
  }

  function PrefixText(base: int, f: Flags): string {
    if !f.hexPrep then "" else if base == 16 then "0x" else if base == 8 then "0" else ""
  }

  /** What the digits stand for: signed only when asked for, unsigned otherwise. */
  function Magnitude(num: Long, f: Flags): nat {
    if f.sign && num < 0 then -(num as int) else ToWord(num)
  }

  function Max(a: int, b: int): int { if a > b then a else b }

  /** Leading spaces, sign, prefix, and zeros up to the width. */
  function Head(sign: string, prefix: string, pad: int, zeroPad: bool, left: bool): string {
    Repeat(' ', if left || zeroPad then 0 else pad) + sign + prefix + Repeat('0', if zeroPad && !left then pad else 0)
  }

  /** Then zeros up to the precision, the digits, and trailing spaces. */
  function Layout(sign: string, prefix: string, pad: int, zeros: int, low: string, zeroPad: bool, left: bool): string {
    Head(sign, prefix, pad, zeroPad, left) + Repeat('0', zeros) + Backwards(low) + Repeat(' ', if left then pad else 0)
  }

  function Text(num: Long, base: int, size: int, precision: int, f: Flags): string
    requires 2 <= base <= 36
  {
    var low := Reversed(Magnitude(num, f), base, f.upperCase);
    var sign, prefix := SignText(num, f), PrefixText(base, f);
    Layout(sign, prefix, size - |sign| - |prefix| - Max(precision, |low|), precision - |low|, low, f.zeroPad, f.left)
  }

  /** The width of the output is exact: at least `size`, and more only for sign, prefix and digits. */
  lemma TextLength(num: Long, base: int, size: int, precision: int, f: Flags)
    requires 2 <= base <= 36
    ensures |Text(num, base, size, precision, f)|
         == Max(size, |SignText(num, f)| + |PrefixText(base, f)|
                      + Max(precision, |Reversed(Magnitude(num, f), base, f.upperCase)|))
  {
    hide Reversed, SignText, PrefixText, Magnitude, Backwards, Repeat;
  }

  // ---------------------------------------------------------------- reading numerals back

  /** The value of a digit symbol in either case. */
  function SymbolValue(c: char): nat {
    if '0' <= c <= '9' then (c - '0') as nat
    else if 'a' <= c <= 'z' then (c - 'a') as nat + 10
    else if 'A' <= c <= 'Z' then (c - 'A') as nat + 10
    else 0
  }

  lemma LowerReadsBack(d: nat)
    requires d < 36
    ensures SymbolValue(DIGITS[d]) == d && (d < 10 ==> '0' <= DIGITS[d] <= '9')
  {
  }

  lemma UpperReadsBack(d: nat)
    requires d < 36
    ensures SymbolValue(UPPER_DIGITS[d]) == d && (d < 10 ==> '0' <= UPPER_DIGITS[d] <= '9')
  {
  }

  lemma SymbolReadsBack(d: nat, upper: bool)
    requires d < 36
    ensures SymbolValue(Symbol(d, upper)) == d
    ensures d < 10 ==> '0' <= Symbol(d, upper) <= '9'
  {
    hide SymbolValue;
    LowerReadsBack(d);
    UpperReadsBack(d);
  }

  /** The value of a numeral, most significant symbol first. */
  function ReadNumeral(s: string, base: nat): nat {
    if s == "" then 0 else base * ReadNumeral(s[..|s| - 1], base) + SymbolValue(s[|s| - 1])
  }

  lemma {:induction false} ReadsLowFirst(ds: seq<nat>, base: nat, upper: bool)
    requires forall k | 0 <= k < |ds| :: ds[k] < 36
    ensures ReadNumeral(Backwards(Symbols(ds, upper)), base) == Value(ds, base)
    decreases |ds|
  {
    if ds != [] {
      var s := Backwards(Symbols(ds, upper));
      assert s[..|s| - 1] == Backwards(Symbols(ds[1..], upper));
      ReadsLowFirst(ds[1..], base, upper);
      SymbolReadsBack(ds[0], upper);
    }
  }

  /** Zeros in front of a numeral change nothing. */
  lemma {:induction false} LeadingZeros(n: int, s: string, base: nat)
    ensures ReadNumeral(Repeat('0', n) + s, base) == ReadNumeral(s, base)
    decreases |s|, n
  {
    var z := Repeat('0', n);
    if s != "" {
      assert (z + s)[..|z + s| - 1] == z + s[..|s| - 1];
      LeadingZeros(n, s[..|s| - 1], base);
    } else if n > 0 {
      assert z + s == z && z[..|z| - 1] == Repeat('0', n - 1) + "";
      LeadingZeros(n - 1, s, base);
    } else {
      assert z + s == s;
    }
  }

  /** The printed digits, zeros included, evaluate to the magnitude in every base. */
  lemma DigitsEvaluate(mag: nat, base: int, zeros: int, upper: bool)
    requires 2 <= base <= 36
    ensures ReadNumeral(Repeat('0', zeros) + Backwards(Reversed(mag, base, upper)), base) == mag
  {
    LeadingZeros(zeros, Backwards(Reversed(mag, base, upper)), base);
    if mag == 0 {
      var s := Backwards("0");
      assert s[..|s| - 1] == "" && s[0] == '0';
    } else {
      ReadsLowFirst(LowFirst(mag, base), base, upper);
      ValueOfLowFirst(mag, base);
    }
  }

  // ---------------------------------------------------------------- writing into the buffer

  /** `t` written over `s` from position `at`. */
  function Splice(s: string, at: nat, t: string): (r: string)
    requires at + |t| <= |s|
    ensures |r| == |s|
  {
    s[..at] + t + s[at + |t|..]
  }

  lemma SpliceTwice(s: string, at: nat, t: string, u: string)
    requires at + |t| + |u| <= |s|
    ensures Splice(Splice(s, at, t), at + |t|, u) == Splice(s, at, t + u)
  {
  }

  lemma SpliceNothing(s: string, at: nat)
    requires at <= |s|
    ensures Splice(s, at, "") == s
  {
  }

  lemma SpliceOneMore(s: string, at: nat, t: string, c: char, now: string)
    requires at + |t| < |s| && now == Splice(s, at, t)[at + |t| := c]
    ensures now == Splice(s, at, t + [c])
  {
  }

  lemma NonPositive(c: char, n: int)
    ensures n <= 0 ==> Repeat(c, n) == Repeat(c, 0) == ""
  {
  }

  lemma RepeatOneMore(c: char, n: nat)
    ensures Repeat(c, n + 1) == Repeat(c, n) + [c]
  {
  }

  /** `*str++ = c` while `left-- > 0`; `left` ends negative, so a second such loop writes nothing. */
  method Pad(buf: array<char>, str: nat, c: char, size: int) returns (end: nat, left: int)
    requires str + |Repeat(c, size)| <= buf.Length
    modifies buf
    ensures end == str + |Repeat(c, size)| && left < 0
    ensures buf[..] == Splice(old(buf[..]), str, Repeat(c, size))
  {
    hide Splice, Repeat;
    ghost var start := buf[..];
    SpliceNothing(start, str);
    end, left := str, size;
    while left > 0
      invariant str <= end && end - str == (if size > 0 then size - left else 0)
      invariant if size > 0 then 0 <= left else left == size
      invariant buf[..] == Splice(start, str, Repeat(c, end - str))
      decreases left
    {
      ghost var before := buf[..];
      buf[end] := c;
      assert buf[..] == before[end := c];
      SpliceOneMore(start, str, Repeat(c, end - str), c, buf[..]);
      RepeatOneMore(c, end - str);
      end, left := end + 1, left - 1;
    }
    NonPositive(c, size);
    left := left - 1;
  }

  method Put(buf: array<char>, str: nat, c: char) returns (end: nat)
    requires str < buf.Length
    modifies buf
    ensures end == str + 1 && buf[..] == Splice(old(buf[..]), str, [c])
  {
    buf[str] := c;
    end := str + 1;
  }

  /** `written` and the digits still to come make up the numeral of `value`. */
  predicate Converting(written: string, num: nat, value: nat, base: nat, upper: bool)
    requires 2 <= base <= 36
  {
    written + Symbols(LowFirst(num, base), upper) == Symbols(LowFirst(value, base), upper)
  }

  lemma ConvertBegins(value: nat, base: nat, upper: bool)
    requires 2 <= base <= 36
    ensures Converting("", value, value, base, upper)
  {
    assert "" + Symbols(LowFirst(value, base), upper) == Symbols(LowFirst(value, base), upper);
  }

  lemma ConvertStep(written: string, num: nat, value: Word, base: nat, upper: bool)
    requires num > 0 && 2 <= base <= 36 && Converting(written, num, value, base, upper)
    ensures 0 <= num / base < num && 0 <= num % base < 36 && |written| < 32
    ensures Converting(written + [Symbol(num % base, upper)], num / base, value, base, upper)
  {
    Shrinks(num, base);
    DivMod(num, base);
    Pow2Of31And32();
    AtMostDigits(value, base, 32);
    var rest := LowFirst(num / base, base);
    assert Symbols(LowFirst(num, base), upper) == [Symbol(num % base, upper)] + Symbols(rest, upper);
  }

  lemma ConvertEnds(written: string, value: Word, base: nat, upper: bool)
    requires 2 <= base <= 36 && value > 0 && Converting(written, 0, value, base, upper)
    ensures written == Reversed(value, base, upper) && |written| <= 32
  {
    Pow2Of31And32();
    AtMostDigits(value, base, 32);
    assert written + [] == written;
  }

  /** The conversion loop, least significant digit first. */
  method Convert(tmp: array<char>, value: Word, base: int, upper: bool) returns (i: nat)
    requires tmp.Length == 66 && 2 <= base <= 36
    modifies tmp
    ensures i <= 32 && tmp[..i] == Reversed(value, base, upper)
  {
    hide Symbol, Converting;
    i := 0;
    if value == 0 {
      tmp[i] := '0';
      i := i + 1;
    } else {
      var num: nat := value;
      ConvertBegins(value, base, upper);
      assert tmp[..i] == "";
      while num != 0
        invariant i <= 32 && Converting(tmp[..i], num, value, base, upper)
        decreases num
      {
        ghost var written := tmp[..i];
        ConvertStep(written, num, value, base, upper);
        tmp[i] := Symbol(num % base, upper);
        assert tmp[..i + 1] == written + [Symbol(num % base, upper)];
        i, num := i + 1, num / base;
      }
      ConvertEnds(tmp[..i], value, base, upper);
    }
  }

  /** `while (i-- > 0) *str++ = tmp[i]`. */
  method PutBackwards(buf: array<char>, str: nat, tmp: array<char>, count: nat) returns (end: nat)
    requires buf != tmp && count <= tmp.Length && str + count <= buf.Length
    modifies buf
    ensures end == str + count && buf[..] == Splice(old(buf[..]), str, Backwards(tmp[..count]))
  {
    hide Splice, Backwards;
    ghost var start, text := buf[..], Backwards(tmp[..count]);
    SpliceNothing(start, str);
    end := str;
    var i := count;
    while i > 0
      invariant 0 <= i <= count && end == str + (count - i)
      invariant tmp[..count] == old(tmp[..count])
      invariant buf[..] == Splice(start, str, text[..count - i])
    {
      i := i - 1;
      ghost var before := buf[..];
      buf[end] := tmp[i];
      assert buf[..] == before[end := tmp[i]];
      SpliceOneMore(start, str, text[..count - i - 1], tmp[i], buf[..]);
      assert text[..count - i] == text[..count - i - 1] + [tmp[i]];
      end := end + 1;
    }
    assert text[..count] == text;
  }

  /** The pointer returned: null for an unsupported base. */
  datatype Pointer = Null | At(pos: nat)

  /** The caller must leave room for the text. */
  predicate HasRoom(length: nat, str: nat, num: Long, base: int, size: int, precision: int, f: Flags) {
    2 <= base <= 36 ==> str + |Text(num, base, size, precision, f)| <= length
  }

  function SignOf(sign: char): string { if sign == '\0' then "" else [sign] }

  /** The padding in front, the sign and the prefix; `left` is what the width still wants. */
  method PutHead(buf: array<char>, str: nat, sign: char, base: int, f: Flags, zeroPad: bool, pad: int)
    returns (pos: nat, left: int)
    requires str + |Head(SignOf(sign), PrefixText(base, f), pad, zeroPad, f.left)| <= buf.Length
    modifies buf
    ensures var head := Head(SignOf(sign), PrefixText(base, f), pad, zeroPad, f.left);
            pos == str + |head| && buf[..] == Splice(old(buf[..]), str, head)
    ensures if f.left then left == pad else left < 0
  {
    hide Repeat, Splice;
    ghost var start, text := buf[..], "";
    SpliceNothing(start, str);
    pos, left := str, pad;
    if !zeroPad && !f.left {
      pos, left := Pad(buf, pos, ' ', left);
      text := Repeat(' ', pad);
    }
    if sign != '\0' {
      pos := Put(buf, pos, sign);
      SpliceTwice(start, str, text, [sign]);
      text := text + [sign];
    }
    if f.hexPrep {
      if base == 8 {
        pos := Put(buf, pos, '0');
        SpliceTwice(start, str, text, "0");
        text := text + "0";
      } else if base == 16 {
        pos := Put(buf, pos, '0');
        pos := Put(buf, pos, DIGITS[33]);
        SpliceTwice(start, str, text, "0");
        SpliceTwice(start, str, text + "0", [DIGITS[33]]);
        assert text + "0" + [DIGITS[33]] == text + "0x";
        text := text + "0x";
      }
    }
    ghost var front := Repeat(' ', if f.left || zeroPad then 0 else pad);
    assert text == front + SignOf(sign) + PrefixText(base, f);
    if !f.left {
      ghost var filler := Repeat(if zeroPad then '0' else ' ', left);
      pos, left := Pad(buf, pos, if zeroPad then '0' else ' ', left);
      SpliceTwice(start, str, text, filler);
      assert filler == Repeat('0', if zeroPad then pad else 0);
      text := text + filler;
    } else {
      assert text + Repeat('0', 0) == text;
    }
  }

  /** The zeros of the precision, the digits and the trailing padding. */
  method PutDigits(buf: array<char>, str: nat, tmp: array<char>, count: nat, zeros: int, left: int)
    returns (pos: nat)
    requires buf != tmp && count <= tmp.Length
    requires str + |Repeat('0', zeros)| + count + |Repeat(' ', left)| <= buf.Length
    modifies buf
    ensures pos == str + |Repeat('0', zeros)| + count + |Repeat(' ', left)|
    ensures buf[..] == Splice(old(buf[..]), str, Repeat('0', zeros) + Backwards(tmp[..count]) + Repeat(' ', left))
  {
    hide Repeat, Splice;
    ghost var start, low := buf[..], tmp[..count];
    var rest: int;
    pos, rest := Pad(buf, str, '0', zeros);
    pos := PutBackwards(buf, pos, tmp, count);
    assert tmp[..count] == low;
    SpliceTwice(start, str, Repeat('0', zeros), Backwards(low));
    pos, rest := Pad(buf, pos, ' ', left);
    SpliceTwice(start, str, Repeat('0', zeros) + Backwards(low), Repeat(' ', left));
  }

  /** The sign character, the value whose bits are converted, and the width left for the digits. */
  method Prepare(num: Long, base: int, size: int, f: Flags) returns (sign: char, n: Long, left: int)
    ensures SignOf(sign) == SignText(num, f) && ToWord(n) == Magnitude(num, f)
    ensures left == size - |SignText(num, f)| - |PrefixText(base, f)|
  {
    sign, n, left := '\0', num, size;
    NegatedMagnitude(num);
    if f.sign {
      if num < 0 { sign, n, left := '-', AsInt(-(num as int)), left - 1; }
      else if f.plus { sign, left := '+', left - 1; }
      else if f.space { sign, left := ' ', left - 1; }
    }
    if f.hexPrep {
      if base == 16 { left := left - 2; } else if base == 8 { left := left - 1; }
    }
  }

  /** Everything that is written, from the converted digits in `tmp`. */
  method Emit(buf: array<char>, str: nat, tmp: array<char>, count: nat, sign: char, base: int, f: Flags,
              pad: int, zeros: int) returns (pos: nat)
    requires buf != tmp && count <= tmp.Length
    requires str + |Layout(SignOf(sign), PrefixText(base, f), pad, zeros, tmp[..count], f.zeroPad, f.left)| <= buf.Length
    modifies buf
    ensures var text := Layout(SignOf(sign), PrefixText(base, f), pad, zeros, old(tmp[..count]), f.zeroPad, f.left);
            pos == str + |text| && buf[..] == Splice(old(buf[..]), str, text)
  {
    hide Repeat, Splice, Head, SignOf, PrefixText;
    var zeroPad := f.zeroPad && !f.left;
    SameHead(SignOf(sign), PrefixText(base, f), pad, f);
    ghost var start, low := buf[..], tmp[..count];
    ghost var head := Head(SignOf(sign), PrefixText(base, f), pad, zeroPad, f.left);
    ghost var tail := Repeat('0', zeros) + Backwards(low) + Repeat(' ', if f.left then pad else 0);
    assert Layout(SignOf(sign), PrefixText(base, f), pad, zeros, low, f.zeroPad, f.left) == head + tail;
    var left: int;
    pos, left := PutHead(buf, str, sign, base, f, zeroPad, pad);
    assert tmp[..count] == low;
    NoPadding(left, if f.left then pad else 0);
    pos := PutDigits(buf, pos, tmp, count, zeros, left);
    SpliceTwice(start, str, head, tail);
  }

  lemma NoPadding(m: int, n: int)
    requires m == n || (m <= 0 && n <= 0)
    ensures Repeat(' ', m) == Repeat(' ', n)
  {
  }

  method Number(buf: array<char>, str: nat, num: Long, base: int, size: int, precision: int, f: Flags)
    returns (end: Pointer)
    requires HasRoom(buf.Length, str, num, base, size, precision, f)
    modifies buf
    ensures end == Null <==> base < 2 || base > 36
    ensures end == Null ==> buf[..] == old(buf[..])
    ensures end != Null ==>
      && end == At(str + |Text(num, base, size, precision, f)|)
      && buf[..] == Splice(old(buf[..]), str, Text(num, base, size, precision, f))
  {
    hide Layout, Reversed, Splice, SignOf, SignText, PrefixText, Magnitude, ToWord;
    if base < 2 || base > 36 { return Null; }
    var sign, n, left := Prepare(num, base, size, f);
    var tmp := new char[66];
    var i := Convert(tmp, ToWord(n), base, f.upperCase);
    var digits := if i > precision then i else precision;
    SameZeros(SignText(num, f), PrefixText(base, f), left - digits, precision, tmp[..i], f);
    var pos := Emit(buf, str, tmp, i, sign, base, f, left - digits, digits - i);
    end := At(pos);
  }

  /** No zeros are wanted when the precision is below the digit count. */
  lemma SameZeros(sign: string, prefix: string, pad: int, precision: int, low: string, f: Flags)
    ensures Layout(sign, prefix, pad, Max(precision, |low|) - |low|, low, f.zeroPad, f.left)
         == Layout(sign, prefix, pad, precision - |low|, low, f.zeroPad, f.left)
  {
    hide Head, Backwards;
  }

  /** LEFT switches ZEROPAD off. */
  lemma SameHead(sign: string, prefix: string, pad: int, f: Flags)
    ensures Head(sign, prefix, pad, f.zeroPad && !f.left, f.left) == Head(sign, prefix, pad, f.zeroPad, f.left)
  {
  }

  lemma NegatedMagnitude(num: Long)
    ensures num < 0 ==> ToWord(AsInt(-(num as int))) == -(num as int)
  {
  }

  // ---------------------------------------------------------------- skip_atoi

  predicate IsDigit(c: char) { '0' <= c <= '9' }

  /** How many digits a string starts with. */
  function DigitRun(s: string): (n: nat)
    ensures n <= |s|
  {
    if s == "" || !IsDigit(s[0]) then 0 else 1 + DigitRun(s[1..])
  }

  lemma {:induction false} DigitRunIs(s: string, n: nat)
    requires n <= |s| && (forall k | 0 <= k < n :: IsDigit(s[k])) && (n < |s| ==> !IsDigit(s[n]))
    ensures DigitRun(s) == n
    decreases n
  {
    if n > 0 {
      assert forall k | 0 <= k < n - 1 :: s[1..][k] == s[k + 1];
      DigitRunIs(s[1..], n - 1);
    }
  }

  lemma WrapsBy(x: int, k: int)
    ensures AsInt(x + k * 0x1_0000_0000) == AsInt(x)
  {
  }

  /** An `int` differs from the unbounded value by a multiple of 2^32. */
  lemma AsIntIs(x: int) returns (k: int)
    ensures AsInt(x) == x + k * 0x1_0000_0000
  {
    k := -(x / 0x1_0000_0000) - (if x % 0x1_0000_0000 >= 0x8000_0000 then 1 else 0);
  }

  /** `i * 10 + c - '0'` evaluated with wrap-around at every operation. */
  lemma AccumulateDigit(v: nat, c: char)
    requires IsDigit(c)
    ensures AsInt(AsInt(AsInt(AsInt(v) * 10) + c as int) - '0' as int) == AsInt(10 * v + SymbolValue(c))
  {
    var k1 := AsIntIs(v);
    var k2 := AsIntIs(AsInt(v) * 10);
    var k3 := AsIntIs(AsInt(AsInt(v) * 10) + c as int);
    WrapsBy(10 * v + SymbolValue(c), 10 * k1 + k2 + k3);
  }

  /** Reads digits up to the first other character; `s` must hold one, as every C string does. */
  method SkipAtoi(s: array<char>, str: nat) returns (i: Long, end: nat)
    requires exists k :: str <= k < s.Length && !IsDigit(s[k])
    ensures end == str + DigitRun(s[str..]) && end < s.Length && !IsDigit(s[end])
    ensures i == AsInt(ReadNumeral(s[str..end], 10))
  {
    hide AsInt, SymbolValue, IsDigit;
    end := str;
    i := 0;
    ZeroIsZero();
    while IsDigit(s[end])
      invariant str <= end < s.Length && (forall k | str <= k < end :: IsDigit(s[k]))
      invariant i == AsInt(ReadNumeral(s[str..end], 10))
      decreases s.Length - end
    {
      ghost var before, after := s[str..end], s[str..end + 1];
      assert after[..|after| - 1] == before && after[|after| - 1] == s[end];
      AccumulateDigit(ReadNumeral(before, 10), s[end]);
      i := AsInt(AsInt(AsInt(i * 10) + s[end] as int) - '0' as int);
      end := end + 1;
    }
    DigitRunIs(s[str..], end - str);
  }

  lemma ZeroIsZero()
    ensures AsInt(ReadNumeral("", 10)) == 0
  {
  }

  // ---------------------------------------------------------------- main results

  function Power(base: nat, k: nat): nat { if k == 0 then 1 else base * Power(base, k - 1) }

  /** The digits are no more than the number needs. */
  lemma {:induction false} DigitCount(n: nat, base: nat)
    requires base >= 2
    ensures n < Power(base, |LowFirst(n, base)|)
    ensures n > 0 ==> |LowFirst(n, base)| > 0 && Power(base, |LowFirst(n, base)| - 1) <= n
    decreases n
  {
    if n > 0 {
      Shrinks(n, base);
      DigitCount(n / base, base);
      assert |LowFirst(n, base)| == 1 + |LowFirst(n / base, base)|;
      hide LowFirst, Power;
      PowerStep(n, base, |LowFirst(n / base, base)|);
    }
  }

  /** One digit more for one division. */
  lemma PowerStep(n: nat, base: nat, len: nat)
    requires n > 0 && base >= 2 && 0 <= n / base < Power(base, len)
    requires n / base > 0 ==> len > 0 && Power(base, len - 1) <= n / base
    requires n / base == 0 ==> len == 0
    ensures n < Power(base, len + 1) && Power(base, len) <= n
  {
    var q := n / base;
    DivMod(n, base);
    assert Power(base, len + 1) == base * Power(base, len);
    MulMonotone(q + 1, Power(base, len), base);
    Distribute(q, 1, base);
    if q > 0 {
      assert Power(base, len) == base * Power(base, len - 1);
      MulMonotone(Power(base, len - 1), q, base);
    }
  }

  /** The symbols a numeral is written with. */
  predicate NumeralSymbol(c: char, upper: bool) {
    '0' <= c <= '9' || (if upper then 'A' <= c <= 'Z' else 'a' <= c <= 'z')
  }

  lemma SymbolCase(d: nat, upper: bool)
    requires d < 36
    ensures NumeralSymbol(Symbol(d, upper), upper)
  {
    if upper { UpperCase(d); } else { LowerCase(d); }
  }

  lemma UpperCase(d: nat)
    requires d < 36
    ensures NumeralSymbol(UPPER_DIGITS[d], true)
  {
  }

  lemma LowerCase(d: nat)
    requires d < 36
    ensures NumeralSymbol(DIGITS[d], false)
  {
  }

  lemma ReversedSymbols(mag: nat, base: nat, upper: bool)
    requires 2 <= base <= 36
    ensures forall c | c in Reversed(mag, base, upper) :: NumeralSymbol(c, upper)
  {
    hide Symbol, NumeralSymbol;
    SymbolCase(0, upper);
    assert Symbol(0, upper) == '0' by { FirstSymbol(upper); }
    var ds := LowFirst(mag, base);
    forall k | 0 <= k < |ds|
      ensures NumeralSymbol(Symbol(ds[k], upper), upper)
    {
      SymbolCase(ds[k], upper);
    }
  }

  lemma FirstSymbol(upper: bool)
    ensures Symbol(0, upper) == '0'
  {
  }

  /** The sign and the prefix, spelled out. */
  predicate SignIs(sign: string, num: Long, f: Flags) {
    && (sign == "-" <==> f.sign && num < 0)
    && (sign == "+" <==> f.sign && f.plus && num >= 0)
    && (sign == " " <==> f.sign && f.space && !f.plus && num >= 0)
    && (sign == "" || sign == "-" || sign == "+" || sign == " ")
  }

  predicate PrefixIs(prefix: string, base: int, f: Flags) {
    && (prefix == "0x" <==> f.hexPrep && base == 16)
    && (prefix == "0" <==> f.hexPrep && base == 8)
    && (prefix == "" || prefix == "0x" || prefix == "0")
  }

  lemma FrontIs(num: Long, base: int, f: Flags)
    ensures SignIs(SignText(num, f), num, f) && PrefixIs(PrefixText(base, f), base, f)
    ensures Magnitude(num, f) == if num >= 0 then num else if f.sign then -(num as int) else num + 0x1_0000_0000
  {
  }

  /** Every printed text, character by character: spaces, the sign, the prefix, a numeral that evaluates to the
      magnitude in symbols of the case asked for, and spaces.  `digits` is the number of digits the magnitude
      needs; the numeral has that many or the precision, and what the width still wants goes to leading zeros
      under ZEROPAD, to trailing spaces under LEFT, and to leading spaces otherwise. */
  lemma PrintedValue(num: Long, base: int, size: int, precision: int, f: Flags)
    returns (lead: string, sign: string, prefix: string, numeral: string, trail: string, digits: nat)
    requires 2 <= base <= 36
    ensures Text(num, base, size, precision, f) == lead + sign + prefix + numeral + trail
    ensures SignIs(sign, num, f) && PrefixIs(prefix, base, f)
    ensures var mag := if num >= 0 then num else if f.sign then -(num as int) else num + 0x1_0000_0000;
            && ReadNumeral(numeral, base) == mag
            && 1 <= digits && mag < Power(base, digits) && (digits > 1 ==> Power(base, digits - 1) <= mag)
    ensures forall c | c in numeral :: NumeralSymbol(c, f.upperCase)
    ensures forall c | c in lead || c in trail :: c == ' '
    ensures var gap := Max(0, size - |sign| - |prefix| - Max(precision, digits));
            && |lead| == (if f.left || f.zeroPad then 0 else gap)
            && |numeral| == Max(precision, digits) + (if f.zeroPad && !f.left then gap else 0)
            && |trail| == (if f.left then gap else 0)
  {
    hide SignText, PrefixText, Magnitude, ReadNumeral, Reversed, Repeat, Backwards, Layout, Head, SignIs, PrefixIs,
         NumeralSymbol, Power;
    var mag := Magnitude(num, f);
    var low := Reversed(mag, base, f.upperCase);
    FrontIs(num, base, f);
    ReversedLength(mag, base, f.upperCase);
    sign, prefix, digits := SignText(num, f), PrefixText(base, f), |low|;
    var pad := size - |sign| - |prefix| - Max(precision, |low|);
    var zeros, fill := precision - |low|, if f.zeroPad && !f.left then pad else 0;
    lead := Repeat(' ', if f.left || f.zeroPad then 0 else pad);
    trail := Repeat(' ', if f.left then pad else 0);
    numeral := Repeat('0', fill) + (Repeat('0', zeros) + Backwards(low));
    LayoutSplits(sign, prefix, pad, zeros, low, f);
    LeadingZeros(fill, Repeat('0', zeros) + Backwards(low), base);
    DigitsEvaluate(mag, base, zeros, f.upperCase);
    ReversedSymbols(mag, base, f.upperCase);
    ZeroIsSymbol(f.upperCase);
  }

  lemma ZeroIsSymbol(upper: bool)
    ensures NumeralSymbol('0', upper)
  {
  }

  lemma ReversedLength(mag: nat, base: nat, upper: bool)
    requires 2 <= base <= 36
    ensures var d := |Reversed(mag, base, upper)|;
            d >= 1 && mag < Power(base, d) && (d > 1 ==> Power(base, d - 1) <= mag)
  {
    DigitCount(mag, base);
  }

  lemma LayoutSplits(sign: string, prefix: string, pad: int, zeros: int, low: string, f: Flags)
    ensures Layout(sign, prefix, pad, zeros, low, f.zeroPad, f.left)
         == Repeat(' ', if f.left || f.zeroPad then 0 else pad) + sign + prefix
            + (Repeat('0', if f.zeroPad && !f.left then pad else 0) + (Repeat('0', zeros) + Backwards(low)))
            + Repeat(' ', if f.left then pad else 0)
  {
    hide Repeat, Backwards;
  }

  const NO_FLAGS: Flags := Flags(false, false, false, false, false, false, false)

  lemma DecimalDigits(mag: nat)
    ensures forall k | 0 <= k < |Reversed(mag, 10, false)| :: IsDigit(Reversed(mag, 10, false)[k])
  {
    if mag > 0 {
      var ds := LowFirst(mag, 10);
      forall k | 0 <= k < |ds|
        ensures IsDigit(Symbols(ds, false)[k])
      {
        SymbolReadsBack(ds[k], false);
      }
    }
  }

  /** Without flags or padding only the numeral is printed. */
  lemma PlainText(num: Long, size: int, precision: int)
    requires size <= Max(precision, |Reversed(ToWord(num), 10, false)|)
    ensures var low := Reversed(ToWord(num), 10, false);
            Text(num, 10, size, precision, NO_FLAGS) == Repeat('0', precision - |low|) + Backwards(low)
  {
    hide Reversed, ToWord, Backwards;
  }

  lemma PlainDigits(mag: nat, zeros: int)
    ensures forall c | c in Repeat('0', zeros) + Backwards(Reversed(mag, 10, false)) :: IsDigit(c)
  {
    hide Reversed, IsDigit;
    DecimalDigits(mag);
    ZeroIsDigit();
  }

  /** What `number` prints in base 10 without flags or padding, `skip_atoi` reads back, whatever follows.
      A negative number prints as unsigned and wraps back. */
  lemma DecimalRoundTrip(num: Long, size: int, precision: int, rest: string)
    requires size <= Max(precision, |Reversed(ToWord(num), 10, false)|)
    requires rest != "" && !IsDigit(rest[0])
    ensures var text := Text(num, 10, size, precision, NO_FLAGS);
            && DigitRun(text + rest) == |text|
            && AsInt(ReadNumeral((text + rest)[..|text|], 10)) == num
  {
    hide Reversed, ReadNumeral, IsDigit, DigitRun, ToWord, AsInt, Text, Repeat, Backwards;
    var text, zeros := Text(num, 10, size, precision, NO_FLAGS), precision - |Reversed(ToWord(num), 10, false)|;
    PlainText(num, size, precision);
    PlainDigits(ToWord(num), zeros);
    DigitsEvaluate(ToWord(num), 10, zeros, false);
    forall k | 0 <= k < |text|
      ensures IsDigit((text + rest)[k])
    {
      assert text[k] in text;
    }
    DigitRunIs(text + rest, |text|);
    assert (text + rest)[..|text|] == text;
    WrapsBack(num);
  }

  lemma WrapsBack(num: Long)
    ensures AsInt(ToWord(num)) == num
  {
  }

  lemma ZeroIsDigit()
    ensures IsDigit('0')
  {
  }
}
