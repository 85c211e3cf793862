/** The in-place number writers: decimal through a local buffer and hexadecimal into the target, two digits a step. */
module NumberWriters {
  import opened Bits

  function Pow(base: nat, k: nat): nat {
    if k == 0 then 1 else base * Pow(base, k - 1)
  }

  const DIGITS: string := "0123456789ABCDEF"

  function Digit(d: nat): char
    requires d < 16
  {
    DIGITS[d]
  }

  function DigitValue(c: char): nat {
    if '0' <= c <= '9' then (c - '0') as nat
    else if 'A' <= c <= 'F' then (c - 'A') as nat + 10
    else 0
  }

  lemma DigitIs(d: nat)
    requires d < 16
    ensures DigitValue(Digit(d)) == d && (Digit(d) == '0' <==> d == 0) && (d < 10 ==> '0' <= Digit(d) <= '9')
  {
    assert DIGITS[0] == '0' && DIGITS[1] == '1' && DIGITS[2] == '2' && DIGITS[3] == '3' && DIGITS[4] == '4'
           && DIGITS[5] == '5';
    assert DIGITS[6] == '6' && DIGITS[7] == '7' && DIGITS[8] == '8' && DIGITS[9] == '9' && DIGITS[10] == 'A'
           && DIGITS[11] == 'B';
    assert DIGITS[12] == 'C' && DIGITS[13] == 'D' && DIGITS[14] == 'E' && DIGITS[15] == 'F';
  }

  /** Reading a text of digits in a base. */
  function Value(base: nat, text: string): nat {
    if text == "" then 0 else Value(base, text[..|text| - 1]) * base + DigitValue(text[|text| - 1])
  }

  /** The lowest `w` digits of `n`. */
  function Text(base: nat, n: nat, w: nat): (t: string)
    requires 2 <= base <= 16
    ensures |t| == w
  {
    if w == 0 then "" else Text(base, n / base, w - 1) + [Digit(n % base)]
  }

  /** How many digits `n` has in a base; zero has one. */
  function Length(base: nat, n: nat): (w: nat)
    requires 2 <= base <= 16
    ensures w >= 1
  {
    if n < base then 1 else 1 + Length(base, n / base)
  }

  // Reading back, and what the length is.

  /** Reading a text of enough digits gives the number. */
  lemma {:induction false} TextReadsBack(base: nat, n: nat, w: nat)
    requires 2 <= base <= 16 && n < Pow(base, w)
    ensures Value(base, Text(base, n, w)) == n
  {
    if w == 0 {
      assert Pow(base, 0) == 1;
    } else {
      assert Pow(base, w) == base * Pow(base, w - 1);
      hide *;
      DivideBound(n, base, Pow(base, w - 1));
      TextReadsBack(base, n / base, w - 1);
      DigitIs(n % base);
      LastDigit(base, n, w);
      DivMod(n, base);
    }
  }

  lemma DivMod(n: nat, p: nat)
    requires p > 0
    ensures n / p * p + n % p == n
  {
  }

  lemma LastDigit(base: nat, n: nat, w: nat)
    requires 2 <= base <= 16 && w > 0
    ensures Value(base, Text(base, n, w)) == Value(base, Text(base, n / base, w - 1)) * base
            + DigitValue(Digit(n % base))
  {
    hide Digit, DigitValue;
    var t := Text(base, n, w);
    assert t[..|t| - 1] == Text(base, n / base, w - 1);
  }

  lemma DivideBound(n: nat, base: nat, p: nat)
    requires base > 0
    ensures n < base * p <==> n / base < p
  {
    var q := n / base;
    assert n == q * base + n % base;
    assert (q + 1) * base == q * base + base;
    ProductMono(p, q, base);
    ProductMono(q + 1, p, base);
  }

  /** The length is the least number of digits, at least one, that hold the number. */
  lemma {:induction false} LengthIs(base: nat, n: nat)
    requires 2 <= base <= 16
    ensures n < Pow(base, Length(base, n))
    ensures Length(base, n) > 1 ==> n >= Pow(base, Length(base, n) - 1)
  {
    var w := Length(base, n);
    if n < base {
      assert Pow(base, 1) == base * Pow(base, 0) == base;
    } else {
      LengthIs(base, n / base);
      DivideBound(n, base, Pow(base, w - 1));
      if w > 2 { DivideBound(n, base, Pow(base, w - 2)); }
      assert Pow(base, 1) == base * Pow(base, 0) == base;
    }
  }

  lemma {:induction false} PowMono(base: nat, a: nat, b: nat)
    requires base >= 2 && a <= b
    ensures 1 <= Pow(base, a) <= Pow(base, b)
  {
    if a < b {
      PowMono(base, a, b - 1);
    } else if a > 0 {
      PowMono(base, a - 1, a - 1);
    }
  }

  lemma LengthUnique(base: nat, n: nat, w: nat)
    requires 2 <= base <= 16 && w >= 1 && n < Pow(base, w) && (w > 1 ==> n >= Pow(base, w - 1))
    ensures Length(base, n) == w
  {
    LengthIs(base, n);
    var l := Length(base, n);
    if l < w { PowMono(base, l, w - 1); }
    if w < l { PowMono(base, w, l - 1); }
  }

  /** The digit in column `w`, counted from the right. */
  function DigitAt(base: nat, n: nat, w: nat): char
    requires 2 <= base <= 16
  {
    PowUp(base, w);
    Digit(n / Pow(base, w) % base)
  }

  /** Texts grow at the front. */
  lemma {:induction false} TextFront(base: nat, n: nat, w: nat)
    requires 2 <= base <= 16
    ensures Text(base, n, w + 1) == [DigitAt(base, n, w)] + Text(base, n, w)
  {
    hide *;
    if w == 0 {
      TextFrontBase(base, n);
    } else {
      DigitAtStep(base, n, w);
      TextUnfolds(base, n, w);
      TextUnfolds(base, n, w + 1);
      TextFront(base, n / base, w - 1);
      Associate([DigitAt(base, n, w)], Text(base, n / base, w - 1), [Digit(n % base)]);
    }
  }

  lemma Associate(a: string, b: string, c: string)
    ensures (a + b) + c == a + (b + c)
  {
  }

  lemma TextFrontBase(base: nat, n: nat)
    requires 2 <= base <= 16
    ensures Text(base, n, 1) == [DigitAt(base, n, 0)] + Text(base, n, 0)
  {
    hide Digit;
    assert Pow(base, 0) == 1;
    assert Text(base, n, 1) == Text(base, n / base, 0) + [Digit(n % base)];
  }

  lemma DigitAtStep(base: nat, n: nat, w: nat)
    requires 2 <= base <= 16 && w > 0
    ensures DigitAt(base, n, w) == DigitAt(base, n / base, w - 1)
  {
    hide Digit;
    FrontDigit(base, n, w);
  }

  lemma DigitAtIs(base: nat, n: nat, w: nat)
    requires 2 <= base <= 16
    ensures Pow(base, w) > 0 && DigitAt(base, n, w) == Digit(n / Pow(base, w) % base)
  {
    hide Digit, Pow;
    PowUp(base, w);
  }

  lemma FrontDigit(base: nat, n: nat, w: nat)
    requires base > 0 && w > 0
    ensures Pow(base, w - 1) > 0 && Pow(base, w) > 0 && n / Pow(base, w) == n / base / Pow(base, w - 1)
  {
    PowUp(base, w - 1);
    DivideTwice(n, base, Pow(base, w - 1));
  }

  lemma TextUnfolds(base: nat, n: nat, w: nat)
    requires 2 <= base <= 16 && w > 0
    ensures Text(base, n, w) == Text(base, n / base, w - 1) + [Digit(n % base)]
  {
  }

  lemma DivideTwice(n: nat, a: nat, b: nat)
    requires a > 0 && b > 0
    ensures a * b > 0 && n / (a * b) == n / a / b
  {
    var q := n / a / b;
    var r := n / a % b;
    assert n / a == q * b + r;
    assert n == (q * b + r) * a + n % a;
    assert (q * b + r) * a == q * (a * b) + r * a;
    ProductMono(r + 1, b, a);
    assert (r + 1) * a == r * a + a;
    QuotientIs(n, q, r * a + n % a, a * b);
  }

  /** Padding: one more digit than needed is a zero in front. */
  lemma TextPads(base: nat, n: nat, w: nat)
    requires 2 <= base <= 16 && n < Pow(base, w)
    ensures Text(base, n, w + 1) == "0" + Text(base, n, w)
  {
    hide Digit, Text, Pow;
    TextFront(base, n, w);
    DigitAtIs(base, n, w);
    QuotientIs(n, 0, n, Pow(base, w));
    assert 0 % base == 0;
    DigitIs(0);
  }

  // write_dec_unsafe.

  /** The table of digit pairs: those of k are at 2k and 2k + 1. */
  function Pairs(base: nat): (lut: string)
    requires 2 <= base <= 16
    ensures |lut| == 2 * base * base
  {
    seq(2 * base * base, (i: nat) requires i < 2 * base * base => PairDigit(base, i))
  }

  function PairDigit(base: nat, i: nat): char
    requires 2 <= base <= 16
  {
    if i % 2 == 0 then Digit(i / 2 / base % base) else Digit(i / 2 % base)
  }

  const BUF_LEN: int := 30

  /** The number taken off by the steps made so far, and what they have written. */
  ghost predicate DecWritten(number: nat, rest: nat, buf: seq<char>, i: int) {
    && |buf| == BUF_LEN && 0 <= i <= BUF_LEN
    && Pow(10, BUF_LEN - i) > 0 && rest == number / Pow(10, BUF_LEN - i)
    && buf[i..] == Text(10, number, BUF_LEN - i)
  }

  lemma DecStep(number: nat, rest: nat, buf: seq<char>, i: int, next: seq<char>)
    requires DecWritten(number, rest, buf, i) && i >= 2
    requires |next| == BUF_LEN && next[i..] == buf[i..]
    requires next[i - 1] == Digit(rest % 10) && next[i - 2] == Digit(rest / 10 % 10)
    ensures DecWritten(number, rest / 100, next, i - 2)
  {
    hide Digit, Text, Pow;
    var w := BUF_LEN - i;
    TextFront(10, number, w);
    TextFront(10, number, w + 1);
    DigitAtIs(10, number, w);
    DigitAtIs(10, number, w + 1);
    hide DigitAt;
    PowUp(10, w);
    DivideTwice(number, Pow(10, w), 10);
    DivideTwice(number, Pow(10, w + 1), 10);
    DivideTwice(rest, 10, 10);
    assert next[i - 2..] == [next[i - 2], next[i - 1]] + next[i..];
  }

  lemma PowUp(base: nat, w: nat)
    requires base > 0
    ensures Pow(base, w) > 0 && Pow(base, w + 1) == Pow(base, w) * base > 0
            && Pow(base, w + 2) == Pow(base, w + 1) * base > 0
  {
    if w > 0 { PowUp(base, w - 1); }
  }

  lemma Pow10Of20()
    ensures Pow(10, 20) == 1_0000_0000_0000_0000_0000
  {
    assert Pow(10, 4) == 10000;
    assert Pow(10, 8) == 1_0000_0000 by { assert Pow(10, 8) == 10000 * Pow(10, 4); }
    assert Pow(10, 12) == 1_0000_0000_0000 by { assert Pow(10, 12) == 10000 * Pow(10, 8); }
    assert Pow(10, 16) == 1_0000_0000_0000_0000 by { assert Pow(10, 16) == 10000 * Pow(10, 12); }
    assert Pow(10, 20) == 10000 * Pow(10, 16);
  }

  /** What a writer leaves in its target: the number in the base, padded to the wanted width. */
  ghost predicate Written(base: nat, wide: int, number: nat, dst: seq<char>, at: nat, n: nat)
    requires 2 <= base <= 16
  {
    n == Max(wide, Length(base, number)) && at + n <= |dst| && dst[at..at + n] == Text(base, number, n)
  }

  /** Reading back what was written gives the number. */
  lemma WrittenReadsBack(base: nat, wide: int, number: nat, dst: seq<char>, at: nat, n: nat)
    requires 2 <= base <= 16 && Written(base, wide, number, dst, at, n)
    ensures Value(base, dst[at..at + n]) == number
  {
    LengthIs(base, number);
    PowMono(base, Length(base, number), n);
    TextReadsBack(base, number, n);
  }

  lemma PairsAt(base: nat, k: nat)
    requires (base == 10 || base == 16) && k < base * base
    ensures Pairs(base)[2 * k] == Digit(k / base % base) && Pairs(base)[2 * k + 1] == Digit(k % base)
  {
    hide Digit;
    Halves(k);
    assert Pairs(base)[2 * k] == PairDigit(base, 2 * k);
    assert Pairs(base)[2 * k + 1] == PairDigit(base, 2 * k + 1);
  }

  lemma Halves(k: nat)
    ensures 2 * k % 2 == 0 && 2 * k / 2 == k && (2 * k + 1) % 2 == 1 && (2 * k + 1) / 2 == k
  {
  }

  lemma HundredDigits(rest: nat)
    ensures rest % 100 / 10 % 10 == rest / 10 % 10 && rest % 100 % 10 == rest % 10
  {
  }

  lemma Pow2Of64()
    ensures Pow2(64) == 0x1_0000_0000_0000_0000
  {
    assert Pow2(16) == 0x1_0000 by { assert Pow2(8) == 0x100; }
    Pow2Sum(16, 16);
    Pow2Sum(32, 32);
  }

  lemma RoomLeft(number: nat, rest: nat, buf: seq<char>, i: int)
    requires DecWritten(number, rest, buf, i) && number < Pow2(64) && rest > 0
    ensures number >= Pow(10, BUF_LEN - i) && BUF_LEN - i < 20
  {
    hide Text, Pow, Pow2;
    DecRoom(number, BUF_LEN - i);
  }

  /** A number of 64 bits that has a digit at place `w` leaves room for two more digits. */
  lemma DecRoom(number: nat, w: nat)
    requires number < Pow2(64) && Pow(10, w) > 0 && number / Pow(10, w) > 0
    ensures number >= Pow(10, w) && w < 20
  {
    hide Pow, Pow2;
    Pow2Of64();
    Pow10Of20();
    if w >= 20 { PowMono(10, 20, w); }
    QuotientPositive(number, Pow(10, w));
  }

  lemma QuotientPositive(n: nat, p: nat)
    requires p > 0
    ensures n / p > 0 <==> n >= p
  {
  }

  /** The first digit of enough digits is zero exactly when one less is enough. */
  lemma FrontZero(number: nat, w: nat)
    requires w >= 2 && number < Pow(10, w) && (w > 2 ==> number >= Pow(10, w - 2))
    ensures Text(10, number, w)[0] == '0' ==> Length(10, number) == w - 1
                                              && Text(10, number, w)[1..] == Text(10, number, w - 1)
    ensures Text(10, number, w)[0] != '0' ==> Length(10, number) == w
  {
    hide Digit, Text, Pow, Length;
    TextFront(10, number, w - 1);
    DigitAtIs(10, number, w - 1);
    hide DigitAt;
    PowUp(10, w - 1);
    var d := number / Pow(10, w - 1);
    QuotientPositive(number, Pow(10, w - 1));
    DivideBound(number, 10, Pow(10, w - 1));
    QuotientSmall(number, Pow(10, w - 1));
    DigitIs(d);
    if number < Pow(10, w - 1) {
      LengthUnique(10, number, w - 1);
    } else {
      LengthUnique(10, number, w);
    }
  }

  lemma QuotientSmall(n: nat, p: nat)
    requires p > 0 && n < p * 10
    ensures n / p < 10 && n / p % 10 == n / p
  {
    DivideBound(n, p, 10);
  }

  lemma AllWritten(number: nat, buf: seq<char>, i: int)
    requires DecWritten(number, 0, buf, i)
    ensures |buf| == BUF_LEN && 0 <= i <= BUF_LEN
    ensures number < Pow(10, BUF_LEN - i) && buf[i..] == Text(10, number, BUF_LEN - i)
  {
    hide Pow, Text;
    QuotientPositive(number, Pow(10, BUF_LEN - i));
  }

  method WriteDec(wide: int, dst: array<char>, at: nat, number: nat) returns (n: nat)
    requires number < Pow2(64) && wide <= BUF_LEN && at + Max(wide, 20) <= dst.Length
    modifies dst
    ensures Written(10, wide, number, dst[..], at, n)
    ensures forall k :: 0 <= k < dst.Length && !(at <= k < at + n) ==> dst[k] == old(dst[k])
  {
    hide Text, Pow, Length, Pow2, DecWritten;
    var buf := new char[BUF_LEN];
    var i := WriteDecPairs(buf, number);
    i := StripAndPad(buf, i, wide, number);
    n := BUF_LEN - i;
    forall k | 0 <= k < n {
      dst[at + k] := buf[i + k];
    }
    assert dst[at..at + n] == buf[i..];
  }

  /** Drops the zero an odd number of digits leaves in front, then pads with zeros up to the wanted width. */
  method StripAndPad(buf: array<char>, from: int, wide: int, ghost number: nat) returns (i: int)
    requires buf.Length == BUF_LEN && 10 <= from <= BUF_LEN - 2 && wide <= BUF_LEN
             && DecWritten(number, 0, buf[..], from)
    requires BUF_LEN - from - 2 > 0 ==> number >= Pow(10, BUF_LEN - from - 2)
    modifies buf
    ensures 0 <= i <= BUF_LEN && BUF_LEN - i == Max(wide, Length(10, number)) <= Max(wide, 20)
    ensures buf[i..] == Text(10, number, BUF_LEN - i)
  {
    hide Text, Pow, Length, DecWritten;
    AllWritten(number, buf[..], from);
    FrontZero(number, BUF_LEN - from);
    i := from;
    assert buf[i..][0] == buf[i];
    if buf[i] == '0' {
      assert buf[i + 1..] == buf[i..][1..];
      i := i + 1;
    }
    while BUF_LEN - i < wide
      invariant 0 <= i <= BUF_LEN && buf[i..] == Text(10, number, BUF_LEN - i)
      invariant Length(10, number) <= BUF_LEN - i <= Max(wide, Length(10, number))
    {
      PadStep(number, BUF_LEN - i);
      i := i - 1;
      buf[i] := '0';
      assert buf[i..] == "0" + buf[i + 1..];
    }
  }

  lemma PadStep(number: nat, w: nat)
    requires w >= Length(10, number)
    ensures Text(10, number, w + 1) == "0" + Text(10, number, w)
  {
    hide Text, Pow, Length;
    LengthIs(10, number);
    PowMono(10, Length(10, number), w);
    TextPads(10, number, w);
  }

  /** The loop over pairs of digits, least significant first. */
  method WriteDecPairs(buf: array<char>, number: nat) returns (i: int)
    requires number < Pow2(64) && buf.Length == BUF_LEN
    modifies buf
    ensures 10 <= i <= BUF_LEN - 2 && DecWritten(number, 0, buf[..], i)
    ensures BUF_LEN - i - 2 > 0 ==> number >= Pow(10, BUF_LEN - i - 2)
  {
    hide DecWritten, Text, Pow, Pow2;
    i := BUF_LEN;
    var rest := number;
    var again := true;
    ghost var k := 0;
    NothingWritten(number, buf[..]);
    while again
      invariant i == BUF_LEN - 2 * k && 0 <= k <= 10
      invariant DecWritten(number, rest, buf[..], i)
      invariant again && k > 0 ==> rest > 0
      invariant !again ==> rest == 0 && k > 0 && (k > 1 ==> number >= Pow(10, 2 * k - 2))
      decreases i + if again then 1 else 0
    {
      if k > 0 { RoomLeft(number, rest, buf[..], i); }
      rest := WritePair(buf, i, rest, number);
      i, k := i - 2, k + 1;
      again := rest != 0;
    }
  }

  lemma NothingWritten(number: nat, buf: seq<char>)
    requires |buf| == BUF_LEN
    ensures DecWritten(number, number, buf, BUF_LEN)
  {
    assert Pow(10, 0) == 1;
  }

  /** One step of the loop. */
  method WritePair(buf: array<char>, i: int, rest: nat, ghost number: nat) returns (m1: nat)
    requires buf.Length == BUF_LEN && 2 <= i <= BUF_LEN && DecWritten(number, rest, buf[..], i)
    modifies buf
    ensures DecWritten(number, m1, buf[..], i - 2)
  {
    hide DecWritten, Text, Pow, Pow2, Pairs, Digit;
    ghost var before := buf[..];
    HundredDigits(rest);
    PairsAt(10, rest % 100);
    var lut := Pairs(10);
    m1 := rest / 100;
    var m2 := rest % 100;
    m2 := m2 + m2;
    buf[i - 1] := lut[m2 + 1];
    buf[i - 2] := lut[m2];
    assert buf[..][i..] == before[i..];
    DecStep(number, rest, before, i, buf[..]);
  }

  /** The signed writer: a sign, then the magnitude in one column less. */
  method WriteSignedDec(wide: int, dst: array<char>, at: nat, number: int) returns (n: nat)
    requires -0x8000_0000_0000_0000 < number < 0x8000_0000_0000_0000
    requires wide <= BUF_LEN && at + Max(wide, 21) <= dst.Length
    modifies dst
    ensures number >= 0 ==> Written(10, wide, number, dst[..], at, n)
    ensures number < 0 ==> n >= 1 && dst[at] == '-' && Written(10, wide - 1, -number, dst[..], at + 1, n - 1)
    ensures forall k :: 0 <= k < dst.Length && !(at <= k < at + n) ==> dst[k] == old(dst[k])
  {
    hide Written, Pow2;
    Pow2Of64();
    if number < 0 {
      dst[at] := '-';
      var magnitude := -number;
      n := WriteDec(wide - 1, dst, at + 1, magnitude);
      n := n + 1;
      return;
    }
    n := WriteDec(wide, dst, at, number);
  }

  // write_hex_unsafe.

  /** The highest bit gives the number of hexadecimal digits. */
  lemma HexLength(number: nat)
    requires 0 < number < Pow2(64)
    ensures (FirstBitIndex(number) + 1 + 3) / 4 == Length(16, number) && FirstBitIndex(number) < 64
  {
    hide Pow, Pow2, Length, FirstBitIndex;
    var bits := FirstBitIndex(number) + 1;
    var w := (bits + 3) / 4;
    FirstBitIndexOf(number);
    PowOf16(w);
    PowOf16(w - 1);
    TwicePow2(bits - 1);
    Pow2Mono(bits, 4 * w);
    Pow2Mono(4 * (w - 1), bits - 1);
    if bits > 64 { Pow2Mono(64, bits - 1); }
    LengthUnique(16, number, w);
  }

  lemma {:induction false} PowOf16(k: nat)
    ensures Pow(16, k) == Pow2(4 * k)
  {
    if k > 0 {
      PowOf16(k - 1);
      assert Pow2(4 * k) == 2 * Pow2(4 * k - 1) && Pow2(4 * k - 1) == 2 * Pow2(4 * k - 2);
      assert Pow2(4 * k - 2) == 2 * Pow2(4 * k - 3) && Pow2(4 * k - 3) == 2 * Pow2(4 * k - 4);
    }
  }

  /** The columns from `cur` on are written; `rest` is what is still to be written before them. */
  ghost predicate HexWritten(number: nat, rest: nat, dst: seq<char>, at: nat, cur: nat, w: nat) {
    && cur <= w && at + w <= |dst| && rest < Pow(16, cur)
    && Text(16, number, w) == Text(16, rest, cur) + dst[at + cur..at + w]
  }

  lemma HexStep(number: nat, rest: nat, dst: seq<char>, at: nat, cur: nat, w: nat, next: seq<char>)
    requires HexWritten(number, rest, dst, at, cur, w) && cur >= 1
    requires |next| == |dst| && next[at + cur..at + w] == dst[at + cur..at + w]
             && next[at + cur - 1] == Digit(rest % 16)
    ensures HexWritten(number, rest / 16, next, at, cur - 1, w)
  {
    assert Pow(16, cur) == 16 * Pow(16, cur - 1);
    hide Pow;
    DivideBound(rest, 16, Pow(16, cur - 1));
    assert Text(16, rest, cur) == Text(16, rest / 16, cur - 1) + [Digit(rest % 16)];
    assert next[at + cur - 1..at + w] == [next[at + cur - 1]] + next[at + cur..at + w];
    hide Text, Digit;
    assert Text(16, rest / 16, cur - 1) + [Digit(rest % 16)] + next[at + cur..at + w]
        == Text(16, rest / 16, cur - 1) + ([Digit(rest % 16)] + next[at + cur..at + w]);
  }

  lemma NothingWrittenHex(number: nat, dst: seq<char>, at: nat, w: nat)
    requires number < Pow(16, w) && at + w <= |dst|
    ensures HexWritten(number, number, dst, at, w, w)
  {
    assert Text(16, number, w) + dst[at + w..at + w] == Text(16, number, w);
  }

  lemma HexRoom(number: nat, rest: nat, dst: seq<char>, at: nat, cur: nat, w: nat)
    requires HexWritten(number, rest, dst, at, cur, w)
    ensures cur <= w && at + w <= |dst| && (cur == 0 ==> rest == 0) && (cur == 1 ==> rest < 16)
  {
    assert Pow(16, 0) == 1 && Pow(16, 1) == 16 * Pow(16, 0);
    hide Text;
  }

  lemma HexZero(number: nat, before: seq<char>, at: nat, cur: nat, w: nat, next: seq<char>)
    requires HexWritten(number, 0, before, at, cur, w) && cur >= 1 && |next| == |before|
    requires next[at + cur..at + w] == before[at + cur..at + w] && next[at + cur - 1] == '0'
    ensures HexWritten(number, 0, next, at, cur - 1, w)
  {
    hide HexWritten, Digit;
    DigitIs(0);
    HexStep(number, 0, before, at, cur, w, next);
  }

  lemma HexDone(number: nat, dst: seq<char>, at: nat, w: nat)
    requires HexWritten(number, 0, dst, at, 0, w)
    ensures at + w <= |dst| && dst[at..at + w] == Text(16, number, w)
  {
    assert Text(16, 0, 0) == "";
    assert "" + dst[at + 0..at + w] == dst[at..at + w];
  }

  /** The last two of the free columns. */
  method WriteHexPair(dst: array<char>, at: nat, w: nat, cur: nat, rest: nat, ghost number: nat) returns (next: nat)
    requires HexWritten(number, rest, dst[..], at, cur, w) && 2 <= cur <= w && at + w <= dst.Length
    modifies dst
    ensures next == rest / 256 && HexWritten(number, next, dst[..], at, cur - 2, w)
    ensures forall k :: 0 <= k < dst.Length && !(at <= k < at + w) ==> dst[k] == old(dst[k])
  {
    hide HexWritten, Text, Pow, Pairs, Digit;
    ghost var before := dst[..];
    Bytes(rest);
    PairsAt(16, rest % 256);
    var lut := Pairs(16);
    var m2 := rest % 256 * 2;
    next := rest / 256;
    dst[at + cur - 1] := lut[m2 + 1];
    ghost var middle := dst[..];
    assert middle[at + cur..at + w] == before[at + cur..at + w];
    HexStep(number, rest, before, at, cur, w, middle);
    dst[at + cur - 2] := lut[m2];
    assert dst[..][at + cur - 1..at + w] == middle[at + cur - 1..at + w];
    HexStep(number, rest / 16, middle, at, cur - 1, w, dst[..]);
  }

  lemma Bytes(rest: nat)
    ensures rest % 256 / 16 % 16 == rest / 16 % 16 && rest % 256 % 16 == rest % 16 && rest / 256 == rest / 16 / 16
  {
  }

  method WriteHex(wide: int, dst: array<char>, at: nat, number: nat) returns (n: nat)
    requires 0 < number < Pow2(64) && at + Max(wide, 16) <= dst.Length
    modifies dst
    ensures Written(16, wide, number, dst[..], at, n)
    ensures forall k :: 0 <= k < dst.Length && !(at <= k < at + n) ==> dst[k] == old(dst[k])
  {
    hide Pow2, FirstBitIndex, HexWritten, Text, Pow, Length;
    HexLength(number);
    var realWide := (FirstBitIndex(number) + 1 + 3) / 4;
    if realWide < wide {
      realWide := wide;
    }
    n := realWide;
    LengthIs(16, number);
    PowMono(16, Length(16, number), n);
    NothingWrittenHex(number, dst[..], at, n);
    var cur := WriteHexPairs(dst, at, n, number);
    while cur != 0
      invariant 0 <= cur <= n && HexWritten(number, 0, dst[..], at, cur, n)
      invariant forall k :: 0 <= k < dst.Length && !(at <= k < at + n) ==> dst[k] == old(dst[k])
    {
      ghost var before := dst[..];
      cur := cur - 1;
      dst[at + cur] := '0';
      assert dst[..][at + cur + 1..at + n] == before[at + cur + 1..at + n];
      HexZero(number, before, at, cur + 1, n, dst[..]);
    }
    HexDone(number, dst[..], at, n);
  }

  /** The columns written two digits a step, and the odd digit that may be left for the first column. */
  method WriteHexPairs(dst: array<char>, at: nat, w: nat, number: nat) returns (cur: nat)
    requires HexWritten(number, number, dst[..], at, w, w)
    modifies dst
    ensures cur <= w && HexWritten(number, 0, dst[..], at, cur, w)
    ensures forall k :: 0 <= k < dst.Length && !(at <= k < at + w) ==> dst[k] == old(dst[k])
  {
    hide HexWritten, Text, Pow, Pairs, Digit;
    var lut := Pairs(16);
    var rest := number;
    cur := w;
    HexRoom(number, rest, dst[..], at, cur, w);
    while rest != 0 && cur >= 2
      invariant cur <= w && at + w <= dst.Length && HexWritten(number, rest, dst[..], at, cur, w)
      invariant forall k :: 0 <= k < dst.Length && !(at <= k < at + w) ==> dst[k] == old(dst[k])
      decreases cur
    {
      rest := WriteHexPair(dst, at, w, cur, rest, number);
      cur := cur - 2;
    }
    HexRoom(number, rest, dst[..], at, cur, w);
    if rest != 0 {
      ghost var before := dst[..];
      dst[at] := Digit(rest % 16);
      assert dst[..][at + cur..at + w] == before[at + cur..at + w];
      HexStep(number, rest, before, at, cur, w, dst[..]);
      cur := cur - 1;
    }
  }
}
