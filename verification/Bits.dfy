/**
  Machine words as naturals. The bitwise operators are defined digit by digit, so that what the
  allocator's bit tricks compute is proved by induction on the word and not by a decision procedure.
 */
module Bits {

  function Pow2(k: nat): (p: nat)
    ensures p >= 1
  {
    if k == 0 then 1 else 2 * Pow2(k - 1)
  }

  predicate Bit(n: nat, i: nat) {
    if i == 0 then n % 2 == 1 else Bit(n / 2, i - 1)
  }

  function And(a: nat, b: nat): nat {
    if a == 0 || b == 0 then 0
    else (if a % 2 == 1 && b % 2 == 1 then 1 else 0) + 2 * And(a / 2, b / 2)
  }

  function Or(a: nat, b: nat): nat {
    if a == 0 then b
    else if b == 0 then a
    else (if a % 2 == 1 || b % 2 == 1 then 1 else 0) + 2 * Or(a / 2, b / 2)
  }

  /** `~n` in a word of `w` bits. */
  function Not(n: nat, w: nat): nat
    requires n < Pow2(w)
  {
    Pow2(w) - 1 - n
  }

  /** `-n` in a word of `w` bits. */
  function Neg(n: nat, w: nat): nat
    requires n < Pow2(w)
  {
    if n == 0 then 0 else Pow2(w) - n
  }

  function Shr(n: nat, k: nat): nat {
    if k == 0 then n else Shr(n / 2, k - 1)
  }

  /** `n << k`, where nothing is shifted out. */
  function Shl(n: nat, k: nat): nat {
    n * Pow2(k)
  }

  /** The index of the highest bit: the word size less one less the leading zeros. */
  function FirstBitIndex(n: nat): nat
    requires n > 0
  {
    if n == 1 then 0 else 1 + FirstBitIndex(n / 2)
  }

  function Max(a: int, b: int): int { if a < b then b else a }

  // Reading single bits.

  lemma {:induction false} BitOfZero(i: nat)
    ensures !Bit(0, i)
  {
    if i > 0 { BitOfZero(i - 1); }
  }

  lemma AndHalf(a: nat, b: nat)
    requires a != 0 && b != 0
    ensures And(a, b) / 2 == And(a / 2, b / 2)
    ensures And(a, b) % 2 == 1 <==> a % 2 == 1 && b % 2 == 1
  {
  }

  lemma OrHalf(a: nat, b: nat)
    requires a != 0 && b != 0
    ensures Or(a, b) / 2 == Or(a / 2, b / 2)
    ensures Or(a, b) % 2 == 1 <==> a % 2 == 1 || b % 2 == 1
  {
  }

  lemma {:induction false} BitOfAnd(a: nat, b: nat, i: nat)
    ensures Bit(And(a, b), i) == (Bit(a, i) && Bit(b, i))
  {
    if a == 0 || b == 0 {
      BitOfZero(i);
    } else {
      AndHalf(a, b);
      hide And;
      if i > 0 { BitOfAnd(a / 2, b / 2, i - 1); }
    }
  }

  lemma {:induction false} BitOfOr(a: nat, b: nat, i: nat)
    ensures Bit(Or(a, b), i) == (Bit(a, i) || Bit(b, i))
  {
    if a == 0 || b == 0 {
      BitOfZero(i);
    } else {
      OrHalf(a, b);
      hide Or;
      if i > 0 { BitOfOr(a / 2, b / 2, i - 1); }
    }
  }

  lemma {:induction false} BitOfPow2(k: nat, i: nat)
    ensures Bit(Pow2(k), i) == (i == k)
  {
    if k == 0 {
      if i > 0 { BitOfZero(i - 1); }
    } else if i > 0 {
      assert Pow2(k) / 2 == Pow2(k - 1);
      BitOfPow2(k - 1, i - 1);
    }
  }

  lemma {:induction false} BitOfNot(n: nat, w: nat, i: nat)
    requires n < Pow2(w) && i < w
    ensures Bit(Not(n, w), i) == !Bit(n, i)
  {
    if i > 0 {
      assert Not(n, w) / 2 == Not(n / 2, w - 1);
      BitOfNot(n / 2, w - 1, i - 1);
    }
  }

  lemma {:induction false} BitOfShr(n: nat, k: nat, i: nat)
    ensures Bit(Shr(n, k), i) == Bit(n, i + k)
  {
    if k > 0 { BitOfShr(n / 2, k - 1, i); }
  }

  lemma {:induction false} BitBeyond(n: nat, w: nat, i: nat)
    requires n < Pow2(w) && w <= i
    ensures !Bit(n, i)
  {
    if w == 0 {
      BitOfZero(i);
    } else {
      BitBeyond(n / 2, w - 1, i - 1);
    }
  }

  /** A word is determined by its bits. */
  lemma {:induction false} SameBits(a: nat, b: nat)
    requires forall i: nat :: Bit(a, i) == Bit(b, i)
    ensures a == b
    decreases a + b
  {
    if a != 0 || b != 0 {
      assert Bit(a, 0) == Bit(b, 0);
      forall i: nat ensures Bit(a / 2, i) == Bit(b / 2, i) {
        assert Bit(a, i + 1) == Bit(b, i + 1);
      }
      SameBits(a / 2, b / 2);
    }
  }

  lemma {:induction false} Pow2Mono(a: nat, b: nat)
    requires a <= b
    ensures Pow2(a) <= Pow2(b) && (a < b ==> 2 * Pow2(a) <= Pow2(b))
  {
    if a < b { Pow2Mono(a, b - 1); }
  }

  lemma {:induction false} Pow2Sum(a: nat, b: nat)
    ensures Pow2(a + b) == Pow2(a) * Pow2(b)
  {
    if a > 0 {
      Pow2Sum(a - 1, b);
      assert Pow2(a + b) == 2 * Pow2(a + b - 1);
    }
  }

  lemma TwicePow2(k: nat)
    ensures Pow2(k + 1) == 2 * Pow2(k)
  {
  }

  lemma SixteenDivides(k: nat)
    requires Pow2(k) >= 16
    ensures Pow2(k) % 16 == 0
  {
    assert Pow2(4) == 16 && Pow2(3) == 8;
    if k < 4 {
      Pow2Mono(k, 3);
    } else {
      Pow2Sum(4, k - 4);
    }
  }

  lemma {:induction false} AndBound(a: nat, b: nat)
    ensures And(a, b) <= a && And(a, b) <= b
  {
    if a != 0 && b != 0 { AndBound(a / 2, b / 2); }
  }

  lemma {:induction false} OrBound(a: nat, b: nat, w: nat)
    requires a < Pow2(w) && b < Pow2(w)
    ensures Or(a, b) < Pow2(w)
  {
    if a != 0 && b != 0 { OrBound(a / 2, b / 2, w - 1); }
  }

  lemma {:induction false} FirstBitIndexOf(n: nat)
    requires n > 0
    ensures Pow2(FirstBitIndex(n)) <= n < 2 * Pow2(FirstBitIndex(n))
  {
    if n > 1 { FirstBitIndexOf(n / 2); }
  }

  lemma {:induction false} FirstBitIndexUnique(n: nat, k: nat)
    requires Pow2(k) <= n < 2 * Pow2(k)
    ensures FirstBitIndex(n) == k
  {
    if k > 0 { FirstBitIndexUnique(n / 2, k - 1); }
  }

  // Updating one bit of a bitmap: |= 1 << i and &= ~(1 << i).

  function SetBit(n: nat, i: nat): nat {
    Or(n, Shl(1, i))
  }

  function UnsetBit(n: nat, i: nat, w: nat): nat
    requires i < w
  {
    Pow2Mono(i, w);
    And(n, Not(Shl(1, i), w))
  }

  lemma BitOfSetBit(n: nat, i: nat, w: nat)
    requires i < w && n < Pow2(w)
    ensures SetBit(n, i) < Pow2(w)
    ensures forall j: nat :: Bit(SetBit(n, i), j) == (Bit(n, j) || j == i)
  {
    Pow2Mono(i, w);
    OrBound(n, Pow2(i), w);
    forall j: nat ensures Bit(SetBit(n, i), j) == (Bit(n, j) || j == i) {
      BitOfOr(n, Pow2(i), j);
      BitOfPow2(i, j);
    }
  }

  lemma BitOfUnsetBit(n: nat, i: nat, w: nat)
    requires i < w && n < Pow2(w)
    ensures UnsetBit(n, i, w) < Pow2(w)
    ensures forall j: nat :: Bit(UnsetBit(n, i, w), j) == (Bit(n, j) && j != i)
  {
    Pow2Mono(i, w);
    AndBound(n, Not(Pow2(i), w));
    forall j: nat ensures Bit(UnsetBit(n, i, w), j) == (Bit(n, j) && j != i) {
      BitOfAnd(n, Not(Pow2(i), w), j);
      if j < w {
        BitOfNot(Pow2(i), w, j);
        BitOfPow2(i, j);
      } else {
        BitBeyond(n, w, j);
      }
    }
  }

  // n & -n isolates the lowest bit.

  function LowestBit(n: nat): nat
    requires n > 0
  {
    if n % 2 == 1 then 0 else 1 + LowestBit(n / 2)
  }

  lemma {:induction false} LowestBitIsLeast(n: nat)
    requires n > 0
    ensures Bit(n, LowestBit(n)) && forall i: nat :: i < LowestBit(n) ==> !Bit(n, i)
  {
    if n % 2 == 0 {
      LowestBitIsLeast(n / 2);
      forall i: nat | i < LowestBit(n) ensures !Bit(n, i) {
        if i > 0 { assert Bit(n, i) == Bit(n / 2, i - 1); }
      }
    }
  }

  lemma {:induction false} AndComplement(n: nat, w: nat)
    requires n < Pow2(w)
    ensures And(n, Pow2(w) - 1 - n) == 0
  {
    if w > 0 { AndComplement(n / 2, w - 1); }
  }

  lemma {:induction false} LowBitTrick(n: nat, w: nat)
    requires 0 < n < Pow2(w)
    ensures And(n, Neg(n, w)) == Pow2(LowestBit(n))
  {
    var m := Pow2(w) - n;
    if n % 2 == 0 {
      assert m / 2 == Pow2(w - 1) - n / 2 && m % 2 == 0;
      LowBitTrick(n / 2, w - 1);
    } else {
      assert m / 2 == Pow2(w - 1) - 1 - n / 2 && m % 2 == 1;
      AndComplement(n / 2, w - 1);
    }
  }

  ghost predicate IsLeastBit(n: nat, i: nat) {
    Bit(n, i) && forall j: nat :: j < i ==> !Bit(n, j)
  }

  /** The search the allocator makes: the index of the bit isolated by `n & -n` is that of the least bit. */
  function LeastBitIndex(n: nat, w: nat): (i: nat)
    requires 0 < n < Pow2(w)
    ensures IsLeastBit(n, i)
  {
    LowBitTrick(n, w);
    LowestBitIsLeast(n);
    FirstBitIndexUnique(Pow2(LowestBit(n)), LowestBit(n));
    FirstBitIndex(And(n, Neg(n, w)))
  }

  // Filling to the right: n |= n >> 1, >> 2, >> 4, >> 8, >> 16.

  function Smear(n: nat, k: nat): nat {
    Or(n, Shr(n, k))
  }

  function FillRight(n: nat): nat {
    Smear(Smear(Smear(Smear(Smear(n, 1), 2), 4), 8), 16)
  }

  ghost predicate AnyBit(n: nat, lo: nat, hi: nat) {
    exists j: nat :: lo <= j < hi && Bit(n, j)
  }

  /** Every bit of `m` says whether `n` has a bit among the `k` from that one up. */
  ghost predicate Smeared(n: nat, m: nat, k: nat) {
    forall i: nat :: Bit(m, i) == AnyBit(n, i, i + k)
  }

  lemma SmearDoubles(n: nat, m: nat, k: nat)
    requires Smeared(n, m, k)
    ensures Smeared(n, Smear(m, k), 2 * k)
  {
    forall i: nat ensures Bit(Smear(m, k), i) == AnyBit(n, i, i + 2 * k) {
      BitOfOr(m, Shr(m, k), i);
      BitOfShr(m, k, i);
      assert Bit(m, i) == AnyBit(n, i, i + k);
      assert Bit(m, i + k) == AnyBit(n, i + k, i + k + k);
    }
  }

  lemma {:induction false} TopBit(n: nat, i: nat)
    requires n > 0
    ensures Bit(n, FirstBitIndex(n)) && (FirstBitIndex(n) < i ==> !Bit(n, i))
  {
    if n == 1 {
      if i > 0 { BitOfZero(i - 1); }
    } else {
      TopBit(n / 2, if i > 0 then i - 1 else 0);
    }
  }

  lemma {:induction false} BitOfOnes(k: nat, i: nat)
    ensures Bit(Pow2(k) - 1, i) == (i < k)
  {
    if k == 0 {
      BitOfZero(i);
    } else if i > 0 {
      assert (Pow2(k) - 1) / 2 == Pow2(k - 1) - 1;
      BitOfOnes(k - 1, i - 1);
    }
  }

  lemma FillRightSmears(n: nat)
    ensures Smeared(n, FillRight(n), 32)
  {
    forall i: nat ensures Bit(n, i) == AnyBit(n, i, i + 1) { }
    var a := Smear(n, 1);
    var b := Smear(a, 2);
    var c := Smear(b, 4);
    var d := Smear(c, 8);
    SmearDoubles(n, n, 1);
    SmearDoubles(n, a, 2);
    SmearDoubles(n, b, 4);
    SmearDoubles(n, c, 8);
    SmearDoubles(n, d, 16);
  }

  lemma FillRightBit(n: nat, i: nat)
    requires 0 < n < Pow2(32)
    ensures Bit(FillRight(n), i) == (i <= FirstBitIndex(n))
  {
    var top := FirstBitIndex(n);
    FirstBitIndexOf(n);
    if top >= 32 { Pow2Mono(32, top); }
    FillRightSmears(n);
    hide FillRight;
    assert Bit(FillRight(n), i) == AnyBit(n, i, i + 32);
    TopBit(n, top);
    forall j: nat | top < j ensures !Bit(n, j) { TopBit(n, j); }
  }

  lemma FillRightValue(n: nat)
    requires 0 < n < Pow2(32)
    ensures FillRight(n) == Pow2(FirstBitIndex(n) + 1) - 1
  {
    hide FillRight, FirstBitIndex, Pow2;
    var top := FirstBitIndex(n);
    forall i: nat ensures Bit(FillRight(n), i) == Bit(Pow2(top + 1) - 1, i) {
      BitOfOnes(top + 1, i);
      FillRightBit(n, i);
    }
    SameBits(FillRight(n), Pow2(top + 1) - 1);
  }

  // Masks.

  function Low(n: nat, t: nat): (r: nat)
    ensures r < Pow2(t) && r <= n
  {
    if t == 0 then 0 else n % 2 + 2 * Low(n / 2, t - 1)
  }

  lemma DoubleProduct(q: nat, p: nat)
    ensures q * (2 * p) == 2 * (q * p)
  {
  }

  lemma {:induction false} SplitAt(n: nat, t: nat)
    ensures n == Shr(n, t) * Pow2(t) + Low(n, t)
  {
    if t > 0 {
      SplitAt(n / 2, t - 1);
      DoubleProduct(Shr(n / 2, t - 1), Pow2(t - 1));
    }
  }

  lemma {:induction false} AndLowMask(n: nat, t: nat)
    ensures And(n, Pow2(t) - 1) == Low(n, t)
  {
    if t > 0 {
      if n == 0 {
        assert Low(0, t) == 0;
      } else {
        AndLowMask(n / 2, t - 1);
      }
    }
  }

  lemma {:induction false} AndHighMask(n: nat, t: nat, w: nat)
    requires n < Pow2(w) && t <= w && Pow2(t) <= Pow2(w)
    ensures And(n, Pow2(w) - Pow2(t)) == n - Low(n, t)
  {
    if t == 0 {
      AndAllOnes(n, w);
    } else if n > 0 {
      Pow2Mono(t, w);
      AndHighMask(n / 2, t - 1, w - 1);
    }
  }

  lemma {:induction false} AndAllOnes(n: nat, w: nat)
    requires n < Pow2(w)
    ensures And(n, Pow2(w) - 1) == n
  {
    if n > 0 { AndAllOnes(n / 2, w - 1); }
  }

  lemma ProductMono(a: nat, b: nat, p: nat)
    ensures a <= b ==> a * p <= b * p
  {
  }

  lemma QuotientUnique(p: nat, q: nat, r: nat, q': nat, r': nat)
    requires q * p + r == q' * p + r' && r < p && r' < p
    ensures q == q' && r == r'
  {
    ProductMono(q + 1, q', p);
    ProductMono(q' + 1, q, p);
    assert (q + 1) * p == q * p + p;
    assert (q' + 1) * p == q' * p + p;
  }

  lemma Scale(a: int, b: int, p: int)
    requires a <= b && p >= 0
    ensures a * p <= b * p
  {
  }

  /** A quotient and a remainder that fit are those of the division. */
  lemma QuotientIs(x: int, q: int, r: int, p: int)
    requires p > 0 && x == q * p + r && 0 <= r < p
    ensures x / p == q && x % p == r
  {
    var q', r' := x / p, x % p;
    assert x == q' * p + r' && 0 <= r' < p;
    assert (q' + 1) * p == q' * p + p && (q + 1) * p == q * p + p;
    if q' < q {
      Scale(q' + 1, q, p);
    } else if q < q' {
      Scale(q + 1, q', p);
    }
  }

  /** `Low` and `Shr` are determined by the division with remainder they make. */
  lemma SplitUnique(n: nat, t: nat, q: nat, r: nat)
    requires n == q * Pow2(t) + r && r < Pow2(t)
    ensures Shr(n, t) == q && Low(n, t) == r
  {
    SplitAt(n, t);
    hide Pow2, Shr, Low;
    QuotientUnique(Pow2(t), Shr(n, t), Low(n, t), q, r);
  }

  lemma LowTwo(n: nat)
    ensures Pow2(1) == 2 && Pow2(2) == 4
    ensures Low(n, 1) == n % 2 && Low(n, 2) == n % 2 + 2 * (n / 2 % 2)
    ensures Bit(n, 0) == (n % 2 == 1) && Bit(n, 1) == (n / 2 % 2 == 1)
  {
    assert Low(n, 2) == n % 2 + 2 * Low(n / 2, 1);
  }

  /** The tests `n & 0x3`, `n & 0x1` and `~n & 0x1`. */
  lemma LowBitTests(n: nat)
    requires n < Pow2(64)
    ensures And(n, 3) != 0 <==> Bit(n, 0) || Bit(n, 1)
    ensures And(n, 1) != 0 <==> Bit(n, 0)
    ensures And(Not(n, 64), 1) == if Bit(n, 0) then 0 else 1
  {
    var m := Not(n, 64);
    LowTwo(n);
    LowTwo(m);
    BitOfNot(n, 64, 0);
    hide And, Bit, Low, Not, Pow2;
    AndLowMask(n, 1);
    AndLowMask(n, 2);
    AndLowMask(m, 1);
  }
}
