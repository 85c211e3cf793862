/** The size-class macros of zmalloc: 32-bit arithmetic on request and chunk sizes. */
module SizeClasses {
  import opened Bits

  const PADDING: nat := 16                       // CHUNK_PADDING_SIZE
  const FREE_CHUNK: nat := 32                    // sizeof(free_chunk_type)
  const BLOCK_TYPE: nat := 32                    // sizeof(block_type)
  const FINE_SHIFT: nat := 4
  const FINE_SIZE: nat := 16
  const BINS: nat := 64
  const SMALL_LEAST: nat := 32
  const SMALL_MAX_REQUEST: nat := 1024
  const BIG_LEAST: nat := 1040
  const BIG_MAX_REQUEST: nat := 524288
  const DEFAULT_BLOCK: nat := 8388608
  const BIG_MAX_BIN: nat := 62
  const BIG_LOG_BIN: nat := 63

  function CeilPowerOf2(n: nat): nat
    requires n >= 1
  {
    FillRight(n - 1) + 1
  }

  /** Rounds up by the third bit: adds everything below the third highest bit. */
  function AlignThirdBitValue(v: nat): nat {
    v + Shr(FillRight(v), 3)
  }

  function ThirdOrder(v: nat): nat
    requires v >= 4
  {
    FirstBitIndexAtLeast(v, 2);
    FirstBitIndex(v) - 2
  }

  function ThirdSequence(order: nat, v: nat): nat {
    Shl(order, 2) + And(Shr(v, order), 3)
  }

  function Compress(sequence: nat): int {
    sequence - 32
  }

  /** zmalloc_resolve_order_size: the least payload of big bin `id`. */
  function Resolve(id: nat): nat {
    Shl(Or(And(id + 32, 3), 4), Shr(id + 32, 2))
  }

  lemma FirstBitIndexAtLeast(v: nat, k: nat)
    requires v >= Pow2(k)
    ensures FirstBitIndex(v) >= k
  {
    FirstBitIndexOf(v);
    if FirstBitIndex(v) < k { Pow2Mono(FirstBitIndex(v) + 1, k); }
  }

  // What the macros mean: sizes q * 2^t with q in 4..7, numbered 4 * t + q - 4.

  function Sized(t: nat, q: nat): nat {
    q * Pow2(t)
  }

  lemma SizedStep(t: nat, q: nat)
    ensures Sized(t, q + 1) == Sized(t, q) + Pow2(t)
    ensures q >= 4 ==> 4 * Pow2(t) <= Sized(t, q)
    ensures q <= 7 ==> Sized(t, q) <= 7 * Pow2(t)
    ensures Sized(t, 8) == Sized(t + 1, 4) == 8 * Pow2(t)
  {
    var p := Pow2(t);
    assert (q + 1) * p == q * p + p;
    ProductMono(4, q, p);
    ProductMono(q, 7, p);
  }

  lemma Pow2Plus(t: nat)
    ensures Pow2(t + 1) == 2 * Pow2(t) && Pow2(t + 2) == 4 * Pow2(t) && Pow2(t + 3) == 8 * Pow2(t)
  {
    assert Pow2(t + 2) == 2 * Pow2(t + 1);
    assert Pow2(t + 3) == 2 * Pow2(t + 2);
  }

  lemma ShlTwo(n: nat)
    ensures Shl(n, 2) == 4 * n
  {
    assert Pow2(2) == 4;
  }

  lemma AndThree(q: nat)
    requires 4 <= q <= 7
    ensures And(q, 3) == q - 4
  {
    assert Pow2(2) == 4;
    AndLowMask(q, 2);
    LowOfSmall(q);
  }

  lemma SequenceOf(t: nat, q: nat, v: nat)
    requires 4 <= q <= 7 && Sized(t, q) <= v < Sized(t, q + 1)
    ensures v >= 4 && FirstBitIndex(v) == t + 2 && ThirdOrder(v) == t && ThirdSequence(t, v) == 4 * t + q - 4
    ensures Shr(v, t) == q && v - Low(v, t) == Sized(t, q)
  {
    SizedStep(t, q);
    Pow2Plus(t);
    assert Sized(t, q) == q * Pow2(t);
    hide Pow2, Sized, Shr, Shl, Low, And, FirstBitIndex;
    SplitUnique(v, t, q, v - Sized(t, q));
    FirstBitIndexUnique(v, t + 2);
    AndThree(q);
    ShlTwo(t);
  }

  lemma LowOfSmall(q: nat)
    requires 4 <= q <= 7
    ensures Low(q, 2) == q - 4
  {
    assert Low(q, 2) == q % 2 + 2 * Low(q / 2, 1);
    assert Low(q / 2, 1) == (q / 2) % 2 + 2 * Low(q / 4, 0);
  }

  /** Every size has a class, and only one. */
  lemma ClassOf(v: nat) returns (t: nat, q: nat)
    requires v >= 4
    ensures 4 <= q <= 7 && Sized(t, q) <= v < Sized(t, q + 1)
  {
    hide Shr, Low, FirstBitIndex;
    FirstBitIndexAtLeast(v, 2);
    t := ThirdOrder(v);
    q := Shr(v, t);
    FirstBitIndexOf(v);
    SplitAt(v, t);
    assert Pow2(t + 2) == 4 * Pow2(t) by { assert Pow2(t + 1) == 2 * Pow2(t); }
    var p := Pow2(t);
    assert q * p + Low(v, t) == v;
    assert (q + 1) * p == q * p + p;
    QuotientBounds(q, p, v);
  }

  lemma QuotientBounds(q: nat, p: nat, v: nat)
    requires p >= 1 && q * p <= v < q * p + p && 4 * p <= v < 8 * p
    ensures 4 <= q <= 7
  {
    ProductMono(q, 3, p);
    ProductMono(8, q, p);
  }

  /** zmalloc_resolve_order_size inverts the numbering of the classes. */
  lemma ResolveInverts(id: nat, t: nat, q: nat)
    requires 4 <= q <= 7 && id + 32 == 4 * t + q - 4
    ensures Resolve(id) == Sized(t, q)
  {
    var s := id + 32;
    assert Pow2(2) == 4;
    SplitUnique(s, 2, t, q - 4);
    AndLowMask(s, 2);
    OrFour(q - 4);
  }

  lemma OrFour(x: nat)
    requires x < 4
    ensures Or(x, 4) == x + 4
  {
    assert Or(x, 4) == if x == 0 then 4 else (x % 2) + 2 * Or(x / 2, 2);
    assert x / 2 != 0 ==> Or(x / 2, 2) == x / 2 % 2 + 2 * Or(x / 4, 1);
  }

  /** The numbering is strictly monotone, and leaves no gap. */
  lemma SizedOrder(t: nat, q: nat, t': nat, q': nat)
    requires 4 <= q <= 7 && 4 <= q' <= 7 && 4 * t + q < 4 * t' + q'
    ensures Sized(t, q + 1) <= Sized(t', q')
  {
    if t == t' {
      ProductMono(q + 1, q', Pow2(t));
    } else {
      Pow2Mono(t, t');
      ProductMono(q + 1, 8, Pow2(t));
      ProductMono(4, q', Pow2(t'));
    }
  }

  /** Resolve in terms of the class it numbers. */
  lemma ResolveIs(id: nat) returns (t: nat, q: nat)
    ensures 4 <= q <= 7 && id + 32 == 4 * t + q - 4 && Resolve(id) == Sized(t, q) && t >= 8
  {
    t, q := (id + 32) / 4, (id + 32) % 4 + 4;
    ResolveInverts(id, t, q);
  }

  lemma ResolveNext(id: nat, t: nat, q: nat)
    requires 4 <= q <= 7 && id + 32 == 4 * t + q - 4
    ensures Resolve(id + 1) == Sized(t, q + 1)
  {
    if q < 7 {
      ResolveInverts(id + 1, t, q + 1);
    } else {
      ResolveInverts(id + 1, t + 1, 4);
      assert Pow2(t + 1) == 2 * Pow2(t);
    }
  }

  lemma ResolveStep(id: nat)
    ensures Resolve(id) < Resolve(id + 1)
  {
    var t, q := ResolveIs(id);
    ResolveNext(id, t, q);
    SizedStep(t, q);
  }

  lemma ResolveMono(a: nat, b: nat)
    requires a < b
    ensures Resolve(a + 1) <= Resolve(b)
  {
    var t, q := ResolveIs(a);
    ResolveNext(a, t, q);
    var t', q' := ResolveIs(b);
    SizedOrder(t, q, t', q');
  }

  lemma ResolveAligned(id: nat)
    ensures Resolve(id) % 16 == 0 && Resolve(id) >= 1024
  {
    var t, q := ResolveIs(id);
    Pow2Sum(8, t - 8);
    Pow2Of8();
    AlignedProduct(q, Pow2(t - 8));
    Pow2Mono(8, t);
    ProductMono(4, q, Pow2(t));
  }

  lemma AlignedProduct(q: nat, p: nat)
    ensures q * (256 * p) % 16 == 0
  {
    assert q * (256 * p) == 16 * (q * 16 * p);
  }

  // push_big_chunk: the bin of a free big chunk.

  function BigBin(payload: nat): int
    requires payload >= 4
  {
    Compress(ThirdSequence(ThirdOrder(payload), payload))
  }

  /** A free big chunk goes to the bin whose class interval its payload lies in, and to no other. */
  lemma BigBinExact(payload: nat)
    requires payload >= 1024
    ensures BigBin(payload) >= 0
    ensures Resolve(BigBin(payload)) <= payload < Resolve(BigBin(payload) + 1)
    ensures forall b: nat :: Resolve(b) <= payload < Resolve(b + 1) ==> b == BigBin(payload)
  {
    var t, q := ClassOf(payload);
    SequenceOf(t, q, payload);
    ClassAtLeast(t, q, payload);
    var c: nat := BigBin(payload);
    ResolveInverts(c, t, q);
    ResolveNext(c, t, q);
    forall b: nat | Resolve(b) <= payload < Resolve(b + 1) ensures b == c {
      if b < c { ResolveMono(b, c); }
      if c < b { ResolveMono(c, b); }
    }
  }

  lemma ClassAtLeast(t: nat, q: nat, v: nat)
    requires v >= 1024 && 4 <= q <= 7 && Sized(t, q) <= v < Sized(t, q + 1)
    ensures t >= 8
  {
    if t < 8 {
      SizedOrder(t, q, 8, 4);
      Pow2Of8();
    }
  }

  lemma Pow2Of8()
    ensures Pow2(8) == 256
  {
    assert Pow2(4) == 16;
    Pow2Sum(4, 4);
  }

  lemma Pow2Of23()
    ensures Pow2(23) == 8388608 && Pow2(32) == 4294967296
  {
    Pow2Of8();
    Pow2Sum(8, 8);
    Pow2Sum(16, 8);
    Pow2Sum(24, 8);
    assert Pow2(24) == 2 * Pow2(23);
  }

  lemma BigBinInRange(payload: nat)
    requires 1024 <= payload < DEFAULT_BLOCK
    ensures 0 <= BigBin(payload) <= 51
  {
    BigBinExact(payload);
    var c: nat := BigBin(payload);
    assert Resolve(52) == Pow2(23) by {
      ResolveInverts(52, 21, 4);
      assert Pow2(22) == 2 * Pow2(21);
    }
    Pow2Of23();
    if c > 51 { ResolveMono(51, c); }
  }

  // alloc_slot: rounding to the size of std::max_align_t, a power of two.

  function AlignUp(n: nat, shift: nat): nat
    requires shift <= 64
  {
    Pow2Mono(shift, 64);
    And(n + (Pow2(shift) - 1), Pow2(64) - Pow2(shift))
  }

  /** The least multiple not below `n`; a multiple of 16 if the power is at least 16. */
  lemma AlignUpIs(n: nat, shift: nat)
    requires shift <= 64 && n + (Pow2(shift) - 1) < Pow2(64)
    ensures n <= AlignUp(n, shift) < n + Pow2(shift) && AlignUp(n, shift) % Pow2(shift) == 0
    ensures forall m: nat :: n <= m * Pow2(shift) ==> AlignUp(n, shift) <= m * Pow2(shift)
    ensures shift >= 4 ==> AlignUp(n, shift) % 16 == 0
  {
    hide *;
    Pow2Mono(shift, 64);
    AlignUpUnfolds(n, shift);
    AndHighMask(n + (Pow2(shift) - 1), shift, 64);
    SplitAt(n + (Pow2(shift) - 1), shift);
    var q, r := Shr(n + (Pow2(shift) - 1), shift), Low(n + (Pow2(shift) - 1), shift);
    LeastMultipleOf(n, Pow2(shift), AlignUp(n, shift), q, r);
    QuotientIs(AlignUp(n, shift), q, 0, Pow2(shift));
    if shift >= 4 {
      Sixteens(shift - 4, shift, q);
    }
  }

  lemma AlignUpUnfolds(n: nat, shift: nat)
    requires shift <= 64
    ensures Pow2(shift) <= Pow2(64) && AlignUp(n, shift) == And(n + (Pow2(shift) - 1), Pow2(64) - Pow2(shift))
  {
    Pow2Mono(shift, 64);
    hide And, Pow2;
  }

  lemma LeastMultipleOf(n: nat, p: nat, a: nat, q: nat, r: nat)
    requires p >= 1 && a == q * p && n + (p - 1) == a + r && r < p
    ensures n <= a < n + p
    ensures forall m: nat :: n <= m * p ==> a <= m * p
  {
    forall m: nat | n <= m * p ensures a <= m * p {
      if m < q { ProductMono(m + 1, q, p); }
    }
  }

  lemma Sixteens(k: nat, shift: nat, q: nat)
    requires shift == k + 4
    ensures q * Pow2(shift) % 16 == 0
  {
    assert Pow2(4) == 16;
    Pow2Sum(4, k);
    SixteenTimes(q, Pow2(k));
  }

  lemma SixteenTimes(q: nat, p: nat)
    ensures q * (16 * p) % 16 == 0
  {
    assert q * (16 * p) == 16 * (q * p);
  }

  // alloc_memory, the big path: 256-rounding, then rounding up by the third bit.

  function Align256(n: nat): nat {
    And(n + 255, Pow2(32) - Pow2(8))
  }

  lemma LeastMultiple(n: nat, a: nat, q: nat, r: nat)
    requires a == 256 * q && n + 255 == a + r && r < 256
    ensures n <= a < n + 256 && a % 256 == 0
    ensures forall m: nat :: n <= m && m % 256 == 0 ==> a <= m
  {
    forall m: nat | n <= m && m % 256 == 0 ensures a <= m {
      assert m == 256 * (m / 256);
    }
  }

  lemma Align256Unfolds(n: nat)
    ensures Pow2(8) <= Pow2(32) && Align256(n) == And(n + 255, Pow2(32) - Pow2(8))
  {
    Pow2Mono(8, 32);
    hide And, Pow2;
  }

  /** Rounds up to the least multiple of 256 that is not below its argument. */
  lemma Align256Is(n: nat)
    requires n + 255 < Pow2(32)
    ensures n <= Align256(n) < n + 256 && Align256(n) % 256 == 0
    ensures forall m: nat :: n <= m && m % 256 == 0 ==> Align256(n) <= m
  {
    hide *;
    Align256Unfolds(n);
    Pow2Mono(8, 32);
    AndHighMask(n + 255, 8, 32);
    Pow2Of8();
    SplitAt(n + 255, 8);
    LeastMultiple(n, Align256(n), Shr(n + 255, 8), Low(n + 255, 8));
  }

  function BigValue(bytes: nat): nat {
    AlignThirdBitValue(Align256(bytes))
  }

  function BigClass(bytes: nat): int
    requires BigValue(bytes) >= 4
  {
    Compress(ThirdSequence(ThirdOrder(BigValue(bytes)), BigValue(bytes)))
  }

  function BigPayload(bytes: nat): nat
    requires 4 <= BigValue(bytes) && ThirdOrder(BigValue(bytes)) < 32
  {
    Pow2Mono(ThirdOrder(BigValue(bytes)), 32);
    And(BigValue(bytes), Pow2(32) - Shl(1, ThirdOrder(BigValue(bytes))))
  }

  lemma ShrThree(p: nat)
    requires p >= 1
    ensures Shr(8 * p - 1, 3) == p - 1
  {
    assert Pow2(3) == 8;
    SplitUnique(8 * p - 1, 3, p - 1, 7);
  }

  lemma AlignThirdBitUnfolds(v: nat)
    ensures AlignThirdBitValue(v) == v + Shr(FillRight(v), 3)
  {
  }

  lemma AlignThirdBitIs(v: nat, t: nat, q: nat)
    requires 4 <= q <= 7 && Sized(t, q) <= v < Sized(t, q + 1) && v < Pow2(32)
    ensures AlignThirdBitValue(v) == v + Pow2(t) - 1
  {
    hide *;
    SequenceOf(t, q, v);
    Pow2Plus(t);
    FillRightValue(v);
    ShrThree(Pow2(t));
    AlignThirdBitUnfolds(v);
  }

  /** Where rounding up by the third bit lands: on the class itself, or on the next one. */
  lemma AlignThirdBitLands(v: nat, t: nat, q: nat) returns (t': nat, q': nat)
    requires 4 <= q <= 7 && Sized(t, q) <= v < Sized(t, q + 1) && v < Pow2(32)
    ensures 4 <= q' <= 7 && Sized(t', q') <= AlignThirdBitValue(v) < Sized(t', q' + 1)
    ensures v == Sized(t, q) ==> t' == t && q' == q
    ensures v > Sized(t, q) ==> 4 * t' + q' == 4 * t + q + 1
  {
    AlignThirdBitIs(v, t, q);
    SizedStep(t, q);
    SizedStep(t, q + 1);
    SizedStep(t + 1, 4);
    Pow2Plus(t);
    hide Sized, Pow2, AlignThirdBitValue;
    if v == Sized(t, q) {
      t', q' := t, q;
    } else if q < 7 {
      t', q' := t, q + 1;
    } else {
      t', q' := t + 1, 4;
    }
  }

  ghost predicate ClassValue(n: nat, t: nat, q: nat) {
    4 <= q <= 7 && n == Sized(t, q)
  }

  lemma BigPayloadIs(bytes: nat, t: nat, q: nat)
    requires 4 <= q <= 7 && 36 <= 4 * t + q <= 72
    requires Sized(t, q) <= BigValue(bytes) < Sized(t, q + 1) && BigValue(bytes) < Pow2(32)
    ensures BigValue(bytes) >= 4 && ThirdOrder(BigValue(bytes)) < 32
    ensures BigClass(bytes) == 4 * t + q - 36
    ensures BigPayload(bytes) == Sized(t, q) == Resolve(BigClass(bytes))
  {
    var x := BigValue(bytes);
    hide And, Or, Shr, Low, Resolve, Sized, BigValue, FirstBitIndex;
    SequenceOf(t, q, x);
    Pow2Mono(t, 32);
    AndHighMask(x, t, 32);
    ResolveInverts(BigClass(bytes), t, q);
  }

  /**
    A big request gets the least size of the form {4,5,6,7} * 2^t that is not below the 256-rounded
    request; that size is the least payload of the bin it is looked up in, and wastes less than a quarter.
   */
  lemma BigRounding(bytes: nat)
    requires SMALL_MAX_REQUEST - FINE_SIZE <= bytes < BIG_MAX_REQUEST
    ensures BigValue(bytes) >= 4 && ThirdOrder(BigValue(bytes)) < 32
    ensures 0 <= BigClass(bytes) <= 36
    ensures BigPayload(bytes) == Resolve(BigClass(bytes))
    ensures bytes <= Align256(bytes) <= BigPayload(bytes)
    ensures 4 * BigPayload(bytes) < 5 * Align256(bytes)
    ensures forall n: nat, t: nat, q: nat :: ClassValue(n, t, q) && Align256(bytes) <= n ==> BigPayload(bytes) <= n
  {
    Pow2Of23();
    Align256Is(bytes);
    var v := Align256(bytes);
    assert 1024 <= v <= 524288 by { assert 524288 % 256 == 0; }
    var t, q := ClassOf(v);
    ClassAtLeast(t, q, v);
    var t', q' := AlignThirdBitLands(v, t, q);
    AlignThirdBitIs(v, t, q);
    ClassBelow(t, q, v);
    hide Align256, AlignThirdBitValue, Sized, Pow2;
    BigPayloadIs(bytes, t', q');
    NextClass(t, q, t', q', v);
    forall n: nat, u: nat, r: nat | ClassValue(n, u, r) && v <= n ensures Sized(t', q') <= n {
      LeastClass(t, q, t', q', v, u, r);
    }
  }

  lemma ClassBelow(t: nat, q: nat, v: nat)
    requires 4 <= q <= 7 && Sized(t, q) <= v < Sized(t, q + 1) && v <= 524288
    ensures 4 * t + q <= 4 * 17 + 4 && (4 * t + q == 4 * 17 + 4 ==> v == Sized(t, q))
    ensures v + Pow2(t) <= Pow2(32)
  {
    SizedAtLimit();
    SizedStep(17, 4);
    hide Sized, Pow2;
    if 4 * t + q > 4 * 17 + 4 {
      SizedOrder(17, 4, t, q);
    } else {
      assert t <= 17;
      Pow2Mono(t, 17);
      assert 4 * t + q == 4 * 17 + 4 ==> t == 17 && q == 4;
    }
  }

  lemma SizedAtLimit()
    ensures Sized(17, 4) == 524288 && 4 * Pow2(17) == 524288 && Pow2(32) > 2 * 524288
  {
    Pow2Of23();
    Pow2Sum(6, 17);
    Pow2Sum(3, 3);
    assert Pow2(3) == 8;
  }

  lemma NextClass(t: nat, q: nat, t': nat, q': nat, v: nat)
    requires 4 <= q <= 7 && 4 <= q' <= 7 && Sized(t, q) <= v < Sized(t, q + 1)
    requires v == Sized(t, q) ==> t' == t && q' == q
    requires v > Sized(t, q) ==> 4 * t' + q' == 4 * t + q + 1
    ensures v <= Sized(t', q') && 4 * Sized(t', q') < 5 * v
  {
    var p := Pow2(t);
    assert Sized(t, q + 1) == Sized(t, q) + p;
    ProductMono(4, q, p);
    if v > Sized(t, q) {
      if q < 7 {
        assert t' == t && q' == q + 1;
      } else {
        assert t' == t + 1 && q' == 4;
        assert Pow2(t + 1) == 2 * p;
      }
      assert Sized(t', q') == Sized(t, q + 1);
    }
  }

  lemma LeastClass(t: nat, q: nat, t': nat, q': nat, v: nat, u: nat, r: nat)
    requires 4 <= q <= 7 && 4 <= q' <= 7 && 4 <= r <= 7 && Sized(t, q) <= v <= Sized(u, r)
    requires v == Sized(t, q) ==> t' == t && q' == q
    requires v > Sized(t, q) ==> 4 * t' + q' == 4 * t + q + 1
    ensures Sized(t', q') <= Sized(u, r)
  {
    if 4 * u + r < 4 * t' + q' {
      SizedOrder(u, r, t', q');
      if v > Sized(t, q) && 4 * u + r < 4 * t + q {
        SizedOrder(u, r, t, q);
      }
    } else if 4 * t' + q' < 4 * u + r {
      SizedOrder(t', q', u, r);
    }
  }

  // alloc_memory, the small path, and push_small_chunk.

  function SmallId(bytes: nat): nat {
    Shr(if bytes < FINE_SIZE then FINE_SIZE else bytes + 15, FINE_SHIFT)
  }

  /** A small request gets the least multiple of 16 that holds it, at least 16. */
  lemma SmallIdIs(bytes: nat)
    requires bytes < SMALL_MAX_REQUEST - FINE_SIZE
    ensures 1 <= SmallId(bytes) <= 63
    ensures bytes <= Shl(SmallId(bytes), FINE_SHIFT) == 16 * SmallId(bytes)
    ensures 16 * SmallId(bytes) < bytes + 16 || SmallId(bytes) == 1
  {
    assert Pow2(4) == 16;
    var n := if bytes < FINE_SIZE then FINE_SIZE else bytes + 15;
    SplitAt(n, 4);
    var q, r := Shr(n, 4), Low(n, 4);
    assert n == 16 * q + r && r < 16;
  }

  function SmallBin(payload: nat): nat {
    var id := Shr(payload, FINE_SHIFT);
    if id >= BINS then BINS - 1 else id
  }

  lemma SmallBinIs(payload: nat)
    ensures SmallBin(payload) < BINS
    ensures 16 * SmallBin(payload) <= payload
    ensures SmallBin(payload) < 63 ==> payload < 16 * SmallBin(payload) + 16
  {
    assert Pow2(4) == 16;
    SplitAt(payload, 4);
    var q, r := Shr(payload, 4), Low(payload, 4);
    assert payload == 16 * q + r && r < 16;
  }

  // Direct blocks: the class is only a counter index, capped at the last one.

  function DirectValue(bytes: nat): nat {
    var padding := Align256(bytes);
    AlignThirdBitValue(if padding > Resolve(BIG_MAX_BIN) then Resolve(BIG_MAX_BIN) else padding)
  }

  function DirectClass(bytes: nat): int
    requires DirectValue(bytes) >= 4
  {
    Compress(ThirdSequence(ThirdOrder(DirectValue(bytes)), DirectValue(bytes)))
  }

  lemma Resolve62()
    ensures Resolve(62) == Sized(23, 6) == 50331648
  {
    Pow2Of23();
    ResolveInverts(62, 23, 6);
  }

  lemma DirectClassInRange(bytes: nat)
    requires BIG_MAX_REQUEST <= bytes && bytes + 255 < Pow2(32)
    ensures DirectValue(bytes) >= 4 && 0 <= DirectClass(bytes) <= BIG_MAX_BIN
  {
    Align256Is(bytes);
    Pow2Of23();
    Resolve62();
    hide Resolve, Align256;
    var padding := Align256(bytes);
    var v := if padding > Resolve(62) then Resolve(62) else padding;
    CappedClass(v);
  }

  lemma CappedClass(v: nat)
    requires 1024 <= v <= Sized(23, 6)
    ensures var x := AlignThirdBitValue(v); x >= 4 && 0 <= Compress(ThirdSequence(ThirdOrder(x), x)) <= BIG_MAX_BIN
  {
    Pow2Of23();
    var t, q := ClassOf(v);
    ClassAtLeast(t, q, v);
    assert Sized(23, 7) == Sized(23, 6) + Pow2(23);
    var t', q' := AlignThirdBitLands(v, t, q);
    SequenceOf(t', q', AlignThirdBitValue(v));
    hide Sized, AlignThirdBitValue, Pow2;
    if 4 * t + q > 4 * 23 + 6 {
      SizedOrder(23, 6, t, q);
    } else if 4 * t + q == 4 * 23 + 6 {
      assert t == 23 && q == 6;
    }
  }

  /** The class a direct request is counted under has the least size that holds the rounded request, or 48 MiB. */
  lemma DirectClassIs(bytes: nat)
    requires BIG_MAX_REQUEST <= bytes && bytes + 255 < Pow2(32)
    ensures DirectValue(bytes) >= 4 && DirectClass(bytes) >= 0
    ensures var v := if Align256(bytes) > 50331648 then 50331648 else Align256(bytes);
            && v <= Resolve(DirectClass(bytes))
            && forall n: nat, t: nat, q: nat :: ClassValue(n, t, q) && v <= n ==> Resolve(DirectClass(bytes)) <= n
  {
    DirectClassInRange(bytes);
    Align256Is(bytes);
    Pow2Of23();
    Resolve62();
    hide Resolve, Align256;
    LeastClassNumber(if Align256(bytes) > 50331648 then 50331648 else Align256(bytes));
  }

  lemma LeastClassNumber(v: nat)
    requires 1024 <= v <= Sized(23, 6)
    ensures AlignThirdBitValue(v) >= 4
    ensures var x := AlignThirdBitValue(v);
            var c := Compress(ThirdSequence(ThirdOrder(x), x));
            && c >= 0 && v <= Resolve(c)
            && forall n: nat, t: nat, q: nat :: ClassValue(n, t, q) && v <= n ==> Resolve(c) <= n
  {
    CappedClass(v);
    Pow2Of23();
    var t, q := ClassOf(v);
    ClassAtLeast(t, q, v);
    var t', q' := AlignThirdBitLands(v, t, q);
    var x := AlignThirdBitValue(v);
    SequenceOf(t', q', x);
    var c: nat := Compress(ThirdSequence(ThirdOrder(x), x));
    ResolveInverts(c, t', q');
    NextClass(t, q, t', q', v);
    hide Sized, AlignThirdBitValue, Pow2, Resolve, ThirdSequence, ThirdOrder;
    forall n: nat, u: nat, r: nat | ClassValue(n, u, r) && v <= n ensures Sized(t', q') <= n {
      LeastClass(t, q, t', q', v, u, r);
    }
  }

  // Direct blocks, power of two.

  /** zmalloc_ceil_power_of_2 gives the least power of two that is not below its argument. */
  lemma CeilPowerOf2Is(n: nat) returns (k: nat)
    requires 1 <= n <= Pow2(31)
    ensures k <= 31 && CeilPowerOf2(n) == Pow2(k)
    ensures n <= CeilPowerOf2(n) <= Pow2(31)
    ensures forall j: nat :: n <= Pow2(j) ==> CeilPowerOf2(n) <= Pow2(j)
  {
    hide *;
    if n == 1 {
      k := 0;
      CeilOfOne();
      Pow2Mono(0, 31);
      forall j: nat ensures Pow2(0) <= Pow2(j) { Pow2Mono(0, j); }
    } else {
      k := CeilExponent(n);
      forall j: nat | n <= Pow2(j) ensures Pow2(k) <= Pow2(j) {
        if j < k { Pow2Mono(j, k - 1); } else { Pow2Mono(k, j); }
      }
    }
  }

  lemma CeilOfOne()
    ensures CeilPowerOf2(1) == Pow2(0) == 1
  {
  }

  lemma CeilExponent(n: nat) returns (k: nat)
    requires 2 <= n <= Pow2(31)
    ensures 1 <= k <= 31 && CeilPowerOf2(n) == Pow2(k)
    ensures Pow2(k - 1) < n <= Pow2(k) <= Pow2(31)
  {
    k := FirstBitIndex(n - 1) + 1;
    hide FirstBitIndex, FillRight, Pow2;
    Pow2Mono(31, 32);
    FillRightValue(n - 1);
    FirstBitIndexOf(n - 1);
    if k > 31 { Pow2Mono(31, k - 1); }
    Pow2Mono(k, 31);
    TwicePow2(k - 1);
  }
}
