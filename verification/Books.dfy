/** The allocator's totals and counters, and how closely an allocation fits its request. */
module Books {
  import opened Bits
  import opened SizeClasses
  import opened Tiling
  import opened Roles
  import opened Core
  import opened Accounting

  datatype Totals = Totals(reqCount: int, reqBytes: int, allocBytes: int, freeCount: int, freeBytes: int)

  /** `alloc_counter_` and `free_counter_`, by row and bin. */
  type Counter = map<(nat, nat), int>

  const ROWS: nat := 128

  ghost predicate CounterOk(c: Counter) {
    forall row: nat, bin: nat :: row < ROWS && bin < BINS ==> (row, bin) in c
  }

  function Bump(c: Counter, row: nat, bin: nat, n: int): Counter
    requires (row, bin) in c
  {
    c[(row, bin) := c[(row, bin)] + n]
  }

  /** The counter update made when `l` is handed out, and the one made when it comes back. */
  function Counted(c: Counter, l: Live): Counter
    requires (Row(l.color, l.kind.big), l.bin) in c && (Row(l.color, l.kind.big), BIG_LOG_BIN) in c
  {
    var row := Row(l.color, l.kind.big);
    var d := Bump(c, row, l.bin, 1);
    if l.kind.direct && l.bin == BIG_MAX_BIN then Bump(d, row, BIG_LOG_BIN, l.size) else d
  }

  ghost predicate ClassesOk(live: map<int, Live>, allocs: Counter, frees: Counter) {
    && CounterOk(allocs) && CounterOk(frees)
    && forall row: nat, bin: nat {:trigger Total(live, Class(row, bin))} :: row < ROWS && bin < BINS ==>
         allocs[(row, bin)] - frees[(row, bin)] == Total(live, Class(row, bin))
  }

  ghost predicate SlotTotalsOk(live: map<int, Live>, slots: seq<Slot>) {
    && |slots| == SLOTS
    && forall s: nat {:trigger slots[s]} :: s < SLOTS ==>
         && slots[s].allocCount - slots[s].freeCount == Total(live, SlotCount(s))
         && slots[s].allocBytes - slots[s].freeBytes == Total(live, SlotBytes(s))
  }

  /** Allocated less freed is live, in total, by colour and class, and by slot. */
  ghost predicate TotalsOk(live: map<int, Live>, totals: Totals, allocs: Counter, frees: Counter, slots: seq<Slot>) {
    && totals.allocBytes - totals.freeBytes == Total(live, Bytes)
    && ClassesOk(live, allocs, frees) && SlotTotalsOk(live, slots)
  }

  lemma CounterHas(c: Counter, l: Live)
    requires CounterOk(c) && l.color < 63 && l.bin < BINS
    ensures Row(l.color, l.kind.big) < ROWS
    ensures (Row(l.color, l.kind.big), l.bin) in c && (Row(l.color, l.kind.big), BIG_LOG_BIN) in c
  {
  }

  /** A counter update changes each entry by the weight of the allocation. */
  lemma CountedEntry(c: Counter, l: Live, row: nat, bin: nat)
    requires CounterOk(c) && l.color < 63 && l.bin < BINS && !l.kind.slot && row < ROWS && bin < BINS
    ensures (Row(l.color, l.kind.big), l.bin) in c && (Row(l.color, l.kind.big), BIG_LOG_BIN) in c
    ensures (row, bin) in Counted(c, l) && Counted(c, l)[(row, bin)] == c[(row, bin)] + Weight(Class(row, bin), l)
  {
    CounterHas(c, l);
    hide CounterOk;
  }

  lemma CountedOk(c: Counter, l: Live)
    requires CounterOk(c) && l.color < 63 && l.bin < BINS && !l.kind.slot
    ensures (Row(l.color, l.kind.big), l.bin) in c && (Row(l.color, l.kind.big), BIG_LOG_BIN) in c
    ensures CounterOk(Counted(c, l))
  {
    CounterHas(c, l);
    forall row: nat, bin: nat | row < ROWS && bin < BINS ensures (row, bin) in Counted(c, l) {
      CountedEntry(c, l, row, bin);
    }
  }

  lemma ClassesAdd(live: map<int, Live>, allocs: Counter, frees: Counter, a: int, l: Live)
    requires ClassesOk(live, allocs, frees) && a !in live && l.color < 63 && l.bin < BINS && !l.kind.slot
    ensures (Row(l.color, l.kind.big), l.bin) in allocs && (Row(l.color, l.kind.big), BIG_LOG_BIN) in allocs
    ensures ClassesOk(live[a := l], Counted(allocs, l), frees)
  {
    TotalAdd(live, a, l);
    CountedOk(allocs, l);
    hide CounterOk, Weight, Counted, Total;
    forall row: nat, bin: nat | row < ROWS && bin < BINS
      ensures (row, bin) in Counted(allocs, l) && (row, bin) in frees
      ensures Counted(allocs, l)[(row, bin)] - frees[(row, bin)] == Total(live[a := l], Class(row, bin))
    {
      CountedEntry(allocs, l, row, bin);
      InCounter(allocs, row, bin);
      InCounter(frees, row, bin);
      assert allocs[(row, bin)] - frees[(row, bin)] == Total(live, Class(row, bin));
    }
  }

  lemma InCounter(c: Counter, row: nat, bin: nat)
    requires CounterOk(c) && row < ROWS && bin < BINS
    ensures (row, bin) in c
  {
  }

  lemma ClassesRemove(live: map<int, Live>, allocs: Counter, frees: Counter, a: int)
    requires ClassesOk(live, allocs, frees) && a in live
    requires live[a].color < 63 && live[a].bin < BINS && !live[a].kind.slot
    ensures (Row(live[a].color, live[a].kind.big), live[a].bin) in frees
    ensures (Row(live[a].color, live[a].kind.big), BIG_LOG_BIN) in frees
    ensures ClassesOk(live - {a}, allocs, Counted(frees, live[a]))
  {
    var l := live[a];
    TotalRemove(live, a);
    CountedOk(frees, l);
    hide CounterOk, Weight, Counted, Total;
    forall row: nat, bin: nat | row < ROWS && bin < BINS
      ensures (row, bin) in Counted(frees, l) && (row, bin) in allocs
      ensures allocs[(row, bin)] - Counted(frees, l)[(row, bin)] == Total(live - {a}, Class(row, bin))
    {
      CountedEntry(frees, l, row, bin);
      InCounter(allocs, row, bin);
      InCounter(frees, row, bin);
      assert allocs[(row, bin)] - frees[(row, bin)] == Total(live, Class(row, bin));
    }
  }

  // What changes when an allocation of alloc_memory is added or removed.

  lemma TotalsAdd(live: map<int, Live>, totals: Totals, allocs: Counter, frees: Counter, slots: seq<Slot>,
                  a: int, l: Live)
    requires TotalsOk(live, totals, allocs, frees, slots) && a !in live && l.color < 63 && l.bin < BINS && !l.kind.slot
    ensures (Row(l.color, l.kind.big), l.bin) in allocs && (Row(l.color, l.kind.big), BIG_LOG_BIN) in allocs
    ensures TotalsOk(live[a := l], totals.(allocBytes := totals.allocBytes + l.size), Counted(allocs, l), frees, slots)
  {
    TotalAdd(live, a, l);
    hide ClassesOk, Total;
    ClassesAdd(live, allocs, frees, a, l);
  }

  lemma TotalsRemove(live: map<int, Live>, totals: Totals, allocs: Counter, frees: Counter, slots: seq<Slot>, a: int)
    requires TotalsOk(live, totals, allocs, frees, slots) && a in live
    requires live[a].color < 63 && live[a].bin < BINS && !live[a].kind.slot
    ensures (Row(live[a].color, live[a].kind.big), live[a].bin) in frees
    ensures (Row(live[a].color, live[a].kind.big), BIG_LOG_BIN) in frees
    ensures TotalsOk(live - {a}, totals.(freeCount := totals.freeCount + 1,
                                         freeBytes := totals.freeBytes + live[a].size),
                     allocs, Counted(frees, live[a]), slots)
  {
    TotalRemove(live, a);
    hide ClassesOk, Total;
    ClassesRemove(live, allocs, frees, a);
  }

  // The same for an object of a slot.

  function SlotGave(slot: Slot, size: int): Slot {
    slot.(allocCount := slot.allocCount + 1, allocBytes := slot.allocBytes + size)
  }

  function SlotTook(slot: Slot, size: int): Slot {
    slot.(freeCount := slot.freeCount + 1, freeBytes := slot.freeBytes + size)
  }

  /** An object of a slot is in no class. */
  lemma ClassesKeep(live: map<int, Live>, live': map<int, Live>, allocs: Counter, frees: Counter)
    requires ClassesOk(live, allocs, frees)
    requires forall row: nat, bin: nat :: Total(live', Class(row, bin)) == Total(live, Class(row, bin))
    ensures ClassesOk(live', allocs, frees)
  {
    hide Total;
    forall row: nat, bin: nat | row < ROWS && bin < BINS
      ensures (row, bin) in allocs && (row, bin) in frees
              && allocs[(row, bin)] - frees[(row, bin)] == Total(live', Class(row, bin))
    {
      InCounter(allocs, row, bin);
      InCounter(frees, row, bin);
      assert Total(live', Class(row, bin)) == Total(live, Class(row, bin));
    }
  }

  lemma SlotAdd(live: map<int, Live>, totals: Totals, allocs: Counter, frees: Counter, slots: seq<Slot>,
                a: int, l: Live)
    requires TotalsOk(live, totals, allocs, frees, slots) && a !in live && l.kind.slot && l.kind.slotId < SLOTS
    ensures l.kind.slotId < |slots|
    ensures TotalsOk(live[a := l], totals.(allocBytes := totals.allocBytes + l.size), allocs, frees,
                     slots[l.kind.slotId := SlotGave(slots[l.kind.slotId], l.size)])
  {
    hide ClassesOk, Total;
    TotalAdd(live, a, l);
    ClassesKeep(live, live[a := l], allocs, frees);
  }

  lemma SlotRemove(live: map<int, Live>, totals: Totals, allocs: Counter, frees: Counter, slots: seq<Slot>, a: int)
    requires TotalsOk(live, totals, allocs, frees, slots) && a in live && live[a].kind.slot
             && live[a].kind.slotId < SLOTS
    ensures live[a].kind.slotId < |slots|
    ensures TotalsOk(live - {a}, totals.(freeCount := totals.freeCount + 1,
                                         freeBytes := totals.freeBytes + live[a].size), allocs, frees,
                     slots[live[a].kind.slotId := SlotTook(slots[live[a].kind.slotId], live[a].size)])
  {
    hide ClassesOk, Total;
    TotalRemove(live, a);
    ClassesKeep(live, live - {a}, allocs, frees);
  }

  /** How an allocation fits its request: its class, and the bound on what it wastes. */
  ghost predicate Fits(l: Live) {
    && l.color < 63 && l.bin < (if l.kind.slot then SLOTS else BINS)
    && l.request <= l.size - PADDING
    && if l.kind.slot then l.kind.slotId == l.bin && l.size >= l.kind.least
       else if l.kind.direct then
         && BIG_MAX_REQUEST <= l.request && DirectValue(l.request) >= 4 && l.bin == DirectClass(l.request)
       else if l.kind.big then
         && SMALL_MAX_REQUEST - FINE_SIZE <= l.request < BIG_MAX_REQUEST && BigValue(l.request) >= 4
         && l.bin == BigClass(l.request)
         && Resolve(l.bin) <= l.size - PADDING < Max(Resolve(l.bin + 1), Resolve(l.bin) + BIG_LEAST)
       else
         && l.request < SMALL_MAX_REQUEST - FINE_SIZE && l.bin == SmallId(l.request)
         && 16 * l.bin <= l.size - PADDING && (l.request <= 976 ==> l.size - PADDING <= 16 * (l.bin + 1))
  }

  ghost predicate FitsOk(live: map<int, Live>) {
    forall a: int {:trigger a in live} :: a in live ==> Fits(live[a])
  }

  /** A slot is unused, or its sizes are those fixed at its first request. */
  ghost predicate SlotShape(slot: Slot) {
    slot.userSize == 0 ||
    (&& 16 <= slot.userSize && slot.userSize % 16 == 0 && slot.userSize + 112 <= slot.blockSize
     && slot.blockSize % 16 == 0
     && slot.blockSize + 112 <= Pow2(31) && slot.maxChunk == CeilPowerOf2(slot.blockSize + 112) - OVERHEAD)
  }

  ghost predicate SlotShapes(slots: seq<Slot>) {
    forall s: nat {:trigger slots[s]} :: s < |slots| ==> SlotShape(slots[s])
  }
}
