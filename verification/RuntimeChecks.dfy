/**
  The allocator's own run-time checks, against a consistent state: check_chunk, check_free_chunk,
  check_free_chunk_list and check_bitmap. Two of them do not fit the slot allocator: check_chunk asks every chunk
  with the big flag for the least size of the big level, and check_free_chunk asks for the number of a bin where
  the objects of a slot have the number of the slot.
 */
module RuntimeChecks {
  import opened Bits
  import opened SizeClasses
  import opened Tiling
  import opened Books
  import opened Roles
  import opened Bins
  import opened Core
  import opened SlotBlocks
  import opened ZmallocState
  import opened Zmalloc
  import opened Guarantees

  /** What check_chunk asks of the tags and sizes of a chunk and its two neighbours. */
  ghost predicate NeighboursAgree(m: Memory, a: int) {
    && a in m.thisSize && a in m.prevSize && a in m.flags
    && var next, front := a + m.thisSize[a], a - m.prevSize[a];
       && next in m.thisSize && next in m.prevSize && next in m.flags && front in m.thisSize && front in m.flags
       && m.prevSize[next] == m.thisSize[a] && m.prevSize[a] == m.thisSize[front]
       && m.flags[a].Level() == m.flags[next].Level() == m.flags[front].Level()
       && m.thisSize[a] >= SMALL_LEAST
       && (!m.flags[a].direct ==>
             && m.thisSize[a] <= DEFAULT_BLOCK - BLOCK_TYPE - FREE_CHUNK * 2
             && m.thisSize[a] + m.thisSize[next] + m.thisSize[front] <= DEFAULT_BLOCK - BLOCK_TYPE)
  }

  ghost predicate CheckChunk(m: Memory, a: int) {
    NeighboursAgree(m, a) && (m.flags[a].Level() > 0 ==> m.thisSize[a] >= SMALL_MAX_REQUEST + PADDING)
  }

  lemma NeighbourRoles(L: Layout, S: Status, B: Bins, slots: seq<Slot>, a: int)
    requires CoreOk(L, S, B, slots) && IsBody(L, a)
    ensures a in S.flags && NextOf(L, a) in S.flags && FrontOf(L, a) in S.flags
    ensures S.flags[a].big == S.flags[NextOf(L, a)].big == S.flags[FrontOf(L, a)].big
    ensures L.home[a] in S.kinds && S.flags[a].direct == S.kinds[L.home[a]].direct
            && S.flags[a].big == S.kinds[L.home[a]].big
    ensures S.flags[a].slot == S.kinds[L.home[a]].slot
    ensures a in S.binId && (S.flags[a].slot || S.binId[a] < BINS)
  {
    ChunkIsOk(L, a);
    hide Tiled, SizeOk, BodyRole, LevelSize, BinsOk, KindsOk, RolesWithin, Coalesced;
    assert RoleOk(L, S, a) && RoleOk(L, S, NextOf(L, a)) && RoleOk(L, S, FrontOf(L, a));
  }

  /** A chunk and its neighbours lie behind the header of their block. */
  lemma NeighboursFit(L: Layout, a: int)
    requires Tiled(L) && IsBody(L, a)
    ensures NextOf(L, a) in L.thisSize && NextOf(L, a) in L.prevSize && FrontOf(L, a) in L.thisSize
    ensures L.prevSize[NextOf(L, a)] == L.thisSize[a] && L.prevSize[a] == L.thisSize[FrontOf(L, a)]
    ensures L.thisSize[a] >= LEAST
    ensures L.thisSize[a] <= L.blocks[L.home[a]] - OVERHEAD
    ensures L.thisSize[a] + L.thisSize[NextOf(L, a)] + L.thisSize[FrontOf(L, a)] <= L.blocks[L.home[a]] - HEAD
  {
    ChunkIsOk(L, a);
    ChunkIsOk(L, NextOf(L, a));
    ChunkIsOk(L, FrontOf(L, a));
  }

  /**
    check_chunk passes for every chunk that is not a sentinel, except exactly for those of a slot that are smaller
    than the least big chunk.
   */
  lemma ChunkCheck(z: Zmalloc, a: int)
    requires z.Valid() && IsBody(LayoutOf(z.mem, z.model), a)
    ensures a in z.mem.thisSize && a in z.mem.flags
    ensures CheckChunk(z.mem, a) <==> !z.mem.flags[a].slot || z.mem.thisSize[a] >= BIG_LEAST
  {
    hide CoreOk, StoreOk, CountsOk, TotalsOk, FitsOk, SlotShapes, Tiled, CheckChunk;
    LegalSizes(z, a);
    CheckPasses(z.mem, z.model, z.bitmap, z.slots, a);
  }

  lemma CheckPasses(m: Memory, g: Model, bitmap: seq<nat>, slots: seq<Slot>, a: int)
    requires Consistent(m, g, bitmap, slots) && IsBody(LayoutOf(m, g), a)
    requires g.home[a] in g.kinds && g.home[a] in g.blocks
    requires var kind := g.kinds[g.home[a]];
             !kind.slot ==> (!kind.direct ==> g.blocks[g.home[a]] == DEFAULT_BLOCK)
                            && (kind.big ==> m.thisSize[a] >= BIG_LEAST)
    ensures a in m.flags && (CheckChunk(m, a) <==> !m.flags[a].slot || m.thisSize[a] >= BIG_LEAST)
  {
    hide CoreOk, Tiled, KindOk;
    var L, S, B := LayoutOf(m, g), StatusOf(m, g), BinsOf(m, g, bitmap);
    CoreIsTiled(L, S, B, slots);
    CoreBlock(L, S, B, slots, L.home[a]);
    NeighbourRoles(L, S, B, slots, a);
    NeighboursFit(L, a);
    SlotIsBig(g.kinds[g.home[a]], g.blocks[g.home[a]], slots);
  }

  lemma SlotIsBig(kind: Kind, size: int, slots: seq<Slot>)
    requires KindOk(kind, size, slots)
    ensures kind.slot ==> kind.big && kind.direct
  {
  }

  /** The sizes alloc_slot fixes, for an object and a block size that need no rounding. */
  lemma ExactSlotSizes(shift: nat, m: nat, b: nat)
    requires 4 <= shift <= 5
    requires 0 < m && m + 112 <= b && m % Pow2(shift) == 0 && b % Pow2(shift) == 0 && b <= 8080
    ensures !SlotRefuses(NoSlots(), 0, m, b, shift) && !SlotRefuses(NoSlots(), 64, m, b, shift)
    ensures m + Pow2(shift) + 111 < Pow2(64) && b + Pow2(shift) + 111 <= Pow2(31)
    ensures var slot := SlotSizes(NO_SLOT, m, b, shift);
            slot.userSize == m && slot.maxChunk + OVERHEAD == CeilPowerOf2(b + 112)
    ensures CeilPowerOf2(b + 112) % 16 == 0 && b + 112 <= CeilPowerOf2(b + 112) <= 8192
  {
    hide CeilPowerOf2, AlignUp, Pow2;
    Pow2Of23();
    Pow2Mono(23, 31);
    Pow2Mono(31, 64);
    Pow2Mono(shift, 23);
    ExactAlign(m, shift);
    ExactAlign(b, shift);
    var k := CeilPowerOf2Is(b + 112);
    Pow2Of13();
    SixteenDivides(k);
  }

  lemma Pow2Of13()
    ensures Pow2(13) == 8192
  {
    assert Pow2(10) == 1024;
    Pow2Sum(3, 10);
  }

  lemma ExactAlign(n: nat, shift: nat)
    requires shift <= 23 && n % Pow2(shift) == 0 && n <= 8192
    ensures AlignUp(n, shift) == n
  {
    hide AlignUp, Pow2;
    Pow2Of23();
    Pow2Mono(shift, 23);
    Pow2Mono(32, 64);
    AlignUpIs(n, shift);
    assert n == n / Pow2(shift) * Pow2(shift);
  }

  /**
    The condition is met by some objects only: the first object of a slot for 32 bytes fails the check, in an
    allocator that has served nothing else.
   */
  method SmallObjectFailsCheck(block: int, shift: nat) returns (z: Zmalloc, p: int)
    requires block > 0 && block % 16 == 0 && 4 <= shift <= 5
    ensures z.Valid() && p - PADDING in z.model.live && !CheckChunk(z.mem, p - PADDING)
  {
    hide CoreOk, StoreOk, CountsOk, TotalsOk, FitsOk, SlotShapes, SlotSizes, SlotRefuses, Pow2, CheckChunk,
         CeilPowerOf2;
    z := new Zmalloc(false, 0, shift);
    Multiples(shift);
    ExactSlotSizes(shift, 32, 4096);
    p := z.AllocSlot(0, 32, 4096, block);
    LiveHeaders(z, p - PADDING);
    PayloadAt(LayoutOf(z.mem, z.model), StatusOf(z.mem, z.model), BinsOf(z.mem, z.model, z.bitmap), z.slots,
              p - PADDING);
    ChunkCheck(z, p - PADDING);
  }

  lemma Multiples(shift: nat)
    requires 4 <= shift <= 5
    ensures 32 % Pow2(shift) == 4096 % Pow2(shift) == 7936 % Pow2(shift) == 8064 % Pow2(shift) == 0
  {
    assert Pow2(4) == 16 && Pow2(5) == 32;
  }

  // check_free_chunk.

  /** What check_free_chunk asks of a free chunk. */
  ghost predicate CheckFreeChunk(m: Memory, a: int) {
    && CheckChunk(m, a) && !m.flags[a].used && a in m.binId && m.binId[a] < BINS
    && m.flags[a + m.thisSize[a]].used && m.flags[a - m.prevSize[a]].used
  }

  /**
    Wherever it is called, and in every valid state: check_free_chunk passes for a merged chunk exactly if
    check_chunk does and the chunk does not carry the number of a slot that is no number of a bin.
   */
  lemma FreeChunkCheck(m: Memory, g: Model, bitmap: seq<nat>, slots: seq<Slot>, a: int)
    requires Consistent(m, g, bitmap, slots) && IsBody(LayoutOf(m, g), a) && IsFree(StatusOf(m, g), a)
    requires !IsFree(StatusOf(m, g), NextOf(LayoutOf(m, g), a)) && !IsFree(StatusOf(m, g), FrontOf(LayoutOf(m, g), a))
    ensures a in m.flags && a in m.binId
    ensures CheckFreeChunk(m, a) <==> CheckChunk(m, a) && !(m.flags[a].slot && m.binId[a] >= BINS)
  {
    hide CoreOk, Tiled;
    var L, S, B := LayoutOf(m, g), StatusOf(m, g), BinsOf(m, g, bitmap);
    NeighbourRoles(L, S, B, slots, a);
  }

  /** So it always passes for the chunks of divided blocks. */
  lemma DividedChunksPass(z: Zmalloc, a: int)
    requires z.Valid() && IsBody(LayoutOf(z.mem, z.model), a) && a in z.mem.flags && !z.mem.flags[a].used
             && !z.mem.flags[a].slot
    ensures CheckFreeChunk(z.mem, a)
  {
    hide CoreOk, StoreOk, CountsOk, TotalsOk, FitsOk, SlotShapes, Tiled, CheckChunk, CheckFreeChunk;
    ChunkCheck(z, a);
    FreeAmongUsed(LayoutOf(z.mem, z.model), StatusOf(z.mem, z.model), BinsOf(z.mem, z.model, z.bitmap), z.slots, a);
    FreeChunkCheck(z.mem, z.model, z.bitmap, z.slots, a);
  }

  lemma FreeAmongUsed(L: Layout, S: Status, B: Bins, slots: seq<Slot>, a: int)
    requires CoreOk(L, S, B, slots) && IsBody(L, a) && IsFree(S, a) && S.loose == {}
    ensures !IsFree(S, NextOf(L, a)) && !IsFree(S, FrontOf(L, a))
  {
    UsedAround(L, S, B, slots, a);
  }

  /** A chunk that spans its block lies between the sentinels. */
  lemma AloneAmongUsed(L: Layout, S: Status, B: Bins, slots: seq<Slot>, a: int)
    requires CoreOk(L, S, B, slots) && IsBody(L, a) && Whole(L, a)
    ensures !IsFree(S, NextOf(L, a)) && !IsFree(S, FrontOf(L, a))
  {
    CoreIsTiled(L, S, B, slots);
    BodyNext(L, a);
    BodyFront(L, a);
    ChunkIsOk(L, FrontOf(L, a));
    hide BinsOk, KindsOk, Tiled, RolesWithin, Coalesced;
    assert RoleOk(L, S, NextOf(L, a)) && RoleOk(L, S, FrontOf(L, a));
  }

  /** When the only object of a block is freed, and its slot has a number from 64 on, check_free_chunk fails. */
  lemma HighSlotFails(m: Memory, g: Model, bitmap: seq<nat>, slots: seq<Slot>, a: int)
    requires Consistent(m, g, bitmap, slots) && IsBody(LayoutOf(m, g), a) && IsFree(StatusOf(m, g), a)
    requires Whole(LayoutOf(m, g), a) && g.home[a] in g.kinds && g.kinds[g.home[a]].slot
    requires m.thisSize[a] >= BIG_LEAST && a in m.binId && m.binId[a] >= BINS
    ensures CheckChunk(m, a) && !CheckFreeChunk(m, a)
    ensures !IsFree(StatusOf(m, g), NextOf(LayoutOf(m, g), a)) && !IsFree(StatusOf(m, g), FrontOf(LayoutOf(m, g), a))
  {
    hide CoreOk, CheckChunk, CheckFreeChunk, Whole;
    var L, S, B := LayoutOf(m, g), StatusOf(m, g), BinsOf(m, g, bitmap);
    AloneAmongUsed(L, S, B, slots, a);
    NeighbourRoles(L, S, B, slots, a);
    CheckPasses(m, g, bitmap, slots, a);
    FreeChunkCheck(m, g, bitmap, slots, a);
  }

  /**
    An object of a slot numbered from 64 on, alone in its block: when it is freed, free_slot calls
    check_free_chunk in the state reached here, and the check fails although check_chunk passes.
   */
  method HighSlotFailsCheck(block: int, shift: nat) returns (z: Zmalloc, a: int)
    requires block > 0 && block % 16 == 0 && 4 <= shift <= 5
    ensures Consistent(z.mem, z.model, z.bitmap, z.slots) && IsBody(LayoutOf(z.mem, z.model), a)
    ensures CheckChunk(z.mem, a) && !CheckFreeChunk(z.mem, a)
    ensures var L, S := LayoutOf(z.mem, z.model), StatusOf(z.mem, z.model);
            IsFree(S, a) && !IsFree(S, NextOf(L, a)) && !IsFree(S, FrontOf(L, a))
  {
    hide CoreOk, StoreOk, CountsOk, TotalsOk, FitsOk, SlotShapes, SlotSizes, SlotRefuses, Pow2, CheckChunk,
         CheckFreeChunk, CeilPowerOf2, Tiled, Whole;
    z := new Zmalloc(false, 0, shift);
    Multiples(shift);
    ExactSlotSizes(shift, 7936, 8064);
    var p := z.AllocSlot(64, 7936, 8064, block);
    a := p - PADDING;
    LiveHeaders(z, a);
    SlotObjectIsWhole(z, a);
    var slotId := z.SlotTakeBack(a);
    HighSlotFails(z.mem, z.model, z.bitmap, z.slots, a);
  }

  lemma SlotObjectIsWhole(z: Zmalloc, a: int)
    requires z.Valid() && a in z.model.live && z.model.live[a].kind.slot
    requires var s := z.model.live[a].kind.slotId;
             s < |z.slots| && z.model.live[a].size > z.slots[s].maxChunk - z.slots[s].userSize
    ensures IsBody(LayoutOf(z.mem, z.model), a) && Whole(LayoutOf(z.mem, z.model), a)
    ensures z.model.home[a] in z.model.kinds && z.model.kinds[z.model.home[a]] == z.model.live[a].kind
  {
    hide CoreOk, StoreOk, CountsOk, TotalsOk, FitsOk, SlotShapes, Whole;
    var L, S, B := LayoutOf(z.mem, z.model), StatusOf(z.mem, z.model), BinsOf(z.mem, z.model, z.bitmap);
    ChunkFacts(L, S, B, z.slots, a);
    SlotSizeTest(L, S, B, z.slots, a);
  }

  /** What check_free_chunk_list asks of the size of a chunk in a bin. */
  ghost predicate SizeFitsBin(level: nat, bin: nat, size: int) {
    if level == 1 then Resolve(bin) + PADDING <= size < Resolve(bin + 1) + PADDING
    else size - PADDING >= 16 * bin && (size < 63 * 16 + PADDING ==> size - PADDING < 16 * (bin + 1))
  }

  lemma BinSize(big: bool, size: int)
    requires size >= LEAST && (big ==> size >= BIG_LEAST) && BinFor(big, size) >= 0
    ensures SizeFitsBin(if big then 1 else 0, BinFor(big, size), size)
  {
    hide Resolve, BigBin, SmallBin;
    if big { BigBinExact(size - PADDING); } else { SmallBinIs(size - PADDING); }
  }

  /** check_free_chunk_list passes: the bit is set, the list of the bin has the chunk, and the size belongs there. */
  lemma FreeListCheck(z: Zmalloc, a: int)
    requires z.Valid() && IsBody(LayoutOf(z.mem, z.model), a) && a in z.mem.flags && !z.mem.flags[a].used
    requires a in z.model.home && z.model.home[a] in z.model.kinds && !z.model.kinds[z.model.home[a]].slot
    requires |z.dv| == 2 && a != z.dv[if z.model.kinds[z.model.home[a]].big then 1 else 0]
    ensures a in z.mem.binId && a in z.mem.thisSize && |z.bitmap| == 2
    ensures var level, bin := z.mem.flags[a].Level(), z.mem.binId[a];
            && bin < BINS && Bit(z.bitmap[level], bin) && a in ListAt(z, BinKey(level, bin))
            && SizeFitsBin(level, bin, z.mem.thisSize[a])
  {
    hide CoreOk, StoreOk, CountsOk, TotalsOk, FitsOk, SlotShapes, Bit, BinFor, ListAt, SizeFitsBin, LiveOk;
    var L, S, B := LayoutOf(z.mem, z.model), StatusOf(z.mem, z.model), BinsOf(z.mem, z.model, z.bitmap);
    PlaceOf(L, S, B, z.slots, a);
    ChunkFacts(L, S, B, z.slots, a);
    FreeSize(L, S, B, z.slots, a);
    var big := z.mem.flags[a].big;
    var level := z.mem.flags[a].Level();
    BinSize(big, z.mem.thisSize[a]);
    ListKeysAt(z, BinKey(level, z.mem.binId[a]));
    BitmapIsExact(z, level, z.mem.binId[a]);
  }

  lemma FreeSize(L: Layout, S: Status, B: Bins, slots: seq<Slot>, a: int)
    requires CoreOk(L, S, B, slots) && a in S.key && a in L.home && L.home[a] in S.kinds && !S.kinds[L.home[a]].slot
    ensures a in S.flags && a in L.thisSize && S.flags[a].big == S.kinds[L.home[a]].big
    ensures S.flags[a].big ==> L.thisSize[a] >= BIG_LEAST
  {
    ChunkFacts(L, S, B, slots, a);
    hide CoreOk;
  }

  /** What check_bitmap asks of a bin: the bit tells whether it is empty, and its chunks are free and know their bin. */
  lemma BitmapCheck(z: Zmalloc, level: nat, bin: nat)
    requires z.Valid() && level < 2 && bin < BINS
    ensures |z.bitmap| == 2 && (ListAt(z, BinKey(level, bin)) != [] <==> Bit(z.bitmap[level], bin))
    ensures forall c: int :: c in ListAt(z, BinKey(level, bin)) ==>
              && c in z.mem.binId && z.mem.binId[c] == bin && c in z.mem.flags && !z.mem.flags[c].used
              && z.mem.flags[c].Level() == level
  {
    hide StoreOk, CountsOk, TotalsOk, FitsOk, SlotShapes, Bit, CoreOk;
    BitmapIsExact(z, level, bin);
    ListKeysAt(z, BinKey(level, bin));
    hide ListAt;
    var L, S, B := LayoutOf(z.mem, z.model), StatusOf(z.mem, z.model), BinsOf(z.mem, z.model, z.bitmap);
    forall c: int | c in ListAt(z, BinKey(level, bin))
      ensures c in z.mem.binId && z.mem.binId[c] == bin && c in z.mem.flags && !z.mem.flags[c].used
              && z.mem.flags[c].Level() == level
    {
      ChunkFacts(L, S, B, z.slots, c);
    }
  }
}
