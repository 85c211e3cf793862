/**
  The state of the allocator as values, what holds of it between two updates, and what the operations need to
  know about it.
 */
module ZmallocState {
  import opened Bits
  import opened IntrusiveLists
  import opened SizeClasses
  import opened Tiling
  import opened HeldBlocks
  import opened Roles
  import opened Bins
  import opened Core
  import opened Accounting
  import opened Books
  import opened SlotBlocks

  const COLORS: nat := 63    // COLOR * 2 < CHUNK_COLOR_MASK

  /** The bytes alloc_block asks for: the default block, or the request with its headers rounded up. */
  function BlockBytes(bytes: int, flag: Flags, powerIs2: bool): int
    requires 1 <= bytes + 112
  {
    var total := bytes + 112;
    if !flag.direct then DEFAULT_BLOCK
    else if flag.slot || powerIs2 then CeilPowerOf2(total)
    else (total + 15) / 16 * 16
  }

  /** The headers of chunks by chunk address; the links are also those of the sentinels of the lists. */
  datatype Memory = Memory(thisSize: map<int, int>, prevSize: map<int, int>, flags: map<int, Flags>,
                           binId: map<int, nat>, next: Links, prev: Links)

  /** The ghost state: which addresses are chunks and blocks, and what each of them is. */
  datatype Model = Model(chunks: set<int>, home: map<int, int>, blocks: map<int, int>, kinds: map<int, Kind>,
                         victim: seq<int>, key: map<int, nat>, floating: set<int>, loose: set<int>,
                         live: map<int, Live>, rank: map<int, nat>, clock: nat)

  /** The block headers by block address, with the heads and counts of the two block lists. */
  datatype Store = Store(size: map<int, int>, next: map<int, int>, front: map<int, int>,
                         usedFirst: int, usedCount: int, reserveFirst: int, reserveCount: int)

  datatype BlockCounts = BlockCounts(allocCount: int, allocBytes: int, allocCached: int,
                                     freeCount: int, freeBytes: int, freeCached: int)

  /** The ghost state of the block lists, and what the callback refused. */
  datatype Shelf = Shelf(reserved: set<int>, rank: map<int, nat>, clock: nat, failedCount: int, failedBytes: int)

  ghost function HeadersOf(store: Store, shelf: Shelf): Headers {
    Headers(store.size, store.next, store.front, shelf.rank, shelf.clock)
  }

  /** The two block lists hold the used blocks and the reserve; all of these are disjoint. */
  ghost predicate StoreOk(blocks: map<int, int>, store: Store, shelf: Shelf, maxReserve: nat) {
    && HeldOk(blocks, shelf.reserved, HeadersOf(store, shelf), store.usedFirst, store.reserveFirst)
    && store.usedCount == |blocks| && store.reserveCount == |shelf.reserved| && store.reserveCount <= maxReserve
  }

  /** The sizes of the victims have not changed. */
  ghost predicate VictimsKept(before: Memory, g: Model, after: Memory) {
    forall a: int :: IsDv(StatusOf(before, g), a) && a in before.thisSize ==>
      a in after.thisSize && after.thisSize[a] == before.thisSize[a]
  }

  /**
    A block of `size` bytes whose first chunk is `chunk` has been added to the blocks in use, and nothing else
    changed.
   */
  ghost predicate Opened(m0: Memory, g0: Model, m: Memory, g: Model, chunk: int, size: int, kind: Kind) {
    var block := chunk - FIRST;
    && block > 0 && block !in g0.blocks && Fresh(g0.blocks, block, size)
    && chunk !in g0.chunks && chunk !in g0.live && chunk !in g0.key && chunk !in g0.floating && chunk !in g0.loose
    && !IsDv(StatusOf(m0, g0), chunk) && VictimsKept(m0, g0, m)
    && LayoutOf(m, g) == AddBlock(LayoutOf(m0, g0), block, size)
    && StatusOf(m, g) == BlockAdded(StatusOf(m0, g0), block, size, kind)
  }

  /** No list, victim or live chunk is where the new block's chunks are put. */
  ghost predicate Vacant(g: Model, S: Status, block: int, size: int) {
    && block > 0 && block !in g.blocks && Fresh(g.blocks, block, size)
    && forall x: int :: x == block + FIRST || x == block + HEAD || x == block + size - SENTINEL ==>
         x !in g.chunks && x !in g.live && x !in g.key && x !in g.floating && x !in g.loose && !IsDv(S, x)
  }

  lemma OpenedParts(m0: Memory, g0: Model, m: Memory, g: Model, chunk: int, size: int, kind: Kind)
    requires Opened(m0, g0, m, g, chunk, size, kind)
    ensures LayoutOf(m, g) == AddBlock(LayoutOf(m0, g0), chunk - FIRST, size)
    ensures StatusOf(m, g) == BlockAdded(StatusOf(m0, g0), chunk - FIRST, size, kind)
  {
  }

  /** The header of a chunk that is on no list. */
  ghost function HeaderAt(m: Memory, a: int, flag: Flags, size: int, prevSize: int): Memory {
    m.(flags := m.flags[a := flag], prevSize := m.prevSize[a := prevSize], binId := m.binId[a := 0],
       thisSize := m.thisSize[a := size], next := m.next[At(a) := Null], prev := m.prev[At(a) := Null])
  }

  /** The memory and the bookkeeping once a block has been laid out as one free chunk between two sentinels. */
  lemma LaidOutIsOpened(m0: Memory, g0: Model, m: Memory, g: Model, bitmap: seq<nat>, block: int, size: int, kind: Kind)
    requires Vacant(g0, StatusOf(m0, g0), block, size)
    requires var free, rest := Flags(kind.big, kind.direct, kind.slot, false, 0), size - OVERHEAD;
             var used := free.(used := true);
             m == HeaderAt(HeaderAt(HeaderAt(m0, block + HEAD, used, SENTINEL, 0), block + FIRST, free, rest, SENTINEL),
                           block + FIRST + rest, used, SENTINEL, rest)
    requires var c := block + FIRST;
             g == g0.(chunks := g0.chunks + {block + HEAD, c, c + size - OVERHEAD},
                      home := g0.home[block + HEAD := block][c := block][c + size - OVERHEAD := block],
                      blocks := g0.blocks[block := size], kinds := g0.kinds[block := kind],
                      floating := g0.floating + {c})
    ensures Opened(m0, g0, m, g, block + FIRST, size, kind)
    ensures BinsOf(m, g, bitmap) == Unlinked(BinsOf(m0, g0, bitmap), block, size)
  {
    hide Fresh, IsDv;
    assert LayoutOf(m, g) == AddBlock(LayoutOf(m0, g0), block, size);
    assert StatusOf(m, g) == BlockAdded(StatusOf(m0, g0), block, size, kind);
  }

  /** The block counters; a block the callback refuses is counted like one it grants. */
  ghost predicate CountsOk(blocks: map<int, int>, counts: BlockCounts, shelf: Shelf) {
    && counts.allocCount - counts.freeCount == |blocks| + shelf.failedCount
    && counts.allocBytes - counts.freeBytes == Sum(blocks) + shelf.failedBytes
  }

  ghost function LayoutOf(m: Memory, g: Model): Layout {
    Layout(m.thisSize, m.prevSize, g.chunks, g.home, g.blocks)
  }

  ghost function StatusOf(m: Memory, g: Model): Status {
    Status(g.kinds, m.flags, m.binId, g.victim, g.key, g.floating, g.loose, g.live)
  }

  ghost function BinsOf(m: Memory, g: Model, bitmap: seq<nat>): Bins {
    Bins(m.next, m.prev, g.rank, g.clock, bitmap)
  }

  /** Holds between any two updates. */
  ghost predicate Consistent(m: Memory, g: Model, bitmap: seq<nat>, slots: seq<Slot>) {
    CoreOk(LayoutOf(m, g), StatusOf(m, g), BinsOf(m, g, bitmap), slots)
  }

  /** Between operations no chunk is floating or loose, and the victims are those of the `dv` field. */
  ghost predicate AtRest(g: Model, dv: seq<int>) {
    g.floating == {} && g.loose == {} && g.victim == dv && |dv| == 2
  }

  /** Within an operation: chunk `c` is free and, unless it is the victim of its level, in no list. */
  ghost predicate InHand(m: Memory, g: Model, dv: seq<int>, c: int, level: nat) {
    && g.victim == dv && |dv| == 2 && level < 2 && g.loose <= {c} && c != 0
    && (g.floating == {c} || (g.floating == {} && dv[level] == c))
    && c in g.home && g.home[c] in g.kinds
    && g.kinds[g.home[c]].big == (level == 1) && !g.kinds[g.home[c]].direct && !g.kinds[g.home[c]].slot
  }

  lemma ConsistentPositive(m: Memory, g: Model, bitmap: seq<nat>, slots: seq<Slot>)
    requires Consistent(m, g, bitmap, slots)
    ensures Positive(g.blocks)
  {
    hide CoreOk;
    CoreBlocks(LayoutOf(m, g), StatusOf(m, g), BinsOf(m, g, bitmap), slots);
  }

  /** The chunk in hand takes over as victim from the chunk behind it. */
  lemma VictimMoves(m: Memory, g: Model, bitmap: seq<nat>, slots: seq<Slot>, level: nat, v: int, c: int)
    requires Consistent(m, g, bitmap, slots) && level < |g.victim| && g.victim[level] == v && v != 0
    requires g.floating == {c} && c in g.home && g.home[c] in g.kinds && v != c
    requires g.kinds[g.home[c]].big == (level == 1) && !g.kinds[g.home[c]].direct
    ensures Consistent(m, g.(victim := g.victim[level := c], floating := {v}), bitmap, slots)
  {
    hide CoreOk;
    var L, S, B := LayoutOf(m, g), StatusOf(m, g), BinsOf(m, g, bitmap);
    VictimClearedCore(L, S, B, slots, level);
    var S1 := VictimCleared(S, level);
    VictimSetCore(L, S1, B, slots, level, c);
    assert VictimSet(S1, level, c) == StatusOf(m, g.(victim := g.victim[level := c], floating := {v}));
  }

  /** A chunk that spans its block has gone with it; any other is in the bin of its size. */
  ghost predicate Released(L: Layout, S: Status, c: int, L': Layout, S': Status) {
    && IsBody(L, c) && c in S.flags && L.home[c] in S.kinds && L.thisSize[c] >= 20
    && if Whole(L, c) then L' == DropBlock(L, L.home[c]) && S' == BlockDropped(S, L.home[c])
       else
         var big := S.kinds[L.home[c]].big;
         var bin := BinFor(big, L.thisSize[c]);
         bin >= 0 && L' == L && S' == Pushed(S, c, BinKey(if big then 1 else 0, bin), bin)
  }

  lemma FitsBounds(live: map<int, Live>, a: int)
    requires FitsOk(live) && a in live
    ensures live[a].color < 63 && (!live[a].kind.slot ==> live[a].bin < BINS)
  {
    hide BigClass, BigValue, SmallId, DirectClass, DirectValue, Resolve;
  }

  /** A chunk taken out of the lists: free, and of a divided block of the given level. */
  ghost predicate Taken(m: Memory, g: Model, chunk: int, level: nat) {
    && g.floating == {chunk} && g.loose <= {chunk} && chunk > 0
    && chunk in m.thisSize && m.thisSize[chunk] % 16 == 0 && chunk in g.home && g.home[chunk] in g.kinds
    && DividedKind(g.kinds[g.home[chunk]], level)
  }

  ghost predicate DividedKind(kind: Kind, level: nat) {
    && kind.big == (level == 1) && !kind.direct && !kind.slot
    && kind.least == LeastOf(level)
  }

  function LeastOf(level: nat): nat { if level == 1 then BIG_LEAST else SMALL_LEAST }

  /** The first chunk of a non-empty bin has a size that belongs there. */
  lemma FirstChunk(m: Memory, g: Model, bitmap: seq<nat>, slots: seq<Slot>, level: nat, bin: nat)
    requires Consistent(m, g, bitmap, slots) && level < 2 && bin < BINS && level < |bitmap| && Bit(bitmap[level], bin)
    ensures Head(BinKey(level, bin)) in m.next && m.next[Head(BinKey(level, bin))].At?
    ensures var c := m.next[Head(BinKey(level, bin))].addr;
            && c in g.key && g.key[c] == BinKey(level, bin) && c > 0 && c !in g.live
            && c in m.thisSize && m.thisSize[c] % 16 == 0 && m.thisSize[c] >= LEAST && c in g.home
            && g.home[c] in g.kinds
            && DividedKind(g.kinds[g.home[c]], level)
            && BinFor(level == 1, m.thisSize[c]) == bin
            && g.kinds[g.home[c]].least <= m.thisSize[c] <= DEFAULT_BLOCK - OVERHEAD
  {
    hide Sound, KindsOk, BinsOk, BinFor, Bit;
    var L, S, B := LayoutOf(m, g), StatusOf(m, g), BinsOf(m, g, bitmap);
    FirstOfBin(B, S.key, level, bin);
    ChunkFacts(L, S, B, slots, m.next[Head(BinKey(level, bin))].addr);
  }

  /** A victim is a free chunk of its level. */
  lemma VictimFacts(m: Memory, g: Model, bitmap: seq<nat>, slots: seq<Slot>, level: nat)
    requires Consistent(m, g, bitmap, slots) && level < |g.victim| && g.victim[level] != 0
    ensures level < 2
    ensures var v := g.victim[level];
            && v > 0 && v in m.thisSize && m.thisSize[v] % 16 == 0 && v in g.home && g.home[v] in g.kinds
            && DividedKind(g.kinds[g.home[v]], level) && g.kinds[g.home[v]].least <= m.thisSize[v]
            && v !in g.floating && v !in g.live && v !in g.key
  {
    var L, S, B := LayoutOf(m, g), StatusOf(m, g), BinsOf(m, g, bitmap);
    CoreIsTiled(L, S, B, slots);
    hide CoreOk;
    ChunkFacts(L, S, B, slots, g.victim[level]);
    VictimLevel(L, S, B, slots, level);
  }

  lemma VictimFloats(m: Memory, g: Model, bitmap: seq<nat>, slots: seq<Slot>, level: nat)
    requires Consistent(m, g, bitmap, slots) && level < |g.victim| && g.victim[level] != 0
    ensures Consistent(m, g.(victim := g.victim[level := 0], floating := g.floating + {g.victim[level]}), bitmap, slots)
    ensures var v := g.victim[level];
            && v in m.thisSize && m.thisSize[v] >= 20 && v in g.home && g.home[v] in g.kinds
            && DividedKind(g.kinds[g.home[v]], level) && v !in g.floating
  {
    VictimFacts(m, g, bitmap, slots, level);
    hide CoreOk;
    VictimClearedCore(LayoutOf(m, g), StatusOf(m, g), BinsOf(m, g, bitmap), slots, level);
    assert VictimCleared(StatusOf(m, g), level)
        == StatusOf(m, g.(victim := g.victim[level := 0], floating := g.floating + {g.victim[level]}));
  }

  /** The two lowest bits of the shifted bitmap are those of the wanted bin and the next. */
  lemma SmallSearch(B: Bins, key: map<int, nat>, id: nat)
    requires BinsOk(B, key) && id < BINS && |B.bitmap| == 2
    ensures var word := Shr(B.bitmap[0], id);
            && word < Pow2(64) && (And(word, 3) != 0 <==> Bit(word, 0) || Bit(word, 1))
            && (And(word, 3) != 0 ==> word != 0)
            && And(Not(word, 64), 1) == (if Bit(word, 0) then 0 else 1)
            && (Bit(word, 0) ==> Bit(B.bitmap[0], id))
            && (Bit(word, 1) ==> Bit(B.bitmap[0], id + 1) && id + 1 < BINS)
  {
    var word := Shr(B.bitmap[0], id);
    BitmapTwo(B.bitmap, B.next);
    ShrBound(B.bitmap[0], id);
    hide Shr, Bit, And, Not, Pow2;
    LowBitTests(word);
    AndBound(word, 3);
    BitOfShr(B.bitmap[0], id, 0);
    BitOfShr(B.bitmap[0], id, 1);
    if id + 1 >= 64 { BitBeyond(B.bitmap[0], 64, id + 1); }
  }

  /** The lowest bit of the shifted bitmap is that of the wanted bin. */
  lemma BigSearch(B: Bins, key: map<int, nat>, id: nat)
    requires BinsOk(B, key) && id < BINS && |B.bitmap| == 2
    ensures var word := Shr(B.bitmap[1], id);
            word < Pow2(64) && (And(word, 1) != 0 <==> Bit(B.bitmap[1], id)) && (And(word, 1) != 0 ==> word != 0)
  {
    BitmapTwo(B.bitmap, B.next);
    ShrBound(B.bitmap[1], id);
    hide Shr, Bit, And, Not, Pow2;
    LowBitTests(Shr(B.bitmap[1], id));
    AndBound(Shr(B.bitmap[1], id), 1);
    BitOfShr(B.bitmap[1], id, 0);
  }

  lemma ResolveBound(id: nat)
    requires id <= 36
    ensures Resolve(id) <= 524288
  {
    if id < 36 {
      ResolveStep(id);
      ResolveMono(id, 36);
    }
    ResolveInverts(36, 17, 4);
    SizedAtLimit();
  }

  /** What the search finds for a big class is large enough for it. */
  lemma BigEnough(size: int, id: nat, i: nat, word: nat)
    requires id <= 36
    requires if word == 0 then size == DEFAULT_BLOCK - OVERHEAD else size >= BIG_LEAST && BinFor(true, size) == id + i
    ensures size >= Resolve(id) + PADDING
  {
    if word == 0 {
      ResolveBound(id);
    } else {
      hide Resolve, BigBin;
      BigBinExact(size - PADDING);
      if i > 0 {
        ResolveMono(id, id + i);
        ResolveStep(id);
      }
    }
  }

  lemma FitsAdd(live: map<int, Live>, a: int, l: Live)
    requires FitsOk(live) && Fits(l)
    ensures FitsOk(live[a := l]) && l.color < 63 && l.request <= l.size - PADDING && (!l.kind.slot ==> l.bin < BINS)
  {
    hide BigClass, BigValue, SmallId, DirectClass, DirectValue, Resolve;
  }

  /** What a caller of alloc_memory gets: nothing, or one new allocation at an aligned address. */
  ghost predicate Granted(before: map<int, Live>, after: map<int, Live>, p: int, bytes: nat, color: nat) {
    if p == 0 then after == before else
      var a := p - PADDING;
      && p % 16 == 0 && a > 0 && a !in before && a in after && after == before[a := after[a]]
      && after[a].request == bytes && after[a].color == color && !after[a].kind.slot
  }

  lemma HandedOut(m: Memory, g: Model, bitmap: seq<nat>, slots: seq<Slot>, a: int)
    requires Consistent(m, g, bitmap, slots) && a in g.live
    ensures a % 16 == 0 && a > 0
  {
    hide CoreOk;
    ChunkFacts(LayoutOf(m, g), StatusOf(m, g), BinsOf(m, g, bitmap), slots, a);
  }

  /** The size of a direct block. */
  function DirectBytes(bytes: nat, powerIs2: bool): int {
    BlockBytes(bytes + PADDING + SMALL_LEAST, Flags(true, true, false, false, 0), powerIs2)
  }

  lemma DirectBlockFits(bytes: nat, powerIs2: bool)
    requires BIG_MAX_REQUEST <= bytes && (powerIs2 ==> bytes + 160 <= Pow2(31))
    ensures DirectBytes(bytes, powerIs2) % 16 == 0 && bytes <= DirectBytes(bytes, powerIs2) - OVERHEAD - PADDING
  {
    hide Pow2, CeilPowerOf2;
    var total := bytes + 160;
    if powerIs2 {
      var k := CeilPowerOf2Is(total);
      SixteenDivides(k);
    } else {
      assert DirectBytes(bytes, false) == (total + 15) / 16 * 16;
    }
  }

  lemma VictimFlags(m: Memory, g: Model, bitmap: seq<nat>, slots: seq<Slot>, a: int)
    requires Consistent(m, g, bitmap, slots) && a in g.floating
    ensures a in m.flags && a in g.home && g.home[a] in g.kinds && m.flags[a].big == g.kinds[g.home[a]].big
  {
    hide CoreOk;
    ChunkFacts(LayoutOf(m, g), StatusOf(m, g), BinsOf(m, g, bitmap), slots, a);
  }

  /** Within free_slot: chunk `c` of a slot block is free and in no list. */
  ghost predicate SlotHand(m: Memory, g: Model, dv: seq<int>, c: int, slotId: nat) {
    && g.victim == dv && |dv| == 2 && g.floating == {c} && g.loose <= {c}
    && c in g.home && g.home[c] in g.kinds && g.kinds[g.home[c]].slot && g.kinds[g.home[c]].slotId == slotId
  }

  lemma FitsSlot(live: map<int, Live>, a: int)
    requires FitsOk(live) && a in live && live[a].kind.slot
    ensures live[a].bin == live[a].kind.slotId < SLOTS && live[a].size >= live[a].kind.least
  {
    hide BigClass, BigValue, SmallId, DirectClass, DirectValue, Resolve;
  }

  lemma SameShapes(slots: seq<Slot>, s: nat, slot: Slot)
    requires SlotShapes(slots) && s < |slots|
    requires slot.userSize == slots[s].userSize && slot.blockSize == slots[s].blockSize
             && slot.maxChunk == slots[s].maxChunk
    ensures SlotShapes(slots[s := slot])
  {
    hide Pow2, CeilPowerOf2;
    assert SlotShape(slots[s]);
  }

  /** Block `b` is kept exactly as long as a live chunk lies in it. */
  ghost predicate HeldIffUsed(g: Model, b: int) {
    b !in g.blocks <==> forall c: int {:trigger c in g.live} :: c in g.live && c in g.home ==> g.home[c] != b
  }

  /** The requests alloc_slot turns down before it looks for memory. */
  predicate SlotRefuses(slots: seq<Slot>, slotId: nat, bytes: nat, blockSize: nat, shift: nat)
    requires shift <= 64
  {
    slotId >= SLOTS || slotId >= |slots| || bytes == 0 ||
    (slots[slotId].userSize < bytes && (slots[slotId].userSize != 0 || AlignUp(bytes, shift) + 112 > blockSize))
  }

  /** The sizes of a slot when it serves a request. */
  function SlotSizes(slot: Slot, bytes: nat, blockSize: nat, shift: nat): Slot
    requires shift <= 64
  {
    if slot.userSize >= bytes then slot
    else
      var size := AlignUp(blockSize, shift);
      slot.(userSize := AlignUp(bytes, shift), blockSize := size, maxChunk := CeilPowerOf2(size + 112) - OVERHEAD)
  }

  /**
    What a slot is asked for and must serve: of a slot that has its size, an object that fits it; of one that has
    none, an object that fits a block of the wanted size once it is rounded up to a multiple of the alignment.
   */
  ghost predicate Entitled(slots: seq<Slot>, slotId: nat, bytes: nat, blockSize: nat, shift: nat) {
    && slotId < 256 && slotId < |slots| && bytes > 0
    && if slots[slotId].userSize != 0 then bytes <= slots[slotId].userSize
       else exists m: nat :: bytes <= m * Pow2(shift) && m * Pow2(shift) + 112 <= blockSize
  }

  lemma RefusesIs(slots: seq<Slot>, slotId: nat, bytes: nat, blockSize: nat, shift: nat)
    requires shift <= 31 && bytes + Pow2(shift) + 111 < Pow2(64)
    ensures SlotRefuses(slots, slotId, bytes, blockSize, shift) <==> !Entitled(slots, slotId, bytes, blockSize, shift)
  {
    hide AlignUp, Pow2;
    AlignUpIs(bytes, shift);
    var m := AlignUp(bytes, shift) / Pow2(shift);
    assert AlignUp(bytes, shift) == m * Pow2(shift);
    if m': nat :| bytes <= m' * Pow2(shift) && m' * Pow2(shift) + 112 <= blockSize {
      assert AlignUp(bytes, shift) <= m' * Pow2(shift);
    }
  }

  /** Some object of the slot is free. */
  ghost predicate FreeObject(m: Memory, g: Model, slotId: nat) {
    exists a: int :: IsFreeObject(m, g, slotId, a)
  }

  ghost predicate IsFreeObject(m: Memory, g: Model, slotId: nat, a: int) {
    && a in g.chunks && a in m.flags && !m.flags[a].used
    && a in g.home && g.home[a] in g.kinds && g.kinds[g.home[a]].slot && g.kinds[g.home[a]].slotId == slotId
  }

  /** Between operations the list of a slot is empty exactly if it has no free object. */
  lemma ObjectListed(m: Memory, g: Model, bitmap: seq<nat>, slots: seq<Slot>, dv: seq<int>, slotId: nat)
    requires Consistent(m, g, bitmap, slots) && AtRest(g, dv) && slotId < SLOTS && slotId < |slots|
    ensures Head(SlotKey(slotId)) in m.next
    ensures m.next[Head(SlotKey(slotId))] != Tail(SlotKey(slotId)) <==> FreeObject(m, g, slotId)
  {
    hide CoreOk, Lists, BitmapOk;
    var L, S, B := LayoutOf(m, g), StatusOf(m, g), BinsOf(m, g, bitmap);
    CoreBins(L, S, B, slots);
    EmptyList(LISTS, B.next, B.prev, S.key, B.rank, B.clock, SlotKey(slotId));
    FirstObject(m, g, bitmap, slots, slotId);
    if m.next[Head(SlotKey(slotId))] != Tail(SlotKey(slotId)) {
      var c := m.next[Head(SlotKey(slotId))].addr;
      ListedIsFree(m, g, bitmap, slots, c);
      assert IsFreeObject(m, g, slotId, c);
    }
    if a: int :| IsFreeObject(m, g, slotId, a) {
      FreeHasRole(L, S, B, slots, a);
      hide BinsOk;
      ChunkFacts(L, S, B, slots, a);
    }
  }

  /** The sizes a slot gets at its first request are the least that do; those it has it keeps. */
  lemma SlotSizesAre(slot: Slot, bytes: nat, blockSize: nat, shift: nat)
    requires 4 <= shift <= 31 && bytes > 0 && blockSize > 0
    requires bytes + Pow2(shift) + 111 < Pow2(64) && blockSize + Pow2(shift) + 111 <= Pow2(31)
    ensures slot.userSize >= bytes ==> SlotSizes(slot, bytes, blockSize, shift) == slot
    ensures slot.userSize < bytes ==>
              var r := SlotSizes(slot, bytes, blockSize, shift);
              && IsLeastMultiple(r.userSize, bytes, Pow2(shift)) && IsLeastMultiple(r.blockSize, blockSize, Pow2(shift))
              && r.maxChunk + 96 >= r.blockSize + 112
              && (exists k: nat :: r.maxChunk + 96 == Pow2(k))
              && (forall j: nat :: r.blockSize + 112 <= Pow2(j) ==> r.maxChunk + 96 <= Pow2(j))
              && slot == r.(userSize := slot.userSize, blockSize := slot.blockSize, maxChunk := slot.maxChunk)
  {
    hide AlignUp, Pow2, CeilPowerOf2;
    Pow2Mono(31, 64);
    AlignUpIs(bytes, shift);
    AlignUpIs(blockSize, shift);
    var k := CeilPowerOf2Is(AlignUp(blockSize, shift) + 112);
  }

  /** The least multiple of `p` that is not below `n`. */
  ghost predicate IsLeastMultiple(a: int, n: nat, p: nat)
    requires p > 0
  {
    && a >= n && a % p == 0 && forall m: nat :: n <= m * p ==> a <= m * p
  }

  /** What alloc_block asks the callback for. */
  lemma BlockBytesAre(bytes: nat, flag: Flags, powerIs2: bool)
    requires flag.slot || powerIs2 ==> bytes + 112 <= Pow2(31)
    ensures var r := BlockBytes(bytes, flag, powerIs2);
            if !flag.direct then r == 8 * 1024 * 1024
            else if flag.slot || powerIs2 then
              && r >= bytes + 112 && (exists k: nat :: r == Pow2(k))
              && forall j: nat :: bytes + 112 <= Pow2(j) ==> r <= Pow2(j)
            else r >= bytes + 112 && r % 16 == 0 && r < bytes + 128
  {
    hide Pow2, CeilPowerOf2;
    if flag.slot || powerIs2 { var k := CeilPowerOf2Is(bytes + 112); }
    assert (bytes + 127) / 16 * 16 % 16 == 0;
  }

  lemma SlotSizesShape(slot: Slot, bytes: nat, blockSize: nat, shift: nat)
    requires 4 <= shift <= 64 && slot.userSize == 0 && 0 < bytes && AlignUp(bytes, shift) + 112 <= blockSize
    requires bytes + Pow2(shift) + 111 < Pow2(64) && blockSize + Pow2(shift) + 111 <= Pow2(31)
    ensures SlotShape(SlotSizes(slot, bytes, blockSize, shift))
  {
    hide AlignUp, CeilPowerOf2, Pow2;
    Pow2Mono(31, 64);
    AlignUpIs(bytes, shift);
    AlignUpIs(blockSize, shift);
  }

  /** The list of a slot is empty, or its first chunk holds an object. */
  lemma FirstObject(m: Memory, g: Model, bitmap: seq<nat>, slots: seq<Slot>, slotId: nat)
    requires Consistent(m, g, bitmap, slots) && slotId < SLOTS && slotId < |slots|
    ensures Head(SlotKey(slotId)) in m.next
    ensures m.next[Head(SlotKey(slotId))] != Tail(SlotKey(slotId)) ==>
              && m.next[Head(SlotKey(slotId))].At?
              && var c := m.next[Head(SlotKey(slotId))].addr;
                 && c in g.key && g.key[c] == SlotKey(slotId) && c > 0 && c !in g.live
                 && At(c) in m.prev && m.prev[At(c)] == Head(SlotKey(slotId)) && At(c) in m.next
                 && c in m.thisSize && c in g.home && g.home[c] in g.kinds
                 && g.kinds[g.home[c]].slot && g.kinds[g.home[c]].slotId == slotId
                 && g.kinds[g.home[c]].least == slots[slotId].userSize + PADDING <= m.thisSize[c]
                 && m.thisSize[c] % 16 == 0
                 && slots[slotId].userSize >= 16 && slots[slotId].userSize % 16 == 0
  {
    hide CoreOk, Lists, BitmapOk;
    var L, S, B := LayoutOf(m, g), StatusOf(m, g), BinsOf(m, g, bitmap);
    CoreBins(L, S, B, slots);
    EmptyList(LISTS, B.next, B.prev, S.key, B.rank, B.clock, SlotKey(slotId));
    FirstPrev(B, S.key, SlotKey(slotId));
    hide BinsOk;
    if m.next[Head(SlotKey(slotId))] != Tail(SlotKey(slotId)) {
      var c := m.next[Head(SlotKey(slotId))].addr;
      ChunkFacts(L, S, B, slots, c);
      PickLinks(L, S, B, slots, c);
    }
  }

  lemma FirstPrev(B: Bins, key: map<int, nat>, k: nat)
    requires BinsOk(B, key) && k < LISTS
    ensures Head(k) in B.next && B.next[Head(k)] in B.prev && B.prev[B.next[Head(k)]] == Head(k)
  {
    hide BitmapOk;
    assert Node(LISTS, key, Head(k));
    assert NextOk(LISTS, B.next, B.prev, key, Head(k));
  }

  lemma SlotBlockFits(slot: Slot)
    requires slot.userSize != 0 && SlotShape(slot)
    ensures slot.blockSize >= 0
    ensures BlockBytes(slot.blockSize, Flags(true, true, true, false, 0), false) == slot.maxChunk + OVERHEAD
    ensures BlockBytes(slot.blockSize, Flags(true, true, true, false, 0), true) == slot.maxChunk + OVERHEAD
    ensures slot.userSize + PADDING <= slot.maxChunk
  {
    hide Pow2, CeilPowerOf2;
    var _ := CeilPowerOf2Is(slot.blockSize + 112);
  }

  // The state after init.

  lemma EmptyCore(next: Links, prev: Links, slots: seq<Slot>)
    requires forall k: nat :: k < LISTS ==> Head(k) in next && next[Head(k)] == Tail(k) && Tail(k) in prev
                                            && prev[Tail(k)] == Head(k)
    ensures Consistent(Memory(map[], map[], map[], map[], next, prev),
                       Model({}, map[], map[], map[], [0, 0], map[], {}, {}, map[], map[], 0), [0, 0], slots)
  {
    EmptyLinks(next, prev);
    EmptyBitmap(next);
    hide BitmapOk, Lists, RoleOk, ChunkOk, BlockOk, KindOk, CoalescedAt;
  }

  lemma EmptyLinks(next: Links, prev: Links)
    requires forall k: nat :: k < LISTS ==> Head(k) in next && next[Head(k)] == Tail(k) && Tail(k) in prev
                                            && prev[Tail(k)] == Head(k)
    ensures Lists(LISTS, next, prev, map[], map[], 0)
  {
  }

  lemma EmptyBitmap(next: Links)
    requires forall k: nat :: k < LISTS ==> Head(k) in next && next[Head(k)] == Tail(k)
    ensures BitmapOk([0, 0], next)
  {
    hide Pow2, Bit;
    Pow2Mono(0, 64);
    forall level: nat, bin: nat | level < 2 && bin < BINS ensures BitAgrees([0, 0], next, level, bin) {
      BitOfZero(bin);
    }
  }

  function ZeroCounter(): Counter {
    map row: nat, bin: nat | row < ROWS && bin < BINS :: (row, bin) := 0
  }

  const NO_SLOT: Slot := Slot(0, 0, 0, 0, 0, 0, 0)

  function NoSlots(): seq<Slot> { seq(SLOTS, i => NO_SLOT) }

  lemma EmptyBooks()
    ensures TotalsOk(map[], Totals(0, 0, 0, 0, 0), ZeroCounter(), ZeroCounter(), NoSlots())
    ensures FitsOk(map[]) && SlotShapes(NoSlots())
  {
    forall m: Measure ensures Total(map[], m) == 0 { }
    forall row: nat, bin: nat | row < ROWS && bin < BINS
      ensures (row, bin) in ZeroCounter() && ZeroCounter()[(row, bin)] == 0
    {
    }
    hide Total, Pow2, CeilPowerOf2;
  }

  lemma EmptyStore(maxReserve: nat)
    ensures StoreOk(map[], Store(map[], map[], map[], 0, 0, 0, 0), Shelf({}, map[], 0, 0, 0), maxReserve)
    ensures CountsOk(map[], BlockCounts(0, 0, 0, 0, 0, 0), Shelf({}, map[], 0, 0, 0))
  {
  }

  /** One call was refused a block, or none was. */
  ghost predicate Refused(before: Shelf, after: Shelf, refused: bool) {
    && after.failedCount == before.failedCount + (if refused then 1 else 0)
    && (!refused ==> after.failedBytes == before.failedBytes)
  }

  /** What a caller of a free function gets: one allocation less, and the size of its payload. */
  ghost predicate TakenBack(before: Model, after: Model, a: int, r: int) {
    && a in before.live && after.live == before.live - {a}
    && r == before.live[a].size - PADDING >= before.live[a].request
    && (before.live[a].kind.direct && !before.live[a].kind.slot ==>
        a - FIRST in before.blocks && a - FIRST !in after.blocks)
  }

  lemma DirectFits(l: Live)
    requires l.color < COLORS && !l.kind.slot && l.kind.direct && l.request <= l.size - PADDING
             && BIG_MAX_REQUEST <= l.request
    requires DirectValue(l.request) >= 4 && l.bin == DirectClass(l.request) && l.bin < BINS
    ensures Fits(l)
  {
    hide DirectValue, DirectClass, Resolve, BigValue, BigClass, SmallId;
  }

  // Where a chunk of a divided level is taken from.

  /** The chunk heads the list of a bin. */
  ghost predicate FirstInBin(m: Memory, level: nat, bin: nat, chunk: int) {
    Head(BinKey(level, bin)) in m.next && m.next[Head(BinKey(level, bin))] == At(chunk)
  }

  /** A victim that is large enough serves the request: its high end if a legal chunk is left of it, or the whole. */
  ghost predicate VictimServes(m: Memory, dv: seq<int>, after: seq<int>, level: nat, padding: int, chunk: int)
    requires level < |dv| == |after|
  {
    var v := dv[level];
    v != 0 && v in m.thisSize && m.thisSize[v] >= padding ==>
      var rest := m.thisSize[v] - padding;
      if rest >= LeastOf(level) then after == dv && chunk == v + rest else after == dv[level := 0] && chunk == v
  }

  // When a request of a divided level needs a new block.

  /** What the search looks at: a bin at or above the wanted one, or a victim that is large enough. */
  ghost predicate CanServe(m: Memory, bitmap: seq<nat>, dv: seq<int>, level: nat, id: nat, need: int)
    requires level < |bitmap| && level < |dv|
  {
    Shr(bitmap[level], id) != 0 || (dv[level] != 0 && dv[level] in m.thisSize && m.thisSize[dv[level]] >= need)
  }

  /** A free chunk of a divided block of some level. */
  ghost predicate FreeChunk(m: Memory, g: Model, level: nat, a: int) {
    && a in g.chunks && a in m.flags && !m.flags[a].used && a in m.thisSize
    && a in g.home && g.home[a] in g.kinds && DividedKind(g.kinds[g.home[a]], level)
  }

  /** Some free chunk of the level has at least `need` bytes. */
  ghost predicate FreeFor(m: Memory, g: Model, level: nat, need: int) {
    exists a: int :: FreeChunk(m, g, level, a) && m.thisSize[a] >= need
  }

  /** The least size of a chunk for a request, header included. */
  ghost predicate Needs(level: nat, id: nat, need: int) {
    if level == 1 then id <= 36 && need == Resolve(id) + PADDING else id < BINS && need == 16 * id + PADDING
  }

  /** Bins are ordered by size. */
  lemma BinOfLarger(level: nat, id: nat, need: int, size: int)
    requires level < 2 && Needs(level, id, need) && size >= need && size >= LeastOf(level)
    ensures BinFor(level == 1, size) >= id
  {
    if level == 1 {
      BigBinExact(size - PADDING);
      hide Resolve, BigBin;
      var b: nat := BigBin(size - PADDING);
      if b < id { ResolveMono(b, id); }
    } else {
      SmallBinIs(size - PADDING);
    }
  }

  lemma SmallerBinIsSmaller(level: nat, id: nat, need: int, size: int)
    requires level < 2 && Needs(level, id, need) && size >= LeastOf(level) && BinFor(level == 1, size) >= id
    ensures size >= need
  {
    if level == 1 {
      hide Resolve, BigBin;
      BigBinExact(size - PADDING);
      var b: nat := BigBin(size - PADDING);
      if id < b {
        ResolveMono(id, b);
        ResolveStep(id);
      }
    } else {
      SmallBinIs(size - PADDING);
    }
  }

  /** The search finds something exactly when a free chunk of the level is large enough. */
  lemma ServesWhatFits(m: Memory, g: Model, bitmap: seq<nat>, slots: seq<Slot>, dv: seq<int>, level: nat, id: nat,
                       need: int)
    requires Consistent(m, g, bitmap, slots) && AtRest(g, dv) && level < 2 && id < BINS && Needs(level, id, need)
    ensures |bitmap| == 2 && (CanServe(m, bitmap, dv, level, id, need) <==> FreeFor(m, g, level, need))
  {
    hide CoreOk, Shr, Bit, BinFor, Needs, Lists, BitmapOk;
    var L, S, B := LayoutOf(m, g), StatusOf(m, g), BinsOf(m, g, bitmap);
    CoreBins(L, S, B, slots);
    if CanServe(m, bitmap, dv, level, id, need) {
      if Shr(bitmap[level], id) != 0 {
        var i := LeastBin(B, g.key, level, id);
        FirstChunk(m, g, bitmap, slots, level, id + i);
        var c := m.next[Head(BinKey(level, id + i))].addr;
        SmallerBinIsSmaller(level, id, need, m.thisSize[c]);
        ListedIsFree(m, g, bitmap, slots, c);
        assert FreeChunk(m, g, level, c);
      } else {
        VictimFacts(m, g, bitmap, slots, level);
        VictimLevel(L, S, B, slots, level);
        ListedIsFree(m, g, bitmap, slots, dv[level]);
        assert FreeChunk(m, g, level, dv[level]);
      }
    }
    if FreeFor(m, g, level, need) {
      var a: int :| FreeChunk(m, g, level, a) && m.thisSize[a] >= need;
      FreeIsFound(m, g, bitmap, slots, dv, level, a);
      if a != dv[level] {
        BinOfLarger(level, id, need, m.thisSize[a]);
        WordHasBit(B, g.key, level, id, a);
      }
    }
  }

  lemma ListedIsFree(m: Memory, g: Model, bitmap: seq<nat>, slots: seq<Slot>, a: int)
    requires Consistent(m, g, bitmap, slots) && (a in g.key || IsDv(StatusOf(m, g), a))
    ensures a in g.chunks && a in m.flags && !m.flags[a].used
  {
    hide CoreOk;
    ChunkFacts(LayoutOf(m, g), StatusOf(m, g), BinsOf(m, g, bitmap), slots, a);
  }

  /** A free chunk is the victim of its level or in the bin of its size. */
  lemma FreeIsFound(m: Memory, g: Model, bitmap: seq<nat>, slots: seq<Slot>, dv: seq<int>, level: nat, a: int)
    requires Consistent(m, g, bitmap, slots) && AtRest(g, dv) && level < 2 && FreeChunk(m, g, level, a)
    ensures a != 0 && m.thisSize[a] >= LeastOf(level)
    ensures a != dv[level] ==> a in g.key && 0 <= BinFor(level == 1, m.thisSize[a]) < BINS
                               && g.key[a] == BinKey(level, BinFor(level == 1, m.thisSize[a]))
  {
    var L, S, B := LayoutOf(m, g), StatusOf(m, g), BinsOf(m, g, bitmap);
    FreeHasRole(L, S, B, slots, a);
    hide CoreOk, BinFor;
    ChunkFacts(L, S, B, slots, a);
  }

  lemma FreeHasRole(L: Layout, S: Status, B: Bins, slots: seq<Slot>, a: int)
    requires CoreOk(L, S, B, slots) && a in L.chunks && IsFree(S, a) && S.floating == {}
    ensures a in S.key || IsDv(S, a)
  {
    hide BinsOk, KindsOk, Tiled, Coalesced, RolesWithin;
    assert RoleOk(L, S, a);
  }

  lemma WordHasBit(B: Bins, key: map<int, nat>, level: nat, id: nat, a: int)
    requires BinsOk(B, key) && level < 2 && level < |B.bitmap| && a in key
    requires exists bin: nat :: id <= bin < BINS && key[a] == BinKey(level, bin)
    ensures Shr(B.bitmap[level], id) != 0
  {
    hide Lists, BitmapOk, Bit, Shr;
    var bin: nat :| id <= bin < BINS && key[a] == BinKey(level, bin);
    ListedBit(B, key, level, bin, a);
    BitOfShr(B.bitmap[level], id, bin - id);
    BitOfZero(bin - id);
  }

  /** A new block is taken exactly when no free chunk is large enough, and nothing is returned only then. */
  ghost predicate ServedIfFits(m: Memory, before: Model, after: Model, level: nat, need: int, p: int) {
    if p == 0 then !FreeFor(m, before, level, need)
    else (after.blocks == before.blocks <==> FreeFor(m, before, level, need))
  }

  /** The chunk of a block just laid out. */
  lemma NewChunkTaken(before: Memory, g0: Model, m: Memory, g: Model, dv: seq<int>, chunk: int, size: int, level: nat,
                      kind: Kind)
    requires Opened(before, g0, m, g, chunk, size, kind)
    requires AtRest(g0, dv) && DividedKind(kind, level) && size % 16 == 0 && size > OVERHEAD
    ensures Taken(m, g, chunk, level) && g.loose == {} && g.live == g0.live && g.victim == g0.victim && chunk !in g.live
    ensures m.thisSize[chunk] == size - OVERHEAD && g.blocks != g0.blocks && VictimsKept(before, g0, m)
  {
    assert g.floating == {} + {chunk} == {chunk};
    assert chunk - FIRST in g.blocks;
  }

  lemma DirectTaken(before: Memory, g0: Model, m: Memory, g: Model, dv: seq<int>, chunk: int, size: int, kind: Kind)
    requires Opened(before, g0, m, g, chunk, size, kind) && AtRest(g0, dv) && size > OVERHEAD
    ensures g.floating == {chunk} && g.loose == {} && g.live == g0.live && g.victim == g0.victim && chunk !in g.live
    ensures chunk in m.thisSize && m.thisSize[chunk] == size - OVERHEAD
    ensures chunk in g.home && g.home[chunk] in g.kinds && g.kinds[g.home[chunk]] == kind
  {
    assert g.floating == {} + {chunk} == {chunk};
  }
}
