/** What a valid allocator guarantees, said without its ghost bookkeeping where that is possible. */
module Guarantees {
  import opened Bits
  import opened IntrusiveLists
  import opened SizeClasses
  import opened Tiling
  import opened BlockLists
  import opened HeldBlocks
  import opened Roles
  import opened Bins
  import opened Core
  import opened SlotBlocks
  import opened Accounting
  import opened Books
  import opened ZmallocState
  import opened Zmalloc

  /** The payload of a live chunk, as a range of addresses. */
  ghost predicate InPayload(z: Zmalloc, a: int, x: int)
    reads z
    requires a in z.model.live
  {
    a + PADDING <= x < a + z.model.live[a].size
  }

  /**
    Live payloads are aligned, at least as large as requested, inside one used block each, and disjoint; the
    recorded size is the one in the header, so it does not change while the chunk is live.
   */
  lemma Payloads(z: Zmalloc)
    requires z.Valid()
    ensures forall a: int {:trigger a in z.model.live} :: a in z.model.live ==>
              && (a + PADDING) % 16 == 0 && a in z.mem.thisSize && z.mem.thisSize[a] == z.model.live[a].size
              && z.model.live[a].request <= z.model.live[a].size - PADDING
              && a in z.model.home && z.model.home[a] in z.model.blocks
              && z.model.home[a] + FIRST <= a
              && a + z.model.live[a].size <= z.model.home[a] + z.model.blocks[z.model.home[a]] - SENTINEL
    ensures forall a: int, c: int, x: int ::
              a in z.model.live && c in z.model.live && InPayload(z, a, x) && InPayload(z, c, x) ==> a == c
  {
    hide CoreOk, StoreOk, CountsOk, TotalsOk, FitsOk, SlotShapes;
    var L, S, B := LayoutOf(z.mem, z.model), StatusOf(z.mem, z.model), BinsOf(z.mem, z.model, z.bitmap);
    forall a: int | a in z.model.live
      ensures && (a + PADDING) % 16 == 0 && a in z.mem.thisSize && z.mem.thisSize[a] == z.model.live[a].size
              && z.model.live[a].request <= z.model.live[a].size - PADDING
              && a in z.model.home && z.model.home[a] in z.model.blocks
              && z.model.home[a] + FIRST <= a
              && a + z.model.live[a].size <= z.model.home[a] + z.model.blocks[z.model.home[a]] - SENTINEL
    {
      PayloadAt(L, S, B, z.slots, a);
    }
    forall a: int, c: int, x: int | a in z.model.live && c in z.model.live && InPayload(z, a, x) && InPayload(z, c, x)
      ensures a == c
    {
      if a < c { PayloadsApart(L, S, B, z.slots, a, c); }
      if c < a { PayloadsApart(L, S, B, z.slots, c, a); }
    }
  }

  lemma PayloadAt(L: Layout, S: Status, B: Bins, slots: seq<Slot>, a: int)
    requires CoreOk(L, S, B, slots) && a in S.live
    ensures IsBody(L, a) && a % 16 == 0 && L.thisSize[a] == S.live[a].size
            && S.live[a].request <= S.live[a].size - PADDING
    ensures L.home[a] + FIRST <= a && a + L.thisSize[a] <= L.home[a] + L.blocks[L.home[a]] - SENTINEL
  {
    ChunkFacts(L, S, B, slots, a);
    CoreIsTiled(L, S, B, slots);
    hide CoreOk, KindOk;
    ChunkIsOk(L, a);
  }

  lemma PayloadsApart(L: Layout, S: Status, B: Bins, slots: seq<Slot>, a: int, c: int)
    requires CoreOk(L, S, B, slots) && a in S.live && c in S.live && a < c
    ensures a + S.live[a].size <= c
  {
    PayloadAt(L, S, B, slots, a);
    PayloadAt(L, S, B, slots, c);
    CoreIsTiled(L, S, B, slots);
    hide CoreOk;
    ApartPair(L, a, c);
  }

  /**
    The header of a live chunk is still as it was when the chunk was handed out, whatever its neighbours went
    through: the size, the colour, the class and the level that its free will count.
   */
  lemma LiveHeaders(z: Zmalloc, a: int)
    requires z.Valid() && a in z.model.live
    ensures a in z.mem.thisSize && a in z.mem.binId && a in z.mem.flags
    ensures var l, f := z.model.live[a], z.mem.flags[a];
            && f.used && f.color == l.color && f.big == l.kind.big && f.direct == l.kind.direct && f.slot == l.kind.slot
            && z.mem.thisSize[a] == l.size && z.mem.binId[a] == l.bin && (l.kind.slot ==> l.bin == l.kind.slotId)
  {
    hide CoreOk, StoreOk, CountsOk, TotalsOk, FitsOk, SlotShapes;
    ChunkFacts(LayoutOf(z.mem, z.model), StatusOf(z.mem, z.model), BinsOf(z.mem, z.model, z.bitmap), z.slots, a);
  }

  /**
    No split leaves a chunk that is too small: in a divided block every chunk has the least size of its level,
    in a direct block there is one chunk only, and in the block of a slot every chunk has room for an object.
   */
  lemma LegalSizes(z: Zmalloc, a: int)
    requires z.Valid() && IsBody(LayoutOf(z.mem, z.model), a)
    ensures a in z.mem.thisSize && z.mem.thisSize[a] % 16 == 0
    ensures a in z.model.home && z.model.home[a] in z.model.kinds && z.model.home[a] in z.model.blocks
    ensures var b, kind := z.model.home[a], z.model.kinds[z.model.home[a]];
            if kind.slot then kind.slotId < |z.slots| && z.slots[kind.slotId].userSize + PADDING <= z.mem.thisSize[a]
            else
              && (if kind.direct then a == b + FIRST && z.mem.thisSize[a] == z.model.blocks[b] - OVERHEAD
                  else z.model.blocks[b] == DEFAULT_BLOCK)
              && z.mem.thisSize[a] >= if kind.big then BIG_LEAST else SMALL_LEAST
  {
    hide StoreOk, CountsOk, TotalsOk, FitsOk, SlotShapes;
    var L, S, B := LayoutOf(z.mem, z.model), StatusOf(z.mem, z.model), BinsOf(z.mem, z.model, z.bitmap);
    CoreIsTiled(L, S, B, z.slots);
    BodySize(L, S, a);
    hide Tiled, BinsOk, RolesWithin, Coalesced;
    assert RoleOk(L, S, a);
  }

  /** Every used block is tiled exactly by its chunks, and the block list visits every used block once. */
  lemma BlocksAreTiled(z: Zmalloc, b: int)
    requires z.Valid() && b in z.model.blocks
    ensures var L := LayoutOf(z.mem, z.model);
            && Tiled(L) && b + HEAD in L.chunks && Contiguous(L, Walk(L, b + HEAD))
            && var w := Walk(L, b + HEAD);
               && |w| > 0 && w[0] == b + HEAD && w[|w| - 1] == b + L.blocks[b] - SENTINEL
               && (forall c: int :: c in w <==> c in L.chunks && c in L.home && L.home[c] == b)
  {
    hide CoreOk, StoreOk, CountsOk, TotalsOk, FitsOk, SlotShapes, Tiled;
    var L := LayoutOf(z.mem, z.model);
    CoreIsTiled(L, StatusOf(z.mem, z.model), BinsOf(z.mem, z.model, z.bitmap), z.slots);
    BlockIsTiled(L, b);
  }

  /** Eager coalescing: of two physical neighbours at least one is in use. */
  lemma NoFreeNeighbours(z: Zmalloc, a: int)
    requires z.Valid() && a in z.model.chunks
    ensures var L := LayoutOf(z.mem, z.model);
            && Placed(L, a)
            && (!IsTail(L, a) ==>
                  && NextOf(L, a) in z.mem.flags && a in z.mem.flags && NextOf(L, a) in z.mem.prevSize
                  && z.mem.prevSize[NextOf(L, a)] == z.mem.thisSize[a]
                  && (z.mem.flags[a].used || z.mem.flags[NextOf(L, a)].used))
  {
    hide StoreOk, CountsOk, TotalsOk, FitsOk, SlotShapes;
    var L, S, B := LayoutOf(z.mem, z.model), StatusOf(z.mem, z.model), BinsOf(z.mem, z.model, z.bitmap);
    CoreIsTiled(L, S, B, z.slots);
    hide Tiled, BinsOk, KindsOk, RolesWithin;
    assert Placed(L, a) && CoalescedAt(L, S, a);
    RoleFlags(L, S, a);
    if !IsTail(L, a) {
      FrontOfNext(L, a);
      RoleFlags(L, S, NextOf(L, a));
    }
  }

  lemma RoleFlags(L: Layout, S: Status, a: int)
    requires RolesOk(L, S) && a in L.chunks
    ensures a in S.flags
  {
    assert RoleOk(L, S, a);
  }

  /** The chunks a walk through list `k` visits. */
  ghost function ListAt(z: Zmalloc, k: nat): seq<int>
    reads z
    requires z.Valid() && k < LISTS
  {
    CoreBins(LayoutOf(z.mem, z.model), StatusOf(z.mem, z.model), BinsOf(z.mem, z.model, z.bitmap), z.slots);
    assert Node(LISTS, z.model.key, Head(k));
    Chain(LISTS, z.mem.next, z.mem.prev, z.model.key, z.model.rank, z.model.clock, Head(k))
  }

  /** The one list a free chunk that is not a victim belongs in: its slot's, or that of the bin of its size. */
  ghost function ProperList(z: Zmalloc, a: int): int
    reads z
    requires a in z.mem.thisSize && z.mem.thisSize[a] >= 20 && a in z.model.home && z.model.home[a] in z.model.kinds
  {
    var kind := z.model.kinds[z.model.home[a]];
    if kind.slot then SlotKey(kind.slotId)
    else (if kind.big then 64 else 0) + BinFor(kind.big, z.mem.thisSize[a])
  }

  /**
    A chunk that is not a sentinel is live and in no list; or the victim of its level and in no list; or free
    and in exactly one list, the proper one, once.
   */
  lemma ChunkPlaces(z: Zmalloc, a: int)
    requires z.Valid() && IsBody(LayoutOf(z.mem, z.model), a)
    ensures a in z.mem.thisSize && z.mem.thisSize[a] >= LEAST && a in z.model.home && z.model.home[a] in z.model.kinds
    ensures a in z.mem.flags && |z.dv| == 2
    ensures var kind := z.model.kinds[z.model.home[a]];
            var victim := !kind.slot && a == z.dv[if kind.big then 1 else 0];
            if z.mem.flags[a].used || victim
            then (z.mem.flags[a].used ==> a in z.model.live && !victim) && forall k: nat :: k < LISTS ==>
              a !in ListAt(z, k)
            else forall k: nat :: k < LISTS ==> (a in ListAt(z, k) <==> k == ProperList(z, a))
    ensures forall k: nat, i: nat, j: nat :: k < LISTS && i < j < |ListAt(z, k)| ==> ListAt(z, k)[i] != ListAt(z, k)[j]
  {
    hide CoreOk, StoreOk, CountsOk, TotalsOk, FitsOk, SlotShapes, Lists, BitmapOk;
    var L, S, B := LayoutOf(z.mem, z.model), StatusOf(z.mem, z.model), BinsOf(z.mem, z.model, z.bitmap);
    CoreBins(L, S, B, z.slots);
    ListKeys(z);
    hide ListAt;
    PlaceOf(L, S, B, z.slots, a);
  }

  lemma ListKeysAt(z: Zmalloc, k: nat)
    requires z.Valid() && k < LISTS
    ensures forall a: int :: a in ListAt(z, k) <==> a in z.model.key && z.model.key[a] == k
    ensures forall i: nat, j: nat :: i < j < |ListAt(z, k)| ==> ListAt(z, k)[i] != ListAt(z, k)[j]
  {
    hide CoreOk, StoreOk, CountsOk, TotalsOk, FitsOk, SlotShapes, Lists, BitmapOk, Chain;
    CoreBins(LayoutOf(z.mem, z.model), StatusOf(z.mem, z.model), BinsOf(z.mem, z.model, z.bitmap), z.slots);
    ListIsExact(LISTS, z.mem.next, z.mem.prev, z.model.key, z.model.rank, z.model.clock, k);
    assert ListAt(z, k) == Chain(LISTS, z.mem.next, z.mem.prev, z.model.key, z.model.rank, z.model.clock, Head(k));
  }

  lemma ListKeys(z: Zmalloc)
    requires z.Valid()
    ensures forall k: nat, a: int :: k < LISTS ==> (a in ListAt(z, k) <==> a in z.model.key && z.model.key[a] == k)
    ensures forall k: nat, i: nat, j: nat :: k < LISTS && i < j < |ListAt(z, k)| ==> ListAt(z, k)[i] != ListAt(z, k)[j]
  {
    forall k: nat | k < LISTS
      ensures forall a: int :: a in ListAt(z, k) <==> a in z.model.key && z.model.key[a] == k
      ensures forall i: nat, j: nat :: i < j < |ListAt(z, k)| ==> ListAt(z, k)[i] != ListAt(z, k)[j]
    {
      ListKeysAt(z, k);
      hide *;
    }
  }

  lemma PlaceOf(L: Layout, S: Status, B: Bins, slots: seq<Slot>, a: int)
    requires CoreOk(L, S, B, slots) && IsBody(L, a) && S.floating == {}
    ensures a in S.flags && L.home[a] in S.kinds && L.thisSize[a] >= LEAST && |S.dv| == 2
    ensures S.flags[a].used <==> a in S.live
    ensures a in S.live || a in S.key || IsDv(S, a)
    ensures a in S.live ==> a !in S.key && !IsDv(S, a)
    ensures a in S.key ==> !IsDv(S, a) && KeyOk(L, S, a)
    ensures IsDv(S, a) ==> !S.kinds[L.home[a]].slot && S.dv[if S.kinds[L.home[a]].big then 1 else 0] == a
    ensures a > 0
  {
    CoreIsTiled(L, S, B, slots);
    CoreRoleAt(L, S, B, slots, a);
    ChunkFacts(L, S, B, slots, a);
  }

  lemma CoreRoleAt(L: Layout, S: Status, B: Bins, slots: seq<Slot>, a: int)
    requires CoreOk(L, S, B, slots) && IsBody(L, a) && S.floating == {}
    ensures a in S.live || a in S.key || IsDv(S, a)
  {
    hide BinsOk, KindsOk, Tiled, RolesWithin, Coalesced;
    assert RoleOk(L, S, a);
  }

  /** A victim is a free chunk of the level it is recorded for. */
  lemma Victims(z: Zmalloc, level: nat)
    requires z.Valid() && level < |z.dv| && z.dv[level] != 0
    ensures var v := z.dv[level];
            && IsBody(LayoutOf(z.mem, z.model), v) && v in z.mem.flags && !z.mem.flags[v].used
            && v in z.model.home && z.model.home[v] in z.model.kinds
            && DividedKind(z.model.kinds[z.model.home[v]], level)
  {
    hide CoreOk, StoreOk, CountsOk, TotalsOk, FitsOk, SlotShapes;
    VictimFacts(z.mem, z.model, z.bitmap, z.slots, level);
    ChunkFacts(LayoutOf(z.mem, z.model), StatusOf(z.mem, z.model), BinsOf(z.mem, z.model, z.bitmap), z.slots,
               z.dv[level]);
  }

  /** A bit of a bitmap is set exactly when a walk through its bin visits a chunk. */
  lemma BitmapIsExact(z: Zmalloc, level: nat, bin: nat)
    requires z.Valid() && level < 2 && bin < BINS
    ensures |z.bitmap| == 2 && (Bit(z.bitmap[level], bin) <==> ListAt(z, BinKey(level, bin)) != [])
  {
    hide CoreOk, StoreOk, CountsOk, TotalsOk, FitsOk, SlotShapes, Lists, BitmapOk, Bit;
    CoreBins(LayoutOf(z.mem, z.model), StatusOf(z.mem, z.model), BinsOf(z.mem, z.model, z.bitmap), z.slots);
    FirstOfBin(BinsOf(z.mem, z.model, z.bitmap), z.model.key, level, bin);
    ListKeysAt(z, BinKey(level, bin));
    hide ListAt;
    var l := ListAt(z, BinKey(level, bin));
    if l != [] { assert l[0] in l; }
  }

  /** The blocks a walk through the used list, and one through the reserve, visits. */
  ghost function UsedList(z: Zmalloc): seq<int>
    reads z
    requires z.Valid()
  {
    BlockChain(z.model.blocks.Keys, z.store.usedFirst, z.store.next, z.store.front, z.shelf.rank, z.shelf.clock,
               z.store.usedFirst)
  }

  ghost function ReserveList(z: Zmalloc): seq<int>
    reads z
    requires z.Valid()
  {
    BlockChain(z.shelf.reserved, z.store.reserveFirst, z.store.next, z.store.front, z.shelf.rank, z.shelf.clock,
               z.store.reserveFirst)
  }

  /**
    The two lists hold the used blocks and the reserve, each once and none in both; the counts are their
    lengths, the reserve keeps its limit, and all these blocks are disjoint regions.
   */
  lemma BlockListsAreExact(z: Zmalloc)
    requires z.Valid()
    ensures forall b: int :: b in UsedList(z) <==> b in z.model.blocks
    ensures forall b: int :: b in ReserveList(z) <==> b in z.shelf.reserved
    ensures |UsedList(z)| == z.store.usedCount && |ReserveList(z)| == z.store.reserveCount <= z.maxReserve
    ensures forall b: int :: !(b in UsedList(z) && b in ReserveList(z))
    ensures Apart(Held(z.model.blocks, z.shelf.reserved))
  {
    hide CoreOk, CountsOk, TotalsOk, FitsOk, SlotShapes, BlockList, Apart, Held;
    BlockListIsExact(z.model.blocks.Keys, z.store.usedFirst, z.store.next, z.store.front, z.shelf.rank, z.shelf.clock);
    BlockListIsExact(z.shelf.reserved, z.store.reserveFirst, z.store.next, z.store.front, z.shelf.rank, z.shelf.clock);
  }

  /** Without refused blocks, allocated less freed blocks are the used ones, in number and in bytes; and only then. */
  lemma BlockCounters(z: Zmalloc)
    requires z.Valid()
    ensures z.shelf.failedCount == 0 <==> z.counts.allocCount - z.counts.freeCount == |UsedList(z)|
    ensures z.shelf.failedBytes == 0 <==> z.counts.allocBytes - z.counts.freeBytes == Sum(z.model.blocks)
  {
    hide CoreOk, TotalsOk, FitsOk, SlotShapes, Sum;
    BlockListsAreExact(z);
  }

  /**
    Allocated less freed bytes are those of the live chunks; allocated less freed chunks of a colour, level and
    bin are the live ones.
   */
  lemma Counters(z: Zmalloc, color: nat, big: bool, bin: nat)
    requires z.Valid() && color < 64 && bin < 63
    ensures z.totals.allocBytes - z.totals.freeBytes == Sum(Sizes(z.model.live))
    ensures var row := 2 * color + if big then 1 else 0;
            && (row, bin) in z.allocCounter && (row, bin) in z.freeCounter
            && z.allocCounter[(row, bin)] - z.freeCounter[(row, bin)]
               == |set a | a in z.model.live && Counts(z.model.live[a], color, big, bin)|
  {
    hide CoreOk, StoreOk, CountsOk, FitsOk, SlotShapes, Total, Sum;
    ClassTotal(z.model.live, color, big, bin);
    BytesTotal(z.model.live);
    var row := 2 * color + if big then 1 else 0;
    assert z.allocCounter[(row, bin)] - z.freeCounter[(row, bin)] == Total(z.model.live, Class(row, bin));
  }

  lemma LastCounters(z: Zmalloc, color: nat, big: bool)
    requires z.Valid() && color < 64
    ensures var row := 2 * color + if big then 1 else 0;
            && (row, 63) in z.allocCounter && (row, 63) in z.freeCounter
            && z.allocCounter[(row, 63)] - z.freeCounter[(row, 63)]
               == Sum(LastWeights(z.model.live, color, big))
  {
    hide CoreOk, StoreOk, CountsOk, FitsOk, SlotShapes, Total, Sum;
    LastTotal(z.model.live, color, big);
    var row := 2 * color + if big then 1 else 0;
    assert z.allocCounter[(row, 63)] - z.freeCounter[(row, 63)] == Total(z.model.live, Class(row, 63));
  }

  /** The same for the objects of a slot, in number and in bytes. */
  lemma SlotCounters(z: Zmalloc, s: nat)
    requires z.Valid() && s < SLOTS
    ensures s < |z.slots|
    ensures z.slots[s].allocCount - z.slots[s].freeCount
         == |set a | a in z.model.live && z.model.live[a].kind.slot && z.model.live[a].kind.slotId == s|
    ensures z.slots[s].allocBytes - z.slots[s].freeBytes == Sum(Sizes(Objects(z.model.live, s)))
  {
    hide CoreOk, StoreOk, CountsOk, FitsOk, SlotShapes, ClassesOk, Total, Sum;
    SlotTotal(z.model.live, s);
    SlotBytesTotal(z.model.live, s);
  }

  /**
    Bounded waste. A big allocation has less than the payload of the next class, or less than its own class and
    the least big chunk; a small one of at most 976 bytes has at most 16 bytes more than its class.
   */
  lemma BoundedWaste(z: Zmalloc, a: int)
    requires z.Valid() && a in z.model.live && !z.model.live[a].kind.slot && !z.model.live[a].kind.direct
    ensures var l := z.model.live[a];
            && a in z.mem.binId && z.mem.binId[a] == l.bin && a in z.mem.thisSize && z.mem.thisSize[a] == l.size
            && (l.kind.big ==>
                  && BigValue(l.request) >= 4 && l.bin == BigClass(l.request) && l.request <= l.size - PADDING
                  && Resolve(l.bin) <= l.size - PADDING < Max(Resolve(l.bin + 1), Resolve(l.bin) + BIG_LEAST))
            && (!l.kind.big ==>
                  && l.bin == SmallId(l.request) && l.request <= l.size - PADDING
                  && (l.request <= 976 ==> l.size - PADDING <= 16 * (l.bin + 1)))
  {
    hide CoreOk, StoreOk, CountsOk, TotalsOk, SlotShapes, Resolve, BigValue, BigClass, SmallId, DirectValue,
         DirectClass;
    ChunkFacts(LayoutOf(z.mem, z.model), StatusOf(z.mem, z.model), BinsOf(z.mem, z.model, z.bitmap), z.slots, a);
    assert Fits(z.model.live[a]);
  }

  /**
    Emptied blocks are not hoarded: a used block that is not a slot's holds a live allocation, unless it is
    all one chunk that is the victim of its level.
   */
  lemma EmptyBlocksAreVictims(z: Zmalloc, b: int)
    requires z.Valid() && b in z.model.blocks && b in z.model.kinds && !z.model.kinds[b].slot
    requires forall c: int {:trigger c in z.model.live} :: c in z.model.live && c in z.model.home ==>
               z.model.home[c] != b
    ensures |z.dv| == 2 && z.dv[if z.model.kinds[b].big then 1 else 0] == b + FIRST
    ensures b + FIRST in z.mem.thisSize && z.mem.thisSize[b + FIRST] == z.model.blocks[b] - OVERHEAD
  {
    hide CoreOk, StoreOk, CountsOk, TotalsOk, FitsOk, SlotShapes;
    UnusedBlock(LayoutOf(z.mem, z.model), StatusOf(z.mem, z.model), BinsOf(z.mem, z.model, z.bitmap), z.slots, b);
  }

  lemma UnusedBlock(L: Layout, S: Status, B: Bins, slots: seq<Slot>, b: int)
    requires CoreOk(L, S, B, slots) && b in L.blocks && b in S.kinds && !S.kinds[b].slot && S.floating == {}
             && S.loose == {}
    requires forall c: int {:trigger c in S.live} :: c in S.live && c in L.home ==> L.home[c] != b
    ensures |S.dv| == 2 && S.dv[if S.kinds[b].big then 1 else 0] == b + FIRST
    ensures b + FIRST in L.thisSize && L.thisSize[b + FIRST] == L.blocks[b] - OVERHEAD
  {
    CoreIsTiled(L, S, B, slots);
    CoreBlock(L, S, B, slots, b);
    FirstIsBody(L, b);
    hide CoreOk, Tiled, BlockOk;
    PlaceOf(L, S, B, slots, b + FIRST);
    if !Whole(L, b + FIRST) {
      var x := PartHasLive(L, S, B, slots, b + FIRST);
    }
  }

  lemma FirstIsBody(L: Layout, b: int)
    requires Tiled(L) && b in L.blocks && BlockOk(L, b)
    ensures IsBody(L, b + FIRST) && L.home[b + FIRST] == b
  {
    ChunkIsOk(L, b + HEAD);
    ChunkIsOk(L, b + FIRST);
  }
}
