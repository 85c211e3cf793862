/**
  The allocator's invariant on values: boundary tags, roles, bins and what each block is used for, with one
  lemma for every effect an operation has on them.
 */
module Core {
  import opened IntrusiveLists
  import opened SizeClasses
  import opened Tiling
  import opened Roles
  import opened Bins

  /** The per-slot state: object size, block size, size of a whole block's chunk, and counters. */
  datatype Slot = Slot(userSize: int, blockSize: int, maxChunk: int,
                       allocCount: int, allocBytes: int, freeCount: int, freeBytes: int)

  ghost predicate KindOk(kind: Kind, size: int, slots: seq<Slot>) {
    if kind.slot then
      && kind.big && kind.direct && kind.slotId < SLOTS && kind.slotId < |slots| && slots[kind.slotId].userSize >= 16
      && slots[kind.slotId].userSize % 16 == 0
      && kind.least == slots[kind.slotId].userSize + PADDING && size == slots[kind.slotId].maxChunk + OVERHEAD
    else
      && (kind.direct ==> kind.big) && (!kind.direct ==> size == DEFAULT_BLOCK)
      && kind.least == if kind.big then BIG_LEAST else SMALL_LEAST
  }

  ghost predicate KindsOk(blocks: map<int, int>, kinds: map<int, Kind>, slots: seq<Slot>) {
    forall b: int {:trigger b in blocks} :: b in blocks ==> b in kinds && KindOk(kinds[b], blocks[b], slots)
  }

  ghost predicate CoreOk(L: Layout, S: Status, B: Bins, slots: seq<Slot>) {
    Sound(L, S) && BinsOk(B, S.key) && KindsOk(L.blocks, S.kinds, slots)
  }

  // Reading the invariant at one chunk.

  /** The kind of the block a chunk lies in. */
  ghost function KindOf(L: Layout, S: Status, a: int): Kind
    requires a in L.home && L.home[a] in S.kinds
  {
    S.kinds[L.home[a]]
  }

  /** What holds of every chunk that is in a list, floating, a victim or live. */
  ghost predicate BodyFacts(L: Layout, S: Status, slots: seq<Slot>, a: int) {
    && IsBody(L, a) && a % 16 == 0 && a > 0 && a in S.flags && L.home[a] in S.kinds
    && S.flags[a].big == KindOf(L, S, a).big && S.flags[a].direct == KindOf(L, S, a).direct
    && S.flags[a].slot == KindOf(L, S, a).slot
    && KindOk(KindOf(L, S, a), L.blocks[L.home[a]], slots)
    && L.thisSize[a] % 16 == 0 && LEAST <= L.thisSize[a] <= L.blocks[L.home[a]] - OVERHEAD
    && KindOf(L, S, a).least <= L.thisSize[a]
    && (a in S.live <==> S.flags[a].used)
  }

  lemma BodyIs(L: Layout, S: Status, slots: seq<Slot>, a: int)
    requires Sound(L, S) && KindsOk(L.blocks, S.kinds, slots)
    requires a in S.live || a in S.key || a in S.floating || IsDv(S, a)
    ensures BodyFacts(L, S, slots, a)
    ensures (a in S.live ==> LiveOk(L, S, a)) && (a in S.key ==> KeyOk(L, S, a))
    ensures a in S.live ==> a !in S.key && a !in S.floating && !IsDv(S, a)
    ensures a in S.key ==> a !in S.floating && !IsDv(S, a)
    ensures a in S.floating ==> !IsDv(S, a)
    ensures IsDv(S, a) ==> !KindOf(L, S, a).direct && S.dv[if KindOf(L, S, a).big then 1 else 0] == a
  {
    hide Tiled, KindOk, KeyOk, CoalescedAt;
    assert a in L.chunks;
    assert RoleOk(L, S, a);
    assert KindOk(S.kinds[L.home[a]], L.blocks[L.home[a]], slots);
    BodySize(L, S, a);
  }

  /** The same from the whole invariant. */
  lemma ChunkFacts(L: Layout, S: Status, B: Bins, slots: seq<Slot>, a: int)
    requires CoreOk(L, S, B, slots)
    requires a in S.live || a in S.key || a in S.floating || IsDv(S, a)
    ensures BodyFacts(L, S, slots, a)
    ensures (a in S.live ==> LiveOk(L, S, a)) && (a in S.key ==> KeyOk(L, S, a))
    ensures a in S.live ==> a !in S.key && a !in S.floating && !IsDv(S, a)
    ensures a in S.key ==> a !in S.floating && !IsDv(S, a)
    ensures a in S.floating ==> !IsDv(S, a)
    ensures IsDv(S, a) ==> !KindOf(L, S, a).direct && S.dv[if KindOf(L, S, a).big then 1 else 0] == a
  {
    hide Sound, KindsOk, BinsOk;
    BodyIs(L, S, slots, a);
  }

  lemma FlagsOfBody(L: Layout, S: Status, slots: seq<Slot>, a: int)
    requires BodyFacts(L, S, slots, a)
    ensures a in S.flags && a in L.home && L.home[a] in S.kinds
    ensures S.flags[a].big == KindOf(L, S, a).big && S.flags[a].direct == KindOf(L, S, a).direct
    ensures S.flags[a].slot == KindOf(L, S, a).slot
  {
  }

  lemma BodySize(L: Layout, S: Status, a: int)
    requires Tiled(L) && IsBody(L, a)
    ensures a % 16 == 0 && a > 0 && L.thisSize[a] % 16 == 0 && LEAST <= L.thisSize[a] <= L.blocks[L.home[a]] - OVERHEAD
  {
    ChunkIsOk(L, a);
    BlockIsOk(L, L.home[a]);
  }

  /** The bin of a chunk of a level. */
  lemma BinInRange(L: Layout, S: Status, slots: seq<Slot>, a: int)
    requires BodyFacts(L, S, slots, a) && !KindOf(L, S, a).direct
    ensures 0 <= BinFor(KindOf(L, S, a).big, L.thisSize[a]) < BINS
  {
    var payload := L.thisSize[a] - PADDING;
    if KindOf(L, S, a).big {
      BigBinInRange(payload);
    } else {
      SmallBinIs(payload);
    }
  }

  // Effects.

  lemma PushCore(L: Layout, S: Status, B: Bins, slots: seq<Slot>, a: int, level: nat, bin: nat)
    requires CoreOk(L, S, B, slots) && a in S.floating && a !in S.loose
    requires a in L.home && L.home[a] in S.kinds && !KindOf(L, S, a).direct && a in L.thisSize
    requires level == (if KindOf(L, S, a).big then 1 else 0) && 20 <= L.thisSize[a] < DEFAULT_BLOCK - OVERHEAD
    requires bin == BinFor(KindOf(L, S, a).big, L.thisSize[a])
    ensures a in S.flags && a !in S.key && Head(BinKey(level, bin)) in B.next && level < |B.bitmap| && bin < BINS
    ensures CoreOk(L, Pushed(S, a, BinKey(level, bin), bin), BinPush(B, level, bin, a), slots)
    ensures B.next[Head(BinKey(level, bin))] != Head(BinKey(level, bin)) && B.next[Head(BinKey(level, bin))] != At(a)
  {
    hide Sound, BinsOk, KindsOk, BinFor;
    BodyIs(L, S, slots, a);
    BinInRange(L, S, slots, a);
    BinPushOk(B, S.key, level, bin, a);
    assert KeyOk(L, Pushed(S, a, BinKey(level, bin), bin), a);
    PushSound(L, S, a, BinKey(level, bin), bin);
  }

  lemma PickCore(L: Layout, S: Status, B: Bins, slots: seq<Slot>, a: int)
    requires CoreOk(L, S, B, slots) && a in S.key && S.key[a] < 128
    ensures BodyFacts(L, S, slots, a) && !KindOf(L, S, a).slot && !KindOf(L, S, a).direct
    ensures a in S.binId && S.binId[a] < BINS && At(a) in B.next && At(a) in B.prev && S.flags[a].Level() < |B.bitmap|
    ensures S.key[a] == BinKey(S.flags[a].Level(), S.binId[a])
    ensures CoreOk(L, Picked(S, a), BinPick(B, S.flags[a].Level(), S.binId[a], a), slots)
  {
    hide Sound, BinsOk, KindsOk, BinFor;
    BodyIs(L, S, slots, a);
    BinPickOk(B, S.key, S.flags[a].Level(), S.binId[a], a);
    PickSound(L, S, a);
  }

  lemma SlotPushCore(L: Layout, S: Status, B: Bins, slots: seq<Slot>, a: int)
    requires CoreOk(L, S, B, slots) && a in S.floating && a !in S.loose
    requires a in L.home && L.home[a] in S.kinds && KindOf(L, S, a).slot
    ensures a in S.flags && a !in S.key && KindOf(L, S, a).slotId < SLOTS
    ensures var k := SlotKey(KindOf(L, S, a).slotId);
            && Head(k) in B.next && B.next[Head(k)] != Head(k) && B.next[Head(k)] != At(a)
            && CoreOk(L, SlotListed(S, a, k), ListPush(B, k, a), slots)
  {
    hide Sound, BinsOk, KindsOk, BinFor;
    BodyIs(L, S, slots, a);
    SlotPushOk(B, S.key, KindOf(L, S, a).slotId, a);
    SlotListedSound(L, S, a, SlotKey(KindOf(L, S, a).slotId));
  }

  lemma SlotPickCore(L: Layout, S: Status, B: Bins, slots: seq<Slot>, a: int)
    requires CoreOk(L, S, B, slots) && a in S.key && S.key[a] >= 128
    ensures BodyFacts(L, S, slots, a) && KindOf(L, S, a).slot && S.key[a] == SlotKey(KindOf(L, S, a).slotId)
    ensures At(a) in B.next && At(a) in B.prev
    ensures CoreOk(L, Picked(S, a), ListUnlink(B, a), slots)
  {
    hide Sound, BinsOk, KindsOk, BinFor;
    BodyIs(L, S, slots, a);
    SlotUnlinkOk(B, S.key, KindOf(L, S, a).slotId, a);
    PickSound(L, S, a);
  }

  lemma SplitCore(L: Layout, S: Status, B: Bins, slots: seq<Slot>, d: int, size: int)
    requires CoreOk(L, S, B, slots) && (d in S.floating || IsDv(S, d) || (d in S.key && S.key[d] >= 128))
    requires size % 16 == 0 && d in L.thisSize && d in L.home && L.home[d] in S.kinds
    requires LEAST <= size && KindOf(L, S, d).least <= size
    requires LEAST <= L.thisSize[d] - size && KindOf(L, S, d).least <= L.thisSize[d] - size
    requires !KindOf(L, S, d).direct || KindOf(L, S, d).slot
    ensures BodyFacts(L, S, slots, d)
    ensures var n := d + L.thisSize[d] - size;
            && n !in L.chunks && n !in S.live && n !in S.key && n !in S.floating && !IsDv(S, n)
            && CoreOk(Split(L, d, size), SplitOff(S, d, n), B, slots)
  {
    hide Sound, BinsOk, KindsOk, BinFor;
    BodyIs(L, S, slots, d);
    SplitSound(L, S, d, size);
    OnlyChunksHaveRoles(L, S, d + L.thisSize[d] - size);
  }

  lemma OnlyChunksHaveRoles(L: Layout, S: Status, a: int)
    requires Sound(L, S) && a !in L.chunks
    ensures a !in S.live && a !in S.key && a !in S.floating && a !in S.loose && !IsDv(S, a)
  {
    hide Tiled, RolesOk, Coalesced;
  }

  lemma MergeCore(L: Layout, S: Status, B: Bins, slots: seq<Slot>, a: int)
    requires CoreOk(L, S, B, slots) && IsBody(L, a) && IsBody(L, NextOf(L, a))
    requires a in S.floating || IsDv(S, a)
    requires NextOf(L, a) in S.floating && a in S.flags && NextOf(L, a) in S.flags
    ensures CoreOk(Merge(L, a), Joined(S, a, NextOf(L, a)), B, slots) && IsBody(Merge(L, a), a)
  {
    SoundIsTiled(L, S);
    hide Sound, BinsOk, KindsOk, BinFor, Tiled, IsBody;
    BodyIs(L, S, slots, a);
    MergeTiled(L, a);
    MergeSound(L, S, a);
  }

  lemma UsedCore(L: Layout, S: Status, B: Bins, slots: seq<Slot>, a: int, color: nat, bin: nat, l: Live)
    requires CoreOk(L, S, B, slots) && a in S.floating
    requires a in L.thisSize && a in L.home && L.home[a] in S.kinds
    requires l == Live(L.thisSize[a], l.request, color, bin, KindOf(L, S, a))
    requires l.request <= l.size - PADDING && if l.kind.slot then bin == l.kind.slotId else bin < BINS
    ensures a in S.flags && CoreOk(L, Used(S, a, color, bin, l), B, slots)
  {
    hide Sound, BinsOk, KindsOk, BinFor;
    BodyIs(L, S, slots, a);
    UsedSound(L, S, a, color, bin, l);
  }

  lemma UnusedCore(L: Layout, S: Status, B: Bins, slots: seq<Slot>, a: int)
    requires CoreOk(L, S, B, slots) && a in S.live
    ensures BodyFacts(L, S, slots, a) && LiveOk(L, S, a) && CoreOk(L, Unused(S, a), B, slots)
  {
    hide Sound, BinsOk, KindsOk, BinFor;
    BodyIs(L, S, slots, a);
    UnusedSound(L, S, a);
  }

  lemma VictimSetCore(L: Layout, S: Status, B: Bins, slots: seq<Slot>, level: nat, a: int)
    requires CoreOk(L, S, B, slots) && a in S.floating && level < |S.dv| && S.dv[level] == 0
    requires a in L.home && L.home[a] in S.kinds
    requires KindOf(L, S, a).big == (level == 1) && !KindOf(L, S, a).direct
    ensures CoreOk(L, VictimSet(S, level, a), B, slots)
  {
    hide Sound, BinsOk, KindsOk, BinFor;
    BodyIs(L, S, slots, a);
    VictimSetSound(L, S, level, a);
  }

  lemma VictimClearedCore(L: Layout, S: Status, B: Bins, slots: seq<Slot>, level: nat)
    requires CoreOk(L, S, B, slots) && level < |S.dv| && S.dv[level] != 0
    ensures CoreOk(L, VictimCleared(S, level), B, slots)
  {
    hide Sound, BinsOk, KindsOk, BinFor;
    VictimClearedSound(L, S, level);
  }

  lemma SettledCore(L: Layout, S: Status, B: Bins, slots: seq<Slot>, a: int)
    requires CoreOk(L, S, B, slots) && IsBody(L, a)
    requires !IsFree(S, NextOf(L, a)) && !IsFree(S, FrontOf(L, a))
    ensures CoreOk(L, Settled(S, a), B, slots)
  {
    hide Sound, BinsOk, KindsOk, BinFor;
    SoundIsTiled(L, S);
    BodyFront(L, a);
    SettledSound(L, S, a);
  }

  lemma SoundIsTiled(L: Layout, S: Status)
    requires Sound(L, S)
    ensures Tiled(L) && |S.dv| == 2
  {
    hide Tiled, RolesOk, Coalesced;
  }

  lemma AddBlockCore(L: Layout, S: Status, B: Bins, slots: seq<Slot>, b: int, size: int, kind: Kind)
    requires CoreOk(L, S, B, slots) && Fresh(L.blocks, b, size)
    requires kind.least <= size - OVERHEAD && KindOk(kind, size, slots)
    ensures CoreOk(AddBlock(L, b, size), BlockAdded(S, b, size, kind), B, slots)
    ensures forall x: int :: x == b + FIRST || x == b + HEAD || x == b + size - SENTINEL ==>
              x !in L.chunks && x !in S.live && x !in S.key && x !in S.floating && x !in S.loose && !IsDv(S, x)
  {
    hide Sound, BinsOk, BinFor;
    AddBlockSound(L, S, b, size, kind);
    OnlyChunksHaveRoles(L, S, b + FIRST);
    OnlyChunksHaveRoles(L, S, b + HEAD);
    OnlyChunksHaveRoles(L, S, b + size - SENTINEL);
  }

  function NullLinks(links: Links, b: int, size: int): Links {
    links[At(b + HEAD) := Null][At(b + FIRST) := Null][At(b + size - SENTINEL) := Null]
  }

  function Unlinked(B: Bins, b: int, size: int): Bins {
    B.(next := NullLinks(B.next, b, size), prev := NullLinks(B.prev, b, size))
  }

  /** The new chunks' own links are set to NULL; no list runs through them. */
  lemma LaidOutCore(L: Layout, S: Status, B: Bins, slots: seq<Slot>, b: int, size: int, kind: Kind)
    requires CoreOk(L, S, B, slots) && Fresh(L.blocks, b, size)
    requires kind.least <= size - OVERHEAD && KindOk(kind, size, slots)
    ensures CoreOk(AddBlock(L, b, size), BlockAdded(S, b, size, kind), Unlinked(B, b, size), slots)
    ensures forall x: int :: x == b + FIRST || x == b + HEAD || x == b + size - SENTINEL ==>
              x !in L.chunks && x !in S.live && x !in S.key && x !in S.floating && x !in S.loose && !IsDv(S, x)
  {
    hide Sound, KindsOk, BinsOk, KindOk, Fresh;
    AddBlockCore(L, S, B, slots, b, size, kind);
    StaleLinks(B, Unlinked(B, b, size), S.key);
  }

  lemma CoreBlocks(L: Layout, S: Status, B: Bins, slots: seq<Slot>)
    requires CoreOk(L, S, B, slots)
    ensures forall c: int {:trigger c in L.blocks} :: c in L.blocks ==> L.blocks[c] > 0
  {
    hide KindsOk, BinsOk, RolesOk, RolesWithin, Coalesced;
    BlocksPositive(L);
  }

  lemma CoreBlock(L: Layout, S: Status, B: Bins, slots: seq<Slot>, b: int)
    requires CoreOk(L, S, B, slots) && b in L.blocks
    ensures BlockOk(L, b) && b in S.kinds && KindOk(S.kinds[b], L.blocks[b], slots)
  {
    hide BinsOk, RolesOk, RolesWithin, Coalesced, KindOk, BlockOk;
    BlockIsOk(L, b);
  }

  lemma DropBlockCore(L: Layout, S: Status, B: Bins, slots: seq<Slot>, b: int)
    requires CoreOk(L, S, B, slots) && Droppable(L, S, b)
    ensures CoreOk(DropBlock(L, b), BlockDropped(S, b), B, slots)
  {
    hide Sound, BinsOk, BinFor;
    DropBlockSound(L, S, b);
  }

  // Neighbours.

  /** A neighbour that is not in use is a chunk of the same block, either in a bin or the victim of the level. */
  lemma FreeNeighbour(L: Layout, S: Status, B: Bins, slots: seq<Slot>, a: int, x: int)
    requires CoreOk(L, S, B, slots) && IsBody(L, a)
    requires x == NextOf(L, a) || x == FrontOf(L, a)
    requires x !in S.floating
    ensures x in S.flags && x in L.home && x in L.thisSize && L.home[x] == L.home[a] && L.home[a] in S.kinds
            && |S.dv| == 2
    ensures !S.flags[x].used ==> BodyFacts(L, S, slots, x) && (x in S.key || IsDv(S, x))
    ensures !S.flags[x].used && x !in S.key ==> x == S.dv[if KindOf(L, S, a).big then 1 else 0]
    ensures x in S.key ==> !S.flags[x].used && KeyOk(L, S, x) && !IsDv(S, x)
    ensures x in S.key ==> S.key[x] < 128 || KindOf(L, S, a).slot
    ensures x in S.key && KindOf(L, S, a).slot ==> S.key[x] == SlotKey(KindOf(L, S, a).slotId)
    ensures IsDv(S, x) ==> !KindOf(L, S, a).slot
  {
    SoundIsTiled(L, S);
    BodyNext(L, a);
    BodyFront(L, a);
    hide Tiled, KindOk, KeyOk, LiveOk, CoalescedAt, BodyFacts;
    hide BinsOk;
    assert RoleOk(L, S, x) && RoleOk(L, S, a);
    if !S.flags[x].used {
      BodyIs(L, S, slots, x);
    }
  }

  /** Around a free chunk that is not loose, only a loose chunk can be free. */
  lemma UsedAround(L: Layout, S: Status, B: Bins, slots: seq<Slot>, a: int)
    requires CoreOk(L, S, B, slots) && IsBody(L, a) && IsFree(S, a) && a !in S.loose
    ensures FrontOf(L, a) !in S.loose ==> !IsFree(S, FrontOf(L, a))
    ensures NextOf(L, a) !in S.loose ==> !IsFree(S, NextOf(L, a))
  {
    SoundIsTiled(L, S);
    BodyNext(L, a);
    BodyFront(L, a);
    hide Tiled, RolesOk, RolesWithin, BinsOk, KindsOk;
    assert CoalescedAt(L, S, a);
    assert CoalescedAt(L, S, FrontOf(L, a));
  }

  lemma BigChunkSize(L: Layout, S: Status, B: Bins, slots: seq<Slot>, a: int)
    requires CoreOk(L, S, B, slots) && a in S.floating
    requires a in L.home && L.home[a] in S.kinds && KindOf(L, S, a).big && !KindOf(L, S, a).direct
    ensures a in L.thisSize && BIG_LEAST <= L.thisSize[a] <= DEFAULT_BLOCK - OVERHEAD
  {
    hide Sound, BinsOk, KindsOk;
    ChunkFacts(L, S, B, slots, a);
  }

  /** The links that unlinking a chunk reads and writes exist. */
  lemma PickLinks(L: Layout, S: Status, B: Bins, slots: seq<Slot>, a: int)
    requires CoreOk(L, S, B, slots) && a in S.key
    ensures At(a) in B.next && At(a) in B.prev && Head(S.key[a]) in B.next
    ensures B.prev[At(a)] != At(a) && B.next[At(a)] != At(a)
  {
    hide Sound, KindsOk, BitmapOk;
    assert Node(LISTS, S.key, At(a)) && Node(LISTS, S.key, Head(S.key[a]));
    assert NextOk(LISTS, B.next, B.prev, S.key, At(a)) && PrevOk(LISTS, B.next, B.prev, S.key, At(a));
    assert NextOk(LISTS, B.next, B.prev, S.key, Head(S.key[a]));
  }

  lemma BlockShape(L: Layout, b: int)
    requires b in L.blocks && BlockOk(L, b)
    ensures b > 0 && b % 16 == 0 && L.blocks[b] % 16 == 0 && OVERHEAD + LEAST <= L.blocks[b]
  {
  }

  lemma DirectOrDefault(kind: Kind, size: int, slots: seq<Slot>)
    requires KindOk(kind, size, slots)
    ensures !kind.direct ==> size == DEFAULT_BLOCK && !kind.slot
    ensures !kind.slot ==> kind.least == if kind.big then BIG_LEAST else SMALL_LEAST
  {
  }

  lemma Adjacent(L: Layout, S: Status, B: Bins, slots: seq<Slot>, a: int)
    requires CoreOk(L, S, B, slots) && IsBody(L, a)
    ensures FrontOf(L, a) < a < NextOf(L, a)
    ensures |S.dv| == 2
  {
    hide BinsOk, KindsOk, RolesOk, Coalesced;
    BodyFront(L, a);
    BodyNext(L, a);
    ChunkIsOk(L, FrontOf(L, a));
  }

  /** Absorbing the chunk behind does not change what is in front. */
  lemma AbsorbKeepsFront(L: Layout, S: Status, a: int)
    requires a in L.thisSize && a in L.prevSize && FrontOf(L, a) < a < NextOf(L, a)
    requires NextOf(L, a) in L.thisSize && L.thisSize[NextOf(L, a)] > 0
    requires a in S.flags && NextOf(L, a) in S.flags
    ensures a in Merge(L, a).prevSize && FrontOf(Merge(L, a), a) == FrontOf(L, a)
    ensures IsFree(Joined(S, a, NextOf(L, a)), FrontOf(L, a)) == IsFree(S, FrontOf(L, a))
  {
  }

  /** What is behind a chunk after it has absorbed the chunk behind it. */
  lemma AbsorbedNext(L: Layout, S: Status, B: Bins, slots: seq<Slot>, a: int)
    requires CoreOk(L, S, B, slots) && IsBody(L, a) && IsBody(L, NextOf(L, a))
    requires a in S.flags && NextOf(L, a) in S.flags && IsFree(S, NextOf(L, a)) && S.loose <= {a}
    ensures !IsFree(Joined(S, a, NextOf(L, a)), NextOf(Merge(L, a), a))
  {
    hide CoreOk;
    var r := NextOf(L, a);
    Adjacent(L, S, B, slots, a);
    Adjacent(L, S, B, slots, r);
    UsedAround(L, S, B, slots, r);
  }

  lemma BodyOf(L: Layout, S: Status, slots: seq<Slot>, a: int)
    requires BodyFacts(L, S, slots, a)
    ensures IsBody(L, a) && a in L.thisSize && a in L.prevSize && a > 0 && a % 16 == 0 && a in S.flags
    ensures L.thisSize[a] >= LEAST && L.thisSize[a] % 16 == 0
  {
  }

  /** Stepping to the front and back again. */
  lemma FrontIsBehind(L: Layout, S: Status, B: Bins, slots: seq<Slot>, a: int)
    requires CoreOk(L, S, B, slots) && IsBody(L, a)
    ensures FrontOf(L, a) in L.thisSize && NextOf(L, FrontOf(L, a)) == a
  {
    hide BinsOk, KindsOk, RolesOk, Coalesced;
    BodyFront(L, a);
  }

  /** What is in front of a chunk after the chunk in front has absorbed it. */
  lemma AbsorbedFront(L: Layout, S: Status, B: Bins, slots: seq<Slot>, f: int)
    requires CoreOk(L, S, B, slots) && IsBody(L, f) && IsBody(L, NextOf(L, f))
    requires f in S.flags && NextOf(L, f) in S.flags && IsFree(S, f) && S.loose <= {NextOf(L, f)}
    ensures !IsFree(Joined(S, f, NextOf(L, f)), FrontOf(Merge(L, f), f))
  {
    hide CoreOk;
    var r := NextOf(L, f);
    Adjacent(L, S, B, slots, f);
    Adjacent(L, S, B, slots, r);
    UsedAround(L, S, B, slots, f);
  }

  /** A chunk of a divided block that is as large as a whole one is the only chunk of its block. */
  lemma WholeBlockDroppable(L: Layout, S: Status, B: Bins, slots: seq<Slot>, a: int)
    requires CoreOk(L, S, B, slots) && a in S.floating
    requires a in L.home && L.home[a] in S.kinds && !KindOf(L, S, a).direct
    requires a in L.thisSize && L.thisSize[a] >= DEFAULT_BLOCK - OVERHEAD
    ensures Droppable(L, S, a - FIRST) && L.home[a] == a - FIRST
  {
    hide CoreOk;
    ChunkFacts(L, S, B, slots, a);
    assert Tiled(L) by { CoreIsTiled(L, S, B, slots); }
    hide Tiled;
    WholeBlock(L, a);
  }

  lemma CoreIsTiled(L: Layout, S: Status, B: Bins, slots: seq<Slot>)
    requires CoreOk(L, S, B, slots)
    ensures Tiled(L) && |S.dv| == 2
  {
    hide BinsOk, KindsOk, Tiled, RolesOk, Coalesced;
  }

  /** The chunk of a direct block is the only one in it. */
  lemma DirectDroppable(L: Layout, S: Status, B: Bins, slots: seq<Slot>, a: int)
    requires CoreOk(L, S, B, slots) && a in S.floating
    requires a in L.home && L.home[a] in S.kinds && KindOf(L, S, a).direct && !KindOf(L, S, a).slot
    ensures Droppable(L, S, a - FIRST) && L.home[a] == a - FIRST
  {
    ChunkFacts(L, S, B, slots, a);
    hide BinsOk, KindsOk, Tiled, Coalesced, KeyOk, LiveOk, KindOk;
    assert RoleOk(L, S, a);
  }

  /** The two victims differ, so each is of the level it is recorded for. */
  lemma VictimLevel(L: Layout, S: Status, B: Bins, slots: seq<Slot>, level: nat)
    requires CoreOk(L, S, B, slots) && level < |S.dv| && S.dv[level] != 0
    ensures level < 2 && |S.dv| == 2 && S.dv[1 - level] != S.dv[level] && IsDv(S, S.dv[level])
  {
    hide Tiled, RolesOk, Coalesced, BinsOk, KindsOk;
  }

  lemma CoreBins(L: Layout, S: Status, B: Bins, slots: seq<Slot>)
    requires CoreOk(L, S, B, slots)
    ensures BinsOk(B, S.key) && |B.bitmap| == 2
  {
    hide Sound, KindsOk, Lists;
  }

  lemma FreeFlags(L: Layout, S: Status, B: Bins, slots: seq<Slot>, a: int)
    requires CoreOk(L, S, B, slots) && (a in S.floating || a in S.key || IsDv(S, a))
    ensures a in S.flags && !S.flags[a].used && a !in S.live
  {
    hide CoreOk;
    ChunkFacts(L, S, B, slots, a);
  }
}
