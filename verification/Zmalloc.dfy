/**
  The allocator itself: the fields of zmalloc and of the headers in its blocks, and the operations that
  update them in place. The ghost field `model` says which addresses are chunks and what each of them is.
 */
module Zmalloc {
  import opened Bits
  import opened IntrusiveLists
  import opened SizeClasses
  import opened Tiling
  import opened BlockLists
  import opened HeldBlocks
  import opened Roles
  import opened Bins
  import opened Core
  import opened Accounting
  import opened Books
  import opened SlotBlocks
  import opened ZmallocState

  class Zmalloc {
    const powerIs2: bool
    const maxReserve: nat
    const alignShift: nat      // sizeof(std::max_align_t) is 2 to the power of this

    var totals: Totals
    var runtimeErrors: int
    var counts: BlockCounts
    var store: Store
    var bitmap: seq<nat>
    var dv: seq<int>
    var allocCounter: Counter
    var freeCounter: Counter
    var slots: seq<Slot>

    var mem: Memory

    ghost var model: Model
    ghost var shelf: Shelf

    ghost predicate Valid()
      reads this
    {
      && Consistent(mem, model, bitmap, slots) && AtRest(model, dv)
      && StoreOk(model.blocks, store, shelf, maxReserve) && CountsOk(model.blocks, counts, shelf)
      && TotalsOk(model.live, totals, allocCounter, freeCounter, slots)
      && FitsOk(model.live) && SlotShapes(slots) && 4 <= alignShift < 32
    }

    constructor (powerIs2: bool, maxReserve: nat, alignShift: nat)
      requires 4 <= alignShift < 32
      ensures Valid() && this.powerIs2 == powerIs2 && this.maxReserve == maxReserve && this.alignShift == alignShift
      ensures model.live == map[] && model.blocks == map[] && shelf.reserved == {} && dv == [0, 0]
      ensures totals == Totals(0, 0, 0, 0, 0) && runtimeErrors == 0 && slots == NoSlots()
    {
      hide *;
      this.powerIs2, this.maxReserve, this.alignShift := powerIs2, maxReserve, alignShift;
      totals, runtimeErrors := Totals(0, 0, 0, 0, 0), 0;
      counts, store := BlockCounts(0, 0, 0, 0, 0, 0), Store(map[], map[], map[], 0, 0, 0, 0);
      bitmap, dv := [0, 0], [0, 0];
      allocCounter, freeCounter := ZeroCounter(), ZeroCounter();
      slots := NoSlots();
      mem := Memory(map[], map[], map[], map[], map[], map[]);
      model := Model({}, map[], map[], map[], [0, 0], map[], {}, {}, map[], map[], 0);
      shelf := Shelf({}, map[], 0, 0, 0);
      new;
      var next, prev := EmptyLists();
      mem := mem.(next := next, prev := prev);
      EmptyCore(next, prev, slots);
      EmptyBooks();
      EmptyStore(maxReserve);
      IsValid();
    }

    /** What it takes to be valid. */
    lemma IsValid()
      requires Consistent(mem, model, bitmap, slots)
      requires model.floating == {} && model.loose == {} && model.victim == dv && |dv| == 2
      requires StoreOk(model.blocks, store, shelf, maxReserve) && CountsOk(model.blocks, counts, shelf)
      requires TotalsOk(model.live, totals, allocCounter, freeCounter, slots) && FitsOk(model.live) && SlotShapes(slots)
      requires 4 <= alignShift < 32
      ensures Valid()
    {
    }

    /** Every list starts with its head linked to its end. */
    static method EmptyLists() returns (next: Links, prev: Links)
      ensures forall k: nat :: k < LISTS ==> Head(k) in next && next[Head(k)] == Tail(k) && Tail(k) in prev
                                             && prev[Tail(k)] == Head(k)
    {
      next, prev := map[], map[];
      var level := 0;
      while level < 2
        invariant 0 <= level <= 2
        invariant forall k: nat :: k < 64 * level ==>
                    Head(k) in next && next[Head(k)] == Tail(k) && Tail(k) in prev && prev[Tail(k)] == Head(k)
      {
        var bin := 0;
        while bin < BINS
          invariant 0 <= bin <= BINS
          invariant forall k: nat :: k < 64 * level + bin ==>
                      Head(k) in next && next[Head(k)] == Tail(k) && Tail(k) in prev && prev[Tail(k)] == Head(k)
        {
          var k := BinKey(level, bin);
          next, prev := next[Head(k) := Tail(k)], prev[Tail(k) := Head(k)];
          bin := bin + 1;
        }
        level := level + 1;
      }
      var slot := 0;
      while slot < SLOTS
        invariant 0 <= slot <= SLOTS
        invariant forall k: nat :: k < 128 + slot ==>
                    Head(k) in next && next[Head(k)] == Tail(k) && Tail(k) in prev && prev[Tail(k)] == Head(k)
      {
        var k := SlotKey(slot);
        next, prev := next[Head(k) := Tail(k)], prev[Tail(k) := Head(k)];
        slot := slot + 1;
      }
    }

    /** Links `chunk` in at the front of its bin. */
    method PushChunk(chunk: int, bin: nat)
      requires Consistent(mem, model, bitmap, slots) && chunk in model.floating && chunk !in model.loose
      requires chunk in model.home && model.home[chunk] in model.kinds && !model.kinds[model.home[chunk]].direct
      requires chunk in mem.thisSize && 20 <= mem.thisSize[chunk] < DEFAULT_BLOCK - OVERHEAD
      requires bin == BinFor(model.kinds[model.home[chunk]].big, mem.thisSize[chunk])
      modifies `mem, `bitmap, `model
      ensures Consistent(mem, model, bitmap, slots)
      ensures chunk in old(mem).flags && old(mem).flags[chunk].big == old(model).kinds[old(model).home[chunk]].big
      ensures var level := old(mem).flags[chunk].Level();
              && LayoutOf(mem, model) == LayoutOf(old(mem), old(model))
              && StatusOf(mem, model) == Pushed(StatusOf(old(mem), old(model)), chunk, BinKey(level, bin), bin)
              && Head(BinKey(level, bin)) in old(mem).next && level < |old(bitmap)|
              && BinsOf(mem, model, bitmap) == BinPush(BinsOf(old(mem), old(model), old(bitmap)), level, bin, chunk)
    {
      hide CoreOk, BinFor, SetBit, KeyOk, LiveOk, KindOk, IsBody, IsDv, BodyFacts;
      ghost var L, S, B := LayoutOf(mem, model), StatusOf(mem, model), BinsOf(mem, model, bitmap);
      ChunkFacts(L, S, B, slots, chunk);
      FlagsOfBody(L, S, slots, chunk);
      PushCore(L, S, B, slots, chunk, mem.flags[chunk].Level(), bin);
      var level := mem.flags[chunk].Level();
      bitmap := bitmap[level := SetBit(bitmap[level], bin)];
      var k := BinKey(level, bin);
      mem := mem.(next := mem.next[At(chunk) := mem.next[Head(k)]]);
      mem := mem.(prev := mem.prev[mem.next[At(chunk)] := At(chunk)]);
      mem := mem.(next := mem.next[Head(k) := At(chunk)]);
      mem := mem.(prev := mem.prev[At(chunk) := Head(k)]);
      mem := mem.(binId := mem.binId[chunk := bin], flags := mem.flags[chunk := mem.flags[chunk].(used := false)]);
      model := model.(key := model.key[chunk := k], floating := model.floating - {chunk},
                      rank := model.rank[chunk := model.clock], clock := model.clock + 1);
    }

    method PushSmallChunk(chunk: int)
      requires Consistent(mem, model, bitmap, slots) && chunk in model.floating && chunk !in model.loose
      requires chunk in model.home && model.home[chunk] in model.kinds
      requires !model.kinds[model.home[chunk]].direct && !model.kinds[model.home[chunk]].big
      requires chunk in mem.thisSize && 20 <= mem.thisSize[chunk] < DEFAULT_BLOCK - OVERHEAD
      modifies `mem, `bitmap, `model
      ensures Consistent(mem, model, bitmap, slots)
      ensures chunk in old(mem).flags
      ensures LayoutOf(mem, model) == LayoutOf(old(mem), old(model))
      ensures var bin := SmallBin(old(mem).thisSize[chunk] - PADDING);
              StatusOf(mem, model) == Pushed(StatusOf(old(mem), old(model)), chunk, BinKey(0, bin), bin)
    {
      hide CoreOk, SetBit, Shr, BinPush;
      var id := Shr(mem.thisSize[chunk] - PADDING, FINE_SHIFT);
      if id >= BINS {
        id := BINS - 1;
      }
      assert id == SmallBin(mem.thisSize[chunk] - PADDING) && id == BinFor(false, mem.thisSize[chunk]);
      PushChunk(chunk, id);
    }

    method PushBigChunk(chunk: int)
      requires Consistent(mem, model, bitmap, slots) && chunk in model.floating && chunk !in model.loose
      requires chunk in model.home && model.home[chunk] in model.kinds
      requires !model.kinds[model.home[chunk]].direct && model.kinds[model.home[chunk]].big
      requires chunk in mem.thisSize && mem.thisSize[chunk] < DEFAULT_BLOCK - OVERHEAD
      modifies `mem, `bitmap, `model
      ensures Consistent(mem, model, bitmap, slots)
      ensures chunk in old(mem).flags && chunk in old(mem).thisSize && old(mem).thisSize[chunk] >= BIG_LEAST
      ensures LayoutOf(mem, model) == LayoutOf(old(mem), old(model))
      ensures var bin := BigBin(old(mem).thisSize[chunk] - PADDING);
              bin >= 0 && StatusOf(mem, model) == Pushed(StatusOf(old(mem), old(model)), chunk, BinKey(1, bin), bin)
    {
      hide CoreOk, SetBit, Shr, BinPush, ThirdOrder, ThirdSequence;
      BigChunkSize(LayoutOf(mem, model), StatusOf(mem, model), BinsOf(mem, model, bitmap), slots, chunk);
      var bytes := mem.thisSize[chunk] - PADDING;
      var thirdOrder := ThirdOrder(bytes);
      var seqId := ThirdSequence(thirdOrder, bytes);
      var id := Compress(seqId);
      BigBinInRange(bytes);
      PushChunk(chunk, id);
    }

    /** Unlinks `chunk` from its bin. */
    method PickChunk(chunk: int) returns (ok: bool)
      requires Consistent(mem, model, bitmap, slots) && chunk in model.key && model.key[chunk] < 128
      modifies `mem, `bitmap, `model
      ensures ok && Consistent(mem, model, bitmap, slots)
      ensures LayoutOf(mem, model) == LayoutOf(old(mem), old(model))
      ensures StatusOf(mem, model) == Picked(StatusOf(old(mem), old(model)), chunk)
      ensures chunk in old(mem).flags && chunk in old(mem).binId && old(mem).binId[chunk] < BINS
      ensures At(chunk) in old(mem).next && At(chunk) in old(mem).prev && old(mem).flags[chunk].Level() < |old(bitmap)|
      ensures BinsOf(mem, model, bitmap) == BinPick(BinsOf(old(mem), old(model), old(bitmap)),
                                                    old(mem).flags[chunk].Level(), old(mem).binId[chunk], chunk)
    {
      hide CoreOk, UnsetBit, BodyFacts;
      ghost var L, S, B := LayoutOf(mem, model), StatusOf(mem, model), BinsOf(mem, model, bitmap);
      PickCore(L, S, B, slots, chunk);
      FlagsOfBody(L, S, slots, chunk);
      PickLinks(L, S, B, slots, chunk);
      var bin := mem.binId[chunk];
      var level := mem.flags[chunk].Level();
      mem := mem.(next := mem.next[mem.prev[At(chunk)] := mem.next[At(chunk)]]);
      mem := mem.(prev := mem.prev[mem.next[At(chunk)] := mem.prev[At(chunk)]]);
      if mem.next[Head(BinKey(level, bin))] == Tail(BinKey(level, bin)) {
        bitmap := bitmap[level := UnsetBit(bitmap[level], bin, 64)];
      }
      model := model.(key := model.key - {chunk}, floating := model.floating + {chunk});
      ok := true;
    }

    /** Cuts a chunk of `size` bytes from the high end of chunk `d`. */
    method ExploitNewChunk(d: int, size: int) returns (n: int)
      requires Consistent(mem, model, bitmap, slots)
      requires d in model.floating || IsDv(StatusOf(mem, model), d) || (d in model.key && model.key[d] >= 128)
      requires d in mem.thisSize && d in model.home && model.home[d] in model.kinds && size % 16 == 0
      requires var kind := model.kinds[model.home[d]];
               && LEAST <= size && LEAST <= mem.thisSize[d] - size
               && kind.least <= size && kind.least <= mem.thisSize[d] - size && (!kind.direct || kind.slot)
      modifies `mem, `model
      ensures Consistent(mem, model, bitmap, slots)
      ensures n == d + old(mem).thisSize[d] - size && n !in old(model).chunks
      ensures n !in old(model).live && n !in old(model).key && n !in old(model).floating
              && !IsDv(StatusOf(old(mem), old(model)), n)
      ensures d in old(mem).flags
      ensures LayoutOf(mem, model) == Split(LayoutOf(old(mem), old(model)), d, size)
      ensures StatusOf(mem, model) == SplitOff(StatusOf(old(mem), old(model)), d, n)
      ensures BinsOf(mem, model, bitmap) == BinsOf(old(mem), old(model), old(bitmap))
    {
      hide CoreOk, BodyFacts;
      ghost var L, S, B := LayoutOf(mem, model), StatusOf(mem, model), BinsOf(mem, model, bitmap);
      SplitCore(L, S, B, slots, d, size);
      FlagsOfBody(L, S, slots, d);
      var rest := mem.thisSize[d] - size;
      mem := mem.(thisSize := mem.thisSize[d := rest]);
      n := d + rest;
      mem := mem.(flags := mem.flags[n := mem.flags[d]]);
      mem := mem.(prevSize := mem.prevSize[n := rest], thisSize := mem.thisSize[n := size], binId := mem.binId[n := 0]);
      mem := mem.(prevSize := mem.prevSize[n + mem.thisSize[n] := size]);
      model := model.(chunks := model.chunks + {n}, home := model.home[n := model.home[d]],
                      floating := model.floating + {n}, loose := model.loose + {n});
    }

    /** Adds the chunk behind `a` to it. */
    method Absorb(a: int)
      requires Consistent(mem, model, bitmap, slots) && IsBody(LayoutOf(mem, model), a)
      requires a in model.floating || IsDv(StatusOf(mem, model), a)
      requires var r := NextOf(LayoutOf(mem, model), a);
               IsBody(LayoutOf(mem, model), r) && r in model.floating && a in mem.flags && r in mem.flags
      modifies `mem, `model
      ensures Consistent(mem, model, bitmap, slots) && IsBody(LayoutOf(mem, model), a)
      ensures var r := NextOf(LayoutOf(old(mem), old(model)), a);
              && r in old(mem).thisSize && a in old(mem).flags && r in old(mem).flags
              && LayoutOf(mem, model) == Merge(LayoutOf(old(mem), old(model)), a)
              && StatusOf(mem, model) == Joined(StatusOf(old(mem), old(model)), a, r)
      ensures BinsOf(mem, model, bitmap) == BinsOf(old(mem), old(model), old(bitmap))
    {
      hide CoreOk;
      MergeCore(LayoutOf(mem, model), StatusOf(mem, model), BinsOf(mem, model, bitmap), slots, a);
      var r := a + mem.thisSize[a];
      mem := mem.(thisSize := mem.thisSize[a := mem.thisSize[a] + mem.thisSize[r]]);
      mem := mem.(flags := mem.flags[a := mem.flags[a].Join(mem.flags[r])]);
      mem := mem.(prevSize := mem.prevSize[a + mem.thisSize[a] := mem.thisSize[a]]);
      model := model.(chunks := model.chunks - {r}, floating := model.floating - {r}, loose := model.loose - {r} + {a});
    }

    /** A block of `total` bytes from the reserve or from the callback, whose answer is `fromSystem`. */
    method TakeBlock(direct: bool, total: int, fromSystem: int) returns (block: int)
      requires StoreOk(model.blocks, store, shelf, maxReserve) && (!direct ==> total == DEFAULT_BLOCK)
      requires fromSystem != 0 ==> Fresh(Held(model.blocks, shelf.reserved), fromSystem, total)
      modifies `store, `shelf, `counts
      ensures StoreOk(model.blocks, store, shelf, maxReserve)
      ensures block != 0 ==> Fresh(Held(model.blocks, shelf.reserved), block, total)
      ensures if !direct && old(store).reserveCount > 0
              then && block == old(store).reserveFirst && block in old(shelf).reserved && block != 0
                   && shelf == old(shelf).(reserved := old(shelf).reserved - {block})
                   && counts == old(counts).(allocBytes := old(counts).allocBytes + total,
                                             allocCached := old(counts).allocCached + 1)
              else && block == fromSystem && shelf == old(shelf) && store == old(store)
                   && counts == old(counts).(allocBytes := old(counts).allocBytes + total)
    {
      hide HeldOk, Fresh, Held, Positive, Sum;
      if !direct && store.reserveCount > 0 {
        PopReserve(model.blocks, shelf.reserved, HeadersOf(store, shelf), store.usedFirst, store.reserveFirst);
        block := store.reserveFirst;
        FreshPositive(Held(model.blocks, shelf.reserved - {block}), block, total);
        store := store.(reserveCount := store.reserveCount - 1);
        if store.next[block] != 0 {
          store := store.(reserveFirst := store.next[block], front := store.front[store.next[block] := 0]);
        } else {
          store := store.(reserveFirst := 0);
        }
        counts := counts.(allocCached := counts.allocCached + 1, allocBytes := counts.allocBytes + total);
        shelf := shelf.(reserved := shelf.reserved - {block});
      } else {
        block := fromSystem;
        counts := counts.(allocBytes := counts.allocBytes + total);
      }
    }

    /** Puts a block at the front of the used list. */
    method LinkUsed(block: int, total: int)
      requires StoreOk(model.blocks, store, shelf, maxReserve)
      requires Fresh(Held(model.blocks, shelf.reserved), block, total) && Positive(model.blocks)
      modifies `store, `shelf
      ensures block !in model.blocks && block !in shelf.reserved
              && StoreOk(model.blocks[block := total], store, shelf, maxReserve)
      ensures store.usedFirst == block && store.reserveFirst == old(store).reserveFirst
      ensures shelf == old(shelf).(rank := old(shelf).rank[block := old(shelf).clock], clock := old(shelf).clock + 1)
    {
      hide HeldOk, Fresh, Held, Positive, Sum;
      PushUsed(model.blocks, shelf.reserved, HeadersOf(store, shelf), store.usedFirst, store.reserveFirst,
               block, total);
      BlockAddedTotals(model.blocks, block, total);
      store := store.(size := store.size[block := total], next := store.next[block := store.usedFirst]);
      store := store.(usedFirst := block, front := store.front[block := 0]);
      if store.next[block] != 0 {
        store := store.(front := store.front[store.next[block] := block]);
      }
      store := store.(usedCount := store.usedCount + 1);
      shelf := shelf.(rank := shelf.rank[block := shelf.clock], clock := shelf.clock + 1);
      assert HeadersOf(store, shelf) == UsedPush(HeadersOf(old(store), old(shelf)), old(store).usedFirst, block, total);
    }

    /** Writes the header of a chunk that is on no list. */
    method WriteHeader(a: int, flag: Flags, size: int, prevSize: int)
      modifies `mem
      ensures mem == HeaderAt(old(mem), a, flag, size, prevSize)
    {
      mem := mem.(flags := mem.flags[a := flag], prevSize := mem.prevSize[a := prevSize], binId := mem.binId[a := 0]);
      mem := mem.(thisSize := mem.thisSize[a := size], next := mem.next[At(a) := Null],
                  prev := mem.prev[At(a) := Null]);
    }

    /** Lays out a block as one chunk between two sentinels. */
    method LayOut(block: int, total: int, flag: Flags, ghost kind: Kind) returns (chunk: int)
      requires Consistent(mem, model, bitmap, slots) && Fresh(model.blocks, block, total) && block !in model.blocks
      requires flag == Flags(kind.big, kind.direct, kind.slot, false, 0)
      requires kind.least <= total - OVERHEAD && KindOk(kind, total, slots)
      modifies `mem, `model
      ensures Consistent(mem, model, bitmap, slots)
      ensures chunk == block + FIRST && model.blocks == old(model).blocks[block := total]
      ensures Opened(old(mem), old(model), mem, model, chunk, total, kind)
    {
      hide CoreOk, Fresh, KindOk, Opened, IsDv, HeaderAt, AddBlock, BlockAdded, Unlinked;
      FreshPositive(model.blocks, block, total);
      LaidOutCore(LayoutOf(mem, model), StatusOf(mem, model), BinsOf(mem, model, bitmap), slots, block, total, kind);
      assert Vacant(model, StatusOf(mem, model), block, total);
      var head := block + HEAD;
      WriteHeader(head, flag.(used := true), FREE_CHUNK, 0);
      chunk := block + FIRST;
      var rest := total - OVERHEAD;
      WriteHeader(chunk, flag, rest, FREE_CHUNK);
      var tail := chunk + rest;
      WriteHeader(tail, flag.(used := true), FREE_CHUNK, rest);
      model := model.(chunks := model.chunks + {head, chunk, tail},
                      home := model.home[head := block][chunk := block][tail := block],
                      blocks := model.blocks[block := total], kinds := model.kinds[block := kind],
                      floating := model.floating + {chunk});
      LaidOutIsOpened(old(mem), old(model), mem, model, bitmap, block, total, kind);
      hide Vacant;
      OpenedParts(old(mem), old(model), mem, model, chunk, total, kind);
    }

    /** The rounding of alloc_block. */
    method BlockTotal(bytes: int, flag: Flags) returns (total: int)
      requires bytes >= 0
      ensures total == BlockBytes(bytes, flag, powerIs2)
    {
      total := bytes + BLOCK_TYPE + PADDING + FREE_CHUNK * 2;
      if !flag.direct {
        total := DEFAULT_BLOCK;
      } else if flag.slot {
        total := CeilPowerOf2(total);
      } else if powerIs2 {
        total := CeilPowerOf2(total);
      } else {
        total := (total + 15) / 16 * 16;
      }
    }

    method AllocBlock(bytes: int, flag: Flags, ghost kind: Kind, fromSystem: int) returns (chunk: int)
      requires Consistent(mem, model, bitmap, slots) && bytes >= 0
      requires StoreOk(model.blocks, store, shelf, maxReserve) && CountsOk(model.blocks, counts, shelf)
      requires flag == Flags(kind.big, kind.direct, kind.slot, false, 0)
      requires var size := BlockBytes(bytes, flag, powerIs2);
               && kind.least <= size - OVERHEAD && KindOk(kind, size, slots)
               && (fromSystem != 0 ==> Fresh(Held(model.blocks, shelf.reserved), fromSystem, size))
      modifies `mem, `model, `store, `shelf, `counts
      ensures Consistent(mem, model, bitmap, slots)
      ensures StoreOk(model.blocks, store, shelf, maxReserve) && CountsOk(model.blocks, counts, shelf)
      ensures chunk >= 0 && (chunk == 0 <==> fromSystem == 0 && (flag.direct || old(store).reserveCount == 0))
      ensures chunk == 0 ==> mem == old(mem) && model == old(model) && store == old(store)
                             && shelf == old(shelf).(failedCount := old(shelf).failedCount + 1,
                                                     failedBytes := shelf.failedBytes)
      ensures chunk != 0 ==>
                && (if flag.direct || old(store).reserveCount == 0
                    then chunk - FIRST == fromSystem && shelf.reserved == old(shelf).reserved
                    else && chunk - FIRST in old(shelf).reserved
                         && shelf.reserved == old(shelf).reserved - {chunk - FIRST})
                && shelf.failedCount == old(shelf).failedCount && shelf.failedBytes == old(shelf).failedBytes
                && Opened(old(mem), old(model), mem, model, chunk, BlockBytes(bytes, flag, powerIs2), kind)
      ensures var cached := !flag.direct && old(store).reserveCount > 0;
              counts == old(counts).(allocCount := old(counts).allocCount + 1,
                                     allocBytes := old(counts).allocBytes + BlockBytes(bytes, flag, powerIs2),
                                     allocCached := old(counts).allocCached + if cached then 1 else 0)
    {
      hide Consistent, HeldOk, Fresh, Held, Positive, Sum, KindOk, CeilPowerOf2, Opened;
      assert flag.direct || BlockBytes(bytes, flag, powerIs2) == DEFAULT_BLOCK;
      counts := counts.(allocCount := counts.allocCount + 1);
      var total := BlockTotal(bytes, flag);
      hide BlockBytes;
      var block := TakeBlock(flag.direct, total, fromSystem);
      if block == 0 {
        shelf := shelf.(failedCount := shelf.failedCount + 1, failedBytes := shelf.failedBytes + total);
        return 0;
      }
      chunk := Install(block, total, flag, kind);
    }

    /** Takes a new block into use. */
    method Install(block: int, total: int, flag: Flags, ghost kind: Kind) returns (chunk: int)
      requires Consistent(mem, model, bitmap, slots) && StoreOk(model.blocks, store, shelf, maxReserve)
      requires Fresh(Held(model.blocks, shelf.reserved), block, total)
      requires flag == Flags(kind.big, kind.direct, kind.slot, false, 0)
      requires kind.least <= total - OVERHEAD && KindOk(kind, total, slots)
      modifies `mem, `model, `store, `shelf
      ensures Consistent(mem, model, bitmap, slots) && StoreOk(model.blocks, store, shelf, maxReserve)
      ensures chunk == block + FIRST > 0
      ensures |model.blocks| == |old(model).blocks| + 1 && Sum(model.blocks) == Sum(old(model).blocks) + total
      ensures shelf == old(shelf).(rank := shelf.rank, clock := shelf.clock)
      ensures Opened(old(mem), old(model), mem, model, chunk, total, kind)
    {
      hide CoreOk, HeldOk, Fresh, Held, Positive, Sum, KindOk, Opened;
      ConsistentPositive(mem, model, bitmap, slots);
      FreshIsNeither(model.blocks, shelf.reserved, block, total);
      BlockAddedTotals(model.blocks, block, total);
      LinkUsed(block, total);
      chunk := LayOut(block, total, flag, kind);
      FreshPositive(old(model).blocks, block, total);
    }

    /** Takes block `b` off the used list. */
    method UnlinkUsedBlock(b: int)
      requires StoreOk(model.blocks, store, shelf, maxReserve) && b in model.blocks
      requires b > 0 && b % 16 == 0 && model.blocks[b] % 16 == 0 && OVERHEAD + LEAST <= model.blocks[b]
      modifies `store
      ensures StoreOk(model.blocks - {b}, store, shelf, maxReserve)
      ensures Fresh(Held(model.blocks - {b}, shelf.reserved), b, model.blocks[b])
      ensures b in store.size && store.size[b] == model.blocks[b] && store.reserveCount == old(store).reserveCount
    {
      hide HeldOk, Fresh, Held, Positive, Sum;
      UnlinkUsed(model.blocks, shelf.reserved, HeadersOf(store, shelf), store.usedFirst, store.reserveFirst, b);
      BlockDroppedTotals(model.blocks, b);
      if store.usedFirst == b {
        store := store.(usedFirst := store.next[b]);
        if store.next[b] != 0 {
          store := store.(front := store.front[store.next[b] := 0]);
        }
      } else {
        if store.front[b] != 0 {
          store := store.(next := store.next[store.front[b] := store.next[b]]);
        }
        if store.next[b] != 0 {
          store := store.(front := store.front[store.next[b] := store.front[b]]);
        }
      }
      store := store.(usedCount := store.usedCount - 1);
    }

    /** Links block `b` in at the front of the reserve. */
    method LinkReserve(b: int)
      requires store.reserveFirst != b
      modifies `store
      ensures store == old(store).(reserveFirst := b, next := old(store).next[b := old(store).reserveFirst],
                                   front := PushFront(old(store).front, old(store).reserveFirst, b),
                                   reserveCount := old(store).reserveCount + 1)
    {
      store := store.(reserveCount := store.reserveCount + 1);
      if store.reserveFirst == 0 {
        store := store.(reserveFirst := b, next := store.next[b := 0], front := store.front[b := 0]);
      } else {
        store := store.(next := store.next[b := store.reserveFirst]);
        store := store.(front := store.front[store.next[b] := b]);
        store := store.(front := store.front[b := 0], reserveFirst := b);
      }
    }

    /** Puts block `b` in reserve. */
    method Reserve(b: int)
      requires StoreOk(model.blocks, store, shelf, maxReserve) && store.reserveCount < maxReserve
      requires Fresh(Held(model.blocks, shelf.reserved), b, DEFAULT_BLOCK) && Positive(model.blocks)
      requires b in store.size && store.size[b] == DEFAULT_BLOCK
      modifies `store, `shelf
      ensures StoreOk(model.blocks, store, shelf, maxReserve)
      ensures shelf == old(shelf).(reserved := old(shelf).reserved + {b}, rank := shelf.rank, clock := shelf.clock)
    {
      hide HeldOk, Fresh, Held, Positive, Sum, PushFront;
      PushReserve(model.blocks, shelf.reserved, HeadersOf(store, shelf), store.usedFirst, store.reserveFirst, b);
      LinkReserve(b);
      shelf := shelf.(reserved := shelf.reserved + {b}, rank := shelf.rank[b := shelf.clock], clock := shelf.clock + 1);
    }

    /** Takes block `b`, which holds no live chunk, off the used list; keeps it in reserve or gives it back. */
    method FreeBlock(b: int)
      requires Consistent(mem, model, bitmap, slots) && Droppable(LayoutOf(mem, model), StatusOf(mem, model), b)
      requires StoreOk(model.blocks, store, shelf, maxReserve) && CountsOk(model.blocks, counts, shelf)
      modifies `model, `store, `shelf, `counts
      ensures Consistent(mem, model, bitmap, slots)
      ensures StoreOk(model.blocks, store, shelf, maxReserve) && CountsOk(model.blocks, counts, shelf)
      ensures LayoutOf(mem, model) == DropBlock(LayoutOf(old(mem), old(model)), b)
      ensures StatusOf(mem, model) == BlockDropped(StatusOf(old(mem), old(model)), b)
      ensures BinsOf(mem, model, bitmap) == BinsOf(old(mem), old(model), old(bitmap))
      ensures b in old(model).kinds && shelf == old(shelf).(reserved := shelf.reserved, rank := shelf.rank,
                                                            clock := shelf.clock)
      ensures var kept := !old(model).kinds[b].direct && old(store).reserveCount < maxReserve;
              && b in old(model).blocks
              && shelf.reserved == (if kept then old(shelf).reserved + {b} else old(shelf).reserved)
              && counts == old(counts).(freeCount := old(counts).freeCount + 1,
                                        freeBytes := old(counts).freeBytes + old(model).blocks[b],
                                        freeCached := old(counts).freeCached + if kept then 1 else 0)
    {
      hide CoreOk, HeldOk, Fresh, Held, Sum, KindOk, BlockOk, IsBody;
      ghost var L, S, B := LayoutOf(mem, model), StatusOf(mem, model), BinsOf(mem, model, bitmap);
      CoreBlock(L, S, B, slots, b);
      ConsistentPositive(mem, model, bitmap, slots);
      BlockShape(L, b);
      ChunkFacts(L, S, B, slots, b + FIRST);
      FlagsOfBody(L, S, slots, b + FIRST);
      DirectOrDefault(S.kinds[b], L.blocks[b], slots);
      DropBlockCore(L, S, B, slots, b);
      hide Droppable, BodyFacts;
      BlockDroppedTotals(L.blocks, b);
      UnlinkUsedBlock(b);
      model := model.(chunks := model.chunks - {b + HEAD, b + FIRST, b + model.blocks[b] - SENTINEL},
                      blocks := model.blocks - {b},
                      floating := model.floating - {b + FIRST}, loose := model.loose - {b + FIRST});
      counts := counts.(freeCount := counts.freeCount + 1, freeBytes := counts.freeBytes + store.size[b]);
      if !mem.flags[b + FIRST].direct && store.reserveCount < maxReserve {
        Reserve(b);
        counts := counts.(freeCached := counts.freeCached + 1);
      }
    }

    /** Joins a freed chunk with the one in front of it, if that is free. */
    method MergeFront(chunk: int, level: nat) returns (c: int)
      requires Consistent(mem, model, bitmap, slots) && InHand(mem, model, dv, chunk, level) && chunk in model.floating
      modifies `mem, `model, `bitmap
      ensures Consistent(mem, model, bitmap, slots) && InHand(mem, model, dv, c, level)
      ensures model.live == old(model).live && model.blocks == old(model).blocks && model.kinds == old(model).kinds
      ensures IsBody(LayoutOf(mem, model), c) && !IsFree(StatusOf(mem, model), FrontOf(LayoutOf(mem, model), c))
      ensures var L := LayoutOf(old(mem), old(model));
              && chunk in L.prevSize && FrontOf(L, chunk) in old(mem).flags
              && var front := FrontOf(L, chunk);
                 if old(mem).flags[front].used then c == chunk && LayoutOf(mem, model) == L
                 else && c == front && front in L.thisSize && NextOf(L, front) == chunk && chunk in L.thisSize
                      && LayoutOf(mem, model) == Merge(L, front)
    {
      hide CoreOk, KeyOk, LiveOk, KindOk, BodyFacts, IsBody, BinPick, Pushed;
      ghost var L, S, B := LayoutOf(mem, model), StatusOf(mem, model), BinsOf(mem, model, bitmap);
      ChunkFacts(L, S, B, slots, chunk);
      BodyOf(L, S, slots, chunk);
      Adjacent(L, S, B, slots, chunk);
      var front := chunk - mem.prevSize[chunk];
      FreeNeighbour(L, S, B, slots, chunk, front);
      c := chunk;
      if !mem.flags[front].used {
        BodyOf(L, S, slots, front);
        if front != dv[level] {
          var _ := PickChunk(front);
        }
        FrontIsBehind(L, S, B, slots, chunk);
        AbsorbedFront(LayoutOf(mem, model), StatusOf(mem, model), BinsOf(mem, model, bitmap), slots, front);
        Absorb(front);
        c := front;
      }
    }

    /** Takes the free chunk behind `c` out of its bin, or lets `c` take its place as victim. */
    method TakeNext(c: int, next: int, level: nat)
      requires Consistent(mem, model, bitmap, slots) && InHand(mem, model, dv, c, level)
      requires next != c && next != 0 && (next in model.key ==> model.key[next] < 128 && next != dv[level])
      requires next in model.key || next == dv[level]
      modifies `mem, `model, `bitmap, `dv
      ensures Consistent(mem, model, bitmap, slots)
              && InHand(mem, model.(floating := model.floating - {next}), dv, c, level)
      ensures next in model.floating && (c in model.floating || IsDv(StatusOf(mem, model), c))
      ensures dv == if next == old(dv)[level] then old(dv)[level := c] else old(dv)
      ensures LayoutOf(mem, model) == LayoutOf(old(mem), old(model)) && mem.flags == old(mem).flags
      ensures model.live == old(model).live && model.kinds == old(model).kinds && model.loose == old(model).loose
    {
      hide CoreOk, BinPick;
      if next == dv[level] {
        dv := dv[level := c];
        VictimMoves(mem, model, bitmap, slots, level, next, c);
        model := model.(victim := dv, floating := {next});
      } else {
        var _ := PickChunk(next);
      }
    }

    /** Joins a chunk with the one behind it, if that is free. */
    method MergeNext(c: int, level: nat)
      requires Consistent(mem, model, bitmap, slots) && InHand(mem, model, dv, c, level)
               && IsBody(LayoutOf(mem, model), c)
      requires !IsFree(StatusOf(mem, model), FrontOf(LayoutOf(mem, model), c))
      modifies `mem, `model, `bitmap, `dv
      ensures Consistent(mem, model, bitmap, slots) && InHand(mem, model, dv, c, level)
      ensures model.live == old(model).live && model.blocks == old(model).blocks && model.kinds == old(model).kinds
      ensures dv == old(dv) || (|old(dv)| == 2 && level < 2 && old(dv)[level] != 0 && dv == old(dv)[level := c])
      ensures IsBody(LayoutOf(mem, model), c) && !IsFree(StatusOf(mem, model), FrontOf(LayoutOf(mem, model), c))
      ensures !IsFree(StatusOf(mem, model), NextOf(LayoutOf(mem, model), c))
      ensures var L := LayoutOf(old(mem), old(model));
              && c in L.thisSize && NextOf(L, c) in old(mem).flags && NextOf(L, c) in L.thisSize
              && LayoutOf(mem, model) == if old(mem).flags[NextOf(L, c)].used then L else Merge(L, c)
    {
      hide CoreOk, KeyOk, LiveOk, KindOk, BodyFacts, IsBody;
      ghost var L, S, B := LayoutOf(mem, model), StatusOf(mem, model), BinsOf(mem, model, bitmap);
      ChunkFacts(L, S, B, slots, c);
      BodyOf(L, S, slots, c);
      Adjacent(L, S, B, slots, c);
      var next := c + mem.thisSize[c];
      FreeNeighbour(L, S, B, slots, c, next);
      if !mem.flags[next].used {
        BodyOf(L, S, slots, next);
        TakeNext(c, next, level);
        ghost var S1 := StatusOf(mem, model);
        AbsorbedNext(L, S1, BinsOf(mem, model, bitmap), slots, c);
        AbsorbKeepsFront(L, S1, c);
        Absorb(c);
      }
    }

    /** Joins a free chunk with its free neighbours; then releases its block, keeps it as victim or bins it. */
    method MergeAndRelease(chunk: int, level: nat, bytes: int) returns (r: int)
      requires Consistent(mem, model, bitmap, slots) && InHand(mem, model, dv, chunk, level) && chunk in model.floating
      requires StoreOk(model.blocks, store, shelf, maxReserve) && CountsOk(model.blocks, counts, shelf)
      modifies `mem, `model, `bitmap, `dv, `store, `shelf, `counts
      ensures r == bytes && Consistent(mem, model, bitmap, slots) && AtRest(model, dv)
      ensures StoreOk(model.blocks, store, shelf, maxReserve) && CountsOk(model.blocks, counts, shelf)
      ensures model.live == old(model).live && |dv| == |old(dv)|
      ensures forall i: nat :: i < |dv| && i < |old(dv)| && old(dv)[i] == 0 ==> dv[i] == 0
      ensures shelf.failedCount == old(shelf).failedCount && shelf.failedBytes == old(shelf).failedBytes
    {
      hide CoreOk, KeyOk, LiveOk, KindOk, BodyFacts, IsBody, StoreOk, CountsOk;
      var c := MergeFront(chunk, level);
      MergeNext(c, level);
      ghost var L, S, B := LayoutOf(mem, model), StatusOf(mem, model), BinsOf(mem, model, bitmap);
      ChunkFacts(L, S, B, slots, c);
      BodyOf(L, S, slots, c);
      FlagsOfBody(L, S, slots, c);
      SettledCore(L, S, B, slots, c);
      model := model.(loose := model.loose - {c});
      if c != dv[level] {
        Release(c);
      }
      return bytes;
    }

    /** Gives up the block of a chunk that spans it; puts any other chunk in its bin. */
    method Release(c: int)
      requires Consistent(mem, model, bitmap, slots) && model.floating == {c} && model.loose == {}
      requires c in model.home && model.home[c] in model.kinds && !model.kinds[model.home[c]].direct
      requires c in mem.thisSize && c in mem.flags && mem.flags[c].big == model.kinds[model.home[c]].big
               && mem.thisSize[c] >= 20
      requires StoreOk(model.blocks, store, shelf, maxReserve) && CountsOk(model.blocks, counts, shelf)
      modifies `mem, `model, `bitmap, `store, `shelf, `counts
      ensures Consistent(mem, model, bitmap, slots) && model.floating == {} && model.loose == {}
      ensures StoreOk(model.blocks, store, shelf, maxReserve) && CountsOk(model.blocks, counts, shelf)
      ensures model.live == old(model).live && model.victim == old(model).victim
      ensures shelf.failedCount == old(shelf).failedCount && shelf.failedBytes == old(shelf).failedBytes
      ensures Released(LayoutOf(old(mem), old(model)), StatusOf(old(mem), old(model)), c,
                       LayoutOf(mem, model), StatusOf(mem, model))
    {
      hide CoreOk, StoreOk, CountsOk, SmallBin, BigBin, Whole;
      ghost var L, S, B := LayoutOf(mem, model), StatusOf(mem, model), BinsOf(mem, model, bitmap);
      ChunkFacts(L, S, B, slots, c);
      BlockSizeTest(L, S, B, slots, c);
      if mem.thisSize[c] >= DEFAULT_BLOCK - BLOCK_TYPE - FREE_CHUNK * 2 {
        WholeBlockDroppable(L, S, B, slots, c);
        FreeBlock(c - BLOCK_TYPE - FREE_CHUNK);
      } else if mem.flags[c].big {
        PushBigChunk(c);
      } else {
        PushSmallChunk(c);
      }
    }

    /** Counts a live chunk of alloc_memory as freed, and unsets its colour and in-use bits. */
    method TakeBack(chunk: int) returns (direct: bool)
      requires Consistent(mem, model, bitmap, slots) && FitsOk(model.live) && chunk in model.live
               && !model.live[chunk].kind.slot
      requires TotalsOk(model.live, totals, allocCounter, freeCounter, slots)
      modifies `mem, `model, `totals, `freeCounter
      ensures Consistent(mem, model, bitmap, slots) && TotalsOk(model.live, totals, allocCounter, freeCounter, slots)
      ensures chunk in old(mem).flags && LayoutOf(mem, model) == LayoutOf(old(mem), old(model))
      ensures StatusOf(mem, model) == Unused(StatusOf(old(mem), old(model)), chunk)
      ensures totals == old(totals).(freeCount := old(totals).freeCount + 1,
                                     freeBytes := old(totals).freeBytes + old(model).live[chunk].size)
      ensures direct == old(model).live[chunk].kind.direct
    {
      hide CoreOk, KeyOk, KindOk, BodyFacts, TotalsOk, Fits;
      ghost var L, S, B := LayoutOf(mem, model), StatusOf(mem, model), BinsOf(mem, model, bitmap);
      ChunkFacts(L, S, B, slots, chunk);
      BodyOf(L, S, slots, chunk);
      FlagsOfBody(L, S, slots, chunk);
      UnusedCore(L, S, B, slots, chunk);
      FitsBounds(model.live, chunk);
      TotalsRemove(model.live, totals, allocCounter, freeCounter, slots, chunk);
      totals := totals.(freeCount := totals.freeCount + 1, freeBytes := totals.freeBytes + mem.thisSize[chunk]);
      var f := mem.flags[chunk];
      var row, bin := Row(f.color, f.big), mem.binId[chunk];
      freeCounter := Bump(freeCounter, row, bin, 1);
      if f.direct && bin == BIG_MAX_BIN {
        freeCounter := Bump(freeCounter, row, BIG_LOG_BIN, mem.thisSize[chunk]);
      }
      mem := mem.(flags := mem.flags[chunk := f.Clean()]);
      model := model.(live := model.live - {chunk}, floating := model.floating + {chunk},
                      loose := model.loose + {chunk});
      direct := f.direct;
    }

    method FreeMemory(addr: int) returns (r: int)
      requires Valid()
      requires addr != 0 ==> var a := addr - PADDING;
                             a in mem.flags && (mem.flags[a].used ==> a in model.live && !model.live[a].kind.slot)
      modifies this
      ensures Valid()
      ensures addr == 0 || !old(mem).flags[addr - PADDING].used ==>
                r == 0 && model == old(model) && runtimeErrors == old(runtimeErrors) + if addr == 0 then 0 else 1
      ensures addr != 0 && old(mem).flags[addr - PADDING].used ==>
                && TakenBack(old(model), model, addr - PADDING, r) && runtimeErrors == old(runtimeErrors)
                && totals == old(totals).(freeCount := old(totals).freeCount + 1,
                                          freeBytes := old(totals).freeBytes + r + PADDING)
      ensures Refused(old(shelf), shelf, false)
    {
      hide CoreOk, StoreOk, CountsOk, TotalsOk, Fits, KeyOk, KindOk, BodyFacts, SlotShapes, Tiled;
      if addr == 0 {
        return 0;
      }
      var chunk := addr - PADDING;
      if !mem.flags[chunk].used {
        runtimeErrors := runtimeErrors + 1;
        return 0;
      }
      ghost var L, S, B := LayoutOf(mem, model), StatusOf(mem, model), BinsOf(mem, model, bitmap);
      ChunkFacts(L, S, B, slots, chunk);
      BodyOf(L, S, slots, chunk);
      FlagsOfBody(L, S, slots, chunk);
      CoreIsTiled(L, S, B, slots);
      var level := mem.flags[chunk].Level();
      var bytes := mem.thisSize[chunk] - PADDING;
      var direct := TakeBack(chunk);
      if direct {
        DirectDroppable(LayoutOf(mem, model), StatusOf(mem, model), BinsOf(mem, model, bitmap), slots, chunk);
        FreeBlock(chunk - BLOCK_TYPE - FREE_CHUNK);
        return bytes;
      }
      r := MergeAndRelease(chunk, level, bytes);
    }

    /** Takes the first chunk of a non-empty bin. */
    method PickFrom(level: nat, bin: nat) returns (chunk: int)
      requires Consistent(mem, model, bitmap, slots) && AtRest(model, dv)
      requires level < 2 && bin < BINS && level < |bitmap| && Bit(bitmap[level], bin)
      modifies `mem, `model, `bitmap
      ensures Consistent(mem, model, bitmap, slots) && Taken(mem, model, chunk, level) && model.loose == {}
      ensures mem.thisSize == old(mem).thisSize && mem.thisSize[chunk] >= LeastOf(level)
              && BinFor(level == 1, mem.thisSize[chunk]) == bin
      ensures mem.thisSize[chunk] <= DEFAULT_BLOCK - OVERHEAD
      ensures model.key == old(model).key - {chunk} && model.live == old(model).live
              && model.victim == old(model).victim
      ensures model.blocks == old(model).blocks && model.kinds == old(model).kinds && chunk !in model.live
      ensures FirstInBin(old(mem), level, bin, chunk)
    {
      hide CoreOk, Bit, BinFor, BinPick;
      FirstChunk(mem, model, bitmap, slots, level, bin);
      chunk := mem.next[Head(BinKey(level, bin))].addr;
      var _ := PickChunk(chunk);
    }

    /** Makes `chunk` the victim of its level; the victim it had goes to its bin. */
    method ReplaceVictim(level: nat, chunk: int)
      requires Consistent(mem, model, bitmap, slots) && model.victim == dv && level < 2 && |dv| == 2
      requires chunk in model.floating && chunk !in model.loose && dv[level] !in model.loose
      requires dv[level] != 0 && dv[level] in mem.thisSize ==> mem.thisSize[dv[level]] < DEFAULT_BLOCK - OVERHEAD
      requires chunk in model.home && model.home[chunk] in model.kinds
               && DividedKind(model.kinds[model.home[chunk]], level)
      modifies `mem, `model, `bitmap, `dv
      ensures Consistent(mem, model, bitmap, slots) && model.victim == dv && dv == old(dv)[level := chunk]
      ensures LayoutOf(mem, model) == LayoutOf(old(mem), old(model)) && model.kinds == old(model).kinds
      ensures model.floating == old(model).floating - {chunk} && model.loose == old(model).loose
              && model.live == old(model).live
    {
      hide CoreOk, SmallBin, BigBin;
      ghost var v := dv[level];
      if dv[level] != 0 {
        VictimFloats(mem, model, bitmap, slots, level);
        model := model.(victim := model.victim[level := 0], floating := model.floating + {v});
        if level == 0 {
          PushSmallChunk(dv[level]);
        } else {
          PushBigChunk(dv[level]);
        }
      }
      dv := dv[level := chunk];
      VictimSetCore(LayoutOf(mem, model), StatusOf(mem, model), BinsOf(mem, model, bitmap), slots, level, chunk);
      model := model.(victim := model.victim[level := chunk], floating := model.floating - {chunk});
    }

    /** The victim, or a part of it, if it is large enough: `least` is the smallest rest that may be left of it. */
    method TakeVictim(level: nat, padding: int, least: int) returns (chunk: int)
      requires Consistent(mem, model, bitmap, slots) && AtRest(model, dv) && level < 2 && |dv| == 2 && dv[level] != 0
      requires padding % 16 == 0 && least == (if level == 1 then BIG_LEAST else SMALL_LEAST) && padding >= least
      modifies `mem, `model, `dv
      ensures Consistent(mem, model, bitmap, slots) && model.victim == dv && |dv| == 2
      ensures model.live == old(model).live && model.blocks == old(model).blocks
      ensures chunk == 0 ==> AtRest(model, dv)
      ensures chunk != 0 ==> Taken(mem, model, chunk, level) && padding <= mem.thisSize[chunk] < padding + least
                             && chunk !in model.live
      ensures old(dv)[level] in old(mem).thisSize && (chunk == 0 <==> old(mem).thisSize[old(dv)[level]] < padding)
      ensures chunk == 0 ==> mem == old(mem) && model == old(model) && dv == old(dv)
      ensures chunk != 0 ==>
                var v := old(dv)[level];
                var rest := old(mem).thisSize[v] - padding;
                if rest >= least then dv == old(dv) && chunk == v + rest else dv == old(dv)[level := 0] && chunk == v
    {
      hide CoreOk;
      VictimFacts(mem, model, bitmap, slots, level);
      VictimLevel(LayoutOf(mem, model), StatusOf(mem, model), BinsOf(mem, model, bitmap), slots, level);
      chunk := 0;
      if mem.thisSize[dv[level]] >= padding + least {
        chunk := ExploitNewChunk(dv[level], padding);
      } else if mem.thisSize[dv[level]] >= padding {
        chunk := dv[level];
        VictimFloats(mem, model, bitmap, slots, level);
        dv := dv[level := 0];
        model := model.(victim := dv, floating := model.floating + {chunk});
      }
    }

    /** A chunk for a request no victim can meet: from the least bin whose bit is left in `word`, or a new block. */
    method Refill(level: nat, wanted: nat, word: nat, padding: int, fromSystem: int) returns (chunk: int, ghost i: nat)
      requires Consistent(mem, model, bitmap, slots) && AtRest(model, dv)
      requires StoreOk(model.blocks, store, shelf, maxReserve) && CountsOk(model.blocks, counts, shelf)
      requires level < 2 && wanted < BINS && level < |bitmap| && word == Shr(bitmap[level], wanted) && padding >= 0
      requires fromSystem != 0 ==> Fresh(Held(model.blocks, shelf.reserved), fromSystem, DEFAULT_BLOCK)
      modifies `mem, `model, `bitmap, `store, `shelf, `counts
      ensures Consistent(mem, model, bitmap, slots) && model.victim == dv && model.live == old(model).live
      ensures StoreOk(model.blocks, store, shelf, maxReserve) && CountsOk(model.blocks, counts, shelf)
      ensures chunk == 0 <==> word == 0 && fromSystem == 0 && old(store).reserveCount == 0
      ensures chunk == 0 ==> model == old(model)
      ensures chunk != 0 ==> Taken(mem, model, chunk, level) && model.loose == {} && chunk !in model.live
      ensures chunk != 0 ==>
                if word == 0 then mem.thisSize[chunk] == DEFAULT_BLOCK - OVERHEAD
                else && mem.thisSize[chunk] >= LeastOf(level) && wanted + i < BINS && IsLeastBit(word, i)
                     && BinFor(level == 1, mem.thisSize[chunk]) == wanted + i
      ensures Refused(old(shelf), shelf, chunk == 0)
      ensures chunk != 0 ==> (model.blocks == old(model).blocks <==> word != 0)
      ensures VictimsKept(old(mem), old(model), mem)
    {
      hide CoreOk, StoreOk, CountsOk, Bit, Shr, Fresh, Held, LeastBitIndex, BinFor;
      i := 0;
      if word != 0 {
        CoreBins(LayoutOf(mem, model), StatusOf(mem, model), BinsOf(mem, model, bitmap), slots);
        i := LeastBin(BinsOf(mem, model, bitmap), model.key, level, wanted);
        chunk := PickFrom(level, wanted + LeastBitIndex(word, 64));
      } else {
        chunk := NewBlock(level, padding, fromSystem);
      }
    }

    /** A block to be divided. */
    method NewBlock(level: nat, padding: int, fromSystem: int) returns (chunk: int)
      requires Consistent(mem, model, bitmap, slots) && AtRest(model, dv) && level < 2 && padding >= 0
      requires StoreOk(model.blocks, store, shelf, maxReserve) && CountsOk(model.blocks, counts, shelf)
      requires fromSystem != 0 ==> Fresh(Held(model.blocks, shelf.reserved), fromSystem, DEFAULT_BLOCK)
      modifies `mem, `model, `store, `shelf, `counts
      ensures Consistent(mem, model, bitmap, slots) && model.victim == dv && model.live == old(model).live
      ensures StoreOk(model.blocks, store, shelf, maxReserve) && CountsOk(model.blocks, counts, shelf)
      ensures chunk == 0 <==> fromSystem == 0 && old(store).reserveCount == 0
      ensures chunk == 0 ==> model == old(model)
      ensures chunk != 0 ==> Taken(mem, model, chunk, level) && model.loose == {} && chunk !in model.live
      ensures chunk != 0 ==> mem.thisSize[chunk] == DEFAULT_BLOCK - OVERHEAD
      ensures Refused(old(shelf), shelf, chunk == 0)
      ensures chunk != 0 ==> model.blocks != old(model).blocks
      ensures VictimsKept(old(mem), old(model), mem)
    {
      hide CoreOk, StoreOk, CountsOk, Fresh, Held, AddBlock, BlockAdded;
      ghost var kind := Kind(level == 1, false, false, 0, LeastOf(level));
      chunk := AllocBlock(padding, Flags(level == 1, false, false, false, 0), kind, fromSystem);
      if chunk != 0 {
        NewChunkTaken(old(mem), old(model), mem, model, dv, chunk, DEFAULT_BLOCK, level, kind);
      }
    }

    /** The bin of a small chunk. */
    static lemma SmallBinOf(size: int)
      requires size >= SMALL_LEAST
      ensures var bin := BinFor(false, size);
              0 <= bin < BINS && 16 * bin + PADDING <= size && (bin < 63 ==> size < 16 * bin + 16 + PADDING)
    {
      SmallBinIs(size - PADDING);
      hide SmallBin;
    }

    /** The small path's first attempt: the wanted bin or the next one, whose chunks fit without being divided. */
    method TakeFitting(id: nat, word: nat) returns (chunk: int)
      requires Consistent(mem, model, bitmap, slots) && AtRest(model, dv)
      requires 1 <= id < BINS && |bitmap| == 2 && word == Shr(bitmap[0], id)
      modifies `mem, `model, `bitmap
      ensures Consistent(mem, model, bitmap, slots) && model.victim == dv && model.live == old(model).live
      ensures chunk == 0 <==> !Bit(word, 0) && !Bit(word, 1)
      ensures chunk == 0 ==> AtRest(model, dv) && bitmap == old(bitmap) && model == old(model)
      ensures model.blocks == old(model).blocks
      ensures chunk != 0 ==> Taken(mem, model, chunk, 0) && chunk !in model.live
                             && 16 * id + PADDING <= mem.thisSize[chunk]
      ensures chunk != 0 && id <= 61 ==> mem.thisSize[chunk] <= 16 * id + PADDING + 16
      ensures chunk == 0 ==> mem == old(mem)
      ensures chunk != 0 ==> word != 0 && FirstInBin(old(mem), 0, if Bit(word, 0) then id else id + 1, chunk)
    {
      hide CoreOk, Bit, Shr, And, Not, FirstInBin, BinFor, SmallBin;
      CoreBins(LayoutOf(mem, model), StatusOf(mem, model), BinsOf(mem, model, bitmap), slots);
      SmallSearch(BinsOf(mem, model, bitmap), model.key, id);
      chunk := 0;
      if And(word, 3) != 0 {
        var bin := id + And(Not(word, 64), 1);
        assert bin == if Bit(word, 0) then id else id + 1;
        chunk := PickFrom(0, bin);
        SmallBinOf(mem.thisSize[chunk]);
      }
    }

    /** Finds a chunk of at least `padding` bytes for small class `id`. */
    method TakeSmall(id: nat, padding: int, fromSystem: int) returns (chunk: int)
      requires Consistent(mem, model, bitmap, slots) && AtRest(model, dv)
      requires StoreOk(model.blocks, store, shelf, maxReserve) && CountsOk(model.blocks, counts, shelf)
      requires 1 <= id < BINS && padding == 16 * id + PADDING
      requires fromSystem != 0 ==> Fresh(Held(model.blocks, shelf.reserved), fromSystem, DEFAULT_BLOCK)
      modifies `mem, `model, `bitmap, `dv, `store, `shelf, `counts
      ensures Consistent(mem, model, bitmap, slots) && model.victim == dv && |dv| == 2 && model.live == old(model).live
      ensures StoreOk(model.blocks, store, shelf, maxReserve) && CountsOk(model.blocks, counts, shelf)
      ensures chunk == 0 ==> AtRest(model, dv) && fromSystem == 0 && old(store).reserveCount == 0
      ensures chunk != 0 ==> Taken(mem, model, chunk, 0) && chunk !in model.live && padding <= mem.thisSize[chunk]
      ensures chunk != 0 && id <= 61 ==> mem.thisSize[chunk] <= padding + 16
      ensures Refused(old(shelf), shelf, chunk == 0)
      ensures |old(bitmap)| == 2 && |old(dv)| == 2
      ensures var could := CanServe(old(mem), old(bitmap), old(dv), 0, id, padding);
              (chunk == 0 ==> !could) && (chunk != 0 ==> (could <==> model.blocks == old(model).blocks))
      ensures var word := Shr(old(bitmap)[0], id);
              if Bit(word, 0) || Bit(word, 1)
              then dv == old(dv) && FirstInBin(old(mem), 0, if Bit(word, 0) then id else id + 1, chunk)
              else chunk != 0 ==> VictimServes(old(mem), old(dv), dv, 0, padding, chunk)
      ensures chunk != 0 && model.blocks != old(model).blocks ==> fromSystem != 0 || old(store).reserveCount != 0
    {
      hide CoreOk, StoreOk, CountsOk, Bit, Shr, And, Not, Fresh, Held, SmallBin;
      CoreBins(LayoutOf(mem, model), StatusOf(mem, model), BinsOf(mem, model, bitmap), slots);
      var word := Shr(bitmap[0], id);
      chunk := TakeFitting(id, word);
      if chunk == 0 && dv[0] != 0 {
        chunk := TakeVictim(0, padding, SMALL_LEAST);
      }
      if chunk == 0 {
        chunk := DivideSmall(id, word, padding, fromSystem);
      }
    }

    /** The small path's last attempt: what it takes becomes the victim and is divided, without a test of its size. */
    method DivideSmall(id: nat, word: nat, padding: int, fromSystem: int) returns (chunk: int)
      requires Consistent(mem, model, bitmap, slots) && AtRest(model, dv)
      requires StoreOk(model.blocks, store, shelf, maxReserve) && CountsOk(model.blocks, counts, shelf)
      requires 1 <= id < BINS && padding == 16 * id + PADDING && |bitmap| == 2 && word == Shr(bitmap[0], id)
      requires !Bit(word, 0) && !Bit(word, 1)
      requires fromSystem != 0 ==> Fresh(Held(model.blocks, shelf.reserved), fromSystem, DEFAULT_BLOCK)
      requires |dv| == 2 && (dv[0] != 0 ==> dv[0] in mem.thisSize && mem.thisSize[dv[0]] < padding)
      modifies `mem, `model, `bitmap, `dv, `store, `shelf, `counts
      ensures Consistent(mem, model, bitmap, slots) && model.victim == dv && |dv| == 2 && model.live == old(model).live
      ensures StoreOk(model.blocks, store, shelf, maxReserve) && CountsOk(model.blocks, counts, shelf)
      ensures chunk == 0 ==> AtRest(model, dv) && fromSystem == 0 && old(store).reserveCount == 0
      ensures chunk != 0 ==> Taken(mem, model, chunk, 0) && chunk !in model.live && padding == mem.thisSize[chunk]
      ensures Refused(old(shelf), shelf, chunk == 0)
      ensures chunk != 0 ==> (model.blocks == old(model).blocks <==> word != 0)
      ensures chunk == 0 ==> word == 0
      ensures chunk != 0 && model.blocks != old(model).blocks ==> fromSystem != 0 || old(store).reserveCount != 0
    {
      hide CoreOk, StoreOk, CountsOk, Bit, Shr, Fresh, Held, SmallBin;
      ghost var i;
      chunk, i := Refill(0, id, word, padding, fromSystem);
      if chunk != 0 {
        SmallBinIs(mem.thisSize[chunk] - PADDING);
        assert dv[0] != 0 ==> IsDv(StatusOf(old(mem), old(model)), dv[0]);
        chunk := CutSmall(chunk, padding);
      }
    }

    /** Divides a taken chunk, whose front part becomes the victim. */
    method CutSmall(d: int, padding: int) returns (chunk: int)
      requires Consistent(mem, model, bitmap, slots) && model.victim == dv && |dv| == 2
      requires Taken(mem, model, d, 0) && model.loose == {} && d !in model.live
      requires SMALL_LEAST <= padding <= mem.thisSize[d] - SMALL_LEAST && padding % 16 == 0 && padding <= 2048
      requires dv[0] != 0 ==> dv[0] in mem.thisSize && mem.thisSize[dv[0]] < padding
      modifies `mem, `model, `bitmap, `dv
      ensures Consistent(mem, model, bitmap, slots) && model.victim == dv && |dv| == 2 && model.live == old(model).live
      ensures Taken(mem, model, chunk, 0) && chunk !in model.live && mem.thisSize[chunk] == padding
      ensures model.blocks == old(model).blocks && dv == old(dv)[0 := d] && chunk == d + old(mem).thisSize[d] - padding
    {
      hide CoreOk;
      ReplaceVictim(0, d);
      chunk := ExploitNewChunk(d, padding);
    }

    /** Finds a chunk of at least `padding` bytes for big class `id`. */
    method TakeBig(id: nat, padding: int, fromSystem: int) returns (chunk: int)
      requires Consistent(mem, model, bitmap, slots) && AtRest(model, dv)
      requires StoreOk(model.blocks, store, shelf, maxReserve) && CountsOk(model.blocks, counts, shelf)
      requires id <= 36 && padding == Resolve(id) + PADDING
      requires fromSystem != 0 ==> Fresh(Held(model.blocks, shelf.reserved), fromSystem, DEFAULT_BLOCK)
      modifies `mem, `model, `bitmap, `dv, `store, `shelf, `counts
      ensures Consistent(mem, model, bitmap, slots) && model.victim == dv && |dv| == 2 && model.live == old(model).live
      ensures StoreOk(model.blocks, store, shelf, maxReserve) && CountsOk(model.blocks, counts, shelf)
      ensures chunk == 0 ==> AtRest(model, dv) && fromSystem == 0 && old(store).reserveCount == 0
      ensures chunk != 0 ==> Taken(mem, model, chunk, 1) && chunk !in model.live && padding <= mem.thisSize[chunk]
      ensures chunk != 0 ==> mem.thisSize[chunk] < Max(Resolve(id + 1), Resolve(id) + BIG_LEAST) + PADDING
      ensures Refused(old(shelf), shelf, chunk == 0)
      ensures |old(bitmap)| == 2 && |old(dv)| == 2
      ensures var could := CanServe(old(mem), old(bitmap), old(dv), 1, id, padding);
              (chunk == 0 ==> !could) && (chunk != 0 ==> (could <==> model.blocks == old(model).blocks))
      ensures if Bit(old(bitmap)[1], id) then dv == old(dv) && FirstInBin(old(mem), 1, id, chunk)
              else chunk != 0 ==> VictimServes(old(mem), old(dv), dv, 1, padding, chunk)
      ensures chunk != 0 && model.blocks != old(model).blocks ==> fromSystem != 0 || old(store).reserveCount != 0
    {
      hide CoreOk, StoreOk, CountsOk, Bit, Shr, And, Not, Fresh, Held, Resolve, BigBin;
      ResolveAligned(id);
      CoreBins(LayoutOf(mem, model), StatusOf(mem, model), BinsOf(mem, model, bitmap), slots);
      var word := Shr(bitmap[1], id);
      chunk := TakeOwnBin(id, word);
      if chunk == 0 && dv[1] != 0 {
        chunk := TakeVictim(1, padding, BIG_LEAST);
      }
      if chunk == 0 {
        chunk := DivideBig(id, word, padding, fromSystem);
      }
    }

    /** The big path's first attempt: only the wanted bin. */
    method TakeOwnBin(id: nat, word: nat) returns (chunk: int)
      requires Consistent(mem, model, bitmap, slots) && AtRest(model, dv) && id < BINS
      requires |bitmap| == 2 && word == Shr(bitmap[1], id)
      modifies `mem, `model, `bitmap
      ensures Consistent(mem, model, bitmap, slots) && model.victim == dv && model.live == old(model).live
      ensures chunk == 0 ==> AtRest(model, dv) && bitmap == old(bitmap) && model == old(model)
      ensures model.blocks == old(model).blocks
      ensures chunk != 0 ==> Taken(mem, model, chunk, 1) && chunk !in model.live
                             && Resolve(id) + PADDING <= mem.thisSize[chunk]
      ensures chunk != 0 ==> mem.thisSize[chunk] < Resolve(id + 1) + PADDING
      ensures chunk == 0 ==> mem == old(mem)
      ensures chunk != 0 <==> Bit(old(bitmap)[1], id)
      ensures chunk != 0 ==> word != 0 && FirstInBin(old(mem), 1, id, chunk)
    {
      hide CoreOk, Bit, Shr, And, Not, Resolve, BigBin;
      CoreBins(LayoutOf(mem, model), StatusOf(mem, model), BinsOf(mem, model, bitmap), slots);
      BigSearch(BinsOf(mem, model, bitmap), model.key, id);
      chunk := 0;
      if And(word, 1) != 0 {
        chunk := PickFrom(1, id);
        BigBinExact(mem.thisSize[chunk] - PADDING);
      }
    }

    /** The big path's last attempt: a chunk is divided only if both parts are large enough. */
    method DivideBig(id: nat, word: nat, padding: int, fromSystem: int) returns (chunk: int)
      requires Consistent(mem, model, bitmap, slots) && AtRest(model, dv)
      requires StoreOk(model.blocks, store, shelf, maxReserve) && CountsOk(model.blocks, counts, shelf)
      requires id <= 36 && padding == Resolve(id) + PADDING && |bitmap| == 2 && word == Shr(bitmap[1], id)
      requires fromSystem != 0 ==> Fresh(Held(model.blocks, shelf.reserved), fromSystem, DEFAULT_BLOCK)
      requires |dv| == 2 && (dv[1] != 0 ==> dv[1] in mem.thisSize && mem.thisSize[dv[1]] < padding)
      modifies `mem, `model, `bitmap, `dv, `store, `shelf, `counts
      ensures Consistent(mem, model, bitmap, slots) && model.victim == dv && |dv| == 2 && model.live == old(model).live
      ensures StoreOk(model.blocks, store, shelf, maxReserve) && CountsOk(model.blocks, counts, shelf)
      ensures chunk == 0 ==> AtRest(model, dv) && fromSystem == 0 && old(store).reserveCount == 0
      ensures chunk != 0 ==> Taken(mem, model, chunk, 1) && chunk !in model.live
                             && padding <= mem.thisSize[chunk] < padding + BIG_LEAST
      ensures Refused(old(shelf), shelf, chunk == 0)
      ensures chunk != 0 ==> (model.blocks == old(model).blocks <==> word != 0)
      ensures chunk == 0 ==> word == 0
      ensures chunk != 0 && model.blocks != old(model).blocks ==> fromSystem != 0 || old(store).reserveCount != 0
    {
      hide CoreOk, StoreOk, CountsOk, Bit, Shr, Fresh, Held, Resolve, BigBin;
      ghost var i;
      ResolveAligned(id);
      chunk, i := Refill(1, id, word, padding, fromSystem);
      if chunk != 0 {
        BigEnough(mem.thisSize[chunk], id, i, word);
        assert dv[1] != 0 ==> IsDv(StatusOf(old(mem), old(model)), dv[1]);
        ResolveBound(id);
        chunk := CutBig(chunk, padding);
      }
    }

    /** Divides a taken chunk, whose front part becomes the victim, if both parts are large enough. */
    method CutBig(d: int, padding: int) returns (chunk: int)
      requires Consistent(mem, model, bitmap, slots) && model.victim == dv && |dv| == 2
      requires Taken(mem, model, d, 1) && model.loose == {} && d !in model.live
      requires BIG_LEAST <= padding <= mem.thisSize[d] && padding % 16 == 0 && padding <= 524288 + PADDING
      requires dv[1] != 0 ==> dv[1] in mem.thisSize && mem.thisSize[dv[1]] < padding
      modifies `mem, `model, `bitmap, `dv
      ensures Consistent(mem, model, bitmap, slots) && model.victim == dv && |dv| == 2 && model.live == old(model).live
      ensures Taken(mem, model, chunk, 1) && chunk !in model.live
              && padding <= mem.thisSize[chunk] < padding + BIG_LEAST
      ensures model.blocks == old(model).blocks
      ensures if old(mem).thisSize[d] >= padding + BIG_LEAST
              then dv == old(dv)[1 := d] && chunk == d + old(mem).thisSize[d] - padding
                && mem.thisSize[chunk] == padding
              else dv == old(dv) && chunk == d && mem == old(mem)
    {
      hide CoreOk;
      chunk := d;
      if mem.thisSize[d] >= padding + BIG_LEAST {
        chunk := ExploitNewChunk(d, padding);
        ReplaceVictim(1, d);
      }
    }

    /** Marks a chunk as used, with its colour and class, and counts it. */
    method HandOut(chunk: int, color: nat, bin: nat, ghost request: nat) returns (p: int)
      requires Consistent(mem, model, bitmap, slots) && model.victim == dv && |dv| == 2
      requires model.floating == {chunk} && model.loose <= {chunk} && chunk !in model.live
      requires chunk in mem.thisSize && chunk in model.home && model.home[chunk] in model.kinds
               && !model.kinds[model.home[chunk]].slot
      requires Fits(Live(mem.thisSize[chunk], request, color, bin, model.kinds[model.home[chunk]]))
      requires TotalsOk(model.live, totals, allocCounter, freeCounter, slots) && FitsOk(model.live)
      modifies `mem, `model, `totals, `allocCounter
      ensures Consistent(mem, model, bitmap, slots) && AtRest(model, dv) && p == chunk + PADDING
      ensures TotalsOk(model.live, totals, allocCounter, freeCounter, slots) && FitsOk(model.live)
      ensures model.live == old(model).live[chunk := Live(old(mem).thisSize[chunk], request, color, bin,
                                                          old(model).kinds[old(model).home[chunk]])]
      ensures model.blocks == old(model).blocks
      ensures totals == old(totals).(allocBytes := old(totals).allocBytes + old(mem).thisSize[chunk])
    {
      hide CoreOk, TotalsOk, BodyFacts, KindOk, KeyOk, LiveOk, Fits, FitsOk;
      ghost var L, S, B := LayoutOf(mem, model), StatusOf(mem, model), BinsOf(mem, model, bitmap);
      ghost var l := Live(mem.thisSize[chunk], request, color, bin, KindOf(L, S, chunk));
      ChunkFacts(L, S, B, slots, chunk);
      FlagsOfBody(L, S, slots, chunk);
      FitsAdd(model.live, chunk, l);
      UsedCore(L, S, B, slots, chunk, color, bin, l);
      TotalsAdd(model.live, totals, allocCounter, freeCounter, slots, chunk, l);
      mem := mem.(flags := mem.flags[chunk := mem.flags[chunk].Mark(color)]);
      mem := mem.(binId := mem.binId[chunk := bin]);
      var row := Row(color, mem.flags[chunk].big);
      allocCounter := Bump(allocCounter, row, bin, 1);
      if mem.flags[chunk].direct && bin == BIG_MAX_BIN {
        allocCounter := Bump(allocCounter, row, BIG_LOG_BIN, mem.thisSize[chunk]);
      }
      totals := totals.(allocBytes := totals.allocBytes + mem.thisSize[chunk]);
      model := model.(floating := model.floating - {chunk}, loose := model.loose - {chunk},
                      live := model.live[chunk := l]);
      return chunk + PADDING;
    }

    /** The small path of alloc_memory. */
    method AllocSmall(color: nat, bytes: nat, fromSystem: int) returns (p: int)
      requires Valid() && color < COLORS && bytes < SMALL_MAX_REQUEST - FINE_SIZE
      requires fromSystem != 0 ==> Fresh(Held(model.blocks, shelf.reserved), fromSystem, DEFAULT_BLOCK)
      modifies `mem, `model, `bitmap, `dv, `store, `shelf, `counts, `totals, `allocCounter
      ensures Valid() && Granted(old(model).live, model.live, p, bytes, color)
      ensures p == 0 ==> fromSystem == 0 && old(store).reserveCount == 0
      ensures totals == old(totals).(allocBytes := totals.allocBytes)
      ensures Refused(old(shelf), shelf, p == 0)
      ensures ServedIfFits(old(mem), old(model), model, 0, 16 * SmallId(bytes) + PADDING, p)
      ensures p != 0 && model.blocks != old(model).blocks ==> fromSystem != 0 || old(store).reserveCount != 0
    {
      hide CoreOk, StoreOk, CountsOk, TotalsOk, Fresh, Held, Shr, SlotShapes;
      SmallIdIs(bytes);
      var padding := if bytes < FINE_SIZE then FINE_SIZE else bytes + 15;
      var id := Shr(padding, FINE_SHIFT);
      padding := Shl(id, FINE_SHIFT) + PADDING;
      hide SmallId;
      ServesWhatFits(mem, model, bitmap, slots, dv, 0, id, padding);
      var chunk := TakeSmall(id, padding, fromSystem);
      if chunk == 0 {
        return 0;
      }
      assert bytes <= 976 ==> id <= 61;
      p := HandOut(chunk, color, id, bytes);
      HandedOut(mem, model, bitmap, slots, chunk);
    }

    /** The big path of alloc_memory. */
    method AllocBig(color: nat, bytes: nat, fromSystem: int) returns (p: int)
      requires Valid() && color < COLORS && SMALL_MAX_REQUEST - FINE_SIZE <= bytes < BIG_MAX_REQUEST
      requires fromSystem != 0 ==> Fresh(Held(model.blocks, shelf.reserved), fromSystem, DEFAULT_BLOCK)
      modifies `mem, `model, `bitmap, `dv, `store, `shelf, `counts, `totals, `allocCounter
      ensures Valid() && Granted(old(model).live, model.live, p, bytes, color)
      ensures p == 0 ==> fromSystem == 0 && old(store).reserveCount == 0
      ensures totals == old(totals).(allocBytes := totals.allocBytes)
      ensures Refused(old(shelf), shelf, p == 0)
      ensures BigValue(bytes) >= 4 && ThirdOrder(BigValue(bytes)) < 32
      ensures ServedIfFits(old(mem), old(model), model, 1, BigPayload(bytes) + PADDING, p)
      ensures p != 0 && model.blocks != old(model).blocks ==> fromSystem != 0 || old(store).reserveCount != 0
    {
      hide CoreOk, StoreOk, CountsOk, TotalsOk, Fresh, Held, SlotShapes, Resolve, BigClass, BigValue, BigPayload,
           ThirdOrder, FreeFor, Align256, Pow2;
      var id, padding := BigSize(bytes);
      ServesWhatFits(mem, model, bitmap, slots, dv, 1, id, padding + PADDING);
      var chunk := TakeBig(id, padding + PADDING, fromSystem);
      if chunk == 0 {
        return 0;
      }
      p := HandOut(chunk, color, id, bytes);
      HandedOut(mem, model, bitmap, slots, chunk);
    }

    /** The class and the payload of a big request. */
    method BigSize(bytes: nat) returns (id: int, padding: nat)
      requires SMALL_MAX_REQUEST - FINE_SIZE <= bytes < BIG_MAX_REQUEST
      ensures BigValue(bytes) >= 4 && id == BigClass(bytes) && 0 <= id <= 36
      ensures padding == Resolve(id) && bytes <= padding && ThirdOrder(BigValue(bytes)) < 32
              && padding == BigPayload(bytes)
    {
      BigRounding(bytes);
      Pow2Mono(ThirdOrder(BigValue(bytes)), 32);
      assert Shl(1, ThirdOrder(BigValue(bytes))) <= Pow2(32);
      hide Resolve, ThirdOrder, ThirdSequence, And, Shl, Pow2;
      padding := Align256(bytes);
      padding := AlignThirdBitValue(padding);
      var thirdOrder := ThirdOrder(padding);
      var alignId := ThirdSequence(thirdOrder, padding);
      id := Compress(alignId);
      padding := And(padding, Pow2(32) - Shl(1, thirdOrder));
      assert padding == BigPayload(bytes) && id == BigClass(bytes);
    }

    /** The direct path of alloc_memory: a block of its own. */
    method AllocDirect(color: nat, bytes: nat, fromSystem: int) returns (p: int)
      requires Valid() && color < COLORS && BIG_MAX_REQUEST <= bytes && bytes + 255 < Pow2(32)
      requires powerIs2 ==> bytes + 160 <= Pow2(31)
      requires fromSystem != 0 ==> Fresh(Held(model.blocks, shelf.reserved), fromSystem, DirectBytes(bytes, powerIs2))
      modifies `mem, `model, `bitmap, `dv, `store, `shelf, `counts, `totals, `allocCounter
      ensures Valid() && Granted(old(model).live, model.live, p, bytes, color)
      ensures p == 0 <==> fromSystem == 0
      ensures totals == old(totals).(allocBytes := totals.allocBytes)
      ensures Refused(old(shelf), shelf, p == 0)
      ensures p != 0 ==> model.live[p - PADDING].size == DirectBytes(bytes, powerIs2) - OVERHEAD
                         && model.live[p - PADDING].kind.direct
    {
      hide CoreOk, StoreOk, CountsOk, TotalsOk, Fresh, Held, SlotShapes, DirectClass, DirectValue, Pow2, Fits, FitsOk,
           Resolve, Opened;
      DirectBlockFits(bytes, powerIs2);
      DirectClassInRange(bytes);
      ghost var kind := Kind(true, true, false, 0, BIG_LEAST);
      var chunk := AllocBlock(bytes + PADDING + SMALL_LEAST, Flags(true, true, false, false, 0), kind, fromSystem);
      if chunk == 0 {
        return 0;
      }
      DirectTaken(old(mem), old(model), mem, model, dv, chunk, DirectBytes(bytes, powerIs2), kind);
      hide BlockBytes;
      var id := DirectBin(bytes);
      DirectFits(Live(mem.thisSize[chunk], bytes, color, id, kind));
      p := HandOut(chunk, color, id, bytes);
      HandedOut(mem, model, bitmap, slots, chunk);
    }

    method DirectBin(bytes: nat) returns (id: int)
      requires BIG_MAX_REQUEST <= bytes && bytes + 255 < Pow2(32)
      ensures DirectValue(bytes) >= 4 && id == DirectClass(bytes)
    {
      DirectClassInRange(bytes);
      hide Pow2, Resolve, ThirdOrder, ThirdSequence;
      var padding := Align256(bytes);
      padding := if padding > Resolve(BIG_MAX_BIN) then Resolve(BIG_MAX_BIN) else padding;
      hide Align256;
      padding := AlignThirdBitValue(padding);
      var thirdOrder := ThirdOrder(padding);
      var alignId := ThirdSequence(thirdOrder, padding);
      id := Compress(alignId);
    }

    method AllocMemory(color: nat, bytes: nat, fromSystem: int) returns (p: int)
      requires Valid() && color < COLORS && bytes + 255 < Pow2(32) && (powerIs2 ==> bytes + 160 <= Pow2(31))
      requires fromSystem != 0 ==>
                 Fresh(Held(model.blocks, shelf.reserved), fromSystem,
                       if bytes < BIG_MAX_REQUEST then DEFAULT_BLOCK else DirectBytes(bytes, powerIs2))
      modifies `mem, `model, `bitmap, `dv, `store, `shelf, `counts, `totals, `allocCounter
      ensures Valid() && Granted(old(model).live, model.live, p, bytes, color)
      ensures p == 0 ==> fromSystem == 0 && (bytes < BIG_MAX_REQUEST ==> old(store).reserveCount == 0)
      ensures totals.reqCount == old(totals).reqCount + 1 && totals.reqBytes == old(totals).reqBytes + bytes
      ensures Refused(old(shelf), shelf, p == 0)
      ensures bytes < SMALL_MAX_REQUEST - FINE_SIZE ==>
                ServedIfFits(old(mem), old(model), model, 0, 16 * SmallId(bytes) + PADDING, p)
      ensures SMALL_MAX_REQUEST - FINE_SIZE <= bytes < BIG_MAX_REQUEST ==>
                && BigValue(bytes) >= 4 && ThirdOrder(BigValue(bytes)) < 32
                && ServedIfFits(old(mem), old(model), model, 1, BigPayload(bytes) + PADDING, p)
      ensures bytes < BIG_MAX_REQUEST && p != 0 && model.blocks != old(model).blocks ==>
                fromSystem != 0 || old(store).reserveCount != 0
      ensures bytes >= BIG_MAX_REQUEST ==>
                && (p == 0 <==> fromSystem == 0)
                && (p != 0 ==> model.live[p - PADDING].size == DirectBytes(bytes, powerIs2) - OVERHEAD
                               && model.live[p - PADDING].kind.direct)
    {
      hide CoreOk, StoreOk, CountsOk, Fresh, Held, SlotShapes, ClassesOk, SlotTotalsOk, Total, ServedIfFits, SmallId,
           BigValue, BigPayload, ThirdOrder, FitsOk, Pow2;
      totals := totals.(reqBytes := totals.reqBytes + bytes, reqCount := totals.reqCount + 1);
      if bytes < SMALL_MAX_REQUEST - FINE_SIZE {
        p := AllocSmall(color, bytes, fromSystem);
      } else if bytes < BIG_MAX_REQUEST {
        p := AllocBig(color, bytes, fromSystem);
      } else {
        p := AllocDirect(color, bytes, fromSystem);
      }
    }

    /** Frees the victims and the whole reserve. */
    method ClearCache()
      requires Valid()
      modifies `mem, `model, `bitmap, `dv, `store, `shelf, `counts
      ensures Valid() && model.live == old(model).live && dv == [0, 0] && shelf.reserved == {}
      ensures Refused(old(shelf), shelf, false)
    {
      hide CoreOk, StoreOk, TotalsOk, Fits, SlotShapes;
      var i := 0;
      while i < 2
        invariant 0 <= i <= 2 && |dv| == 2 && model.live == old(model).live
        invariant Consistent(mem, model, bitmap, slots) && AtRest(model, dv)
        invariant StoreOk(model.blocks, store, shelf, maxReserve) && CountsOk(model.blocks, counts, shelf)
        invariant forall j: nat :: j < i ==> dv[j] == 0
        invariant Refused(old(shelf), shelf, false)
      {
        if dv[i] != 0 {
          var d := dv[i];
          VictimFloats(mem, model, bitmap, slots, i);
          dv := dv[i := 0];
          model := model.(victim := dv, floating := model.floating + {d});
          VictimFlags(mem, model, bitmap, slots, d);
          var _ := MergeAndRelease(d, mem.flags[d].Level(), mem.thisSize[d]);
        }
        i := i + 1;
      }
      assert dv == [dv[0], dv[1]];
      DrainReserve();
    }

    /** Gives every reserved block back. */
    method DrainReserve()
      requires StoreOk(model.blocks, store, shelf, maxReserve)
      modifies `store, `shelf
      ensures StoreOk(model.blocks, store, shelf, maxReserve) && shelf == old(shelf).(reserved := {})
    {
      hide HeldOk;
      ghost var start := store;
      ghost var front := store.front;
      while store.reserveFirst != 0
        invariant store == start.(reserveFirst := store.reserveFirst, reserveCount := store.reserveCount)
        invariant store.reserveCount == |shelf.reserved| <= maxReserve
        invariant shelf == old(shelf).(reserved := shelf.reserved)
        invariant HeldOk(model.blocks, shelf.reserved, HeadersOf(store, shelf).(front := front), store.usedFirst,
                         store.reserveFirst)
        decreases |shelf.reserved|
      {
        ghost var H := HeadersOf(store, shelf).(front := front);
        ReserveNotEmpty(model.blocks, shelf.reserved, H, store.usedFirst, store.reserveFirst);
        PopReserve(model.blocks, shelf.reserved, H, store.usedFirst, store.reserveFirst);
        var released := store.reserveFirst;
        store := store.(reserveFirst := store.next[store.reserveFirst]);
        store := store.(reserveCount := store.reserveCount - 1);
        front := ReservePop(H, released).front;
        shelf := shelf.(reserved := shelf.reserved - {released});
      }
      ReserveNotEmpty(model.blocks, shelf.reserved, HeadersOf(store, shelf).(front := front), store.usedFirst, 0);
      NoReserve(model.blocks, old(shelf).reserved, HeadersOf(start, old(shelf)), start.usedFirst, start.reserveFirst);
    }

    /** Links `chunk` in at the front of its slot's list. */
    method SlotPush(slotId: nat, chunk: int)
      requires Consistent(mem, model, bitmap, slots) && chunk in model.floating && chunk !in model.loose
      requires chunk in model.home && model.home[chunk] in model.kinds
      requires model.kinds[model.home[chunk]].slot && model.kinds[model.home[chunk]].slotId == slotId
      modifies `mem, `model
      ensures Consistent(mem, model, bitmap, slots) && slotId < SLOTS && Head(SlotKey(slotId)) in old(mem).next
      ensures LayoutOf(mem, model) == LayoutOf(old(mem), old(model))
      ensures StatusOf(mem, model) == SlotListed(StatusOf(old(mem), old(model)), chunk, SlotKey(slotId))
      ensures BinsOf(mem, model, bitmap) == ListPush(BinsOf(old(mem), old(model), bitmap), SlotKey(slotId), chunk)
    {
      hide CoreOk, BodyFacts, KindOk;
      ghost var L, S, B := LayoutOf(mem, model), StatusOf(mem, model), BinsOf(mem, model, bitmap);
      ChunkFacts(L, S, B, slots, chunk);
      FlagsOfBody(L, S, slots, chunk);
      SlotPushCore(L, S, B, slots, chunk);
      var k := SlotKey(slotId);
      mem := mem.(next := mem.next[At(chunk) := mem.next[Head(k)]]);
      mem := mem.(prev := mem.prev[mem.next[Head(k)] := At(chunk)]);
      mem := mem.(prev := mem.prev[At(chunk) := Head(k)], next := mem.next[Head(k) := At(chunk)]);
      model := model.(key := model.key[chunk := k], floating := model.floating - {chunk},
                      rank := model.rank[chunk := model.clock], clock := model.clock + 1);
    }

    /** Unlinks `chunk` from its slot's list. */
    method SlotUnlink(chunk: int)
      requires Consistent(mem, model, bitmap, slots) && chunk in model.key && model.key[chunk] >= 128
      modifies `mem, `model
      ensures Consistent(mem, model, bitmap, slots)
      ensures LayoutOf(mem, model) == LayoutOf(old(mem), old(model))
      ensures StatusOf(mem, model) == Picked(StatusOf(old(mem), old(model)), chunk)
      ensures At(chunk) in old(mem).next && At(chunk) in old(mem).prev
      ensures BinsOf(mem, model, bitmap) == ListUnlink(BinsOf(old(mem), old(model), bitmap), chunk)
    {
      hide CoreOk, BodyFacts, KindOk;
      ghost var L, S, B := LayoutOf(mem, model), StatusOf(mem, model), BinsOf(mem, model, bitmap);
      SlotPickCore(L, S, B, slots, chunk);
      PickLinks(L, S, B, slots, chunk);
      mem := mem.(next := mem.next[mem.prev[At(chunk)] := mem.next[At(chunk)]]);
      mem := mem.(prev := mem.prev[mem.next[At(chunk)] := mem.prev[At(chunk)]]);
      model := model.(key := model.key - {chunk}, floating := model.floating + {chunk});
    }

    /** Joins a freed object with the chunk in front of it, if that is free. */
    method SlotMergeFront(chunk: int, slotId: nat) returns (c: int)
      requires Consistent(mem, model, bitmap, slots) && SlotHand(mem, model, dv, chunk, slotId)
      modifies `mem, `model
      ensures Consistent(mem, model, bitmap, slots) && SlotHand(mem, model, dv, c, slotId)
      ensures model.live == old(model).live && model.blocks == old(model).blocks && model.kinds == old(model).kinds
      ensures model.home == old(model).home && chunk in model.home && model.home[c] == model.home[chunk]
      ensures IsBody(LayoutOf(mem, model), c) && !IsFree(StatusOf(mem, model), FrontOf(LayoutOf(mem, model), c))
      ensures var L := LayoutOf(old(mem), old(model));
              && chunk in L.prevSize && FrontOf(L, chunk) in old(mem).flags
              && var front := FrontOf(L, chunk);
                 if old(mem).flags[front].used then c == chunk && LayoutOf(mem, model) == L
                 else && c == front && front in L.thisSize && NextOf(L, front) == chunk && chunk in L.thisSize
                      && LayoutOf(mem, model) == Merge(L, front)
    {
      hide CoreOk, KeyOk, LiveOk, KindOk, BodyFacts, IsBody;
      ghost var L, S, B := LayoutOf(mem, model), StatusOf(mem, model), BinsOf(mem, model, bitmap);
      ChunkFacts(L, S, B, slots, chunk);
      BodyOf(L, S, slots, chunk);
      Adjacent(L, S, B, slots, chunk);
      var front := chunk - mem.prevSize[chunk];
      FreeNeighbour(L, S, B, slots, chunk, front);
      c := chunk;
      if !mem.flags[front].used {
        BodyOf(L, S, slots, front);
        SlotUnlink(front);
        FrontIsBehind(L, S, B, slots, chunk);
        AbsorbedFront(LayoutOf(mem, model), StatusOf(mem, model), BinsOf(mem, model, bitmap), slots, front);
        Absorb(front);
        c := front;
      }
    }

    /** Joins it with the chunk behind it, if that is free. */
    method SlotMergeNext(c: int, slotId: nat)
      requires Consistent(mem, model, bitmap, slots) && SlotHand(mem, model, dv, c, slotId)
               && IsBody(LayoutOf(mem, model), c)
      requires !IsFree(StatusOf(mem, model), FrontOf(LayoutOf(mem, model), c))
      modifies `mem, `model
      ensures Consistent(mem, model, bitmap, slots) && SlotHand(mem, model, dv, c, slotId)
      ensures model.live == old(model).live && model.blocks == old(model).blocks && model.kinds == old(model).kinds
      ensures model.home == old(model).home
      ensures IsBody(LayoutOf(mem, model), c) && !IsFree(StatusOf(mem, model), FrontOf(LayoutOf(mem, model), c))
      ensures !IsFree(StatusOf(mem, model), NextOf(LayoutOf(mem, model), c))
      ensures var L := LayoutOf(old(mem), old(model));
              && c in L.thisSize && NextOf(L, c) in old(mem).flags && NextOf(L, c) in L.thisSize
              && LayoutOf(mem, model) == if old(mem).flags[NextOf(L, c)].used then L else Merge(L, c)
    {
      hide CoreOk, KeyOk, LiveOk, KindOk, BodyFacts, IsBody;
      ghost var L, S, B := LayoutOf(mem, model), StatusOf(mem, model), BinsOf(mem, model, bitmap);
      ChunkFacts(L, S, B, slots, c);
      BodyOf(L, S, slots, c);
      Adjacent(L, S, B, slots, c);
      var next := c + mem.thisSize[c];
      FreeNeighbour(L, S, B, slots, c, next);
      if !mem.flags[next].used {
        BodyOf(L, S, slots, next);
        SlotUnlink(next);
        AbsorbedNext(LayoutOf(mem, model), StatusOf(mem, model), BinsOf(mem, model, bitmap), slots, c);
        AbsorbKeepsFront(LayoutOf(mem, model), StatusOf(mem, model), c);
        Absorb(c);
      }
    }

    /** Counts a live object as freed, and unsets its in-use bit. */
    method SlotTakeBack(chunk: int) returns (slotId: nat)
      requires Consistent(mem, model, bitmap, slots) && FitsOk(model.live) && chunk in model.live
               && model.live[chunk].kind.slot
      requires TotalsOk(model.live, totals, allocCounter, freeCounter, slots) && SlotShapes(slots)
      modifies `mem, `model, `totals, `slots
      ensures Consistent(mem, model, bitmap, slots) && TotalsOk(model.live, totals, allocCounter, freeCounter, slots)
              && SlotShapes(slots)
      ensures chunk in old(mem).flags && LayoutOf(mem, model) == LayoutOf(old(mem), old(model))
      ensures StatusOf(mem, model) == Unused(StatusOf(old(mem), old(model)), chunk)
      ensures totals == old(totals).(freeCount := old(totals).freeCount + 1,
                                     freeBytes := old(totals).freeBytes + old(model).live[chunk].size)
      ensures slotId == old(model).live[chunk].kind.slotId < |slots| == |old(slots)|
      ensures slots == old(slots)[slotId := SlotTook(old(slots)[slotId], old(model).live[chunk].size)]
    {
      hide CoreOk, KeyOk, KindOk, BodyFacts, TotalsOk, SlotShape;
      ghost var L, S, B := LayoutOf(mem, model), StatusOf(mem, model), BinsOf(mem, model, bitmap);
      ChunkFacts(L, S, B, slots, chunk);
      BodyOf(L, S, slots, chunk);
      FlagsOfBody(L, S, slots, chunk);
      FitsSlot(model.live, chunk);
      UnusedCore(L, S, B, slots, chunk);
      SlotRemove(model.live, totals, allocCounter, freeCounter, slots, chunk);
      hide FitsOk;
      totals := totals.(freeCount := totals.freeCount + 1, freeBytes := totals.freeBytes + mem.thisSize[chunk]);
      slotId := mem.binId[chunk];
      slots := slots[slotId := SlotTook(slots[slotId], mem.thisSize[chunk])];
      mem := mem.(flags := mem.flags[chunk := mem.flags[chunk].Clean()]);
      model := model.(live := model.live - {chunk}, floating := model.floating + {chunk},
                      loose := model.loose + {chunk});
      SlotCountCore(LayoutOf(mem, model), StatusOf(mem, model), BinsOf(mem, model, bitmap), old(slots), slotId,
                    slots[slotId]);
      SameShapes(old(slots), slotId, slots[slotId]);
    }

    method FreeSlot(addr: int) returns (r: int)
      requires Valid()
      requires addr != 0 ==> var a := addr - PADDING;
                             a in mem.flags && (mem.flags[a].used ==> a in model.live && model.live[a].kind.slot)
      modifies this
      ensures Valid()
      ensures addr == 0 || !old(mem).flags[addr - PADDING].used ==>
                r == 0 && model == old(model) && runtimeErrors == old(runtimeErrors) + if addr == 0 then 0 else 1
      ensures addr != 0 && old(mem).flags[addr - PADDING].used ==>
                && TakenBack(old(model), model, addr - PADDING, r) && runtimeErrors == old(runtimeErrors)
                && totals == old(totals).(freeCount := old(totals).freeCount + 1,
                                          freeBytes := old(totals).freeBytes + r + PADDING)
                && addr - PADDING in old(model).home && HeldIffUsed(model, old(model).home[addr - PADDING])
                && var s := old(model).live[addr - PADDING].kind.slotId;
                   s < |old(slots)|
                   && slots == old(slots)[s := old(slots)[s].(freeCount := old(slots)[s].freeCount + 1,
                                                              freeBytes := old(slots)[s].freeBytes + r + PADDING)]
      ensures Refused(old(shelf), shelf, false)
    {
      hide CoreOk, StoreOk, CountsOk, TotalsOk, Fits, KeyOk, KindOk, BodyFacts, SlotShapes, Tiled, IsBody;
      if addr == 0 {
        return 0;
      }
      var chunk := addr - PADDING;
      if !mem.flags[chunk].used {
        runtimeErrors := runtimeErrors + 1;
        return 0;
      }
      ghost var L, S, B := LayoutOf(mem, model), StatusOf(mem, model), BinsOf(mem, model, bitmap);
      ChunkFacts(L, S, B, slots, chunk);
      BodyOf(L, S, slots, chunk);
      FlagsOfBody(L, S, slots, chunk);
      CoreIsTiled(L, S, B, slots);
      r := mem.thisSize[chunk] - PADDING;
      var slotId := SlotTakeBack(chunk);
      SlotMergeAndRelease(chunk, slotId);
    }

    /** Joins a freed object with its free neighbours, then releases its block or lists it. */
    method SlotMergeAndRelease(chunk: int, slotId: nat)
      requires Consistent(mem, model, bitmap, slots) && SlotHand(mem, model, dv, chunk, slotId)
      requires StoreOk(model.blocks, store, shelf, maxReserve) && CountsOk(model.blocks, counts, shelf)
      modifies `mem, `model, `store, `shelf, `counts
      ensures Consistent(mem, model, bitmap, slots) && AtRest(model, dv)
      ensures StoreOk(model.blocks, store, shelf, maxReserve) && CountsOk(model.blocks, counts, shelf)
      ensures model.live == old(model).live && chunk in old(model).home && HeldIffUsed(model, old(model).home[chunk])
      ensures Refused(old(shelf), shelf, false)
    {
      hide CoreOk, StoreOk, CountsOk, HeldIffUsed;
      var c := SlotMergeFront(chunk, slotId);
      SlotMergeNext(c, slotId);
      SlotRelease(c, slotId);
    }

    /** Gives up the block of a slot once its last object is freed; lists the chunk otherwise. */
    method SlotRelease(c: int, slotId: nat)
      requires Consistent(mem, model, bitmap, slots) && SlotHand(mem, model, dv, c, slotId)
               && IsBody(LayoutOf(mem, model), c)
      requires !IsFree(StatusOf(mem, model), FrontOf(LayoutOf(mem, model), c))
      requires !IsFree(StatusOf(mem, model), NextOf(LayoutOf(mem, model), c))
      requires StoreOk(model.blocks, store, shelf, maxReserve) && CountsOk(model.blocks, counts, shelf)
      modifies `mem, `model, `store, `shelf, `counts
      ensures Consistent(mem, model, bitmap, slots) && AtRest(model, dv)
      ensures StoreOk(model.blocks, store, shelf, maxReserve) && CountsOk(model.blocks, counts, shelf)
      ensures model.live == old(model).live && model.home == old(model).home
      ensures HeldIffUsed(model, model.home[c])
      ensures Refused(old(shelf), shelf, false)
    {
      hide CoreOk, StoreOk, CountsOk, KeyOk, LiveOk, KindOk, BodyFacts;
      ghost var L, S, B := LayoutOf(mem, model), StatusOf(mem, model), BinsOf(mem, model, bitmap);
      SettledCore(L, S, B, slots, c);
      model := model.(loose := model.loose - {c});
      SlotSizeTest(L, S, B, slots, c);
      FreeFlags(L, S, B, slots, c);
      WholeMeansUnused(L, Settled(S, c), B, slots, c);
      assert Settled(S, c) == StatusOf(mem, model);
      if mem.thisSize[c] > slots[slotId].maxChunk - slots[slotId].userSize {
        FreeBlock(c - BLOCK_TYPE - FREE_CHUNK);
      } else {
        SlotPush(slotId, c);
      }
    }

    /** Fixes the sizes of a slot at its first request. */
    method InitSlot(slotId: nat, bytes: nat, blockSize: nat)
      requires Valid() && !SlotRefuses(slots, slotId, bytes, blockSize, alignShift)
               && bytes + Pow2(alignShift) + 111 < Pow2(64) && blockSize + Pow2(alignShift) + 111 <= Pow2(31)
      requires slots[slotId].userSize == 0
      modifies `slots
      ensures Valid() && slots == old(slots)[slotId := SlotSizes(old(slots)[slotId], bytes, blockSize, alignShift)]
    {
      hide CoreOk, StoreOk, CountsOk, FitsOk, ClassesOk, Total, CeilPowerOf2, AlignUp, SlotShape, Pow2;
      SlotSizesShape(slots[slotId], bytes, blockSize, alignShift);
      ghost var slot := SlotSizes(slots[slotId], bytes, blockSize, alignShift);
      SlotInitCore(LayoutOf(mem, model), StatusOf(mem, model), BinsOf(mem, model, bitmap), slots, slotId, slot);
      slots := slots[slotId := slots[slotId].(userSize := AlignUp(bytes, alignShift),
                                              blockSize := AlignUp(blockSize, alignShift))];
      slots := slots[slotId := slots[slotId].(maxChunk := AlignUp(blockSize, alignShift) + BLOCK_TYPE + PADDING
                                              + FREE_CHUNK * 2)];
      slots := slots[slotId := slots[slotId].(maxChunk := CeilPowerOf2(slots[slotId].maxChunk))];
      slots := slots[slotId := slots[slotId].(maxChunk := slots[slotId].maxChunk - (BLOCK_TYPE + FREE_CHUNK * 2))];
      assert slots == old(slots)[slotId := slot];
    }

    /** Gives an empty slot a block. */
    method SlotRefill(slotId: nat, fromSystem: int) returns (ok: bool)
      requires Consistent(mem, model, bitmap, slots) && AtRest(model, dv)
      requires StoreOk(model.blocks, store, shelf, maxReserve) && CountsOk(model.blocks, counts, shelf)
      requires slotId < SLOTS && slotId < |slots| && slots[slotId].userSize != 0 && SlotShape(slots[slotId])
      requires fromSystem != 0 ==> Fresh(Held(model.blocks, shelf.reserved), fromSystem,
                                         slots[slotId].maxChunk + OVERHEAD)
      modifies `mem, `model, `store, `shelf, `counts
      ensures Consistent(mem, model, bitmap, slots) && AtRest(model, dv) && model.live == old(model).live
      ensures StoreOk(model.blocks, store, shelf, maxReserve) && CountsOk(model.blocks, counts, shelf)
      ensures ok <==> fromSystem != 0
      ensures ok ==> Head(SlotKey(slotId)) in mem.next && mem.next[Head(SlotKey(slotId))] != Tail(SlotKey(slotId))
      ensures !ok ==> model == old(model)
      ensures Refused(old(shelf), shelf, !ok)
    {
      hide CoreOk, StoreOk, CountsOk, Fresh, Held, Pow2, CeilPowerOf2;
      ghost var kind := Kind(true, true, true, slotId, slots[slotId].userSize + PADDING);
      SlotBlockFits(slots[slotId]);
      var chunk := AllocBlock(slots[slotId].blockSize, Flags(true, true, true, false, 0), kind, fromSystem);
      ok := chunk != 0;
      if ok {
        SlotPush(slotId, chunk);
      }
    }

    /** Takes an object from the first chunk of a slot's list. */
    method SlotTake(slotId: nat) returns (chunk: int)
      requires Consistent(mem, model, bitmap, slots) && AtRest(model, dv) && slotId < SLOTS && slotId < |slots|
      requires Head(SlotKey(slotId)) in mem.next && mem.next[Head(SlotKey(slotId))] != Tail(SlotKey(slotId))
      modifies `mem, `model
      ensures Consistent(mem, model, bitmap, slots) && model.victim == dv && model.live == old(model).live
              && model.blocks == old(model).blocks
      ensures model.floating == {chunk} && model.loose <= {chunk} && chunk > 0 && chunk !in model.live
      ensures chunk in mem.thisSize && chunk in model.home && model.home[chunk] in model.kinds
      ensures model.kinds[model.home[chunk]].slot && model.kinds[model.home[chunk]].slotId == slotId
      ensures var need := slots[slotId].userSize + PADDING;
              model.kinds[model.home[chunk]].least == need <= mem.thisSize[chunk] < 2 * need
    {
      hide CoreOk;
      FirstObject(mem, model, bitmap, slots, slotId);
      var k, need := SlotKey(slotId), slots[slotId].userSize + PADDING;
      var first := mem.next[Head(k)].addr;
      if mem.thisSize[first] >= need * 2 {
        chunk := ExploitNewChunk(first, need);
      } else if mem.thisSize[first] >= need {
        chunk := first;
        SlotPickCore(LayoutOf(mem, model), StatusOf(mem, model), BinsOf(mem, model, bitmap), slots, first);
        mem := mem.(next := mem.next[Head(k) := mem.next[At(first)]]);
        mem := mem.(prev := mem.prev[mem.next[Head(k)] := Head(k)]);
        model := model.(key := model.key - {first}, floating := model.floating + {first});
      } else {
        assert false;
        chunk := 0;
      }
    }

    /** Marks a chunk as an object of a slot, and counts it. */
    method SlotHandOut(chunk: int, slotId: nat, ghost request: nat) returns (p: int)
      requires Consistent(mem, model, bitmap, slots) && model.victim == dv && |dv| == 2
      requires model.floating == {chunk} && model.loose <= {chunk} && chunk !in model.live
      requires chunk in mem.thisSize && chunk in model.home && model.home[chunk] in model.kinds && slotId < |slots|
      requires model.kinds[model.home[chunk]].slot && model.kinds[model.home[chunk]].slotId == slotId < SLOTS
      requires model.kinds[model.home[chunk]].least <= mem.thisSize[chunk] && request <= mem.thisSize[chunk] - PADDING
      requires TotalsOk(model.live, totals, allocCounter, freeCounter, slots) && FitsOk(model.live) && SlotShapes(slots)
      modifies `mem, `model, `totals, `slots
      ensures Consistent(mem, model, bitmap, slots) && AtRest(model, dv) && p == chunk + PADDING
      ensures TotalsOk(model.live, totals, allocCounter, freeCounter, slots) && FitsOk(model.live) && SlotShapes(slots)
      ensures model.live == old(model).live[chunk := Live(old(mem).thisSize[chunk], request, 0, slotId,
                                                          old(model).kinds[old(model).home[chunk]])]
      ensures model.blocks == old(model).blocks
      ensures slots == old(slots)[slotId := SlotGave(old(slots)[slotId], old(mem).thisSize[chunk])]
      ensures totals == old(totals).(allocBytes := old(totals).allocBytes + old(mem).thisSize[chunk])
    {
      hide CoreOk, TotalsOk, BodyFacts, KindOk, KeyOk, LiveOk, SlotShapes;
      ghost var L, S, B := LayoutOf(mem, model), StatusOf(mem, model), BinsOf(mem, model, bitmap);
      ghost var l := Live(mem.thisSize[chunk], request, 0, slotId, KindOf(L, S, chunk));
      ChunkFacts(L, S, B, slots, chunk);
      FlagsOfBody(L, S, slots, chunk);
      FitsAdd(model.live, chunk, l);
      hide Fits, FitsOk;
      UsedCore(L, S, B, slots, chunk, 0, slotId, l);
      SlotAdd(model.live, totals, allocCounter, freeCounter, slots, chunk, l);
      mem := mem.(flags := mem.flags[chunk := mem.flags[chunk].Mark(0)]);
      mem := mem.(binId := mem.binId[chunk := slotId]);
      totals := totals.(allocBytes := totals.allocBytes + mem.thisSize[chunk]);
      slots := slots[slotId := SlotGave(slots[slotId], mem.thisSize[chunk])];
      model := model.(floating := model.floating - {chunk}, loose := model.loose - {chunk},
                      live := model.live[chunk := l]);
      SlotCountCore(LayoutOf(mem, model), StatusOf(mem, model), BinsOf(mem, model, bitmap), old(slots), slotId,
                    slots[slotId]);
      SameShapes(old(slots), slotId, slots[slotId]);
      return chunk + PADDING;
    }

    /** The checks alloc_slot makes first; at the first request of a slot they fix its sizes. */
    method SlotAdmit(slotId: nat, bytes: nat, blockSize: nat) returns (ok: bool)
      requires Valid() && bytes + Pow2(alignShift) + 111 < Pow2(64) && blockSize + Pow2(alignShift) + 111 <= Pow2(31)
      modifies `slots, `runtimeErrors
      ensures Valid() && (ok <==> !SlotRefuses(old(slots), slotId, bytes, blockSize, alignShift))
      ensures ok ==> slots == old(slots)[slotId := SlotSizes(old(slots)[slotId], bytes, blockSize, alignShift)]
                     && runtimeErrors == old(runtimeErrors)
      ensures ok ==> slotId < |slots| == SLOTS && slots[slotId].userSize >= bytes
      ensures !ok ==> slots == old(slots) && runtimeErrors == old(runtimeErrors) + 1
    {
      hide CoreOk, StoreOk, CountsOk, FitsOk, ClassesOk, Total, SlotShapes, Pow2, CeilPowerOf2, AlignUp;
      if slotId >= SLOTS {
        runtimeErrors := runtimeErrors + 1;
        return false;
      }
      if bytes == 0 {
        runtimeErrors := runtimeErrors + 1;
        return false;
      }
      if slots[slotId].userSize < bytes {
        if slots[slotId].userSize != 0 {
          runtimeErrors := runtimeErrors + 1;
          return false;
        }
        if AlignUp(bytes, alignShift) + PADDING + FREE_CHUNK * 2 + BLOCK_TYPE > blockSize {
          runtimeErrors := runtimeErrors + 1;
          return false;
        }
        Pow2Mono(31, 64);
        AlignUpIs(bytes, alignShift);
        InitSlot(slotId, bytes, blockSize);
      }
      return true;
    }

    /** An object of an admitted slot: from its list, which gets a block if it is empty. */
    method SlotServe(slotId: nat, bytes: nat, fromSystem: int) returns (p: int)
      requires Valid() && slotId < |slots| && slotId < SLOTS && 0 < bytes <= slots[slotId].userSize
      requires fromSystem != 0 ==> Fresh(Held(model.blocks, shelf.reserved), fromSystem,
                                         slots[slotId].maxChunk + OVERHEAD)
      modifies `mem, `model, `store, `shelf, `counts, `totals, `slots, `runtimeErrors
      ensures Valid()
      ensures p == 0 ==> model.live == old(model).live && runtimeErrors == old(runtimeErrors) + 1 && fromSystem == 0
      ensures p != 0 ==>
                var a := p - PADDING;
                && p % 16 == 0 && a > 0 && a !in old(model).live && a in model.live
                && model.live == old(model).live[a := model.live[a]]
                && model.live[a].request == bytes && model.live[a].kind.slot && model.live[a].kind.slotId == slotId
                && old(slots)[slotId].userSize + PADDING <= model.live[a].size
                && model.live[a].size < 2 * (old(slots)[slotId].userSize + PADDING)
                && runtimeErrors == old(runtimeErrors)
      ensures totals == old(totals).(allocBytes := totals.allocBytes)
      ensures Refused(old(shelf), shelf, p == 0)
      ensures if p == 0 then slots == old(slots)
              else slots == old(slots)[slotId := SlotGave(old(slots)[slotId], model.live[p - PADDING].size)]
      ensures p == 0 <==> fromSystem == 0 && !FreeObject(old(mem), old(model), slotId)
    {
      hide CoreOk, StoreOk, CountsOk, FitsOk, TotalsOk, SlotShape, Fresh, Held;
      FirstObject(mem, model, bitmap, slots, slotId);
      ObjectListed(mem, model, bitmap, slots, dv, slotId);
      var k := SlotKey(slotId);
      if mem.next[Head(k)] == Tail(k) {
        var ok := SlotRefill(slotId, fromSystem);
        if !ok {
          runtimeErrors := runtimeErrors + 1;
          return 0;
        }
      }
      hide SlotShapes;
      var chunk := SlotTake(slotId);
      p := SlotHandOut(chunk, slotId, bytes);
      HandedOut(mem, model, bitmap, slots, chunk);
    }

    method AllocSlot(slotId: nat, bytes: nat, blockSize: nat, fromSystem: int) returns (p: int)
      requires Valid() && bytes + Pow2(alignShift) + 111 < Pow2(64) && blockSize + Pow2(alignShift) + 111 <= Pow2(31)
      requires fromSystem != 0 && !SlotRefuses(slots, slotId, bytes, blockSize, alignShift) ==>
                 Fresh(Held(model.blocks, shelf.reserved), fromSystem,
                       SlotSizes(slots[slotId], bytes, blockSize, alignShift).maxChunk + OVERHEAD)
      modifies `mem, `model, `store, `shelf, `counts, `totals, `slots, `runtimeErrors
      ensures Valid()
      ensures p == 0 ==> model.live == old(model).live && runtimeErrors == old(runtimeErrors) + 1
                         && (SlotRefuses(old(slots), slotId, bytes, blockSize, alignShift) || fromSystem == 0)
      ensures SlotRefuses(old(slots), slotId, bytes, blockSize, alignShift) ==> p == 0 && slots == old(slots)
      ensures p != 0 ==>
                var a := p - PADDING;
                && p % 16 == 0 && a > 0 && a !in old(model).live && a in model.live
                && model.live == old(model).live[a := model.live[a]]
                && model.live[a].request == bytes && model.live[a].kind.slot && model.live[a].kind.slotId == slotId
                && slotId < |old(slots)|
                && var need := SlotSizes(old(slots)[slotId], bytes, blockSize, alignShift).userSize + PADDING;
                && need <= model.live[a].size < 2 * need && runtimeErrors == old(runtimeErrors)
      ensures totals.reqCount == old(totals).reqCount + 1 && totals.reqBytes == old(totals).reqBytes + bytes
      ensures Refused(old(shelf), shelf, p == 0 && !SlotRefuses(old(slots), slotId, bytes, blockSize, alignShift))
      ensures !SlotRefuses(old(slots), slotId, bytes, blockSize, alignShift) ==>
                && slotId < |old(slots)|
                && var slot := SlotSizes(old(slots)[slotId], bytes, blockSize, alignShift);
                   slots == old(slots)[slotId := if p == 0 then slot
                                                 else slot.(allocCount := slot.allocCount + 1,
                                                            allocBytes := slot.allocBytes
                                                                          + model.live[p - PADDING].size)]
      ensures p != 0 <==> Entitled(old(slots), slotId, bytes, blockSize, alignShift)
                          && (fromSystem != 0 || FreeObject(old(mem), old(model), slotId))
    {
      hide CoreOk, StoreOk, CountsOk, FitsOk, ClassesOk, SlotTotalsOk, SlotShapes, SlotShape, Fresh, Held, Total, Pow2,
           CeilPowerOf2, AlignUp;
      RefusesIs(slots, slotId, bytes, blockSize, alignShift);
      hide Entitled, FreeObject;
      totals := totals.(reqBytes := totals.reqBytes + bytes, reqCount := totals.reqCount + 1);
      var ok := SlotAdmit(slotId, bytes, blockSize);
      if !ok {
        return 0;
      }
      hide TotalsOk;
      p := SlotServe(slotId, bytes, fromSystem);
    }
  }
}
