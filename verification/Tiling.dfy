/**
  Boundary tags. A block is cut into chunks; every chunk header stores its own size and the size of the
  chunk before it, and neighbours are found by adding and subtracting these. The layout is described by
  facts about single chunks and their two neighbours; that each block is tiled exactly is derived.
 */
module Tiling {

  const HEAD: int := 32       // offset of the head sentinel: behind the block header
  const FIRST: int := 64      // offset of the first chunk: behind the head sentinel
  const SENTINEL: int := 32   // size of a sentinel
  const OVERHEAD: int := 96   // block header and both sentinels
  const LEAST: int := 32      // no chunk is smaller

  /**
    `thisSize` and `prevSize` are the header fields, by chunk address; they keep stale entries like the
    memory does. `chunks` are the addresses that are chunk headers now, sentinels included, `home` is
    the block of a chunk, and `blocks` gives the size of each used block.
   */
  datatype Layout = Layout(thisSize: map<int, int>, prevSize: map<int, int>,
                           chunks: set<int>, home: map<int, int>, blocks: map<int, int>)

  ghost predicate Placed(L: Layout, a: int) {
    && a in L.thisSize && a in L.prevSize && a in L.home && L.home[a] in L.blocks
  }

  ghost predicate IsHead(L: Layout, a: int)
    requires Placed(L, a)
  {
    a == L.home[a] + HEAD
  }

  ghost predicate IsTail(L: Layout, a: int)
    requires Placed(L, a)
  {
    a == L.home[a] + L.blocks[L.home[a]] - SENTINEL
  }

  /** A chunk that is not a sentinel. */
  ghost predicate IsBody(L: Layout, a: int) {
    a in L.chunks && Placed(L, a) && !IsHead(L, a) && !IsTail(L, a)
  }

  function NextOf(L: Layout, a: int): int
    requires a in L.thisSize
  {
    a + L.thisSize[a]
  }

  function FrontOf(L: Layout, a: int): int
    requires a in L.prevSize
  {
    a - L.prevSize[a]
  }

  ghost predicate BlockOk(L: Layout, b: int)
    requires b in L.blocks
  {
    && 0 < b && b % 16 == 0 && L.blocks[b] % 16 == 0 && OVERHEAD + LEAST <= L.blocks[b]
    && b + HEAD in L.chunks && b + HEAD in L.home && L.home[b + HEAD] == b
    && b + L.blocks[b] - SENTINEL in L.chunks && b + L.blocks[b] - SENTINEL in L.home
    && L.home[b + L.blocks[b] - SENTINEL] == b
  }

  /** Sizes and bounds of one chunk. */
  ghost predicate SizeOk(L: Layout, a: int) {
    && Placed(L, a) && a % 16 == 0
    && (IsHead(L, a) || IsTail(L, a) ==> L.thisSize[a] == SENTINEL)
    && (!IsHead(L, a) && !IsTail(L, a) ==>
          && LEAST <= L.thisSize[a] && L.thisSize[a] % 16 == 0
          && L.home[a] + FIRST <= a && a + L.thisSize[a] <= L.home[a] + L.blocks[L.home[a]] - SENTINEL)
  }

  ghost predicate NextAgrees(L: Layout, a: int)
    requires Placed(L, a)
  {
    var n := NextOf(L, a);
    n in L.chunks && Placed(L, n) && L.home[n] == L.home[a] && L.prevSize[n] == L.thisSize[a]
  }

  ghost predicate FrontAgrees(L: Layout, a: int)
    requires Placed(L, a)
  {
    var f := FrontOf(L, a);
    f in L.chunks && Placed(L, f) && L.home[f] == L.home[a] && L.thisSize[f] == L.prevSize[a]
  }

  /** The boundary tags of one chunk agree with those of its neighbours in both directions. */
  ghost predicate TagsOk(L: Layout, a: int)
    requires Placed(L, a)
  {
    && (!IsTail(L, a) ==> NextAgrees(L, a))
    && (!IsHead(L, a) ==> FrontAgrees(L, a))
  }

  ghost predicate ChunkOk(L: Layout, a: int) {
    SizeOk(L, a) && TagsOk(L, a)
  }

  ghost predicate ChunksOk(L: Layout) {
    forall a: int {:trigger a in L.chunks} :: a in L.chunks ==> ChunkOk(L, a)
  }

  ghost predicate BlocksOk(L: Layout) {
    forall b: int {:trigger b in L.blocks} :: b in L.blocks ==> BlockOk(L, b)
  }

  ghost predicate ChunksApart(L: Layout) {
    forall a: int, c: int {:trigger a in L.chunks, c in L.chunks} ::
      a in L.chunks && c in L.chunks && a < c ==> a in L.thisSize && a + L.thisSize[a] <= c
  }

  ghost predicate Apart(blocks: map<int, int>) {
    forall b: int, c: int {:trigger b in blocks, c in blocks} :: b in blocks && c in blocks && b < c ==>
      b + blocks[b] <= c
  }

  ghost predicate Tiled(L: Layout) {
    ChunksOk(L) && BlocksOk(L) && ChunksApart(L) && Apart(L.blocks)
  }

  // exploit_new_chunk cuts the new chunk from the high end of the divided one.

  function Split(L: Layout, d: int, size: int): Layout
    requires d in L.thisSize && d in L.home
  {
    var rest := L.thisSize[d] - size;
    var n := d + rest;
    L.(thisSize := L.thisSize[d := rest][n := size],
       prevSize := L.prevSize[n := rest][n + size := size],
       chunks := L.chunks + {n},
       home := L.home[n := L.home[d]])
  }

  ghost predicate CanSplit(L: Layout, d: int, size: int) {
    && IsBody(L, d) && ChunkOk(L, d)
    && LEAST <= size && size % 16 == 0 && LEAST <= L.thisSize[d] - size
  }

  lemma SplitParts(L: Layout, d: int, size: int)
    requires CanSplit(L, d, size) && d + L.thisSize[d] - size !in L.chunks
    ensures ChunkOk(Split(L, d, size), d) && ChunkOk(Split(L, d, size), d + L.thisSize[d] - size)
    ensures IsBody(Split(L, d, size), d) && IsBody(Split(L, d, size), d + L.thisSize[d] - size)
  {
  }

  lemma SplitOthers(L: Layout, d: int, size: int, a: int)
    requires CanSplit(L, d, size) && d + L.thisSize[d] - size !in L.chunks
    requires a in L.chunks && a != d && ChunkOk(L, a)
    ensures ChunkOk(Split(L, d, size), a)
  {
    var L' := Split(L, d, size);
    assert Placed(L', a);
    assert SizeOk(L', a);
    assert !IsTail(L, a) ==> NextAgrees(L', a);
    assert !IsHead(L, a) ==> FrontAgrees(L', a);
  }

  lemma SplitApart(L: Layout, d: int, size: int)
    requires CanSplit(L, d, size) && ChunksApart(L)
    ensures d + L.thisSize[d] - size !in L.chunks && ChunksApart(Split(L, d, size))
  {
  }

  lemma SplitBlocks(L: Layout, d: int, size: int)
    requires CanSplit(L, d, size) && BlocksOk(L) && d + L.thisSize[d] - size !in L.chunks
    ensures BlocksOk(Split(L, d, size))
  {
    var L' := Split(L, d, size);
    forall b: int | b in L'.blocks ensures BlockOk(L', b) {
      assert BlockOk(L, b);
    }
  }

  lemma SplitChunks(L: Layout, d: int, size: int)
    requires CanSplit(L, d, size) && ChunksOk(L) && d + L.thisSize[d] - size !in L.chunks
    ensures ChunksOk(Split(L, d, size))
  {
    hide ChunkOk;
    var n := d + L.thisSize[d] - size;
    var L' := Split(L, d, size);
    assert L'.chunks == L.chunks + {n};
    hide CanSplit, Split;
    SplitParts(L, d, size);
    forall a: int | a in L.chunks && a != d ensures ChunkOk(L', a) {
      SplitOthers(L, d, size, a);
    }
  }

  lemma SplitTiled(L: Layout, d: int, size: int)
    requires Tiled(L) && IsBody(L, d)
    requires LEAST <= size && size % 16 == 0 && LEAST <= L.thisSize[d] - size
    ensures Tiled(Split(L, d, size)) && d + L.thisSize[d] - size !in L.chunks
    ensures IsBody(Split(L, d, size), d) && IsBody(Split(L, d, size), d + L.thisSize[d] - size)
  {
    assert CanSplit(L, d, size);
    hide ChunkOk, BlocksOk, ChunksApart, Apart, ChunksOk, IsBody, CanSplit;
    SplitApart(L, d, size);
    SplitParts(L, d, size);
    SplitBlocks(L, d, size);
    SplitChunks(L, d, size);
  }

  // Merging a chunk with the one behind it.

  function Merge(L: Layout, a: int): Layout
    requires a in L.thisSize && NextOf(L, a) in L.thisSize
  {
    var r := NextOf(L, a);
    var size := L.thisSize[a] + L.thisSize[r];
    L.(thisSize := L.thisSize[a := size],
       prevSize := L.prevSize[a + size := size],
       chunks := L.chunks - {r})
  }

  ghost predicate CanMerge(L: Layout, a: int) {
    && IsBody(L, a) && ChunkOk(L, a) && IsBody(L, NextOf(L, a)) && ChunkOk(L, NextOf(L, a))
    && ChunkOk(L, NextOf(L, NextOf(L, a)))
  }

  lemma MergeParts(L: Layout, a: int)
    requires CanMerge(L, a)
    ensures ChunkOk(Merge(L, a), a) && IsBody(Merge(L, a), a)
  {
    var L' := Merge(L, a);
    var r := NextOf(L, a);
    var e := NextOf(L, r);
    assert NextOf(L', a) == e && FrontOf(L', a) == FrontOf(L, a);
    assert SizeOk(L', a);
    assert NextAgrees(L', a);
  }

  lemma MergeOthers(L: Layout, a: int, c: int)
    requires CanMerge(L, a) && c in L.chunks && c != a && c != NextOf(L, a) && ChunkOk(L, c)
    ensures ChunkOk(Merge(L, a), c)
  {
    var L' := Merge(L, a);
    assert Placed(L', c) && SizeOk(L', c);
    assert !IsTail(L, c) ==> NextAgrees(L', c);
    assert !IsHead(L, c) ==> FrontAgrees(L', c);
  }

  lemma MergeChunks(L: Layout, a: int)
    requires CanMerge(L, a) && ChunksOk(L)
    ensures ChunksOk(Merge(L, a))
  {
    hide ChunkOk;
    var r := NextOf(L, a);
    var L' := Merge(L, a);
    assert L'.chunks == L.chunks - {r};
    hide CanMerge, Merge, NextOf;
    MergeParts(L, a);
    forall c: int | c in L.chunks && c != a && c != r ensures ChunkOk(L', c) {
      MergeOthers(L, a, c);
    }
  }

  lemma MergeApart(L: Layout, a: int)
    requires CanMerge(L, a) && ChunksApart(L)
    ensures ChunksApart(Merge(L, a))
  {
  }

  lemma MergeBlocks(L: Layout, a: int)
    requires CanMerge(L, a) && BlocksOk(L)
    ensures BlocksOk(Merge(L, a))
  {
    var L' := Merge(L, a);
    forall b: int | b in L'.blocks ensures BlockOk(L', b) {
      assert BlockOk(L, b);
    }
  }

  lemma MergeTiled(L: Layout, a: int)
    requires Tiled(L) && IsBody(L, a) && IsBody(L, NextOf(L, a))
    ensures Tiled(Merge(L, a)) && IsBody(Merge(L, a), a)
  {
    BodyNext(L, a);
    BodyNext(L, NextOf(L, a));
    ChunkIsOk(L, NextOf(L, NextOf(L, a)));
    hide ChunkOk, BlocksOk, ChunksApart, Apart, ChunksOk, IsBody;
    assert CanMerge(L, a);
    hide CanMerge;
    MergeParts(L, a);
    MergeChunks(L, a);
    MergeApart(L, a);
    MergeBlocks(L, a);
  }

  lemma ChunkIsOk(L: Layout, a: int)
    requires Tiled(L) && a in L.chunks
    ensures ChunkOk(L, a)
  {
    hide ChunkOk;
  }

  lemma BodyNext(L: Layout, a: int)
    requires Tiled(L) && IsBody(L, a)
    ensures ChunkOk(L, a) && NextOf(L, a) in L.chunks && Placed(L, NextOf(L, a))
    ensures L.home[NextOf(L, a)] == L.home[a] && L.prevSize[NextOf(L, a)] == L.thisSize[a]
    ensures !IsHead(L, NextOf(L, a)) && FrontOf(L, NextOf(L, a)) == a
  {
    ChunkIsOk(L, a);
  }

  lemma BodyFront(L: Layout, a: int)
    requires Tiled(L) && IsBody(L, a)
    ensures ChunkOk(L, a) && FrontOf(L, a) in L.chunks && Placed(L, FrontOf(L, a))
    ensures L.home[FrontOf(L, a)] == L.home[a] && L.thisSize[FrontOf(L, a)] == L.prevSize[a]
    ensures !IsTail(L, FrontOf(L, a)) && NextOf(L, FrontOf(L, a)) == a
  {
    ChunkIsOk(L, a);
  }

  // alloc_block lays out a block as one chunk between two sentinels; free_block gives it up whole.

  function AddBlock(L: Layout, b: int, size: int): Layout {
    var rest := size - OVERHEAD;
    L.(thisSize := L.thisSize[b + HEAD := SENTINEL][b + FIRST := rest][b + FIRST + rest := SENTINEL],
       prevSize := L.prevSize[b + HEAD := 0][b + FIRST := SENTINEL][b + FIRST + rest := rest],
       chunks := L.chunks + {b + HEAD, b + FIRST, b + FIRST + rest},
       home := L.home[b + HEAD := b][b + FIRST := b][b + FIRST + rest := b],
       blocks := L.blocks[b := size])
  }

  /** The region `[b, b + size)` is aligned and touches no used block. */
  ghost predicate Fresh(blocks: map<int, int>, b: int, size: int) {
    && 0 < b && b % 16 == 0 && size % 16 == 0 && OVERHEAD + LEAST <= size
    && forall c: int {:trigger c in blocks} :: c in blocks ==> c + blocks[c] <= b || b + size <= c
  }

  ghost predicate Within(L: Layout, a: int) {
    && Placed(L, a) && L.thisSize[a] >= LEAST
    && L.home[a] + HEAD <= a && a + L.thisSize[a] <= L.home[a] + L.blocks[L.home[a]]
  }

  /** Every chunk lies inside its block. */
  lemma ChunkInBlock(L: Layout, a: int)
    requires Tiled(L) && a in L.chunks
    ensures Within(L, a)
  {
    ChunkIsOk(L, a);
    BlockIsOk(L, L.home[a]);
  }

  lemma BlockIsOk(L: Layout, b: int)
    requires Tiled(L) && b in L.blocks
    ensures BlockOk(L, b)
  {
    hide BlockOk;
  }

  lemma AddBlockParts(L: Layout, b: int, size: int)
    requires Fresh(L.blocks, b, size)
    ensures var L' := AddBlock(L, b, size);
            && ChunkOk(L', b + HEAD) && ChunkOk(L', b + FIRST) && ChunkOk(L', b + size - SENTINEL)
            && IsBody(L', b + FIRST) && BlockOk(L', b)
  {
  }

  lemma AddBlockOthers(L: Layout, b: int, size: int, a: int)
    requires Fresh(L.blocks, b, size) && a in L.chunks && ChunkOk(L, a) && Within(L, a)
    requires !IsTail(L, a) ==> Within(L, NextOf(L, a))
    requires !IsHead(L, a) ==> Within(L, FrontOf(L, a))
    ensures ChunkOk(AddBlock(L, b, size), a)
  {
    var L' := AddBlock(L, b, size);
    assert L.home[a] in L.blocks && L.home[a] != b;
    assert SizeOk(L', a);
    assert !IsTail(L, a) ==> NextAgrees(L', a);
    assert !IsHead(L, a) ==> FrontAgrees(L', a);
  }

  /** An old chunk is clear of the new block. */
  ghost predicate Clear(L: Layout, b: int, size: int, a: int) {
    a in L.thisSize && L.thisSize[a] > 0 && (a + L.thisSize[a] <= b || b + size <= a)
  }

  lemma WithinIsClear(L: Layout, b: int, size: int, a: int)
    requires Fresh(L.blocks, b, size) && Within(L, a)
    ensures Clear(L, b, size, a)
  {
  }

  lemma AddBlockApart(L: Layout, b: int, size: int)
    requires Fresh(L.blocks, b, size) && ChunksApart(L)
    requires forall a: int {:trigger a in L.chunks} :: a in L.chunks ==> Clear(L, b, size, a)
    ensures ChunksApart(AddBlock(L, b, size))
    ensures b + FIRST !in L.chunks && b + HEAD !in L.chunks && b + size - SENTINEL !in L.chunks
  {
  }

  lemma AddBlockBlocks(L: Layout, b: int, size: int)
    requires BlocksOk(L) && Apart(L.blocks) && Fresh(L.blocks, b, size)
    ensures BlocksOk(AddBlock(L, b, size)) && Apart(AddBlock(L, b, size).blocks)
  {
    var L' := AddBlock(L, b, size);
    AddBlockParts(L, b, size);
    forall c: int | c in L'.blocks ensures BlockOk(L', c) {
      if c != b {
        assert BlockOk(L, c);
      }
    }
    hide BlockOk;
  }

  lemma AddBlockChunks(L: Layout, b: int, size: int)
    requires Tiled(L) && Fresh(L.blocks, b, size)
    ensures ChunksOk(AddBlock(L, b, size)) && ChunksApart(AddBlock(L, b, size))
    ensures b + FIRST !in L.chunks && b + HEAD !in L.chunks && b + size - SENTINEL !in L.chunks
  {
    hide ChunkOk, Fresh, Within, Clear;
    var L' := AddBlock(L, b, size);
    assert L'.chunks == L.chunks + {b + HEAD, b + FIRST, b + size - SENTINEL};
    AddBlockParts(L, b, size);
    forall a: int | a in L.chunks ensures ChunkOk(L', a) && Clear(L, b, size, a) {
      AddBlockOld(L, b, size, a);
    }
    hide AddBlock;
    AddBlockApart(L, b, size);
  }

  lemma AddBlockOld(L: Layout, b: int, size: int, a: int)
    requires Tiled(L) && Fresh(L.blocks, b, size) && a in L.chunks
    ensures ChunkOk(AddBlock(L, b, size), a) && Clear(L, b, size, a)
  {
    ChunkIsOk(L, a);
    ChunkInBlock(L, a);
    assert !IsTail(L, a) ==> NextOf(L, a) in L.chunks;
    assert !IsHead(L, a) ==> FrontOf(L, a) in L.chunks;
    hide Tiled, ChunkOk, AddBlock, Within, Clear, Fresh;
    if !IsTail(L, a) { ChunkInBlock(L, NextOf(L, a)); }
    if !IsHead(L, a) { ChunkInBlock(L, FrontOf(L, a)); }
    WithinIsClear(L, b, size, a);
    AddBlockOthers(L, b, size, a);
  }

  lemma AddBlockTiled(L: Layout, b: int, size: int)
    requires Tiled(L) && Fresh(L.blocks, b, size)
    ensures Tiled(AddBlock(L, b, size)) && IsBody(AddBlock(L, b, size), b + FIRST)
    ensures b + FIRST !in L.chunks && b + HEAD !in L.chunks && b + size - SENTINEL !in L.chunks
  {
    AddBlockBlocks(L, b, size);
    AddBlockParts(L, b, size);
    AddBlockChunks(L, b, size);
    hide *;
    TiledFrom(AddBlock(L, b, size));
  }

  lemma TiledFrom(L: Layout)
    requires ChunksOk(L) && BlocksOk(L) && ChunksApart(L) && Apart(L.blocks)
    ensures Tiled(L)
  {
  }

  // A chunk that spans its block is the only one in it.

  function DropBlock(L: Layout, b: int): Layout
    requires b in L.blocks
  {
    L.(chunks := L.chunks - {b + HEAD, b + FIRST, b + L.blocks[b] - SENTINEL}, blocks := L.blocks - {b})
  }

  /** The size test of merge_and_release: a chunk that big is the first and only one of its block. */
  lemma WholeBlock(L: Layout, a: int)
    requires Tiled(L) && IsBody(L, a) && L.thisSize[a] >= L.blocks[L.home[a]] - OVERHEAD
    ensures a == L.home[a] + FIRST && L.thisSize[a] == L.blocks[L.home[a]] - OVERHEAD
  {
    ChunkIsOk(L, a);
  }

  lemma OnlyChunks(L: Layout, b: int, c: int)
    requires Tiled(L) && b in L.blocks && IsBody(L, b + FIRST) && L.home[b + FIRST] == b
    requires L.thisSize[b + FIRST] == L.blocks[b] - OVERHEAD
    requires c in L.chunks
    ensures Placed(L, c)
    ensures L.home[c] == b ==> c == b + HEAD || c == b + FIRST || c == b + L.blocks[b] - SENTINEL
  {
    ChunkIsOk(L, c);
  }

  lemma DropOthers(L: Layout, b: int, c: int)
    requires b in L.blocks && c in L.chunks && ChunkOk(L, c) && L.home[c] != b
    requires forall x: int {:trigger x in L.chunks} :: x in L.chunks && x in L.home && L.home[x] != b ==>
               x != b + HEAD && x != b + FIRST && x != b + L.blocks[b] - SENTINEL
    ensures ChunkOk(DropBlock(L, b), c)
  {
    var L' := DropBlock(L, b);
    assert SizeOk(L', c);
    assert !IsTail(L, c) ==> NextAgrees(L', c);
    assert !IsHead(L, c) ==> FrontAgrees(L', c);
  }

  lemma DropBlockTiled(L: Layout, b: int)
    requires Tiled(L) && b in L.blocks && IsBody(L, b + FIRST) && L.home[b + FIRST] == b
    requires L.thisSize[b + FIRST] == L.blocks[b] - OVERHEAD
    ensures Tiled(DropBlock(L, b))
    ensures forall c: int {:trigger c in L.chunks} :: c in L.chunks && c !in DropBlock(L, b).chunks ==>
              c == b + HEAD || c == b + FIRST || c == b + L.blocks[b] - SENTINEL
  {
    hide ChunkOk, BlockOk, IsBody;
    var L' := DropBlock(L, b);
    DropHomes(L, b);
    DropBlocks(L, b);
    DropApart(L, b);
    hide BlocksOk, ChunksApart, Apart, DropBlock;
    DropChunkSet(L, b);
    forall c: int | c in L'.chunks ensures ChunkOk(L', c) {
      OnlyChunks(L, b, c);
      DropOthers(L, b, c);
    }
  }

  lemma DropApart(L: Layout, b: int)
    requires ChunksApart(L) && Apart(L.blocks) && b in L.blocks
    ensures ChunksApart(DropBlock(L, b)) && Apart(DropBlock(L, b).blocks)
  {
  }

  lemma DropChunkSet(L: Layout, b: int)
    requires b in L.blocks
    ensures DropBlock(L, b).chunks == L.chunks - {b + HEAD, b + FIRST, b + L.blocks[b] - SENTINEL}
  {
  }

  lemma DropHomes(L: Layout, b: int)
    requires Tiled(L) && b in L.blocks && IsBody(L, b + FIRST) && L.home[b + FIRST] == b
    ensures forall x: int {:trigger x in L.chunks} :: x in L.chunks && x in L.home && L.home[x] != b ==>
              x != b + HEAD && x != b + FIRST && x != b + L.blocks[b] - SENTINEL
  {
    BlockIsOk(L, b);
  }

  lemma DropBlocks(L: Layout, b: int)
    requires Tiled(L) && b in L.blocks && IsBody(L, b + FIRST) && L.home[b + FIRST] == b
    ensures BlocksOk(DropBlock(L, b))
  {
    hide ChunksOk, ChunksApart;
    var L' := DropBlock(L, b);
    BlockIsOk(L, b);
    forall c: int | c in L'.blocks ensures BlockOk(L', c) {
      assert BlockOk(L, c);
    }
  }

  // What the local facts amount to: walking a block by chunk sizes.

  /** The chunks met by adding sizes from chunk `a` up to the tail sentinel of its block. */
  ghost function Walk(L: Layout, a: int): seq<int>
    requires Tiled(L) && a in L.chunks
    decreases if Placed(L, a) then L.home[a] + L.blocks[L.home[a]] - a else 0
  {
    ChunkInBlock(L, a);
    if IsTail(L, a) then [a] else
      (ChunkIsOk(L, a);
       ChunkInBlock(L, NextOf(L, a));
       [a] + Walk(L, NextOf(L, a)))
  }

  ghost predicate Contiguous(L: Layout, w: seq<int>) {
    && (forall i :: 0 <= i < |w| ==> w[i] in L.chunks && w[i] in L.thisSize)
    && (forall i :: 0 <= i < |w| - 1 ==> w[i] + L.thisSize[w[i]] == w[i + 1])
  }

  lemma {:induction false} WalkContiguous(L: Layout, a: int)
    requires Tiled(L) && a in L.chunks
    ensures Placed(L, a) && |Walk(L, a)| > 0 && Walk(L, a)[0] == a && Contiguous(L, Walk(L, a))
    ensures Walk(L, a)[|Walk(L, a)| - 1] == L.home[a] + L.blocks[L.home[a]] - SENTINEL
    decreases if Placed(L, a) then L.home[a] + L.blocks[L.home[a]] - a else 0
  {
    hide Tiled;
    ChunkInBlock(L, a);
    ChunkIsOk(L, a);
    if !IsTail(L, a) {
      ChunkInBlock(L, NextOf(L, a));
      WalkContiguous(L, NextOf(L, a));
    }
  }

  lemma {:induction false} WalkComplete(L: Layout, a: int, c: int)
    requires Tiled(L) && a in L.chunks && c in L.chunks && Placed(L, a) && Placed(L, c)
    requires L.home[a] == L.home[c] && a <= c
    ensures c in Walk(L, a)
    decreases c - a
  {
    hide Tiled, ChunkOk;
    ChunkInBlock(L, a);
    WalkStep(L, a);
    if a < c {
      ChunkInBlock(L, c);
      ApartPair(L, a, c);
      WalkComplete(L, NextOf(L, a), c);
    }
  }

  lemma WalkStep(L: Layout, a: int)
    requires Tiled(L) && a in L.chunks
    ensures Placed(L, a) && a in Walk(L, a)
    ensures !IsTail(L, a) ==> NextOf(L, a) in L.chunks && Placed(L, NextOf(L, a)) && L.home[NextOf(L, a)] == L.home[a]
                              && Walk(L, a) == [a] + Walk(L, NextOf(L, a))
  {
    ChunkInBlock(L, a);
    ChunkIsOk(L, a);
    hide Tiled;
  }

  lemma ApartPair(L: Layout, a: int, c: int)
    requires Tiled(L) && a in L.chunks && c in L.chunks && a < c
    ensures a in L.thisSize && a + L.thisSize[a] <= c
  {
    hide ChunkOk, BlockOk;
  }

  lemma {:induction false} WalkHome(L: Layout, a: int, c: int)
    requires Tiled(L) && a in L.chunks && c in Walk(L, a)
    ensures c in L.chunks && Placed(L, c) && Placed(L, a) && L.home[c] == L.home[a]
    decreases if Placed(L, a) then L.home[a] + L.blocks[L.home[a]] - a else 0
  {
    hide Tiled;
    ChunkInBlock(L, a);
    ChunkIsOk(L, a);
    if c != a {
      ChunkInBlock(L, NextOf(L, a));
      WalkHome(L, NextOf(L, a), c);
    }
  }

  /**
    Every used block is tiled exactly: walking from its head sentinel by chunk sizes meets adjacent
    chunks only, ends at its tail sentinel, and meets every chunk of the block.
   */
  lemma BlockIsTiled(L: Layout, b: int)
    requires Tiled(L) && b in L.blocks
    ensures b + HEAD in L.chunks && Contiguous(L, Walk(L, b + HEAD))
    ensures var w := Walk(L, b + HEAD);
            && |w| > 0 && w[0] == b + HEAD && w[|w| - 1] == b + L.blocks[b] - SENTINEL
            && (forall c: int :: c in w <==> c in L.chunks && c in L.home && L.home[c] == b)
  {
    BlockIsOk(L, b);
    var h := b + HEAD;
    WalkContiguous(L, h);
    forall c: int ensures c in Walk(L, h) <==> c in L.chunks && c in L.home && L.home[c] == b {
      if c in Walk(L, h) { WalkHome(L, h, c); }
      if c in L.chunks && c in L.home && L.home[c] == b {
        ChunkInBlock(L, c);
        WalkComplete(L, h, c);
      }
    }
  }
}
