/**
  The fixed-size pool: chunks are handed out of one byte area, and a freed chunk holds the id of the next
  free one in its own first four bytes.
 */
module Zpool {
  import opened Bits

  const NIL: int := 0xffff_ffff    // (u32)-1

  /** The u32 stored at byte `at`, least significant byte first. */
  function Word(space: seq<int>, at: int): int
    requires 0 <= at && at + 4 <= |space|
  {
    space[at] + 0x100 * space[at + 1] + 0x1_0000 * space[at + 2] + 0x100_0000 * space[at + 3]
  }

  ghost predicate Bytes(space: seq<int>) {
    forall i :: 0 <= i < |space| ==> 0 <= space[i] < 0x100
  }

  /** align_chunk_size */
  function AlignChunkSize(memSize: int, alignSize: int): int
    requires memSize >= 0 && alignSize > 0
  {
    ((if memSize == 0 then 1 else memSize) + alignSize - 1) / alignSize * alignSize
  }

  lemma AlignChunkSizeIs(memSize: int, alignSize: int)
    requires memSize >= 0 && alignSize > 0
    ensures memSize > 0 ==> memSize <= AlignChunkSize(memSize, alignSize) < memSize + alignSize
    ensures memSize == 0 ==> AlignChunkSize(memSize, alignSize) == alignSize
    ensures AlignChunkSize(memSize, alignSize) % alignSize == 0 && AlignChunkSize(memSize, alignSize) > 0
  {
    var n := (if memSize == 0 then 1 else memSize) + alignSize - 1;
    assert n == n / alignSize * alignSize + n % alignSize;
    QuotientIs(n / alignSize * alignSize, n / alignSize, 0, alignSize);
    if memSize == 0 { QuotientIs(n, 1, 0, alignSize); }
  }

  /** Where chunk `id` starts. */
  function OffsetOf(id: int, size: int): int { id * size }

  /** The id of the chunk at byte offset `addr`. */
  function IdOf(addr: int, size: int): int
    requires size > 0
  {
    addr / size
  }

  lemma IdOfIs(id: int, size: int)
    requires id >= 0 && size > 0
    ensures IdOf(OffsetOf(id, size), size) == id
  {
    QuotientIs(id * size, id, 0, size);
  }

  /** Different chunks do not overlap. */
  lemma ChunksApart(i: int, j: int, size: int)
    requires 0 <= i < j && size >= 0
    ensures OffsetOf(i, size) + size <= OffsetOf(j, size)
  {
    Scale(i + 1, j, size);
    assert (i + 1) * size == i * size + size;
  }

  /** Free chunks in list order, each linked to the next. */
  ghost predicate ChainOk(space: seq<int>, size: int, count: int, first: int, chain: seq<int>)
    requires size >= 4 && |space| == OffsetOf(count, size)
  {
    && (forall i :: 0 <= i < |chain| ==> 0 <= chain[i] < count)
    && first == (if chain == [] then NIL else chain[0])
    && (forall i {:trigger chain[i]} :: 0 <= i < |chain| ==>
          && 0 <= OffsetOf(chain[i], size) && OffsetOf(chain[i], size) + 4 <= |space|
          && Word(space, OffsetOf(chain[i], size)) == if i + 1 < |chain| then chain[i + 1] else NIL)
  }

  /** Every id below the offset is live or in the free list, never both, and never twice in the list. */
  ghost predicate Partition(live: set<int>, chain: seq<int>, offset: int) {
    && (forall i, j :: 0 <= i < j < |chain| ==> chain[i] != chain[j])
    && (forall id :: id in live || id in chain <==> 0 <= id < offset)
    && (forall id :: !(id in live && id in chain))
  }

  /** What holds of a pool of `count` chunks of `size` bytes each. */
  ghost predicate PoolOk(space: seq<int>, size: int, count: int, offset: int, used: int, first: int, live: set<int>,
                         chain: seq<int>) {
    && size >= 4 && 0 <= count <= NIL && |space| == OffsetOf(count, size)
    && 0 <= offset <= count && used == |live| && Bytes(space)
    && Partition(live, chain, offset) && ChainOk(space, size, count, first, chain)
  }

  class Zpool {
    const chunkSize: int
    const chunkCount: int
    var exploitOffset: int
    var usedCount: int
    var freeId: int
    const space: array<int>

    ghost var live: set<int>
    ghost var chain: seq<int>

    /**
      Every id below the offset is live or in the free list, never both and never twice, and the links in
      the freed chunks make up that list.
     */
    ghost predicate Valid()
      reads this, space
    {
      PoolOk(space[..], chunkSize, chunkCount, exploitOffset, usedCount, freeId, live, chain)
    }

    constructor (memSize: int, alignSize: int, memCount: int)
      requires memSize >= 0 && alignSize > 0 && 0 <= memCount <= NIL && AlignChunkSize(memSize, alignSize) >= 4
      requires memSize + alignSize <= NIL && OffsetOf(memCount, AlignChunkSize(memSize, alignSize)) <= NIL
      ensures Valid() && fresh(space) && live == {} && chain == [] && exploitOffset == 0
      ensures chunkSize == AlignChunkSize(memSize, alignSize) && chunkCount == memCount
    {
      chunkSize, chunkCount := AlignChunkSize(memSize, alignSize), memCount;
      exploitOffset, usedCount, freeId := 0, 0, NIL;
      live, chain := {}, [];
      Scale(0, memCount, AlignChunkSize(memSize, alignSize));
      space := new int[AlignChunkSize(memSize, alignSize) * memCount](_ => 0);
    }

    /** A free chunk, as its byte offset in the area; -1 if there is none. */
    method Exploit() returns (p: int)
      requires Valid()
      modifies `exploitOffset, `usedCount, `freeId, `live, `chain
      ensures Valid()
      ensures p == -1 <==> old(usedCount) == chunkCount
      ensures p == -1 ==> live == old(live) && chain == old(chain) && exploitOffset == old(exploitOffset)
      ensures p != -1 ==>
                var id := if old(chain) == [] then old(exploitOffset) else old(chain)[0];
                && p == OffsetOf(id, chunkSize) && 0 <= p && p + chunkSize <= space.Length
                && id !in old(live) && live == old(live) + {id}
                && chain == (if old(chain) == [] then [] else old(chain)[1..])
                && exploitOffset == old(exploitOffset) + if old(chain) == [] then 1 else 0
    {
      PoolBounds(space[..], chunkSize, chunkCount, exploitOffset, usedCount, freeId, live, chain);
      hide PoolOk, OffsetOf;
      if freeId != NIL {
        var id := freeId;
        ChunkFits(id, chunkSize, chunkCount);
        TakeListed(space[..], chunkSize, chunkCount, exploitOffset, usedCount, freeId, live, chain);
        freeId := Word(space[..], OffsetOf(id, chunkSize));
        usedCount := usedCount + 1;
        live, chain := live + {id}, chain[1..];
        return OffsetOf(id, chunkSize);
      }
      TakeFresh(space[..], chunkSize, chunkCount, exploitOffset, usedCount, live);
      if exploitOffset < chunkCount {
        p := OffsetOf(exploitOffset, chunkSize);
        ChunkFits(exploitOffset, chunkSize, chunkCount);
        live := live + {exploitOffset};
        exploitOffset := exploitOffset + 1;
        usedCount := usedCount + 1;
        return;
      }
      return -1;
    }

    /** Takes back the chunk at byte offset `addr`. */
    method Back(addr: int)
      requires Valid() && exists id :: id in live && addr == OffsetOf(id, chunkSize)
      modifies `usedCount, `freeId, `live, `chain, space
      ensures Valid()
      ensures var id := IdOf(addr, chunkSize);
              && addr == OffsetOf(id, chunkSize) && id in old(live) && live == old(live) - {id}
              && chain == [id] + old(chain)
      ensures forall x :: 0 <= x < space.Length && !(addr <= x < addr + chunkSize) ==> space[x] == old(space[x])
    {
      PoolBounds(space[..], chunkSize, chunkCount, exploitOffset, usedCount, freeId, live, chain);
      hide PoolOk, Word, Bytes, IdOf, OffsetOf;
      ghost var key :| key in live && addr == OffsetOf(key, chunkSize);
      var id := IdOf(addr, chunkSize);
      IdOfIs(key, chunkSize);
      ChunkFits(id, chunkSize, chunkCount);
      ghost var before := space[..];
      WriteWord(addr, freeId);
      GiveBack(before, space[..], chunkSize, chunkCount, exploitOffset, usedCount, freeId, live, chain, id);
      freeId := id;
      usedCount := usedCount - 1;
      live, chain := live - {id}, [id] + chain;
    }

    method WriteWord(at: int, v: int)
      requires 0 <= at && at + 4 <= space.Length && 0 <= v <= NIL && Bytes(space[..])
      modifies space
      ensures Bytes(space[..]) && Word(space[..], at) == v
      ensures forall x :: 0 <= x < space.Length && !(at <= x < at + 4) ==> space[x] == old(space[x])
    {
      var rest := v;
      space[at], rest := rest % 0x100, rest / 0x100;
      space[at + 1], rest := rest % 0x100, rest / 0x100;
      space[at + 2], rest := rest % 0x100, rest / 0x100;
      space[at + 3] := rest % 0x100;
      WordWritten(space[..], at, v);
    }

    /** What the owner of a live chunk does to it leaves the pool intact. */
    method Write(id: int, offset: int, value: int)
      requires Valid() && id in live && 0 <= offset < chunkSize && 0 <= value < 0x100
      modifies space
      ensures Valid() && 0 <= OffsetOf(id, chunkSize) && OffsetOf(id, chunkSize) + offset < space.Length
      ensures space[..] == old(space[..])[OffsetOf(id, chunkSize) + offset := value]
    {
      ChunkFits(id, chunkSize, chunkCount);
      hide Word, ChainOk, OffsetOf;
      ghost var before := space[..];
      space[OffsetOf(id, chunkSize) + offset] := value;
      ChainKept(before, space[..], chunkSize, chunkCount, freeId, chain, id);
    }
  }

  lemma PoolBounds(space: seq<int>, size: int, count: int, offset: int, used: int, first: int, live: set<int>,
                   chain: seq<int>)
    requires PoolOk(space, size, count, offset, used, first, live, chain)
    ensures size >= 4 && |space| == OffsetOf(count, size) && 0 <= offset <= count <= NIL && used == |live|
            && Bytes(space)
    ensures forall id :: id in live ==> 0 <= id < offset && id !in chain
    ensures 0 <= first <= NIL && (if chain == [] then first == NIL else first == chain[0] && 0 <= first < count)
  {
    hide OffsetOf;
  }

  lemma TakeListed(space: seq<int>, size: int, count: int, offset: int, used: int, first: int, live: set<int>,
                   chain: seq<int>)
    requires PoolOk(space, size, count, offset, used, first, live, chain) && first != NIL
    ensures chain != [] && first == chain[0] && first !in live && used < offset
    ensures 0 <= OffsetOf(first, size) && OffsetOf(first, size) + 4 <= |space|
    ensures PoolOk(space, size, count, offset, used + 1, Word(space, OffsetOf(first, size)), live + {first}, chain[1..])
  {
    hide OffsetOf, Partition;
    TailOfChain(space, size, count, chain);
    PartitionTake(live, chain, offset);
  }

  lemma TakeFresh(space: seq<int>, size: int, count: int, offset: int, used: int, live: set<int>)
    requires PoolOk(space, size, count, offset, used, NIL, live, [])
    ensures used == offset && offset !in live
    ensures offset < count ==> PoolOk(space, size, count, offset + 1, used + 1, NIL, live + {offset}, [])
  {
    hide OffsetOf, Partition;
    PartitionFresh(live, offset);
  }

  lemma GiveBack(before: seq<int>, after: seq<int>, size: int, count: int, offset: int, used: int, first: int,
                 live: set<int>, chain: seq<int>, id: int)
    requires PoolOk(before, size, count, offset, used, first, live, chain) && id in live
    requires |after| == |before| && Bytes(after) && 0 <= OffsetOf(id, size) && OffsetOf(id, size) + size <= |after|
    requires Word(after, OffsetOf(id, size)) == first
    requires forall x :: 0 <= x < |before| && !(OffsetOf(id, size) <= x < OffsetOf(id, size) + size) ==>
               after[x] == before[x]
    ensures PoolOk(after, size, count, offset, used - 1, id, live - {id}, [id] + chain)
  {
    hide OffsetOf, Word, ChainOk, Bytes;
    PartitionBounds(live, chain, offset);
    hide Partition;
    ChainGrows(before, after, size, count, first, chain, id);
    PartitionGive(live, chain, offset, id);
  }

  lemma PartitionBounds(live: set<int>, chain: seq<int>, offset: int)
    requires Partition(live, chain, offset)
    ensures forall id :: id in live ==> 0 <= id < offset && id !in chain
  {
  }

  lemma PartitionGive(live: set<int>, chain: seq<int>, offset: int, id: int)
    requires Partition(live, chain, offset) && id in live
    ensures id !in chain && Partition(live - {id}, [id] + chain, offset)
  {
  }

  lemma PartitionTake(live: set<int>, chain: seq<int>, offset: int)
    requires Partition(live, chain, offset) && chain != []
    ensures chain[0] in chain && chain[0] !in live && 0 <= chain[0] < offset
    ensures Partition(live + {chain[0]}, chain[1..], offset)
    ensures |live| < offset
  {
    assert chain[0] in chain;
    UsedBelow(live, chain, offset, chain[0]);
  }

  lemma PartitionFresh(live: set<int>, offset: int)
    requires Partition(live, [], offset) && offset >= 0
    ensures |live| == offset && offset !in live && Partition(live + {offset}, [], offset + 1)
  {
    UsedFull(live, offset);
  }

  lemma WordWritten(space: seq<int>, at: int, v: int)
    requires 0 <= at && at + 4 <= |space| && 0 <= v <= NIL
    requires space[at] == v % 0x100 && space[at + 1] == v / 0x100 % 0x100
    requires space[at + 2] == v / 0x100 / 0x100 % 0x100 && space[at + 3] == v / 0x100 / 0x100 / 0x100 % 0x100
    ensures Word(space, at) == v
  {
  }

  /** Writing inside chunk `id` leaves every other chunk's link alone. */
  lemma ChainKept(before: seq<int>, after: seq<int>, size: int, count: int, first: int, chain: seq<int>, id: int)
    requires size >= 4 && |before| == |after| == OffsetOf(count, size) && ChainOk(before, size, count, first, chain)
    requires 0 <= id < count && id !in chain
    requires forall x :: 0 <= x < |before| && !(OffsetOf(id, size) <= x < OffsetOf(id, size) + size) ==>
               after[x] == before[x]
    ensures ChainOk(after, size, count, first, chain)
  {
    hide OffsetOf;
    forall i {:trigger chain[i]} | 0 <= i < |chain|
      ensures 0 <= OffsetOf(chain[i], size) && OffsetOf(chain[i], size) + 4 <= |after|
              && Word(after, OffsetOf(chain[i], size)) == Word(before, OffsetOf(chain[i], size))
    {
      ChunkFits(chain[i], size, count);
      if chain[i] < id { ChunksApart(chain[i], id, size); }
      if id < chain[i] { ChunksApart(id, chain[i], size); }
    }
  }

  lemma ChainGrows(before: seq<int>, after: seq<int>, size: int, count: int, first: int, chain: seq<int>, id: int)
    requires size >= 4 && |before| == |after| == OffsetOf(count, size) && ChainOk(before, size, count, first, chain)
    requires 0 <= id < count && id !in chain && 0 <= OffsetOf(id, size) && OffsetOf(id, size) + size <= |after|
             && Word(after, OffsetOf(id, size)) == first
    requires forall x :: 0 <= x < |before| && !(OffsetOf(id, size) <= x < OffsetOf(id, size) + size) ==>
               after[x] == before[x]
    ensures ChainOk(after, size, count, id, [id] + chain)
  {
    hide OffsetOf;
    ChainKept(before, after, size, count, first, chain, id);
    var c := [id] + chain;
    forall i {:trigger c[i]} | 0 <= i < |c|
      ensures 0 <= OffsetOf(c[i], size) && OffsetOf(c[i], size) + 4 <= |after|
      ensures Word(after, OffsetOf(c[i], size)) == if i + 1 < |c| then c[i + 1] else NIL
    {
      if i > 0 { assert c[i] == chain[i - 1]; }
    }
  }

  lemma ChunkFits(id: int, size: int, count: int)
    requires 0 <= id < count && size >= 0
    ensures 0 <= OffsetOf(id, size) && OffsetOf(id, size) + size <= OffsetOf(count, size)
  {
    Scale(0, id, size);
    ChunksApart(id, count, size);
  }

  lemma TailOfChain(space: seq<int>, size: int, count: int, chain: seq<int>)
    requires size >= 4 && |space| == OffsetOf(count, size) && count <= NIL && chain != []
             && ChainOk(space, size, count, chain[0], chain)
    ensures ChainOk(space, size, count, Word(space, OffsetOf(chain[0], size)), chain[1..])
  {
  }

  /** Live ids all lie below the offset, and `id` is one more of them. */
  lemma UsedBelow(live: set<int>, chain: seq<int>, offset: int, id: int)
    requires forall x :: x in live ==> 0 <= x < offset
    requires 0 <= id < offset && id !in live
    ensures |live| < offset
  {
    var all := Ids(offset);
    assert live + {id} <= all;
    SubsetSize(live + {id}, all);
    assert |live + {id}| == |live| + 1;
  }

  lemma UsedFull(live: set<int>, offset: int)
    requires offset >= 0 && forall x :: x in live <==> 0 <= x < offset
    ensures |live| == offset
  {
    assert live == Ids(offset);
  }

  ghost function Ids(n: int): (s: set<int>)
    requires n >= 0
    ensures |s| == n && forall x :: x in s <==> 0 <= x < n
  {
    if n == 0 then {} else Ids(n - 1) + {n - 1}
  }

  lemma SubsetSize(a: set<int>, b: set<int>)
    requires a <= b
    ensures |a| <= |b|
  {
    assert b == a + (b - a);
  }

  /** The chunks met by following at most `n` links from `id`. */
  ghost function Follow(space: seq<int>, size: int, id: int, n: nat): seq<int>
    decreases n
  {
    if n == 0 || id == NIL || !(0 <= OffsetOf(id, size) <= |space| - 4) then []
    else [id] + Follow(space, size, Word(space, OffsetOf(id, size)), n - 1)
  }

  lemma {:induction false} FollowChain(space: seq<int>, size: int, count: int, chain: seq<int>, n: nat)
    requires size >= 4 && |space| == OffsetOf(count, size) && count <= NIL && n >= |chain|
    requires ChainOk(space, size, count, if chain == [] then NIL else chain[0], chain)
    ensures Follow(space, size, if chain == [] then NIL else chain[0], n) == chain
    decreases |chain|
  {
    hide OffsetOf;
    if chain != [] {
      TailOfChain(space, size, count, chain);
      FollowChain(space, size, count, chain[1..], n - 1);
    }
  }

  /**
    The links in memory, followed from `chunk_free_id_`, end by themselves: they meet every id below the
    offset that is not live, once, and no other.
   */
  lemma FreeListIsExact(z: Zpool)
    requires z.Valid()
    ensures var list := Follow(z.space[..], z.chunkSize, z.freeId, z.exploitOffset + 1);
            && (forall id :: id in list <==> 0 <= id < z.exploitOffset && id !in z.live)
            && (forall i, j :: 0 <= i < j < |list| ==> list[i] != list[j])
            && |list| + z.usedCount == z.exploitOffset
  {
    hide OffsetOf;
    ChainSize(z.live, z.chain, z.exploitOffset);
    FollowChain(z.space[..], z.chunkSize, z.chunkCount, z.chain, z.exploitOffset + 1);
  }

  lemma {:induction false} ChainSize(live: set<int>, chain: seq<int>, offset: int)
    requires Partition(live, chain, offset) && offset >= 0
    ensures |chain| + |live| == offset
    decreases |chain|
  {
    if chain == [] {
      UsedFull(live, offset);
    } else {
      PartitionTake(live, chain, offset);
      ChainSize(live + {chain[0]}, chain[1..], offset);
    }
  }
}
