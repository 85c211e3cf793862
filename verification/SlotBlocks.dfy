/** What holds in the blocks of a slot: how large their chunks are, and when a block has no live object left. */
module SlotBlocks {
  import opened SizeClasses
  import opened Tiling
  import opened Roles
  import opened Bins
  import opened Core

  /** A slot that has no block yet may be given its sizes. */
  lemma SlotInitCore(L: Layout, S: Status, B: Bins, slots: seq<Slot>, s: nat, slot: Slot)
    requires CoreOk(L, S, B, slots) && s < |slots| && slots[s].userSize == 0
    ensures CoreOk(L, S, B, slots[s := slot])
  {
    hide Sound, BinsOk;
  }

  /** The counters of a slot do not matter to the blocks. */
  lemma SlotCountCore(L: Layout, S: Status, B: Bins, slots: seq<Slot>, s: nat, slot: Slot)
    requires CoreOk(L, S, B, slots) && s < |slots|
    requires slot.userSize == slots[s].userSize && slot.maxChunk == slots[s].maxChunk
    ensures CoreOk(L, S, B, slots[s := slot])
  {
    hide Sound, BinsOk;
  }

  /** The chunk spans its block. */
  ghost predicate Whole(L: Layout, a: int)
    requires Placed(L, a)
  {
    a == L.home[a] + FIRST && L.thisSize[a] == L.blocks[L.home[a]] - OVERHEAD
  }

  lemma BodyNeighbour(L: Layout, S: Status, B: Bins, slots: seq<Slot>, a: int)
    requires CoreOk(L, S, B, slots) && IsBody(L, a) && L.home[a] in S.kinds && !Whole(L, a)
    ensures var x := if a == L.home[a] + FIRST then NextOf(L, a) else FrontOf(L, a);
            && IsBody(L, x) && L.home[x] == L.home[a] && S.kinds[L.home[a]].least <= L.thisSize[x]
            && (if a == L.home[a] + FIRST then x == NextOf(L, a) else x >= L.home[a] + FIRST && NextOf(L, x) == a)
  {
    hide BinsOk, KindsOk, RolesOk, Coalesced;
    BodyNext(L, a);
    BodyFront(L, a);
    var x := if a == L.home[a] + FIRST then NextOf(L, a) else FrontOf(L, a);
    ChunkIsOk(L, x);
    hide Tiled, ChunkOk;
    NeighbourRole(L, S, x);
  }

  lemma NeighbourRole(L: Layout, S: Status, x: int)
    requires RolesOk(L, S) && x in L.chunks
    ensures Placed(L, x) && L.home[x] in S.kinds
    ensures IsBody(L, x) ==> S.kinds[L.home[x]].least <= L.thisSize[x]
    ensures IsBody(L, x) ==> x in S.flags && (x in S.live <==> S.flags[x].used)
  {
    hide RolesWithin;
    assert RoleOk(L, S, x);
  }

  /** The size test of free_slot tells whether the merged chunk spans its block. */
  lemma SlotSizeTest(L: Layout, S: Status, B: Bins, slots: seq<Slot>, a: int)
    requires CoreOk(L, S, B, slots) && IsBody(L, a) && L.home[a] in S.kinds && KindOf(L, S, a).slot
    ensures KindOf(L, S, a).slotId < |slots|
    ensures var slot := slots[KindOf(L, S, a).slotId];
            L.thisSize[a] > slot.maxChunk - slot.userSize <==> Whole(L, a)
  {
    CoreIsTiled(L, S, B, slots);
    CoreBlock(L, S, B, slots, L.home[a]);
    BodySize(L, S, a);
    if !Whole(L, a) {
      BodyNeighbour(L, S, B, slots, a);
      hide CoreOk;
      BodyEnds(L, a);
      BodyEnds(L, if a == L.home[a] + FIRST then NextOf(L, a) else FrontOf(L, a));
    }
  }

  /** The size test of merge_and_release does the same for a divided block. */
  lemma BlockSizeTest(L: Layout, S: Status, B: Bins, slots: seq<Slot>, a: int)
    requires CoreOk(L, S, B, slots) && IsBody(L, a) && L.home[a] in S.kinds && !KindOf(L, S, a).direct
    ensures L.thisSize[a] >= DEFAULT_BLOCK - OVERHEAD <==> Whole(L, a)
  {
    CoreIsTiled(L, S, B, slots);
    CoreBlock(L, S, B, slots, L.home[a]);
    if L.thisSize[a] >= DEFAULT_BLOCK - OVERHEAD {
      hide CoreOk, Tiled;
      WholeBlock(L, a);
    }
  }

  lemma BodyEnds(L: Layout, a: int)
    requires Tiled(L) && IsBody(L, a)
    ensures L.home[a] + FIRST <= a && a + L.thisSize[a] <= L.home[a] + L.blocks[L.home[a]] - SENTINEL
  {
    ChunkIsOk(L, a);
  }

  lemma WholeIsAlone(L: Layout, S: Status, B: Bins, slots: seq<Slot>, a: int, c: int)
    requires CoreOk(L, S, B, slots) && IsBody(L, a) && IsFree(S, a) && Whole(L, a) && c in S.live && c in L.home
    ensures L.home[c] != L.home[a]
  {
    CoreIsTiled(L, S, B, slots);
    CoreRole(L, S, B, slots, a);
    LiveIsChunk(L, S, B, slots, c);
    hide CoreOk, Tiled;
    OnlyChunks(L, L.home[a], c);
  }

  lemma PartHasLive(L: Layout, S: Status, B: Bins, slots: seq<Slot>, a: int) returns (x: int)
    requires CoreOk(L, S, B, slots) && IsBody(L, a) && IsFree(S, a) && S.loose == {} && !Whole(L, a)
    ensures x in S.live && x in L.home && L.home[x] == L.home[a]
  {
    hide CoreOk;
    CoreRole(L, S, B, slots, a);
    BodyNeighbour(L, S, B, slots, a);
    UsedAround(L, S, B, slots, a);
    x := if a == L.home[a] + FIRST then NextOf(L, a) else FrontOf(L, a);
    CoreRole(L, S, B, slots, x);
  }

  /**
    Whether a free chunk spans its block tells whether the block has a live chunk left: free neighbours
    have all been merged, so a smaller chunk has a live neighbour.
   */
  lemma WholeMeansUnused(L: Layout, S: Status, B: Bins, slots: seq<Slot>, a: int)
    requires CoreOk(L, S, B, slots) && IsBody(L, a) && IsFree(S, a) && S.loose == {}
    ensures Whole(L, a) <==> forall c: int {:trigger c in S.live} :: c in S.live && c in L.home ==>
              L.home[c] != L.home[a]
  {
    hide CoreOk, IsFree, Whole;
    if Whole(L, a) {
      forall c: int | c in S.live && c in L.home ensures L.home[c] != L.home[a] {
        WholeIsAlone(L, S, B, slots, a, c);
      }
    } else {
      var x := PartHasLive(L, S, B, slots, a);
    }
  }

  lemma CoreRole(L: Layout, S: Status, B: Bins, slots: seq<Slot>, x: int)
    requires CoreOk(L, S, B, slots) && x in L.chunks
    ensures Placed(L, x) && L.home[x] in S.kinds
    ensures IsBody(L, x) ==> x in S.flags && (x in S.live <==> S.flags[x].used)
  {
    hide BinsOk, KindsOk, Tiled, Coalesced;
    NeighbourRole(L, S, x);
  }

  lemma LiveIsChunk(L: Layout, S: Status, B: Bins, slots: seq<Slot>, c: int)
    requires CoreOk(L, S, B, slots) && c in S.live
    ensures IsBody(L, c)
  {
    hide CoreOk;
    ChunkFacts(L, S, B, slots, c);
  }
}
