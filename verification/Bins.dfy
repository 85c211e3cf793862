/** The bins of both levels with their bitmaps, and the lists of the slots. */
module Bins {
  import opened Bits
  import opened IntrusiveLists
  import opened Roles
  import opened SizeClasses

  /** The links, the ghost rank behind them, and the two bitmap words. */
  datatype Bins = Bins(next: Links, prev: Links, rank: map<int, nat>, clock: nat, bitmap: seq<nat>)

  ghost predicate BitAgrees(bitmap: seq<nat>, next: Links, level: nat, bin: nat)
    requires level < |bitmap|
  {
    && Head(BinKey(level, bin)) in next
    && (Bit(bitmap[level], bin) <==> next[Head(BinKey(level, bin))] != Tail(BinKey(level, bin)))
  }

  /** A bit is set exactly when its bin is not empty. */
  ghost predicate BitmapOk(bitmap: seq<nat>, next: Links) {
    && |bitmap| == 2
    && (forall level: nat :: level < 2 ==> bitmap[level] < Pow2(64))
    && (forall level: nat, bin: nat {:trigger BitAgrees(bitmap, next, level, bin)} ::
          level < 2 && bin < BINS ==> BitAgrees(bitmap, next, level, bin))
  }

  ghost predicate BinsOk(B: Bins, key: map<int, nat>) {
    Lists(LISTS, B.next, B.prev, key, B.rank, B.clock) && BitmapOk(B.bitmap, B.next)
  }

  // push_chunk, pick_chunk, and the same for the slot lists, which have no bitmap.

  function ListPush(B: Bins, k: nat, a: int): Bins
    requires Head(k) in B.next
  {
    B.(next := PushNext(B.next, k, a), prev := PushPrev(B.next, B.prev, k, a), rank := B.rank[a := B.clock],
       clock := B.clock + 1)
  }

  function ListUnlink(B: Bins, a: int): Bins
    requires At(a) in B.next && At(a) in B.prev
  {
    B.(next := UnlinkNext(B.next, B.prev, a), prev := UnlinkPrev(B.next, B.prev, a))
  }

  function BinPush(B: Bins, level: nat, bin: nat, a: int): Bins
    requires Head(BinKey(level, bin)) in B.next && level < |B.bitmap|
  {
    ListPush(B, BinKey(level, bin), a).(bitmap := B.bitmap[level := SetBit(B.bitmap[level], bin)])
  }

  function BinPick(B: Bins, level: nat, bin: nat, a: int): Bins
    requires At(a) in B.next && At(a) in B.prev && level < |B.bitmap| && bin < BINS
  {
    var C, k := ListUnlink(B, a), BinKey(level, bin);
    if Head(k) in C.next && C.next[Head(k)] == Tail(k)
    then C.(bitmap := B.bitmap[level := UnsetBit(B.bitmap[level], bin, 64)])
    else C
  }

  lemma ListPushLists(B: Bins, key: map<int, nat>, k: nat, a: int)
    requires Lists(LISTS, B.next, B.prev, key, B.rank, B.clock) && k < LISTS && a !in key
    ensures Head(k) in B.next
    ensures var C := ListPush(B, k, a); Lists(LISTS, C.next, C.prev, key[a := k], C.rank, C.clock)
    ensures B.next[Head(k)] != Head(k) && B.next[Head(k)] != At(a)
  {
    HeadNext(B, key, k);
    PushLinked(LISTS, B.next, B.prev, key, k, a);
    PushRanked(LISTS, B.next, B.prev, key, B.rank, B.clock, k, a);
  }

  lemma HeadNext(B: Bins, key: map<int, nat>, k: nat)
    requires Lists(LISTS, B.next, B.prev, key, B.rank, B.clock) && k < LISTS
    ensures Head(k) in B.next && !B.next[Head(k)].Head?
    ensures B.next[Head(k)].At? ==> B.next[Head(k)].addr in key
  {
    assert Node(LISTS, key, Head(k));
    assert NextOk(LISTS, B.next, B.prev, key, Head(k));
  }

  lemma ListUnlinkLists(B: Bins, key: map<int, nat>, a: int)
    requires Lists(LISTS, B.next, B.prev, key, B.rank, B.clock) && a in key
    ensures At(a) in B.next && At(a) in B.prev
    ensures var C := ListUnlink(B, a); Lists(LISTS, C.next, C.prev, key - {a}, C.rank, C.clock)
    ensures B.prev[At(a)] == Head(key[a]) || B.prev[At(a)].At?
  {
    assert Node(LISTS, key, At(a));
    assert PrevOk(LISTS, B.next, B.prev, key, At(a));
    UnlinkLinked(LISTS, B.next, B.prev, key, a);
    UnlinkRanked(LISTS, B.next, B.prev, key, B.rank, B.clock, a);
  }

  lemma BinPushBitmap(B: Bins, key: map<int, nat>, level: nat, bin: nat, a: int)
    requires BinsOk(B, key) && level < 2 && bin < BINS && a !in key && Head(BinKey(level, bin)) in B.next
    ensures BitmapOk(BinPush(B, level, bin, a).bitmap, BinPush(B, level, bin, a).next)
  {
    var C := BinPush(B, level, bin, a);
    BitOfSetBit(B.bitmap[level], bin, 64);
    hide Bit, SetBit, Pow2, Lists;
    forall l: nat, i: nat | l < 2 && i < BINS ensures BitAgrees(C.bitmap, C.next, l, i) {
      assert BitAgrees(B.bitmap, B.next, l, i);
    }
  }

  lemma BinPickBitmap(B: Bins, key: map<int, nat>, level: nat, bin: nat, a: int)
    requires BitmapOk(B.bitmap, B.next) && level < 2 && bin < BINS && At(a) in B.next && At(a) in B.prev
    requires B.prev[At(a)] == Head(BinKey(level, bin)) || B.prev[At(a)].At?
    requires Bit(B.bitmap[level], bin)
    ensures BitmapOk(BinPick(B, level, bin, a).bitmap, BinPick(B, level, bin, a).next)
  {
    var C := BinPick(B, level, bin, a);
    BitOfUnsetBit(B.bitmap[level], bin, 64);
    hide Bit, UnsetBit, Pow2;
    forall l: nat, i: nat | l < 2 && i < BINS ensures BitAgrees(C.bitmap, C.next, l, i) {
      assert BitAgrees(B.bitmap, B.next, l, i);
    }
  }

  /** A listed chunk's bin is not empty. */
  lemma ListedBit(B: Bins, key: map<int, nat>, level: nat, bin: nat, a: int)
    requires BinsOk(B, key) && level < 2 && bin < BINS && a in key && key[a] == BinKey(level, bin)
    ensures Bit(B.bitmap[level], bin)
  {
    EmptyList(LISTS, B.next, B.prev, key, B.rank, B.clock, key[a]);
    hide Lists, Bit, Pow2;
    assert BitAgrees(B.bitmap, B.next, level, bin);
  }

  lemma BinPushOk(B: Bins, key: map<int, nat>, level: nat, bin: nat, a: int)
    requires BinsOk(B, key) && level < 2 && bin < BINS && a !in key
    ensures Head(BinKey(level, bin)) in B.next && level < |B.bitmap|
    ensures BinsOk(BinPush(B, level, bin, a), key[a := BinKey(level, bin)])
    ensures B.next[Head(BinKey(level, bin))] != Head(BinKey(level, bin)) && B.next[Head(BinKey(level, bin))] != At(a)
  {
    hide Lists, BitmapOk;
    ListPushLists(B, key, BinKey(level, bin), a);
    BinPushBitmap(B, key, level, bin, a);
    assert |B.bitmap| == 2 by { BitmapTwo(B.bitmap, B.next); }
  }

  lemma BitmapTwo(bitmap: seq<nat>, next: Links)
    requires BitmapOk(bitmap, next)
    ensures |bitmap| == 2 && bitmap[0] < Pow2(64) && bitmap[1] < Pow2(64)
  {
  }

  lemma BinPickOk(B: Bins, key: map<int, nat>, level: nat, bin: nat, a: int)
    requires BinsOk(B, key) && level < 2 && bin < BINS && a in key && key[a] == BinKey(level, bin)
    ensures At(a) in B.next && At(a) in B.prev && level < |B.bitmap|
    ensures BinsOk(BinPick(B, level, bin, a), key - {a})
  {
    hide Lists, BitmapOk;
    BitmapTwo(B.bitmap, B.next);
    ListUnlinkLists(B, key, a);
    ListedBit(B, key, level, bin, a);
    BinPickBitmap(B, key, level, bin, a);
  }

  lemma SlotPushOk(B: Bins, key: map<int, nat>, slot: nat, a: int)
    requires BinsOk(B, key) && slot < SLOTS && a !in key
    ensures Head(SlotKey(slot)) in B.next
    ensures BinsOk(ListPush(B, SlotKey(slot), a), key[a := SlotKey(slot)])
    ensures B.next[Head(SlotKey(slot))] != Head(SlotKey(slot)) && B.next[Head(SlotKey(slot))] != At(a)
  {
    ListPushLists(B, key, SlotKey(slot), a);
    hide Lists, Bit, Pow2;
    var C := ListPush(B, SlotKey(slot), a);
    forall l: nat, i: nat | l < 2 && i < BINS ensures BitAgrees(C.bitmap, C.next, l, i) {
      assert BitAgrees(B.bitmap, B.next, l, i);
    }
  }

  lemma SlotUnlinkOk(B: Bins, key: map<int, nat>, slot: nat, a: int)
    requires BinsOk(B, key) && slot < SLOTS && a in key && key[a] == SlotKey(slot)
    ensures At(a) in B.next && At(a) in B.prev
    ensures BinsOk(ListUnlink(B, a), key - {a})
  {
    ListUnlinkLists(B, key, a);
    hide Lists, Bit, Pow2;
    var C := ListUnlink(B, a);
    forall l: nat, i: nat | l < 2 && i < BINS ensures BitAgrees(C.bitmap, C.next, l, i) {
      assert BitAgrees(B.bitmap, B.next, l, i);
    }
  }

  // What a search finds.

  /** A set bit leads to a chunk of that bin; a clear one says the bin is empty. */
  lemma FirstOfBin(B: Bins, key: map<int, nat>, level: nat, bin: nat)
    requires BinsOk(B, key) && level < 2 && bin < BINS
    ensures level < |B.bitmap| && Head(BinKey(level, bin)) in B.next
    ensures Bit(B.bitmap[level], bin) ==>
              var f := B.next[Head(BinKey(level, bin))];
              f.At? && f.addr in key && key[f.addr] == BinKey(level, bin)
    ensures !Bit(B.bitmap[level], bin) ==> forall a: int :: a in key ==> key[a] != BinKey(level, bin)
  {
    EmptyList(LISTS, B.next, B.prev, key, B.rank, B.clock, BinKey(level, bin));
    hide Lists, Bit, Pow2;
    assert BitAgrees(B.bitmap, B.next, level, bin);
  }

  /**
    The search of alloc_memory: in the bitmap shifted by the wanted bin, the isolated lowest bit is that of
    the least non-empty bin at or above the wanted one.
   */
  lemma LeastBin(B: Bins, key: map<int, nat>, level: nat, wanted: nat) returns (i: nat)
    requires BinsOk(B, key) && level < 2 && wanted < BINS && level < |B.bitmap|
    requires Shr(B.bitmap[level], wanted) != 0
    ensures Shr(B.bitmap[level], wanted) < Pow2(64)
    ensures i == LeastBitIndex(Shr(B.bitmap[level], wanted), 64) && wanted + i < BINS
    ensures Bit(B.bitmap[level], wanted + i)
    ensures forall bin: nat, a: int :: wanted <= bin < wanted + i && a in key ==> key[a] != BinKey(level, bin)
  {
    var word := Shr(B.bitmap[level], wanted);
    BitmapTwo(B.bitmap, B.next);
    ShrBound(B.bitmap[level], wanted);
    i := LeastBitIndex(word, 64);
    BitOfShr(B.bitmap[level], wanted, i);
    hide Bit, Shr, Pow2, LeastBitIndex;
    if wanted + i >= 64 { BitBeyond(B.bitmap[level], 64, wanted + i); }
    forall bin: nat, a: int | wanted <= bin < wanted + i && a in key ensures key[a] != BinKey(level, bin) {
      BitOfShr(B.bitmap[level], wanted, bin - wanted);
      FirstOfBin(B, key, level, bin);
    }
  }

  lemma {:induction false} ShrBound(n: nat, k: nat)
    ensures Shr(n, k) <= n
  {
    if k > 0 { ShrBound(n / 2, k - 1); }
  }

  /** Link fields of chunks that are in no list may be overwritten. */
  lemma StaleLinks(B: Bins, C: Bins, key: map<int, nat>)
    requires BinsOk(B, key) && C.bitmap == B.bitmap && C.rank == B.rank && C.clock == B.clock
    requires forall n: Ptr {:trigger n in B.next} :: (n.At? ==> n.addr in key) && n in B.next ==>
               n in C.next && C.next[n] == B.next[n]
    requires forall n: Ptr {:trigger n in B.prev} :: (n.At? ==> n.addr in key) && n in B.prev ==>
               n in C.prev && C.prev[n] == B.prev[n]
    ensures BinsOk(C, key)
  {
    assert BitmapOk(C.bitmap, C.next) by {
      hide Lists, Bit, Pow2;
      forall l: nat, i: nat | l < 2 && i < BINS ensures BitAgrees(C.bitmap, C.next, l, i) {
        assert BitAgrees(B.bitmap, B.next, l, i);
      }
    }
    hide BitmapOk;
    forall n: Ptr | Node(LISTS, key, n) && !n.Tail? ensures NextOk(LISTS, C.next, C.prev, key, n) {
      assert NextOk(LISTS, B.next, B.prev, key, n);
    }
    forall n: Ptr | Node(LISTS, key, n) && !n.Head? ensures PrevOk(LISTS, C.next, C.prev, key, n) {
      assert PrevOk(LISTS, B.next, B.prev, key, n);
    }
    forall a: int | a in key && At(a) in C.next && C.next[At(a)].At? && C.next[At(a)].addr in key
      ensures a in B.rank && C.next[At(a)].addr in B.rank && B.rank[C.next[At(a)].addr] < B.rank[a]
    {
      assert Node(LISTS, key, At(a));
      assert NextOk(LISTS, B.next, B.prev, key, At(a));
    }
  }
}
