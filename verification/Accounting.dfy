/** What the allocator's counters must add up to: totals over the live allocations and the used blocks. */
module Accounting {
  import opened Roles
  import opened SizeClasses

  ghost function Sum(m: map<int, int>): int {
    if exists k: int :: k in m then
      var k: int :| k in m;
      m[k] + Sum(m - {k})
    else 0
  }

  lemma {:induction false} SumRemove(m: map<int, int>, k: int)
    requires k in m
    ensures Sum(m) == m[k] + Sum(m - {k})
    decreases |m|
  {
    var c: int :| c in m && Sum(m) == m[c] + Sum(m - {c});
    if c != k {
      SumRemove(m - {c}, k);
      SumRemove(m - {k}, c);
      assert m - {c} - {k} == m - {k} - {c};
    }
  }

  lemma SumAdd(m: map<int, int>, k: int, v: int)
    requires k !in m
    ensures Sum(m[k := v]) == Sum(m) + v
  {
    SumRemove(m[k := v], k);
    assert m[k := v] - {k} == m;
  }

  lemma BlockAddedTotals(blocks: map<int, int>, b: int, size: int)
    requires b !in blocks
    ensures |blocks[b := size]| == |blocks| + 1 && Sum(blocks[b := size]) == Sum(blocks) + size
  {
    SumAdd(blocks, b, size);
    assert blocks[b := size].Keys == blocks.Keys + {b};
  }

  lemma BlockDroppedTotals(blocks: map<int, int>, b: int)
    requires b in blocks
    ensures |blocks - {b}| == |blocks| - 1 && Sum(blocks - {b}) == Sum(blocks) - blocks[b]
  {
    SumRemove(blocks, b);
    assert (blocks - {b}).Keys == blocks.Keys - {b};
  }

  /** What is counted of a live allocation. */
  datatype Measure = Bytes | Class(row: nat, bin: nat) | SlotCount(slot: nat) | SlotBytes(slot: nat)

  /** The row of the colour counters: the colour bits and the level bit of the header flags. */
  function Row(color: nat, big: bool): nat { 2 * color + if big then 1 else 0 }

  function Weight(m: Measure, l: Live): int {
    match m
    case Bytes => l.size
    case SlotCount(s) => if l.kind.slot && l.kind.slotId == s then 1 else 0
    case SlotBytes(s) => if l.kind.slot && l.kind.slotId == s then l.size else 0
    case Class(row, bin) =>
      if l.kind.slot || Row(l.color, l.kind.big) != row then 0
      else (if l.bin == bin then 1 else 0)
           + (if bin == BIG_LOG_BIN && l.kind.direct && l.bin == BIG_MAX_BIN then l.size else 0)
  }

  ghost function Weights(live: map<int, Live>, m: Measure): map<int, int> {
    map a | a in live :: Weight(m, live[a])
  }

  ghost function Total(live: map<int, Live>, m: Measure): int {
    Sum(Weights(live, m))
  }

  lemma TotalAdd(live: map<int, Live>, a: int, l: Live)
    requires a !in live
    ensures forall m: Measure :: Total(live[a := l], m) == Total(live, m) + Weight(m, l)
  {
    forall m: Measure ensures Total(live[a := l], m) == Total(live, m) + Weight(m, l) {
      assert Weights(live[a := l], m) == Weights(live, m)[a := Weight(m, l)];
      SumAdd(Weights(live, m), a, Weight(m, l));
    }
  }

  lemma TotalRemove(live: map<int, Live>, a: int)
    requires a in live
    ensures forall m: Measure :: Total(live - {a}, m) == Total(live, m) - Weight(m, live[a])
  {
    forall m: Measure ensures Total(live - {a}, m) == Total(live, m) - Weight(m, live[a]) {
      assert Weights(live - {a}, m) == Weights(live, m) - {a};
      SumRemove(Weights(live, m), a);
    }
  }

  /** An allocation of alloc_memory of some colour, level and class. */
  ghost predicate Counts(l: Live, color: nat, big: bool, bin: nat) {
    !l.kind.slot && l.color == color && l.kind.big == big && l.bin == bin
  }

  /** The last class also counts the bytes of the direct blocks of class 62. */
  ghost function LastWeight(l: Live, color: nat, big: bool): int {
    (if Counts(l, color, big, 63) then 1 else 0)
    + (if Counts(l, color, big, 62) && l.kind.direct then l.size else 0)
  }

  ghost function Ones(m: map<int, int>): set<int> {
    set k | k in m && m[k] == 1
  }

  lemma {:induction false} SumOfOnes(m: map<int, int>)
    requires forall k: int :: k in m ==> 0 <= m[k] <= 1
    ensures Sum(m) == |Ones(m)|
    decreases |m|
  {
    if k: int :| k in m {
      SumRemove(m, k);
      SumOfOnes(m - {k});
      assert Ones(m - {k}) == Ones(m) - {k};
    } else {
      assert forall k: int :: k !in m;
      assert forall k: int :: k !in Ones(m);
      assert Ones(m) == {};
    }
  }

  /** Below the last bin a class total is a number of live allocations. */
  lemma ClassTotal(live: map<int, Live>, color: nat, big: bool, bin: nat)
    requires bin < BIG_LOG_BIN
    ensures Total(live, Class(2 * color + if big then 1 else 0, bin))
         == |set a | a in live && Counts(live[a], color, big, bin)|
  {
    var m := Weights(live, Class(2 * color + if big then 1 else 0, bin));
    SumOfOnes(m);
    var s := set a | a in live && Counts(live[a], color, big, bin);
    assert forall a: int :: a in Ones(m) <==> a in s;
    assert Ones(m) == s;
  }

  ghost function LastWeights(live: map<int, Live>, color: nat, big: bool): map<int, int> {
    map a | a in live :: LastWeight(live[a], color, big)
  }

  lemma LastTotal(live: map<int, Live>, color: nat, big: bool)
    ensures Total(live, Class(2 * color + if big then 1 else 0, 63)) == Sum(LastWeights(live, color, big))
  {
    var m := Class(2 * color + if big then 1 else 0, 63);
    forall a: int | a in live ensures Weights(live, m)[a] == LastWeights(live, color, big)[a] {
      assert Weight(m, live[a]) == LastWeight(live[a], color, big);
    }
    assert Weights(live, m) == LastWeights(live, color, big);
  }

  /** The chunk sizes of the allocations. */
  ghost function Sizes(live: map<int, Live>): map<int, int> { map a | a in live :: live[a].size }

  lemma BytesTotal(live: map<int, Live>)
    ensures Total(live, Bytes) == Sum(Sizes(live))
  {
    forall a: int | a in live ensures Weights(live, Bytes)[a] == Sizes(live)[a] {
      assert Weight(Bytes, live[a]) == live[a].size;
    }
    assert Weights(live, Bytes) == Sizes(live);
  }

  /** The objects of a slot. */
  ghost function Objects(live: map<int, Live>, slot: nat): map<int, Live> {
    map a | a in live && live[a].kind.slot && live[a].kind.slotId == slot :: live[a]
  }

  lemma {:induction false} SlotBytesTotal(live: map<int, Live>, slot: nat)
    ensures Total(live, SlotBytes(slot)) == Sum(Sizes(Objects(live, slot)))
    decreases |live|
  {
    hide Total, Sum;
    if a: int :| a in live {
      TotalRemove(live, a);
      SlotBytesTotal(live - {a}, slot);
      var m := Sizes(Objects(live, slot));
      if live[a].kind.slot && live[a].kind.slotId == slot {
        assert Sizes(Objects(live - {a}, slot)) == m - {a};
        SumRemove(m, a);
      } else {
        assert Sizes(Objects(live - {a}, slot)) == m;
      }
      assert Total(live, SlotBytes(slot)) == Total(live - {a}, SlotBytes(slot)) + Weight(SlotBytes(slot), live[a]);
    } else {
      EmptyTotals(live, slot);
    }
  }

  lemma EmptyTotals(live: map<int, Live>, slot: nat)
    requires forall a: int :: a !in live
    ensures Total(live, SlotBytes(slot)) == 0 == Sum(Sizes(Objects(live, slot)))
  {
    assert forall a: int :: a !in Weights(live, SlotBytes(slot)) && a !in Sizes(Objects(live, slot));
  }

  lemma SlotTotal(live: map<int, Live>, slot: nat)
    ensures Total(live, SlotCount(slot)) == |set a | a in live && live[a].kind.slot && live[a].kind.slotId == slot|
  {
    var m := Weights(live, SlotCount(slot));
    SumOfOnes(m);
    var s := set a | a in live && live[a].kind.slot && live[a].kind.slotId == slot;
    assert forall a: int :: a in Ones(m) <==> a in s;
    assert Ones(m) == s;
  }
}
