/**
  What each chunk is: live (in use), listed in a bin, the designated victim of its level, or, inside an
  operation only, floating between these. Adjacent free chunks are allowed only around a loose chunk.
 */
module Roles {
  import opened Bits
  import opened SizeClasses
  import opened Tiling

  /** The flag bits of a chunk header. */
  datatype Flags = Flags(big: bool, direct: bool, slot: bool, used: bool, color: nat) {
    function Level(): nat { if big then 1 else 0 }

    function Join(f: Flags): Flags {
      Flags(big || f.big, direct || f.direct, slot || f.slot, used || f.used, Or(color, f.color))
    }

    /** Unsets the colour and in-use bits. */
    function Clean(): Flags { this.(used := false, color := 0) }

    function Mark(c: nat): Flags { this.(used := true, color := Or(color, c)) }
  }

  /** What a block is used for: the flags its chunks share, its slot if it has one, and its least chunk size. */
  datatype Kind = Kind(big: bool, direct: bool, slot: bool, slotId: nat, least: nat)

  /** A live allocation: chunk size, colour and class, as they were when it was handed out. */
  datatype Live = Live(size: int, request: nat, color: nat, bin: nat, kind: Kind)

  const SLOTS: nat := 256
  const LISTS: nat := 384    // 64 bins for each of the two levels, then the slots

  datatype Status = Status(kinds: map<int, Kind>, flags: map<int, Flags>, binId: map<int, nat>, dv: seq<int>,
                           key: map<int, nat>, floating: set<int>, loose: set<int>, live: map<int, Live>)

  function BinKey(level: nat, bin: nat): nat { 64 * level + bin }

  function SlotKey(slot: nat): nat { 128 + slot }

  /** The bin a free chunk of some size belongs to. */
  function BinFor(big: bool, size: int): int
    requires size >= 20
  {
    if big then BigBin(size - PADDING) else SmallBin(size - PADDING)
  }

  ghost predicate IsDv(S: Status, a: int) {
    |S.dv| == 2 && a != 0 && (a == S.dv[0] || a == S.dv[1])
  }

  /**
    A chunk in a bin is in the one its size computes to, and does not span its block; a chunk of a slot
    block is in the slot's list.
   */
  ghost predicate KeyOk(L: Layout, S: Status, a: int)
    requires Placed(L, a) && a in S.key && L.home[a] in S.kinds
  {
    var kind := S.kinds[L.home[a]];
    if kind.slot then kind.slotId < SLOTS && S.key[a] == SlotKey(kind.slotId)
    else
      && !kind.direct && LEAST <= L.thisSize[a] < DEFAULT_BLOCK - OVERHEAD && a in S.binId
      && S.binId[a] < BINS && S.binId[a] == BinFor(kind.big, L.thisSize[a])
      && S.key[a] == BinKey(if kind.big then 1 else 0, S.binId[a])
  }

  ghost predicate LiveOk(L: Layout, S: Status, a: int)
    requires Placed(L, a) && a in S.live && a in S.flags
  {
    && S.flags[a].used && S.live[a].size == L.thisSize[a] && S.live[a].request <= S.live[a].size - PADDING
    && S.live[a].color == S.flags[a].color && a in S.binId && S.live[a].bin == S.binId[a]
    && L.home[a] in S.kinds && S.live[a].kind == S.kinds[L.home[a]]
    && (S.live[a].kind.slot ==> S.live[a].bin == S.live[a].kind.slotId)
  }

  /** The chunk is free, and carries no colour. */
  ghost predicate IsClean(S: Status, a: int) {
    a in S.flags && !S.flags[a].used && S.flags[a].color == 0
  }

  ghost predicate InNone(S: Status, a: int) {
    a !in S.live && a !in S.key && a !in S.floating && !IsDv(S, a)
  }

  /** Exactly one role, and what goes with it. */
  ghost predicate BodyRole(L: Layout, S: Status, a: int)
    requires Placed(L, a) && L.home[a] in S.kinds && a in S.flags
  {
    if a in S.live then a !in S.key && a !in S.floating && !IsDv(S, a) && LiveOk(L, S, a)
    else if a in S.key then a !in S.floating && !IsDv(S, a) && IsClean(S, a) && KeyOk(L, S, a)
    else if a in S.floating then !IsDv(S, a) && IsClean(S, a)
    else IsDv(S, a) && IsClean(S, a) && !S.kinds[L.home[a]].direct && !S.kinds[L.home[a]].slot
         && S.dv[if S.kinds[L.home[a]].big then 1 else 0] == a
  }

  /** No chunk gets smaller than its kind allows; a direct block is never divided. */
  ghost predicate LevelSize(L: Layout, kind: Kind, a: int)
    requires Placed(L, a)
  {
    && kind.least <= L.thisSize[a]
    && (kind.direct && !kind.slot ==> a == L.home[a] + FIRST && L.thisSize[a] == L.blocks[L.home[a]] - OVERHEAD)
  }

  /** The bin id of a chunk is always a bin, even while it is in none; a chunk of a slot may have its slot's number. */
  ghost predicate BinIdOk(S: Status, kind: Kind, a: int) {
    a in S.binId && (kind.slot || S.binId[a] < BINS)
  }

  ghost predicate RoleOk(L: Layout, S: Status, a: int) {
    && Placed(L, a) && L.home[a] in S.kinds && a in S.flags && |S.dv| == 2
    && S.flags[a].big == S.kinds[L.home[a]].big
    && S.flags[a].direct == S.kinds[L.home[a]].direct
    && S.flags[a].slot == S.kinds[L.home[a]].slot
    && if IsHead(L, a) || IsTail(L, a) then S.flags[a].used && InNone(S, a)
       else BodyRole(L, S, a) && LevelSize(L, S.kinds[L.home[a]], a) && BinIdOk(S, S.kinds[L.home[a]], a)
  }

  /** Roles are given to chunks only; a victim has the level it is the victim of. */
  ghost predicate RolesWithin(L: Layout, S: Status) {
    && |S.dv| == 2
    && (forall a: int {:trigger a in S.live} :: a in S.live ==> a in L.chunks)
    && (forall a: int {:trigger a in S.key} :: a in S.key ==> a in L.chunks)
    && S.floating <= L.chunks && S.loose <= L.chunks
    && (S.dv[0] != 0 ==> S.dv[0] in L.chunks) && (S.dv[1] != 0 ==> S.dv[1] in L.chunks)
    && (S.dv[0] != 0 ==> S.dv[0] != S.dv[1])
    && (forall a: int {:trigger a in S.loose} :: a in S.loose ==> a in S.floating || IsDv(S, a))
  }

  ghost predicate RolesOk(L: Layout, S: Status) {
    forall a: int {:trigger a in L.chunks} :: a in L.chunks ==> RoleOk(L, S, a)
  }

  ghost predicate IsFree(S: Status, a: int) {
    a in S.flags && !S.flags[a].used
  }

  /** No two neighbours are both free, except around a loose chunk. */
  ghost predicate CoalescedAt(L: Layout, S: Status, a: int)
    requires Placed(L, a)
  {
    !IsTail(L, a) && IsFree(S, a) && IsFree(S, NextOf(L, a)) ==> a in S.loose || NextOf(L, a) in S.loose
  }

  ghost predicate Coalesced(L: Layout, S: Status) {
    forall a: int {:trigger a in L.chunks} :: a in L.chunks ==> Placed(L, a) && CoalescedAt(L, S, a)
  }

  ghost predicate Sound(L: Layout, S: Status) {
    Tiled(L) && RolesOk(L, S) && RolesWithin(L, S) && Coalesced(L, S)
  }

  // The effects of the allocator's operations on roles.

  function Picked(S: Status, a: int): Status {
    S.(key := S.key - {a}, floating := S.floating + {a})
  }

  function Pushed(S: Status, a: int, k: nat, bin: nat): Status
    requires a in S.flags
  {
    S.(key := S.key[a := k], binId := S.binId[a := bin], floating := S.floating - {a},
       flags := S.flags[a := S.flags[a].(used := false)])
  }

  /** A chunk put in its slot's list; its bin id is left alone. */
  function SlotListed(S: Status, a: int, k: nat): Status {
    S.(key := S.key[a := k], floating := S.floating - {a})
  }

  function VictimSet(S: Status, level: nat, a: int): Status
    requires level < |S.dv|
  {
    S.(dv := S.dv[level := a], floating := S.floating - {a})
  }

  function VictimCleared(S: Status, level: nat): Status
    requires level < |S.dv|
  {
    S.(dv := S.dv[level := 0], floating := S.floating + {S.dv[level]})
  }

  function Used(S: Status, a: int, color: nat, bin: nat, l: Live): Status
    requires a in S.flags
  {
    S.(flags := S.flags[a := S.flags[a].Mark(color)], binId := S.binId[a := bin],
       floating := S.floating - {a}, loose := S.loose - {a}, live := S.live[a := l])
  }

  function Unused(S: Status, a: int): Status
    requires a in S.flags
  {
    S.(flags := S.flags[a := S.flags[a].Clean()], live := S.live - {a},
       floating := S.floating + {a}, loose := S.loose + {a})
  }

  function SplitOff(S: Status, d: int, n: int): Status
    requires d in S.flags
  {
    S.(flags := S.flags[n := S.flags[d]], binId := S.binId[n := 0],
       floating := S.floating + {n}, loose := S.loose + {n})
  }

  function Joined(S: Status, a: int, r: int): Status
    requires a in S.flags && r in S.flags
  {
    S.(flags := S.flags[a := S.flags[a].Join(S.flags[r])],
       floating := S.floating - {r}, loose := S.loose - {r} + {a})
  }

  function Settled(S: Status, a: int): Status {
    S.(loose := S.loose - {a})
  }

  function BlockAdded(S: Status, b: int, size: int, kind: Kind): Status {
    var free := Flags(kind.big, kind.direct, kind.slot, false, 0);
    var used := free.(used := true);
    S.(kinds := S.kinds[b := kind],
       flags := S.flags[b + HEAD := used][b + FIRST := free][b + size - SENTINEL := used],
       binId := S.binId[b + HEAD := 0][b + FIRST := 0][b + size - SENTINEL := 0],
       floating := S.floating + {b + FIRST})
  }

  function BlockDropped(S: Status, b: int): Status {
    S.(floating := S.floating - {b + FIRST}, loose := S.loose - {b + FIRST})
  }

  // Each lemma below takes one effect: the roles of all chunks, then the absence of free neighbours.

  lemma PickSound(L: Layout, S: Status, a: int)
    requires Sound(L, S) && a in S.key
    ensures Sound(L, Picked(S, a))
  {
    hide Tiled, IsHead, IsTail, LevelSize, BinFor;
    var S' := Picked(S, a);
    forall c: int | c in L.chunks ensures RoleOk(L, S', c) {
      assert RoleOk(L, S, c);
    }
    assert Coalesced(L, S');
  }

  lemma PushRoles(L: Layout, S: Status, a: int, k: nat, bin: nat)
    requires RolesOk(L, S) && a in S.floating && a in L.chunks && a in S.flags && RoleOk(L, S, a)
    requires KeyOk(L, Pushed(S, a, k, bin), a)
    ensures RolesOk(L, Pushed(S, a, k, bin)) && Pushed(S, a, k, bin).flags == S.flags
  {
    hide Tiled, IsHead, IsTail, LevelSize, BinFor;
    var S' := Pushed(S, a, k, bin);
    assert S'.flags == S.flags;
    forall c: int | c in L.chunks ensures RoleOk(L, S', c) {
      assert RoleOk(L, S, c);
    }
  }

  lemma PushSound(L: Layout, S: Status, a: int, k: nat, bin: nat)
    requires Sound(L, S) && a in S.floating && a !in S.loose
    requires a in S.flags && a in L.home && L.home[a] in S.kinds && a in L.thisSize
    requires Placed(L, a) ==> KeyOk(L, Pushed(S, a, k, bin), a)
    ensures Sound(L, Pushed(S, a, k, bin))
  {
    hide Tiled, IsHead, IsTail, RoleOk, KeyOk;
    RolePlaced(L, S, a);
    PushRoles(L, S, a, k, bin);
    hide RolesOk;
    assert Coalesced(L, Pushed(S, a, k, bin));
  }

  lemma RolePlaced(L: Layout, S: Status, a: int)
    requires RolesOk(L, S) && a in L.chunks
    ensures RoleOk(L, S, a) && Placed(L, a) && L.home[a] in S.kinds && a in S.flags
  {
    assert RoleOk(L, S, a);
  }

  lemma SlotListedSound(L: Layout, S: Status, a: int, k: nat)
    requires Sound(L, S) && a in S.floating && a !in S.loose
    requires a in L.home && L.home[a] in S.kinds && S.kinds[L.home[a]].slot
    requires S.kinds[L.home[a]].slotId < SLOTS && k == SlotKey(S.kinds[L.home[a]].slotId)
    ensures Sound(L, SlotListed(S, a, k))
  {
    hide Tiled, IsHead, IsTail, LevelSize, BinFor;
    var S' := SlotListed(S, a, k);
    assert RoleOk(L, S, a);
    assert Coalesced(L, S') by { hide RoleOk; }
    hide Coalesced;
    forall c: int | c in L.chunks ensures RoleOk(L, S', c) {
      assert RoleOk(L, S, c);
    }
  }

  lemma VictimSetSound(L: Layout, S: Status, level: nat, a: int)
    requires Sound(L, S) && a in S.floating && level < |S.dv| && S.dv[level] == 0 && a != 0
    requires a in L.home && L.home[a] in S.kinds
    requires S.kinds[L.home[a]].big == (level == 1) && !S.kinds[L.home[a]].direct && !S.kinds[L.home[a]].slot
    ensures Sound(L, VictimSet(S, level, a))
  {
    hide Tiled, IsHead, IsTail, LevelSize, BinFor;
    var S' := VictimSet(S, level, a);
    assert RoleOk(L, S, a);
    forall c: int | c in L.chunks ensures RoleOk(L, S', c) {
      assert RoleOk(L, S, c);
    }
    assert Coalesced(L, S');
  }

  lemma VictimClearedSound(L: Layout, S: Status, level: nat)
    requires Sound(L, S) && level < |S.dv| && S.dv[level] != 0
    ensures Sound(L, VictimCleared(S, level))
    ensures S.dv[level] !in S.key && S.dv[level] !in S.floating && S.dv[level] in L.chunks
  {
    hide Tiled, IsHead, IsTail, LevelSize, BinFor;
    var S' := VictimCleared(S, level);
    assert RoleOk(L, S, S.dv[level]);
    forall c: int | c in L.chunks ensures RoleOk(L, S', c) {
      assert RoleOk(L, S, c);
    }
    assert Coalesced(L, S');
  }

  lemma UsedRoles(L: Layout, S: Status, a: int, color: nat, bin: nat, l: Live)
    requires RolesOk(L, S) && a in S.floating && a in L.chunks
    requires a in S.flags && a in L.home && L.home[a] in S.kinds && a in L.thisSize
    requires l == Live(L.thisSize[a], l.request, color, bin, S.kinds[L.home[a]])
    requires l.request <= l.size - PADDING && if l.kind.slot then bin == l.kind.slotId else bin < BINS
    ensures RolesOk(L, Used(S, a, color, bin, l))
  {
    hide Tiled, IsHead, IsTail, LevelSize, BinFor;
    var S' := Used(S, a, color, bin, l);
    assert RoleOk(L, S, a);
    assert Or(0, color) == color;
    hide Or;
    forall c: int | c in L.chunks ensures RoleOk(L, S', c) {
      assert RoleOk(L, S, c);
    }
  }

  lemma UsedSound(L: Layout, S: Status, a: int, color: nat, bin: nat, l: Live)
    requires Sound(L, S) && a in S.floating
    requires a in S.flags && a in L.home && L.home[a] in S.kinds && a in L.thisSize
    requires l == Live(L.thisSize[a], l.request, color, bin, S.kinds[L.home[a]])
    requires l.request <= l.size - PADDING && if l.kind.slot then bin == l.kind.slotId else bin < BINS
    ensures Sound(L, Used(S, a, color, bin, l))
  {
    hide Tiled, IsHead, IsTail, RoleOk, Or;
    UsedRoles(L, S, a, color, bin, l);
    hide RolesOk;
    assert Coalesced(L, Used(S, a, color, bin, l));
  }

  lemma UnusedRoles(L: Layout, S: Status, a: int)
    requires RolesOk(L, S) && a in S.live && a in L.chunks && a in S.flags
    ensures RolesOk(L, Unused(S, a)) && a !in S.floating && !IsDv(S, a)
  {
    hide Tiled, IsHead, IsTail, LevelSize, BinFor;
    var S' := Unused(S, a);
    assert RoleOk(L, S, a);
    forall c: int | c in L.chunks ensures RoleOk(L, S', c) {
      assert RoleOk(L, S, c);
    }
  }

  lemma UnusedSound(L: Layout, S: Status, a: int)
    requires Sound(L, S) && a in S.live && a in S.flags
    ensures Sound(L, Unused(S, a))
  {
    hide Tiled, IsHead, IsTail, RoleOk;
    UnusedRoles(L, S, a);
    hide RolesOk;
    assert Coalesced(L, Unused(S, a));
  }

  lemma SettledCoalesced(L: Layout, S: Status, a: int)
    requires Tiled(L) && Coalesced(L, S) && a in L.chunks && Placed(L, a) && Placed(L, FrontOf(L, a))
    requires !IsTail(L, a) ==> !IsFree(S, NextOf(L, a))
    requires !IsFree(S, FrontOf(L, a))
    ensures Coalesced(L, Settled(S, a))
  {
    var S' := Settled(S, a);
    hide Tiled;
    forall c: int | c in L.chunks ensures Placed(L, c) && CoalescedAt(L, S', c) {
      assert Placed(L, c) && CoalescedAt(L, S, c);
      if !IsTail(L, c) && NextOf(L, c) == a {
        FrontOfNext(L, c);
      }
    }
  }

  /** A chunk whose neighbours are in use need not be loose. */
  lemma SettledSound(L: Layout, S: Status, a: int)
    requires Sound(L, S) && a in L.chunks && Placed(L, a) && Placed(L, FrontOf(L, a))
    requires !IsTail(L, a) ==> !IsFree(S, NextOf(L, a))
    requires !IsFree(S, FrontOf(L, a))
    ensures Sound(L, Settled(S, a))
  {
    hide Tiled, IsHead, IsTail, LevelSize, BinFor, Coalesced, ChunkOk, IsFree;
    SettledCoalesced(L, S, a);
    var S' := Settled(S, a);
    forall c: int | c in L.chunks ensures RoleOk(L, S', c) {
      assert RoleOk(L, S, c);
    }
  }

  lemma FrontOfNext(L: Layout, c: int)
    requires Tiled(L) && c in L.chunks && Placed(L, c) && !IsTail(L, c)
    ensures NextOf(L, c) in L.chunks && Placed(L, NextOf(L, c)) && FrontOf(L, NextOf(L, c)) == c
    ensures L.home[NextOf(L, c)] == L.home[c] && !IsHead(L, NextOf(L, c))
  {
    ChunkIsOk(L, c);
    ChunkInBlock(L, c);
  }

  // The effects that change the layout as well.

  ghost predicate Divisible(L: Layout, S: Status, d: int, size: int) {
    && IsBody(L, d) && LEAST <= size && size % 16 == 0 && LEAST <= L.thisSize[d] - size
    && L.home[d] in S.kinds && d in S.flags && d !in S.live
    && var kind := S.kinds[L.home[d]];
       && (kind.direct ==> kind.slot) && (d in S.key ==> kind.slot)
       && kind.least <= size && kind.least <= L.thisSize[d] - size
  }

  lemma SplitRoleParts(L: Layout, S: Status, d: int, size: int)
    requires Divisible(L, S, d, size) && RoleOk(L, S, d) && RolesWithin(L, S)
    requires d + L.thisSize[d] - size !in L.chunks && d + L.thisSize[d] - size > 0
    requires var n := d + L.thisSize[d] - size;
             IsBody(Split(L, d, size), d) && IsBody(Split(L, d, size), n)
               && n < NextOf(L, d) < L.home[d] + L.blocks[L.home[d]]
    ensures RoleOk(Split(L, d, size), SplitOff(S, d, d + L.thisSize[d] - size), d)
    ensures RoleOk(Split(L, d, size), SplitOff(S, d, d + L.thisSize[d] - size), d + L.thisSize[d] - size)
  {
    hide Tiled, BinFor;
  }

  lemma SplitRoleOthers(L: Layout, S: Status, d: int, size: int, c: int)
    requires Tiled(L) && Divisible(L, S, d, size) && c in L.chunks && c != d && RoleOk(L, S, c)
    requires d + L.thisSize[d] - size !in L.chunks
    ensures RoleOk(Split(L, d, size), SplitOff(S, d, d + L.thisSize[d] - size), c)
  {
    hide Tiled, BinFor;
  }

  lemma SplitCoalesced(L: Layout, S: Status, d: int, size: int)
    requires Tiled(L) && Coalesced(L, S) && Divisible(L, S, d, size) && d + L.thisSize[d] - size !in L.chunks
    ensures Coalesced(Split(L, d, size), SplitOff(S, d, d + L.thisSize[d] - size))
  {
    hide Tiled;
    var n := d + L.thisSize[d] - size;
    var L', S' := Split(L, d, size), SplitOff(S, d, n);
    forall c: int | c in L'.chunks ensures Placed(L', c) && CoalescedAt(L', S', c) {
      if c in L.chunks {
        assert Placed(L, c) && CoalescedAt(L, S, c);
        if !IsTail(L, c) { FrontOfNext(L, c); }
      }
    }
  }

  lemma SplitBounds(L: Layout, d: int, size: int)
    requires Tiled(L) && IsBody(L, d) && LEAST <= size && LEAST <= L.thisSize[d] - size
    ensures 0 < d < d + L.thisSize[d] - size < NextOf(L, d) < L.home[d] + L.blocks[L.home[d]]
  {
    ChunkIsOk(L, d);
    BlockIsOk(L, L.home[d]);
  }

  lemma SplitSound(L: Layout, S: Status, d: int, size: int)
    requires Sound(L, S) && Divisible(L, S, d, size)
    ensures var n := d + L.thisSize[d] - size;
            n !in L.chunks && Sound(Split(L, d, size), SplitOff(S, d, n))
  {
    hide Tiled, RoleOk, CoalescedAt, RolesWithin;
    SplitTiled(L, d, size);
    SplitBounds(L, d, size);
    var n := d + L.thisSize[d] - size;
    SplitCoalesced(L, S, d, size);
    SplitRolesWithin(L, S, d, size);
    var L', S' := Split(L, d, size), SplitOff(S, d, n);
    assert L'.chunks == L.chunks + {n};
    hide Split, SplitOff, Divisible, IsBody;
    forall c: int | c in L'.chunks ensures RoleOk(L', S', c) {
      if c == d || c == n {
        SplitRoleParts(L, S, d, size);
      } else {
        SplitRoleOthers(L, S, d, size, c);
      }
    }
  }

  lemma SplitRolesWithin(L: Layout, S: Status, d: int, size: int)
    requires RolesWithin(L, S) && d in L.thisSize && d in L.home && d in S.flags
    ensures RolesWithin(Split(L, d, size), SplitOff(S, d, d + L.thisSize[d] - size))
  {
  }

  ghost predicate Mergeable(L: Layout, S: Status, a: int) {
    && IsBody(L, a) && IsBody(L, NextOf(L, a)) && RoleOk(L, S, a) && RoleOk(L, S, NextOf(L, a))
    && L.home[NextOf(L, a)] == L.home[a]
    && a !in S.key && a !in S.live && NextOf(L, a) in S.floating
  }

  lemma MergeRolePart(L: Layout, S: Status, a: int)
    requires Mergeable(L, S, a) && IsBody(Merge(L, a), a)
    requires L.thisSize[a] >= LEAST && L.thisSize[NextOf(L, a)] >= LEAST
    ensures RoleOk(Merge(L, a), Joined(S, a, NextOf(L, a)), a)
  {
    assert Or(0, 0) == 0;
    hide Or;
  }

  lemma MergeRoleOthers(L: Layout, S: Status, a: int, c: int)
    requires Mergeable(L, S, a) && c in L.chunks && c != a && c != NextOf(L, a) && RoleOk(L, S, c)
    ensures RoleOk(Merge(L, a), Joined(S, a, NextOf(L, a)), c)
  {
    hide BinFor;
  }

  lemma MergeRolesWithin(L: Layout, S: Status, a: int)
    requires RolesWithin(L, S) && Mergeable(L, S, a) && a != NextOf(L, a)
    ensures RolesWithin(Merge(L, a), Joined(S, a, NextOf(L, a)))
  {
    hide IsHead, IsTail, LevelSize, BinFor;
  }

  lemma MergeCoalescedAt(L: Layout, S: Status, a: int, c: int)
    requires Mergeable(L, S, a) && c in L.chunks && c != NextOf(L, a)
    requires Placed(L, c) && CoalescedAt(L, S, c)
    requires !IsTail(L, c) ==> Placed(L, NextOf(L, c)) && FrontOf(L, NextOf(L, c)) == c
    requires FrontOf(L, NextOf(L, a)) == a
    requires Placed(L, NextOf(L, NextOf(L, a))) && FrontOf(L, NextOf(L, NextOf(L, a))) == NextOf(L, a)
    requires S.floating <= L.chunks
    ensures Placed(Merge(L, a), c) && CoalescedAt(Merge(L, a), Joined(S, a, NextOf(L, a)), c)
  {
    hide BodyRole, LevelSize;
    var r := NextOf(L, a);
    var L', S' := Merge(L, a), Joined(S, a, r);
    if c != a && !IsTail(L, c) {
      assert NextOf(L', c) == NextOf(L, c) != r;
    }
  }

  lemma MergeCoalesced(L: Layout, S: Status, a: int)
    requires Tiled(L) && Coalesced(L, S) && Mergeable(L, S, a) && S.floating <= L.chunks
    requires a in S.flags && NextOf(L, a) in S.flags
    ensures Coalesced(Merge(L, a), Joined(S, a, NextOf(L, a)))
  {
    hide Tiled, ChunkOk, RoleOk, CoalescedAt, RolesWithin;
    var r := NextOf(L, a);
    BodyNext(L, a);
    BodyNext(L, r);
    var L', S' := Merge(L, a), Joined(S, a, r);
    assert L'.chunks == L.chunks - {r};
    hide Merge, Joined, Mergeable, IsBody;
    forall c: int | c in L'.chunks ensures Placed(L', c) && CoalescedAt(L', S', c) {
      assert Placed(L, c) && CoalescedAt(L, S, c);
      if !IsTail(L, c) { FrontOfNext(L, c); }
      MergeCoalescedAt(L, S, a, c);
    }
  }

  lemma MergeBounds(L: Layout, a: int)
    requires Tiled(L) && IsBody(L, a) && IsBody(L, NextOf(L, a))
    ensures L.home[NextOf(L, a)] == L.home[a] && a < NextOf(L, a)
    ensures L.thisSize[a] >= LEAST && L.thisSize[NextOf(L, a)] >= LEAST
  {
    BodyNext(L, a);
    ChunkIsOk(L, NextOf(L, a));
  }

  /** A free chunk and the floating one behind it become one chunk. */
  lemma MergeSound(L: Layout, S: Status, a: int)
    requires Sound(L, S) && IsBody(L, a) && IsBody(L, NextOf(L, a))
    requires a !in S.key && a !in S.live && NextOf(L, a) in S.floating && a in S.flags && NextOf(L, a) in S.flags
    ensures Sound(Merge(L, a), Joined(S, a, NextOf(L, a)))
  {
    hide Tiled, RoleOk, CoalescedAt;
    MergeTiled(L, a);
    MergeBounds(L, a);
    var r := NextOf(L, a);
    assert Mergeable(L, S, a);
    assert S.floating <= L.chunks;
    hide RolesWithin;
    MergeCoalesced(L, S, a);
    MergeRolesWithin(L, S, a);
    var L', S' := Merge(L, a), Joined(S, a, r);
    assert L'.chunks == L.chunks - {r};
    hide Merge, Joined, Mergeable, IsBody;
    forall c: int | c in L'.chunks ensures RoleOk(L', S', c) {
      if c == a {
        MergeRolePart(L, S, a);
      } else {
        MergeRoleOthers(L, S, a, c);
      }
    }
  }

  ghost predicate Addable(L: Layout, S: Status, b: int, size: int, kind: Kind) {
    && Fresh(L.blocks, b, size)
    && kind.least <= size - OVERHEAD
    && b + HEAD !in L.chunks && b + FIRST !in L.chunks && b + size - SENTINEL !in L.chunks
  }

  lemma AddRoleParts(L: Layout, S: Status, b: int, size: int, kind: Kind)
    requires Addable(L, S, b, size, kind) && RolesWithin(L, S)
    ensures var L', S' := AddBlock(L, b, size), BlockAdded(S, b, size, kind);
            RoleOk(L', S', b + HEAD) && RoleOk(L', S', b + FIRST) && RoleOk(L', S', b + size - SENTINEL)
  {
  }

  lemma AddRoleOthers(L: Layout, S: Status, b: int, size: int, kind: Kind, c: int)
    requires Addable(L, S, b, size, kind) && c in L.chunks && RoleOk(L, S, c) && b !in L.blocks
    ensures RoleOk(AddBlock(L, b, size), BlockAdded(S, b, size, kind), c)
  {
    hide BinFor;
  }

  lemma AddCoalesced(L: Layout, S: Status, b: int, size: int, kind: Kind)
    requires Tiled(L) && Coalesced(L, S) && Addable(L, S, b, size, kind) && b !in L.blocks
    ensures Coalesced(AddBlock(L, b, size), BlockAdded(S, b, size, kind))
  {
    hide Tiled, ChunkOk;
    var L', S' := AddBlock(L, b, size), BlockAdded(S, b, size, kind);
    forall c: int | c in L'.chunks ensures Placed(L', c) && CoalescedAt(L', S', c) {
      if c in L.chunks {
        assert Placed(L, c) && CoalescedAt(L, S, c);
        if !IsTail(L, c) { FrontOfNext(L, c); }
      }
    }
  }

  lemma AddRolesWithin(L: Layout, S: Status, b: int, size: int, kind: Kind)
    requires RolesWithin(L, S)
    ensures RolesWithin(AddBlock(L, b, size), BlockAdded(S, b, size, kind))
  {
  }

  lemma AddBlockSound(L: Layout, S: Status, b: int, size: int, kind: Kind)
    requires Sound(L, S) && Fresh(L.blocks, b, size)
    requires kind.least <= size - OVERHEAD
    ensures Sound(AddBlock(L, b, size), BlockAdded(S, b, size, kind))
    ensures b + FIRST !in L.chunks && b + HEAD !in L.chunks && b + size - SENTINEL !in L.chunks
  {
    hide Tiled, RoleOk, CoalescedAt, RolesWithin;
    AddBlockTiled(L, b, size);
    BlocksPositive(L);
    FreshIsNew(L.blocks, b, size);
    assert Addable(L, S, b, size, kind);
    AddCoalesced(L, S, b, size, kind);
    var L', S' := AddBlock(L, b, size), BlockAdded(S, b, size, kind);
    AddRolesWithin(L, S, b, size, kind);
    assert L'.chunks == L.chunks + {b + HEAD, b + FIRST, b + size - SENTINEL};
    hide AddBlock, BlockAdded, Addable, Fresh;
    AddRoleParts(L, S, b, size, kind);
    forall c: int | c in L'.chunks ensures RoleOk(L', S', c) {
      if c in L.chunks {
        AddRoleOthers(L, S, b, size, kind, c);
      }
    }
  }

  lemma BlocksPositive(L: Layout)
    requires Tiled(L)
    ensures forall c: int {:trigger c in L.blocks} :: c in L.blocks ==> L.blocks[c] > 0
  {
    hide ChunksOk, ChunksApart, Apart;
  }

  lemma FreshIsNew(blocks: map<int, int>, b: int, size: int)
    requires Fresh(blocks, b, size) && forall c: int {:trigger c in blocks} :: c in blocks ==> blocks[c] > 0
    ensures b !in blocks
  {
  }

  /** Block `b` is given up: nothing but its one chunk is left in it, and that is in no list. */
  ghost predicate Droppable(L: Layout, S: Status, b: int) {
    && b in L.blocks && IsBody(L, b + FIRST) && L.home[b + FIRST] == b
    && L.thisSize[b + FIRST] == L.blocks[b] - OVERHEAD && b + FIRST in S.floating
  }

  lemma DropRoleOthers(L: Layout, S: Status, b: int, c: int)
    requires Droppable(L, S, b) && c in L.chunks && RoleOk(L, S, c) && L.home[c] != b && c != b + FIRST
    ensures RoleOk(DropBlock(L, b), BlockDropped(S, b), c)
  {
    hide BinFor;
  }

  lemma DropRolesWithin(L: Layout, S: Status, b: int)
    requires RolesWithin(L, S) && b in L.blocks && b + FIRST in S.floating
    requires b + HEAD in L.chunks && b + L.blocks[b] - SENTINEL in L.chunks
    requires RoleOk(L, S, b + FIRST) && IsBody(L, b + FIRST)
    requires RoleOk(L, S, b + HEAD) && IsHead(L, b + HEAD)
    requires RoleOk(L, S, b + L.blocks[b] - SENTINEL) && IsTail(L, b + L.blocks[b] - SENTINEL)
    requires b + HEAD !in S.loose && b + L.blocks[b] - SENTINEL !in S.loose
    requires b + HEAD !in S.floating && b + L.blocks[b] - SENTINEL !in S.floating
    ensures RolesWithin(DropBlock(L, b), BlockDropped(S, b))
  {
  }

  lemma DropRoles(L: Layout, S: Status, b: int)
    requires Sound(L, S) && Droppable(L, S, b)
    ensures RolesOk(DropBlock(L, b), BlockDropped(S, b))
  {
    hide Tiled, RoleOk, CoalescedAt, RolesWithin;
    var L', S' := DropBlock(L, b), BlockDropped(S, b);
    DropChunkSet(L, b);
    hide DropBlock, BlockDropped;
    forall c: int | c in L'.chunks ensures RoleOk(L', S', c) {
      OnlyChunks(L, b, c);
      assert RoleOk(L, S, c);
      DropRoleOthers(L, S, b, c);
    }
  }

  lemma DropCoalesced(L: Layout, S: Status, b: int)
    requires Sound(L, S) && Droppable(L, S, b)
    ensures Coalesced(DropBlock(L, b), BlockDropped(S, b))
  {
    hide Tiled, RoleOk, RolesWithin;
    var L', S' := DropBlock(L, b), BlockDropped(S, b);
    forall c: int | c in L'.chunks ensures Placed(L', c) && CoalescedAt(L', S', c) {
      OnlyChunks(L, b, c);
      assert Placed(L, c) && CoalescedAt(L, S, c);
      if !IsTail(L, c) { FrontOfNext(L, c); }
    }
  }

  lemma DropBlockSound(L: Layout, S: Status, b: int)
    requires Sound(L, S) && Droppable(L, S, b)
    ensures Sound(DropBlock(L, b), BlockDropped(S, b))
  {
    hide Tiled, CoalescedAt;
    BlockIsOk(L, b);
    assert RoleOk(L, S, b + HEAD) && RoleOk(L, S, b + FIRST) && RoleOk(L, S, b + L.blocks[b] - SENTINEL);
    DropRolesWithin(L, S, b);
    hide RoleOk, RolesWithin;
    DropRoles(L, S, b);
    DropCoalesced(L, S, b);
    DropBlockTiled(L, b);
  }
}
