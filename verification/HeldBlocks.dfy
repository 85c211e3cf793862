/** The memory the allocator holds: used blocks and the reserve, as lists and as disjoint regions. */
module HeldBlocks {
  import opened BlockLists
  import opened SizeClasses
  import opened Tiling

  /** The block headers, by block address, and the ghost rank behind the two lists. */
  datatype Headers = Headers(size: map<int, int>, next: map<int, int>, front: map<int, int>, rank: map<int, nat>,
                             clock: nat)

  /** All regions held, used or reserved. */
  ghost function Held(blocks: map<int, int>, reserved: set<int>): map<int, int> {
    map b | b in blocks.Keys + reserved :: if b in blocks then blocks[b] else DEFAULT_BLOCK
  }

  ghost predicate UsedOk(blocks: map<int, int>, H: Headers, usedFirst: int) {
    && BlockList(blocks.Keys, usedFirst, H.next, H.front, H.rank, H.clock)
    && forall b: int {:trigger b in blocks} :: b in blocks ==> b in H.size && H.size[b] == blocks[b]
  }

  ghost predicate ReserveOk(blocks: map<int, int>, reserved: set<int>, H: Headers, reserveFirst: int) {
    && BlockList(reserved, reserveFirst, H.next, H.front, H.rank, H.clock)
    && forall b: int {:trigger b in reserved} :: b in reserved ==>
         b !in blocks && b in H.size && H.size[b] == DEFAULT_BLOCK && b > 0 && b % 16 == 0
  }

  ghost predicate HeldOk(blocks: map<int, int>, reserved: set<int>, H: Headers, usedFirst: int, reserveFirst: int) {
    UsedOk(blocks, H, usedFirst) && ReserveOk(blocks, reserved, H, reserveFirst) && Apart(Held(blocks, reserved))
  }

  function UsedPush(H: Headers, usedFirst: int, b: int, size: int): Headers {
    H.(size := H.size[b := size], next := H.next[b := usedFirst], front := PushFront(H.front, usedFirst, b),
       rank := H.rank[b := H.clock], clock := H.clock + 1)
  }

  lemma FreshIsNeither(blocks: map<int, int>, reserved: set<int>, b: int, size: int)
    requires Fresh(Held(blocks, reserved), b, size) && Positive(blocks)
    ensures b !in blocks && b !in reserved && Fresh(blocks, b, size)
  {
    assert forall c: int :: c in blocks || c in reserved ==> c in Held(blocks, reserved);
  }

  lemma PushUsed(blocks: map<int, int>, reserved: set<int>, H: Headers, usedFirst: int, reserveFirst: int, b: int,
                 size: int)
    requires HeldOk(blocks, reserved, H, usedFirst, reserveFirst) && Fresh(Held(blocks, reserved), b, size)
    requires Positive(blocks)
    ensures b !in blocks && b !in reserved && Fresh(blocks, b, size) && (usedFirst != 0 ==> usedFirst in blocks)
    ensures HeldOk(blocks[b := size], reserved, UsedPush(H, usedFirst, b, size), b, reserveFirst)
  {
    hide UsedOk, ReserveOk, Apart, Fresh;
    FreshIsNeither(blocks, reserved, b, size);
    FreshPositive(Held(blocks, reserved), b, size);
    PushUsedLists(blocks, reserved, H, usedFirst, reserveFirst, b, size);
    HeldPositive(blocks, reserved);
    HeldGrows(Held(blocks, reserved), b, size);
    assert Held(blocks[b := size], reserved) == Held(blocks, reserved)[b := size];
  }

  lemma PushUsedLists(blocks: map<int, int>, reserved: set<int>, H: Headers, usedFirst: int, reserveFirst: int, b: int,
                      size: int)
    requires UsedOk(blocks, H, usedFirst) && ReserveOk(blocks, reserved, H, reserveFirst)
    requires b !in blocks && b !in reserved && b != 0
    ensures UsedOk(blocks[b := size], UsedPush(H, usedFirst, b, size), b)
    ensures ReserveOk(blocks[b := size], reserved, UsedPush(H, usedFirst, b, size), reserveFirst)
    ensures usedFirst != 0 ==> usedFirst in blocks
  {
    var H' := UsedPush(H, usedFirst, b, size);
    BlockListIsExact(blocks.Keys, usedFirst, H.next, H.front, H.rank, H.clock);
    FirstIsMember(blocks.Keys, usedFirst, H.next, H.front, H.rank, H.clock);
    hide BlockList;
    PushBlock(blocks.Keys, usedFirst, H.next, H.front, H.rank, H.clock, b);
    assert blocks[b := size].Keys == blocks.Keys + {b};
    OtherList(reserved, reserveFirst, H.next, H.front, H.rank, H.clock, H'.next, H'.front, H'.rank, H'.clock);
  }

  lemma FirstIsMember(members: set<int>, first: int, next: map<int, int>, front: map<int, int>, rank: map<int, nat>,
                      clock: nat)
    requires BlockList(members, first, next, front, rank, clock)
    ensures first != 0 ==> first in members
  {
    hide BlockNode;
  }

  ghost predicate Positive(blocks: map<int, int>) {
    forall c: int {:trigger c in blocks} :: c in blocks ==> blocks[c] > 0
  }

  lemma FreshPositive(blocks: map<int, int>, b: int, size: int)
    requires Fresh(blocks, b, size)
    ensures b > 0 && b % 16 == 0 && size > 0 && size % 16 == 0
  {
  }

  lemma HeldPositive(blocks: map<int, int>, reserved: set<int>)
    requires Positive(blocks)
    ensures Positive(Held(blocks, reserved))
  {
  }

  lemma HeldGrows(held: map<int, int>, b: int, size: int)
    requires Apart(held) && Fresh(held, b, size) && Positive(held)
    ensures Apart(held[b := size])
  {
  }

  function UsedUnlink(H: Headers, usedFirst: int, b: int): Headers
    requires b in H.next && b in H.front
  {
    H.(next := UnlinkBlockNext(usedFirst, H.next, H.front, b), front := UnlinkBlockFront(usedFirst, H.next, H.front, b))
  }

  /** A block taken off the used list is a region of its own. */
  lemma UnlinkUsed(blocks: map<int, int>, reserved: set<int>, H: Headers, usedFirst: int, reserveFirst: int, b: int)
    requires HeldOk(blocks, reserved, H, usedFirst, reserveFirst) && b in blocks
    requires b > 0 && b % 16 == 0 && blocks[b] % 16 == 0 && OVERHEAD + LEAST <= blocks[b]
    ensures b in H.next && b in H.front && b !in reserved && b in H.size && H.size[b] == blocks[b]
    ensures HeldOk(blocks - {b}, reserved, UsedUnlink(H, usedFirst, b), UnlinkFirst(usedFirst, H.next, b), reserveFirst)
    ensures Fresh(Held(blocks - {b}, reserved), b, blocks[b])
    ensures b != usedFirst && H.front[b] != 0 ==> H.front[b] in H.next
  {
    assert BlockNode(blocks.Keys, usedFirst, H.next, H.front, H.rank, H.clock, b);
    hide BlockList;
    UnlinkBlock(blocks.Keys, usedFirst, H.next, H.front, H.rank, H.clock, b);
    var H' := UsedUnlink(H, usedFirst, b);
    assert (blocks - {b}).Keys == blocks.Keys - {b};
    OtherList(reserved, reserveFirst, H.next, H.front, H.rank, H.clock, H'.next, H'.front, H'.rank, H'.clock);
    assert b !in reserved;
    assert Held(blocks - {b}, reserved) == Held(blocks, reserved) - {b};
    HeldShrinks(Held(blocks, reserved), b);
  }

  lemma HeldShrinks(held: map<int, int>, b: int)
    requires Apart(held) && b in held && b > 0 && b % 16 == 0 && held[b] % 16 == 0 && OVERHEAD + LEAST <= held[b]
    ensures Apart(held - {b}) && Fresh(held - {b}, b, held[b])
  {
  }

  function ReservePush(H: Headers, reserveFirst: int, b: int): Headers {
    H.(next := H.next[b := reserveFirst], front := PushFront(H.front, reserveFirst, b),
       rank := H.rank[b := H.clock], clock := H.clock + 1)
  }

  lemma PushReserve(blocks: map<int, int>, reserved: set<int>, H: Headers, usedFirst: int, reserveFirst: int, b: int)
    requires HeldOk(blocks, reserved, H, usedFirst, reserveFirst) && Fresh(Held(blocks, reserved), b, DEFAULT_BLOCK)
    requires b in H.size && H.size[b] == DEFAULT_BLOCK && Positive(blocks)
    ensures b !in blocks && b !in reserved && |reserved + {b}| == |reserved| + 1
    ensures HeldOk(blocks, reserved + {b}, ReservePush(H, reserveFirst, b), usedFirst, b)
    ensures (reserveFirst != 0 ==> reserveFirst in reserved) && reserveFirst != b
  {
    hide UsedOk, ReserveOk, Apart, Fresh;
    FreshIsNeither(blocks, reserved, b, DEFAULT_BLOCK);
    FreshPositive(Held(blocks, reserved), b, DEFAULT_BLOCK);
    PushReserveLists(blocks, reserved, H, usedFirst, reserveFirst, b);
    HeldPositive(blocks, reserved);
    HeldGrows(Held(blocks, reserved), b, DEFAULT_BLOCK);
    assert Held(blocks, reserved + {b}) == Held(blocks, reserved)[b := DEFAULT_BLOCK];
  }

  lemma PushReserveLists(blocks: map<int, int>, reserved: set<int>, H: Headers, usedFirst: int,
                         reserveFirst: int, b: int)
    requires UsedOk(blocks, H, usedFirst) && ReserveOk(blocks, reserved, H, reserveFirst)
    requires b !in blocks && b !in reserved && b > 0 && b % 16 == 0 && b in H.size && H.size[b] == DEFAULT_BLOCK
    ensures UsedOk(blocks, ReservePush(H, reserveFirst, b), usedFirst)
    ensures ReserveOk(blocks, reserved + {b}, ReservePush(H, reserveFirst, b), b)
    ensures reserveFirst != 0 ==> reserveFirst in reserved
  {
    var H' := ReservePush(H, reserveFirst, b);
    BlockListIsExact(reserved, reserveFirst, H.next, H.front, H.rank, H.clock);
    FirstIsMember(reserved, reserveFirst, H.next, H.front, H.rank, H.clock);
    hide BlockList;
    PushBlock(reserved, reserveFirst, H.next, H.front, H.rank, H.clock, b);
    OtherList(blocks.Keys, usedFirst, H.next, H.front, H.rank, H.clock, H'.next, H'.front, H'.rank, H'.clock);
  }

  function ReservePop(H: Headers, reserveFirst: int): Headers
    requires reserveFirst in H.next
  {
    H.(front := PopFront(H.front, H.next[reserveFirst]))
  }

  /** A block taken off the reserve is a region of its own. */
  lemma PopReserve(blocks: map<int, int>, reserved: set<int>, H: Headers, usedFirst: int, reserveFirst: int)
    requires HeldOk(blocks, reserved, H, usedFirst, reserveFirst) && reserved != {}
    ensures reserveFirst in reserved && reserveFirst in H.next
    ensures H.next[reserveFirst] != 0 ==> H.next[reserveFirst] in reserved
    ensures HeldOk(blocks, reserved - {reserveFirst}, ReservePop(H, reserveFirst), usedFirst, H.next[reserveFirst])
    ensures Fresh(Held(blocks, reserved - {reserveFirst}), reserveFirst, DEFAULT_BLOCK)
  {
    hide UsedOk, ReserveOk, Apart, Fresh;
    PopReserveLists(blocks, reserved, H, usedFirst, reserveFirst);
    var b := reserveFirst;
    assert Held(blocks, reserved - {b}) == Held(blocks, reserved) - {b};
    assert b in Held(blocks, reserved) && Held(blocks, reserved)[b] == DEFAULT_BLOCK;
    HeldShrinks(Held(blocks, reserved), b);
  }

  lemma PopReserveLists(blocks: map<int, int>, reserved: set<int>, H: Headers, usedFirst: int, reserveFirst: int)
    requires UsedOk(blocks, H, usedFirst) && ReserveOk(blocks, reserved, H, reserveFirst) && reserved != {}
    ensures reserveFirst in reserved && reserveFirst in H.next
    ensures reserveFirst !in blocks && reserveFirst > 0 && reserveFirst % 16 == 0
    ensures H.next[reserveFirst] != 0 ==> H.next[reserveFirst] in reserved
    ensures UsedOk(blocks, ReservePop(H, reserveFirst), usedFirst)
    ensures ReserveOk(blocks, reserved - {reserveFirst}, ReservePop(H, reserveFirst), H.next[reserveFirst])
  {
    var b := reserveFirst;
    BlockListIsExact(reserved, reserveFirst, H.next, H.front, H.rank, H.clock);
    FirstIsMember(reserved, reserveFirst, H.next, H.front, H.rank, H.clock);
    assert BlockNode(reserved, reserveFirst, H.next, H.front, H.rank, H.clock, b);
    hide BlockList;
    PopBlock(reserved, reserveFirst, H.next, H.front, H.rank, H.clock);
    var H' := ReservePop(H, reserveFirst);
    assert H.next[b] != 0 ==> H.next[b] !in blocks;
    OtherList(blocks.Keys, usedFirst, H.next, H.front, H.rank, H.clock, H'.next, H'.front, H'.rank, H'.clock);
  }

  lemma ReserveNotEmpty(blocks: map<int, int>, reserved: set<int>, H: Headers, usedFirst: int, reserveFirst: int)
    requires HeldOk(blocks, reserved, H, usedFirst, reserveFirst)
    ensures reserveFirst == 0 <==> reserved == {}
  {
    hide UsedOk, BlockList, Apart;
    BlockListIsExact(reserved, reserveFirst, H.next, H.front, H.rank, H.clock);
  }

  /** The used list does not depend on the reserve. */
  lemma NoReserve(blocks: map<int, int>, reserved: set<int>, H: Headers, usedFirst: int, reserveFirst: int)
    requires HeldOk(blocks, reserved, H, usedFirst, reserveFirst)
    ensures HeldOk(blocks, {}, H, usedFirst, 0)
  {
    hide UsedOk;
    assert forall b: int :: b in Held(blocks, {}) ==>
           b in Held(blocks, reserved) && Held(blocks, {})[b] == Held(blocks, reserved)[b];
  }
}
