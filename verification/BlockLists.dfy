/**
  The lists of used and of reserved blocks: doubly linked through the block headers, ended by NULL on
  both sides. As for the bins, the lists are described by facts about single blocks, with a rank that
  falls along each list, and the sequence of a list is derived.
 */
module BlockLists {

  /** `next` and `front` are the header fields by block address; 0 is NULL. */
  ghost predicate BlockNode(members: set<int>, first: int, next: map<int, int>, front: map<int, int>,
                            rank: map<int, nat>, clock: nat, b: int)
  {
    && b != 0 && b in next && b in front && b in rank && rank[b] < clock
    && (next[b] != 0 ==> next[b] in members && next[b] in front && front[next[b]] == b
                         && next[b] in rank && rank[next[b]] < rank[b])
    && (front[b] == 0 <==> b == first)
    && (front[b] != 0 ==> front[b] in members && front[b] in next && next[front[b]] == b)
  }

  ghost predicate BlockList(members: set<int>, first: int, next: map<int, int>, front: map<int, int>,
                            rank: map<int, nat>, clock: nat)
  {
    && (first != 0 ==> first in members)
    && forall b: int {:trigger b in members} :: b in members ==> BlockNode(members, first, next, front, rank, clock, b)
  }

  function PushFront(front: map<int, int>, first: int, b: int): map<int, int> {
    if first != 0 then front[b := 0][first := b] else front[b := 0]
  }

  lemma PushBlock(members: set<int>, first: int, next: map<int, int>, front: map<int, int>,
                  rank: map<int, nat>, clock: nat, b: int)
    requires BlockList(members, first, next, front, rank, clock) && b !in members && b != 0
    requires first == 0 ==> members == {}
    ensures BlockList(members + {b}, b, next[b := first], PushFront(front, first, b), rank[b := clock], clock + 1)
  {
  }

  function PopFront(front: map<int, int>, second: int): map<int, int> {
    if second != 0 then front[second := 0] else front
  }

  lemma PopBlock(members: set<int>, first: int, next: map<int, int>, front: map<int, int>,
                 rank: map<int, nat>, clock: nat)
    requires BlockList(members, first, next, front, rank, clock) && first != 0 && first in next
    ensures BlockList(members - {first}, next[first], next, PopFront(front, next[first]), rank, clock)
  {
  }

  // free_block unlinks from anywhere.

  function UnlinkFirst(first: int, next: map<int, int>, b: int): int
    requires b in next
  {
    if first == b then next[b] else first
  }

  function UnlinkBlockNext(first: int, next: map<int, int>, front: map<int, int>, b: int): map<int, int>
    requires b in next && b in front
  {
    if first != b && front[b] != 0 then next[front[b] := next[b]] else next
  }

  function UnlinkBlockFront(first: int, next: map<int, int>, front: map<int, int>, b: int): map<int, int>
    requires b in next && b in front
  {
    if next[b] == 0 then front else front[next[b] := if first == b then 0 else front[b]]
  }

  lemma UnlinkBlock(members: set<int>, first: int, next: map<int, int>, front: map<int, int>,
                    rank: map<int, nat>, clock: nat, b: int)
    requires BlockList(members, first, next, front, rank, clock) && b in members
    ensures b in next && b in front
    ensures BlockList(members - {b}, UnlinkFirst(first, next, b), UnlinkBlockNext(first, next, front, b),
                      UnlinkBlockFront(first, next, front, b), rank, clock)
  {
    assert BlockNode(members, first, next, front, rank, clock, b);
    var first', next', front' :=
      UnlinkFirst(first, next, b), UnlinkBlockNext(first, next, front, b), UnlinkBlockFront(first, next, front, b);
    forall c: int | c in members && c != b ensures BlockNode(members - {b}, first', next', front', rank, clock, c) {
      assert BlockNode(members, first, next, front, rank, clock, c);
    }
  }

  /** A list does not depend on the headers of other blocks. */
  lemma OtherList(members: set<int>, first: int, next: map<int, int>, front: map<int, int>, rank: map<int, nat>,
                  clock: nat,
                  next': map<int, int>, front': map<int, int>, rank': map<int, nat>, clock': nat)
    requires BlockList(members, first, next, front, rank, clock) && clock <= clock'
    requires forall b: int {:trigger b in members} :: b in members && b in next && b in front && b in rank ==>
               && b in next' && next'[b] == next[b] && b in front' && front'[b] == front[b]
               && b in rank' && rank'[b] == rank[b]
    ensures BlockList(members, first, next', front', rank', clock')
  {
    forall b: int | b in members ensures BlockNode(members, first, next', front', rank', clock', b) {
      assert BlockNode(members, first, next, front, rank, clock, b);
    }
  }

  // The sequence of a list, and that it holds exactly the members.

  ghost function BlockChain(members: set<int>, first: int, next: map<int, int>, front: map<int, int>,
                            rank: map<int, nat>, clock: nat, b: int): seq<int>
    requires BlockList(members, first, next, front, rank, clock) && (b != 0 ==> b in members)
    decreases if b in rank && b in members then rank[b] + 1 else 0
  {
    if b == 0 then [] else
      (assert BlockNode(members, first, next, front, rank, clock, b);
       [b] + BlockChain(members, first, next, front, rank, clock, next[b]))
  }

  lemma {:induction false} BlockChainSound(members: set<int>, first: int, next: map<int, int>, front: map<int, int>,
                                           rank: map<int, nat>, clock: nat, b: int)
    requires BlockList(members, first, next, front, rank, clock) && (b != 0 ==> b in members)
    ensures forall c :: c in BlockChain(members, first, next, front, rank, clock, b) ==>
              c in members && c in rank && b in rank && rank[c] <= rank[b]
    decreases if b in rank && b in members then rank[b] + 1 else 0
  {
    if b != 0 {
      assert BlockNode(members, first, next, front, rank, clock, b);
      BlockChainSound(members, first, next, front, rank, clock, next[b]);
    }
  }

  lemma {:induction false} BlockChainFalls(members: set<int>, first: int, next: map<int, int>, front: map<int, int>,
                                           rank: map<int, nat>, clock: nat, b: int, i: nat, j: nat)
    requires BlockList(members, first, next, front, rank, clock) && (b != 0 ==> b in members)
    requires i < j < |BlockChain(members, first, next, front, rank, clock, b)|
    ensures var l := BlockChain(members, first, next, front, rank, clock, b); l[i] != l[j]
    decreases if b in rank && b in members then rank[b] + 1 else 0
  {
    assert BlockNode(members, first, next, front, rank, clock, b);
    var rest := BlockChain(members, first, next, front, rank, clock, next[b]);
    if i > 0 {
      BlockChainFalls(members, first, next, front, rank, clock, next[b], i - 1, j - 1);
    } else {
      BlockChainSound(members, first, next, front, rank, clock, next[b]);
      assert rest[j - 1] in rest;
    }
  }

  lemma {:induction false} BlockChainCloses(members: set<int>, first: int, next: map<int, int>, front: map<int, int>,
                                            rank: map<int, nat>, clock: nat, b: int, c: int)
    requires BlockList(members, first, next, front, rank, clock) && (b != 0 ==> b in members)
    requires c in BlockChain(members, first, next, front, rank, clock, b) && c in next && next[c] != 0
    ensures next[c] in BlockChain(members, first, next, front, rank, clock, b)
    decreases if b in rank && b in members then rank[b] + 1 else 0
  {
    assert BlockNode(members, first, next, front, rank, clock, b);
    if c == b {
      assert BlockNode(members, first, next, front, rank, clock, next[b]);
    } else {
      BlockChainCloses(members, first, next, front, rank, clock, next[b], c);
    }
  }

  lemma {:induction false} BlockChainComplete(members: set<int>, first: int, next: map<int, int>, front: map<int, int>,
                                              rank: map<int, nat>, clock: nat, c: int)
    requires BlockList(members, first, next, front, rank, clock) && c in members
    ensures first != 0 && c in BlockChain(members, first, next, front, rank, clock, first)
    decreases if c in rank then clock - rank[c] else 0
  {
    assert BlockNode(members, first, next, front, rank, clock, c);
    if front[c] != 0 {
      assert BlockNode(members, first, next, front, rank, clock, front[c]);
      BlockChainComplete(members, first, next, front, rank, clock, front[c]);
      BlockChainCloses(members, first, next, front, rank, clock, first, front[c]);
    }
  }

  /** Walking the list from its first block meets every member once, and nothing else. */
  lemma BlockListIsExact(members: set<int>, first: int, next: map<int, int>, front: map<int, int>,
                         rank: map<int, nat>, clock: nat)
    requires BlockList(members, first, next, front, rank, clock)
    ensures forall c: int :: c in BlockChain(members, first, next, front, rank, clock, first) <==> c in members
    ensures var s := BlockChain(members, first, next, front, rank, clock, first);
            (forall i: nat, j: nat :: i < j < |s| ==> s[i] != s[j]) && |s| == |members|
    ensures first == 0 <==> members == {}
  {
    BlockChainSound(members, first, next, front, rank, clock, first);
    forall c: int | c in members
      ensures first != 0 && c in BlockChain(members, first, next, front, rank, clock, first)
    {
      BlockChainComplete(members, first, next, front, rank, clock, c);
    }
    var s := BlockChain(members, first, next, front, rank, clock, first);
    forall i: nat, j: nat | i < j < |s| ensures s[i] != s[j] {
      BlockChainFalls(members, first, next, front, rank, clock, first, i, j);
    }
    DistinctSize(s, members);
  }

  lemma {:induction false} DistinctSize(s: seq<int>, members: set<int>)
    requires forall i: nat, j: nat :: i < j < |s| ==> s[i] != s[j]
    requires forall c: int :: c in s <==> c in members
    ensures |s| == |members|
  {
    if |s| > 0 {
      var rest := s[1..];
      assert s[0] in s;
      forall c: int ensures c in rest <==> c in members - {s[0]} {
        if c in rest {
          var j: nat :| j < |rest| && rest[j] == c;
          assert s[j + 1] == c && s[j + 1] in s;
        }
      }
      DistinctSize(rest, members - {s[0]});
    } else {
      assert forall c: int :: c in members ==> c in s;
      assert members == {};
    }
  }
}
