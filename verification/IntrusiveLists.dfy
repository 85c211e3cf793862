/**
  The doubly linked lists of free chunks. Every list has a head and an end sentinel; the links of a
  listed chunk live in the chunk itself. The lists are described by facts about single links only;
  a rank that falls along every list rules out cycles, and the sequence of a list is derived from it.
 */
module IntrusiveLists {

  /** What `prev_node` and `next_node` may point to: a sentinel of a list, or the chunk at an address. */
  datatype Ptr = Null | Head(k: nat) | Tail(k: nat) | At(addr: int)

  type Links = map<Ptr, Ptr>

  // Throughout, `key` says which list a chunk is in; a chunk without a key is in none.

  ghost predicate Node(lists: nat, key: map<int, nat>, n: Ptr) {
    match n
    case Null => false
    case Head(k) => k < lists
    case Tail(k) => k < lists
    case At(a) => a in key && key[a] < lists
  }

  ghost function ListOf(key: map<int, nat>, n: Ptr): nat
    requires !n.Null? && (n.At? ==> n.addr in key)
  {
    match n
    case Head(k) => k
    case Tail(k) => k
    case At(a) => key[a]
  }

  ghost predicate NextOk(lists: nat, next: Links, prev: Links, key: map<int, nat>, n: Ptr)
    requires Node(lists, key, n)
  {
    && n in next && Node(lists, key, next[n]) && !next[n].Head? && ListOf(key, next[n]) == ListOf(key, n)
    && next[n] in prev && prev[next[n]] == n
  }

  ghost predicate PrevOk(lists: nat, next: Links, prev: Links, key: map<int, nat>, n: Ptr)
    requires Node(lists, key, n)
  {
    && n in prev && Node(lists, key, prev[n]) && !prev[n].Tail? && ListOf(key, prev[n]) == ListOf(key, n)
    && prev[n] in next && next[prev[n]] == n
  }

  ghost predicate Linked(lists: nat, next: Links, prev: Links, key: map<int, nat>) {
    && (forall a: int {:trigger a in key} :: a in key ==> key[a] < lists)
    && (forall n: Ptr {:trigger Node(lists, key, n)} :: Node(lists, key, n) && !n.Tail? ==>
        NextOk(lists, next, prev, key, n))
    && (forall n: Ptr {:trigger Node(lists, key, n)} :: Node(lists, key, n) && !n.Head? ==>
        PrevOk(lists, next, prev, key, n))
  }

  ghost predicate Ranked(next: Links, key: map<int, nat>, rank: map<int, nat>, clock: nat) {
    forall a: int {:trigger a in key} :: a in key ==>
      && a in rank && rank[a] < clock
      && (At(a) in next && next[At(a)].At? && next[At(a)].addr in key ==>
            next[At(a)].addr in rank && rank[next[At(a)].addr] < rank[a])
  }

  ghost predicate Lists(lists: nat, next: Links, prev: Links, key: map<int, nat>, rank: map<int, nat>, clock: nat) {
    Linked(lists, next, prev, key) && Ranked(next, key, rank, clock)
  }

  // The three link updates of the source.

  function PushNext(next: Links, k: nat, a: int): Links
    requires Head(k) in next
  {
    next[At(a) := next[Head(k)]][Head(k) := At(a)]
  }

  function PushPrev(next: Links, prev: Links, k: nat, a: int): Links
    requires Head(k) in next
  {
    prev[next[Head(k)] := At(a)][At(a) := Head(k)]
  }

  function UnlinkNext(next: Links, prev: Links, a: int): Links
    requires At(a) in next && At(a) in prev
  {
    next[prev[At(a)] := next[At(a)]]
  }

  function UnlinkPrev(next: Links, prev: Links, a: int): Links
    requires At(a) in next && At(a) in prev
  {
    prev[next[At(a)] := prev[At(a)]]
  }

  lemma PushLinked(lists: nat, next: Links, prev: Links, key: map<int, nat>, k: nat, a: int)
    requires Linked(lists, next, prev, key) && k < lists && a !in key
    ensures Head(k) in next
    ensures Linked(lists, PushNext(next, k, a), PushPrev(next, prev, k, a), key[a := k])
  {
    assert Node(lists, key, Head(k));
    var first := next[Head(k)];
    assert NextOk(lists, next, prev, key, Head(k));
    var next', prev', key' := PushNext(next, k, a), PushPrev(next, prev, k, a), key[a := k];
    forall n: Ptr | Node(lists, key', n) && !n.Tail? ensures NextOk(lists, next', prev', key', n) {
      if n != At(a) {
        assert Node(lists, key, n) && NextOk(lists, next, prev, key, n);
        if n != Head(k) { assert next[n] != first; }
      }
    }
    forall n: Ptr | Node(lists, key', n) && !n.Head? ensures PrevOk(lists, next', prev', key', n) {
      if n != At(a) {
        assert Node(lists, key, n) && PrevOk(lists, next, prev, key, n);
      }
    }
  }

  lemma PushRanked(lists: nat, next: Links, prev: Links, key: map<int, nat>, rank: map<int, nat>, clock: nat,
                   k: nat, a: int)
    requires Lists(lists, next, prev, key, rank, clock) && k < lists && a !in key && Head(k) in next
    ensures Ranked(PushNext(next, k, a), key[a := k], rank[a := clock], clock + 1)
  {
    assert Node(lists, key, Head(k));
    assert NextOk(lists, next, prev, key, Head(k));
    var next', key', rank' := PushNext(next, k, a), key[a := k], rank[a := clock];
    forall b: int | b in key' && b != a
      ensures At(b) in next' && next'[At(b)].At? ==> next'[At(b)].addr in rank' && rank'[next'[At(b)].addr] < rank'[b]
    {
      assert Node(lists, key, At(b));
      assert NextOk(lists, next, prev, key, At(b));
    }
  }

  lemma UnlinkLinked(lists: nat, next: Links, prev: Links, key: map<int, nat>, a: int)
    requires Linked(lists, next, prev, key) && a in key
    ensures At(a) in next && At(a) in prev
    ensures Linked(lists, UnlinkNext(next, prev, a), UnlinkPrev(next, prev, a), key - {a})
  {
    assert Node(lists, key, At(a));
    assert NextOk(lists, next, prev, key, At(a)) && PrevOk(lists, next, prev, key, At(a));
    var p, q := prev[At(a)], next[At(a)];
    var next', prev', key' := UnlinkNext(next, prev, a), UnlinkPrev(next, prev, a), key - {a};
    forall n: Ptr | Node(lists, key', n) && !n.Tail? ensures NextOk(lists, next', prev', key', n) {
      assert Node(lists, key, n) && NextOk(lists, next, prev, key, n);
      if n != p { assert next[n] != At(a); }
    }
    forall n: Ptr | Node(lists, key', n) && !n.Head? ensures PrevOk(lists, next', prev', key', n) {
      assert Node(lists, key, n) && PrevOk(lists, next, prev, key, n);
      if n != q { assert prev[n] != At(a); }
    }
  }

  lemma UnlinkRanked(lists: nat, next: Links, prev: Links, key: map<int, nat>, rank: map<int, nat>, clock: nat, a: int)
    requires Lists(lists, next, prev, key, rank, clock) && a in key && At(a) in next && At(a) in prev
    ensures Ranked(UnlinkNext(next, prev, a), key - {a}, rank, clock)
  {
    assert Node(lists, key, At(a));
    assert NextOk(lists, next, prev, key, At(a)) && PrevOk(lists, next, prev, key, At(a));
  }

  // The sequence of a list, and that it holds exactly the chunks with its key.

  /** The chunks that follow node `n`, as a walk along `next_node` up to the end sentinel visits them. */
  ghost function Chain(lists: nat, next: Links, prev: Links, key: map<int, nat>, rank: map<int, nat>, clock: nat,
                       n: Ptr): seq<int>
    requires Lists(lists, next, prev, key, rank, clock) && Node(lists, key, n) && !n.Tail?
    decreases if n.Head? then clock + 1 else if n.At? && n.addr in rank then rank[n.addr] else 0
  {
    assert NextOk(lists, next, prev, key, n);
    if next[n].Tail? then [] else [next[n].addr] + Chain(lists, next, prev, key, rank, clock, next[n])
  }

  /** A walk visits chunks of its list only, each with a lower rank than the node it started from. */
  lemma {:induction false} ChainSound(lists: nat, next: Links, prev: Links, key: map<int, nat>, rank: map<int, nat>,
                                      clock: nat, n: Ptr)
    requires Lists(lists, next, prev, key, rank, clock) && Node(lists, key, n) && !n.Tail?
    ensures forall a :: a in Chain(lists, next, prev, key, rank, clock, n) ==>
              a in key && key[a] == ListOf(key, n) && a in rank && (n.At? ==> n.addr in rank && rank[a] < rank[n.addr])
    decreases if n.Head? then clock + 1 else if n.At? && n.addr in rank then rank[n.addr] else 0
  {
    assert NextOk(lists, next, prev, key, n);
    if !next[n].Tail? {
      ChainSound(lists, next, prev, key, rank, clock, next[n]);
    }
  }

  /** Ranks fall along a walk, so it visits nothing twice. */
  lemma {:induction false} ChainFalls(lists: nat, next: Links, prev: Links, key: map<int, nat>, rank: map<int, nat>,
                                      clock: nat, n: Ptr, i: nat, j: nat)
    requires Lists(lists, next, prev, key, rank, clock) && Node(lists, key, n) && !n.Tail?
    requires i < j < |Chain(lists, next, prev, key, rank, clock, n)|
    ensures Chain(lists, next, prev, key, rank, clock, n)[i] != Chain(lists, next, prev, key, rank, clock, n)[j]
    decreases if n.Head? then clock + 1 else if n.At? && n.addr in rank then rank[n.addr] else 0
  {
    assert NextOk(lists, next, prev, key, n);
    var rest := Chain(lists, next, prev, key, rank, clock, next[n]);
    if i > 0 {
      ChainFalls(lists, next, prev, key, rank, clock, next[n], i - 1, j - 1);
    } else {
      ChainSound(lists, next, prev, key, rank, clock, next[n]);
      assert rest[j - 1] in rest;
    }
  }

  /** A walk that visits `b` goes on to visit what follows `b`. */
  lemma {:induction false} ChainCloses(lists: nat, next: Links, prev: Links, key: map<int, nat>, rank: map<int, nat>,
                                       clock: nat, n: Ptr, b: int)
    requires Lists(lists, next, prev, key, rank, clock) && Node(lists, key, n) && !n.Tail?
    requires n == At(b) || b in Chain(lists, next, prev, key, rank, clock, n)
    requires At(b) in next && next[At(b)].At?
    ensures next[At(b)].addr in Chain(lists, next, prev, key, rank, clock, n)
    decreases if n.Head? then clock + 1 else if n.At? && n.addr in rank then rank[n.addr] else 0
  {
    assert NextOk(lists, next, prev, key, n);
    if n != At(b) {
      ChainCloses(lists, next, prev, key, rank, clock, next[n], b);
    }
  }

  lemma {:induction false} ChainComplete(lists: nat, next: Links, prev: Links, key: map<int, nat>, rank: map<int, nat>,
                                         clock: nat, a: int)
    requires Lists(lists, next, prev, key, rank, clock) && a in key
    ensures Node(lists, key, Head(key[a])) && a in Chain(lists, next, prev, key, rank, clock, Head(key[a]))
    decreases if a in rank then clock - rank[a] else 0
  {
    assert Node(lists, key, At(a));
    assert PrevOk(lists, next, prev, key, At(a));
    var p := prev[At(a)];
    assert NextOk(lists, next, prev, key, p);
    if p.At? {
      ChainComplete(lists, next, prev, key, rank, clock, p.addr);
      ChainCloses(lists, next, prev, key, rank, clock, Head(key[a]), p.addr);
    }
  }

  /** Walking list `k` from its head visits every chunk with that key, no other, and none twice. */
  lemma ListIsExact(lists: nat, next: Links, prev: Links, key: map<int, nat>, rank: map<int, nat>, clock: nat, k: nat)
    requires Lists(lists, next, prev, key, rank, clock) && k < lists
    ensures Node(lists, key, Head(k))
    ensures forall a: int :: a in Chain(lists, next, prev, key, rank, clock, Head(k)) <==> a in key && key[a] == k
    ensures var c := Chain(lists, next, prev, key, rank, clock, Head(k));
            forall i: nat, j: nat :: i < j < |c| ==> c[i] != c[j]
  {
    ChainSound(lists, next, prev, key, rank, clock, Head(k));
    var c := Chain(lists, next, prev, key, rank, clock, Head(k));
    forall i: nat, j: nat | i < j < |c| ensures c[i] != c[j] {
      ChainFalls(lists, next, prev, key, rank, clock, Head(k), i, j);
    }
    forall a: int | a in key && key[a] == k ensures a in Chain(lists, next, prev, key, rank, clock, Head(k)) {
      ChainComplete(lists, next, prev, key, rank, clock, a);
    }
  }

  /** Empty lists are those whose head is followed by their end. */
  lemma EmptyList(lists: nat, next: Links, prev: Links, key: map<int, nat>, rank: map<int, nat>, clock: nat, k: nat)
    requires Lists(lists, next, prev, key, rank, clock) && k < lists
    ensures Head(k) in next
    ensures next[Head(k)] == Tail(k) <==> forall a: int :: a in key ==> key[a] != k
    ensures next[Head(k)] != Tail(k) ==> next[Head(k)].At? && next[Head(k)].addr in key && key[next[Head(k)].addr] == k
  {
    ListIsExact(lists, next, prev, key, rank, clock, k);
    assert NextOk(lists, next, prev, key, Head(k));
  }
}
