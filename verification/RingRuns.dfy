/** What holds in every state that any interleaving of any number of threads can reach. */
module RingRuns {
  import opened RingState
  import opened RingInvariant
  import opened RingDelivery
  import opened RingProgress

  /** One scheduled step. */
  datatype Move = Move(t: nat, c: Choice)

  ghost predicate Runnable(s: State, moves: seq<Move>) {
    s.Shape() && forall i :: 0 <= i < |moves| ==> moves[i].t < |s.th|
  }

  function After(s: State, moves: seq<Move>): (r: State)
    requires Runnable(s, moves)
    ensures s.Fits(r)
    decreases |moves|
  {
    if moves == [] then s else After(Step(s, moves[0].t, moves[0].c), moves[1..])
  }

  /** No compare-exchange of the run succeeds with checks that stopped holding in the meantime. */
  ghost predicate GuardedRun(s: State, moves: seq<Move>)
    requires Runnable(s, moves)
    decreases |moves|
  {
    moves == [] ||
    (Guarded(s, moves[0].t) && GuardedRun(Step(s, moves[0].t, moves[0].c), moves[1..]))
  }

  /** No thread ever makes a compare-exchange after sleeping for whole laps of the ring. */
  ghost predicate UnlappedRun(s: State, moves: seq<Move>)
    requires Runnable(s, moves)
    decreases |moves|
  {
    moves == [] ||
    (!Lapped(s, moves[0].t) && UnlappedRun(Step(s, moves[0].t, moves[0].c), moves[1..]))
  }

  ghost predicate Good(s: State) {
    Inv(s) && Delivery(s) && Duties(s)
  }

  lemma InitialGood(n: nat, sync: bool, threads: nat)
    requires n > 1
    ensures Good(Initial(n, sync, threads))
  {
    InitialInv(n, sync, threads);
    InitialDelivery(n, sync, threads);
  }

  lemma StepGood(s: State, t: nat, c: Choice)
    requires Good(s) && t < |s.th| && Guarded(s, t)
    ensures Good(Step(s, t, c))
  {
    StepInv(s, t, c);
    StepDelivery(s, t, c);
    StepDuties(s, t, c);
  }

  lemma {:induction false} RunGood(s: State, moves: seq<Move>)
    requires Good(s) && Runnable(s, moves) && GuardedRun(s, moves)
    ensures Good(After(s, moves))
    decreases |moves|
  {
    if moves != [] {
      StepGood(s, moves[0].t, moves[0].c);
      hide Good, Step, Guarded;
      RunGood(Step(s, moves[0].t, moves[0].c), moves[1..]);
    }
  }

  lemma {:induction false} UnlappedRunIsGuarded(s: State, moves: seq<Move>)
    requires Good(s) && Runnable(s, moves) && UnlappedRun(s, moves)
    ensures GuardedRun(s, moves)
    decreases |moves|
  {
    if moves != [] {
      NotLappedIsGuarded(s, moves[0].t);
      StepGood(s, moves[0].t, moves[0].c);
      hide Good, Step, Guarded, Lapped;
      UnlappedRunIsGuarded(Step(s, moves[0].t, moves[0].c), moves[1..]);
    }
  }

  /** From start-up, whatever the schedule and however many threads. */
  lemma ReachableGood(n: nat, sync: bool, threads: nat, moves: seq<Move>)
    requires n > 1 && Runnable(Initial(n, sync, threads), moves) && UnlappedRun(Initial(n, sync, threads), moves)
    ensures Good(After(Initial(n, sync, threads), moves))
  {
    InitialGood(n, sync, threads);
    UnlappedRunIsGuarded(Initial(n, sync, threads), moves);
    RunGood(Initial(n, sync, threads), moves);
  }

  /** No two threads are ever inside the same slot, in particular no producer inside one being dispatched. */
  lemma OneOwnerPerSlot(s: State, t: nat, u: nat)
    requires Good(s) && t < |s.th| && u < |s.th| && t != u && OwnsSlot(s.th[t]) && OwnsSlot(s.th[u])
    ensures Slot(s.th[t].k, s.n) != Slot(s.th[u].k, s.n)
  {
    assert LocalAt(s, t);
    assert LocalAt(s, u);
    SlotWindow(s.read, s.n);
  }

  ghost predicate SameBut(s: State, s': State, i: int)
    requires s.Shape() && s'.Shape() && s'.n == s.n
  {
    forall j :: 0 <= j < s.n && j != i ==> s'.marks[j] == s.marks[j] && s'.buf[j] == s.buf[j]
  }

  lemma OwnerTouchesItsSlot(s: State, t: nat, c: Choice)
    requires s.Shape() && t < |s.th| && OwnsSlot(s.th[t])
    ensures SameBut(s, Step(s, t, c), Slot(s.th[t].k, s.n))
  {
    hide Slot, Look, Seal;
    var k := s.th[t].k;
    if s.th[t].HoldMark? {
      assert Step(s, t, c) == MarkHeld(s, t, k);
    } else if s.th[t].SetReady? {
      assert Step(s, t, c) == MarkReady(s, t, k);
    } else if s.th[t].Dispatch? {
      assert Step(s, t, c) == DispatchText(s, t, k);
    } else if s.th[t].Clear? {
      assert Step(s, t, c) == ClearMark(s, t, k);
    }
  }

  lemma OthersTouchNoSlot(s: State, t: nat, c: Choice)
    requires s.Shape() && t < |s.th| && !OwnsSlot(s.th[t])
    ensures Step(s, t, c).marks == s.marks && Step(s, t, c).buf == s.buf
  {
    hide Look, Slot;
    var pc := s.th[t];
    if !pc.HoldCas? && !pc.PubCas? && !pc.ProcCas? && !pc.RetCas? {
      assert Step(s, t, c) == s.To(t, Look(s, t, c));
    }
  }

  /** While a thread is between claiming and clearing a ticket, no other thread changes its text or mark. */
  lemma DispatchUndisturbed(s: State, t: nat, c: Choice, u: nat)
    requires Good(s) && t < |s.th| && u < |s.th| && t != u && (s.th[u].Dispatch? || s.th[u].Clear?)
    ensures Step(s, t, c).TextOf(s.th[u].k) == s.TextOf(s.th[u].k)
    ensures Step(s, t, c).MarkOf(s.th[u].k) == s.MarkOf(s.th[u].k)
  {
    if OwnsSlot(s.th[t]) {
      OneOwnerPerSlot(s, t, u);
      OwnerTouchesItsSlot(s, t, c);
    } else {
      OthersTouchNoSlot(s, t, c);
    }
    hide Good, Step;
  }

  /** Every ticket is dispatched at most once, and with the text its producer published. */
  lemma AtMostOnce(s: State, i: nat, j: nat)
    requires Good(s) && i < |s.log| && j < |s.log|
    ensures s.log[i].ticket == s.log[j].ticket ==> i == j
    ensures s.log[i].ticket in s.sent && s.log[i].text == s.sent[s.log[i].ticket]
    ensures s.base <= s.log[i].ticket < s.proc
  {
  }

  /** On an asynchronous channel the dispatched sequence is a prefix of the order tickets were held in. */
  lemma AsyncOrder(s: State)
    requires Good(s) && !s.sync
    ensures s.base + |s.log| <= s.proc <= s.hold
    ensures forall i: nat :: i < |s.log| ==> s.log[i].ticket == s.base + i && s.base + i in s.sent
                                             && s.log[i].text == s.sent[s.base + i]
  {
    assert s.proc <= s.hold by { hide Delivery; }
    assert LogOrdered(s) && LogFaithful(s) by { hide Inv, LogOrdered, LogFaithful, ClaimsLogged, LogIndexed; }
    hide Good;
    forall i: nat | i < |s.log|
      ensures s.log[i].ticket == s.base + i && s.base + i in s.sent && s.log[i].text == s.sent[s.base + i]
    {
      assert s.log[i].ticket == s.base + i;
    }
  }

  ghost predicate AllIdle(s: State) {
    forall t: nat :: t < |s.th| ==> s.th[t].Idle?
  }

  lemma IdlePublishable(s: State)
    requires Inv(s) && AllIdle(s) && s.write < s.hold
    ensures CanPublish(s)
  {
    assert SlotAt(s, s.write);
  }

  lemma IdleRetirable(s: State)
    requires Inv(s) && AllIdle(s) && s.read < s.proc
    ensures CanRetire(s)
  {
    assert SlotAt(s, s.read);
  }

  /** When every thread has returned, everything held was published and everything claimed retired. */
  lemma QuiescentIndices(s: State)
    requires Good(s) && AllIdle(s)
    ensures s.hold == s.write && s.proc == s.read
    ensures s.sync ==> s.write == s.proc
  {
    if s.write < s.hold { IdlePublishable(s); }
    if s.read < s.proc { IdleRetirable(s); }
  }

  /** ... so on a synchronous channel every ticket ever held is in the log exactly once. */
  lemma QuiescentSyncDelivered(s: State, k: nat)
    requires Good(s) && AllIdle(s) && s.sync && s.base <= k < s.hold
    ensures k in s.done && s.done[k] < |s.log| && k in s.sent && s.log[s.done[k]] == Entry(k, s.sent[k])
    ensures forall i: nat :: i < |s.log| && s.log[i].ticket == k ==> i == s.done[k]
  {
    QuiescentIndices(s);
  }

  // The results, for every run from start-up in which no thread sleeps for a lap.

  /** Free slots are invalid, published ones ready and unspoilt, claimed ones ready until their claimer clears them. */
  ghost predicate MarkByRegion(s: State, k: nat)
    requires s.Shape()
  {
    if s.hold <= k then s.MarkOf(k) == Invalid
    else if s.write <= k then s.MarkOf(k) == Ready || Held(s, k)
    else if s.proc <= k then s.MarkOf(k) == Ready && Intact(s, k)
    else s.MarkOf(k) == Invalid || (s.MarkOf(k) == Ready && Claimed(s, k))
  }

  lemma RunSafety(n: nat, sync: bool, threads: nat, moves: seq<Move>)
    requires n > 1 && Runnable(Initial(n, sync, threads), moves) && UnlappedRun(Initial(n, sync, threads), moves)
    ensures var s := After(Initial(n, sync, threads), moves);
            && s.read <= s.proc <= s.write <= s.hold < s.read + n
            && (forall k: nat :: s.read <= k < s.read + n ==> MarkByRegion(s, k))
            && (forall t: nat, u: nat :: t < |s.th| && u < |s.th| && t != u && OwnsSlot(s.th[t]) && OwnsSlot(s.th[u])
                  ==> Slot(s.th[t].k, n) != Slot(s.th[u].k, n))
  {
    ReachableGood(n, sync, threads, moves);
    var s := After(Initial(n, sync, threads), moves);
    forall k: nat | s.read <= k < s.read + n ensures MarkByRegion(s, k) {
      assert SlotAt(s, k);
    }
    forall t: nat, u: nat | t < |s.th| && u < |s.th| && t != u && OwnsSlot(s.th[t]) && OwnsSlot(s.th[u])
      ensures Slot(s.th[t].k, n) != Slot(s.th[u].k, n)
    {
      OneOwnerPerSlot(s, t, u);
    }
  }

  lemma RunDelivery(n: nat, sync: bool, threads: nat, moves: seq<Move>)
    requires n > 1 && Runnable(Initial(n, sync, threads), moves) && UnlappedRun(Initial(n, sync, threads), moves)
    ensures var s := After(Initial(n, sync, threads), moves);
            && (forall i: nat, j: nat :: i < j < |s.log| ==> s.log[i].ticket != s.log[j].ticket)
            && (forall i: nat :: i < |s.log| ==> s.log[i].ticket in s.sent && s.log[i].text == s.sent[s.log[i].ticket])
            && (!sync ==> forall i: nat :: i < |s.log| ==> s.log[i].ticket == i)
  {
    ReachableGood(n, sync, threads, moves);
    hide UnlappedRun, Step;
  }

  /** When all threads have returned nothing was lost: a synchronous channel has dispatched every ticket. */
  lemma RunQuiescence(n: nat, sync: bool, threads: nat, moves: seq<Move>)
    requires n > 1 && Runnable(Initial(n, sync, threads), moves) && UnlappedRun(Initial(n, sync, threads), moves)
    requires AllIdle(After(Initial(n, sync, threads), moves))
    ensures var s := After(Initial(n, sync, threads), moves);
            && s.hold == s.write && s.proc == s.read
            && (sync ==> s.write == s.proc && forall k: nat :: k < s.hold ==>
                  k in s.done && s.done[k] < |s.log| && k in s.sent && s.log[s.done[k]] == Entry(k, s.sent[k]))
  {
    ReachableGood(n, sync, threads, moves);
    var s := After(Initial(n, sync, threads), moves);
    QuiescentIndices(s);
    if sync {
      forall k: nat | k < s.hold
        ensures k in s.done && s.done[k] < |s.log| && k in s.sent && s.log[s.done[k]] == Entry(k, s.sent[k])
      {
        QuiescentSyncDelivered(s, k);
      }
    }
  }
}
