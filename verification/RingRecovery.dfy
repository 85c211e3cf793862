/** The repair a restarted process makes of the ring of an asynchronous channel it finds in shared memory. */
module RingRecovery {
  import opened RingState
  import opened RingInvariant
  import opened RingProgress
  import opened RingRuns
  import opened RingAlone

  /** Of the window of `s`, exactly the slots of the tickets from `s.write` to `upto` were repaired. */
  ghost predicate RepairedUpTo(s: State, marks: seq<Mark>, buf: seq<string>, upto: nat)
    requires s.Shape()
  {
    && |marks| == s.n && |buf| == s.n
    && forall k: nat :: s.read <= k < s.read + s.n ==>
         if s.write <= k < upto then marks[Slot(k, s.n)] == Ready && buf[Slot(k, s.n)] == Recovered(s.TextOf(k))
         else marks[Slot(k, s.n)] == s.MarkOf(k) && buf[Slot(k, s.n)] == s.TextOf(k)
  }

  lemma RepairNext(s: State, marks: seq<Mark>, buf: seq<string>, k: nat)
    requires Order(s) && s.write <= k < s.hold && RepairedUpTo(s, marks, buf, k)
    ensures RepairedUpTo(s, marks[Slot(k, s.n) := Ready], buf[Slot(k, s.n) := Recovered(buf[Slot(k, s.n)])], k + 1)
  {
    SlotWindow(s.read, s.n);
  }

  /**
    `r` is `s` with every reserved and unpublished slot repaired, the write index moved up to the
    hold index and the claim index back to the read index. The threads are those of the new process.
    Its history starts afresh at the read index; tickets below `redo` may be dispatched a second time.
   */
  ghost predicate RecoveredFrom(s: State, r: State)
    requires s.Shape()
  {
    && r.n == s.n && r.sync == s.sync
    && r.hold == s.hold && r.write == s.hold && r.read == s.read && r.proc == s.read
    && RepairedUpTo(s, r.marks, r.buf, s.hold)
    && (forall t: nat :: t < |r.th| ==> r.th[t].Idle?)
    && r.owner == map[] && r.claimer == map[] && r.log == [] && r.done == map[]
    && r.base == s.read && r.redo == (if s.redo <= s.proc then s.proc else s.redo)
    && (forall k: nat :: s.read <= k < s.hold ==> k in r.sent && r.sent[k] == r.buf[Slot(k, s.n)])
  }

  /** The loop of LoadSharedMemory. It runs once for every ticket that was reserved and not published. */
  method Recover(s: State, threads: nat) returns (r: State, rounds: nat)
    requires Order(s)
    ensures RecoveredFrom(s, r) && |r.th| == threads
    ensures rounds == s.hold - s.write
  {
    var write, marks, buf := s.write, s.marks, s.buf;
    rounds := 0;
    while Slot(write, s.n) != Slot(s.hold, s.n)
      invariant s.write <= write <= s.hold && rounds == write - s.write
      invariant RepairedUpTo(s, marks, buf, write)
      decreases s.hold - write
    {
      RepairNext(s, marks, buf, write);
      var i := Slot(write, s.n);
      marks := marks[i := Ready];
      buf := buf[i := Recovered(buf[i])];
      write := write + 1;
      rounds := rounds + 1;
    }
    if write < s.hold {
      SlotInjective(write, s.hold, s.n);
    }
    var sent := map k: nat | s.read <= k < s.hold :: buf[Slot(k, s.n)];
    r := State(s.n, s.sync, s.hold, write, s.read, s.read, marks, buf, seq(threads, _ => Idle),
               map[], map[], sent, [], map[], s.read, if s.redo <= s.proc then s.proc else s.redo);
  }

  lemma RecoveredSlot(s: State, r: State, k: nat)
    requires Inv(s) && RecoveredFrom(s, r) && s.read <= k < s.read + s.n
    ensures r.Shape() && SlotAt(r, k)
  {
    assert SlotAt(s, k);
  }

  /** The repaired ring satisfies everything a fresh one does, so all results about runs apply to it. */
  lemma RecoveredGood(s: State, r: State)
    requires Good(s) && !s.sync && RecoveredFrom(s, r)
    ensures Good(r)
  {
    forall k: nat | r.read <= k < r.read + r.n ensures SlotAt(r, k) {
      RecoveredSlot(s, r, k);
    }
  }

  lemma OnlyThreadZeroConsumes(s: State)
    requires Inv(s) && !s.sync && |s.th| > 0 && s.th[0].Idle?
    ensures forall u: nat :: u < |s.th| ==> !IsConsumerPc(s.th[u])
  {
    forall u: nat | u < |s.th| ensures !IsConsumerPc(s.th[u]) {
      assert LocalAt(s, u);
    }
  }

  lemma ConsumerRetirable(s: State)
    requires Inv(s) && s.read < s.proc && forall u: nat :: u < |s.th| ==> !IsConsumerPc(s.th[u])
    ensures CanRetire(s)
  {
    assert SlotAt(s, s.read);
  }

  /** The consumer of an asynchronous channel never goes idle with something claimed and not retired. */
  lemma IdleConsumerRetired(s: State)
    requires Good(s) && !s.sync && |s.th| > 0 && s.th[0].Idle?
    ensures s.read == s.proc
  {
    OnlyThreadZeroConsumes(s);
    if s.read < s.proc {
      ConsumerRetirable(s);
    }
  }

  /** From any good state with its consumer idle, the consumer alone empties the channel. */
  lemma ConsumerDrains(s: State) returns (moves: seq<Move>, r: State)
    requires Good(s) && !s.sync && |s.th| > 0 && s.th[0].Idle?
    ensures Reaches(s, 0, moves, r) && Good(r) && r.th[0].Idle?
    ensures r.hold == s.hold && r.read == r.proc == r.write == s.write && r.sent == s.sent && s.Fits(r)
  {
    IdleConsumerRetired(s);
    var a := s.To(0, ProcLoad);
    assert Step(s, 0, Stay) == a;
    ReachesOne(s, 0, Stay);
    var rest;
    rest, r := DrainAlone(a, 0);
    ReachesTrans(s, 0, [Move(0, Stay)], a, rest, r);
    moves := [Move(0, Stay)] + rest;
    hide Good, Step, Order;
    RunGood(s, moves);
  }

  /** `r` is `text`, cut so that the recovery text and a line end fit behind it, with these two. */
  ghost predicate Repaired(r: string, text: string) {
    && |r| == (if |text| < 9980 then |text| else 9980) + 19
    && (forall i :: 0 <= i < |r| - 19 ==> r[i] == text[i])
    && r[|r| - 19..] == "!!!core recover!!!\n"
  }

  lemma RecoveredIs(text: string)
    ensures Repaired(Recovered(text), text)
  {
    var room := 9980;
    assert |RECOVER_TEXT| == 18;
    var kept := if |text| <= room then text else text[..room];
    assert Recovered(text) == kept + (RECOVER_TEXT + "\n");
  }

  lemma RecoveredText(s: State, r: State, k: nat)
    requires Inv(s) && RecoveredFrom(s, r) && s.read <= k < s.hold
    ensures k in r.sent
    ensures k < s.write ==> k in s.sent && r.sent[k] == s.sent[k]
    ensures s.write <= k ==> r.sent[k] == Recovered(s.TextOf(k))
  {
    assert SlotAt(s, k);
  }

  lemma RetiredWasLogged(s: State, k: nat)
    requires Good(s) && s.base <= k < s.read
    ensures k in s.done && s.done[k] < |s.log| && s.log[s.done[k]].ticket == k
  {
    assert k in s.claimer && s.claimer[k] < |s.th|;
    assert LocalAt(s, s.claimer[k]);
  }

  /** A drained channel has dispatched, in order, every ticket since its start. */
  ghost predicate FullyLogged(e: State) {
    && |e.log| == e.hold - e.base
    && forall i: nat :: i < |e.log| ==>
         e.log[i].ticket == e.base + i && e.base + i in e.sent && e.log[i].text == e.sent[e.base + i]
  }

  lemma DrainedLog(e: State)
    requires Good(e) && !e.sync && |e.th| > 0 && e.th[0].Idle? && e.proc == e.hold
    ensures FullyLogged(e)
  {
    AsyncOrder(e);
  }

  /**
    Crash and restart of an asynchronous channel, from any reachable state `s`: the repaired ring `r`,
    drained to `e`, has dispatched in order every ticket from the read index on.
   */
  lemma CrashRecovery(s: State, r: State) returns (moves: seq<Move>, e: State)
    requires Good(s) && !s.sync && RecoveredFrom(s, r) && |r.th| > 0
    ensures Reaches(r, 0, moves, e) && Good(e)
    ensures e.hold == e.write == e.proc == e.read == s.hold && e.base == s.read
    ensures FullyLogged(e) && e.sent == r.sent
  {
    RecoveredGood(s, r);
    assert r.hold == s.hold && r.write == s.hold && r.base == s.read && !r.sync && r.th[0].Idle?;
    hide Good, RecoveredFrom, Reaches;
    moves, e := ConsumerDrains(r);
    DrainedLog(e);
  }

  /**
    So every ticket ever held is delivered at least once, before or after the crash; the published ones
    with the text that was published and the others with the recovery text appended; and only tickets
    from the read index to the old claim index can be delivered twice.
   */
  lemma DeliveredDespiteCrash(s: State, r: State, e: State, k: nat)
    requires Good(s) && !s.sync && RecoveredFrom(s, r) && s.base <= k < s.hold
    requires FullyLogged(e) && e.hold == s.hold && e.base == s.read && e.sent == r.sent
    ensures k < s.read ==> k in s.done && s.done[k] < |s.log| && s.log[s.done[k]].ticket == k
    ensures s.read <= k ==> e.log[k - s.read].ticket == k
    ensures s.read <= k < s.write ==> k in s.sent && e.log[k - s.read].text == s.sent[k]
    ensures s.read <= k && s.write <= k ==> Repaired(e.log[k - s.read].text, s.TextOf(k))
    ensures forall i: nat, j: nat :: i < |s.log| && j < |e.log| && s.log[i].ticket == e.log[j].ticket == k ==>
              s.read <= k < s.proc
  {
    if k < s.read {
      RetiredWasLogged(s, k);
    } else {
      RecoveredText(s, r, k);
      RecoveredIs(s.TextOf(k));
    }
    forall i: nat | i < |s.log| ensures s.log[i].ticket < s.proc {
      AtMostOnce(s, i, i);
    }
    hide Good, RecoveredFrom;
  }
}
